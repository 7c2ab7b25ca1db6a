/** Whether the chunks of a scan show in its report: exactly where, and media on which they do and cannot. */
module ChunkBoundaries {
  import opened Machine
  import opened ExtSuperblock
  import opened ExtTable
  import opened Hits
  import opened MediumWorld
  import opened ScanEngine
  import opened ScanLimits
  import opened ScanModel
  import opened ScanPass
  import opened StableSort

  function Ends(size: nat, length: nat, stride: nat, capacity: nat, p: nat): nat
    requires stride >= 1
  {
    Pass(size, length, stride, capacity).EndAt(p)
  }

  /** The chunk that serves `p` hides a refutation the medium holds. */
  ghost predicate HiddenAt(pr: Probes, media: seq<byte>, length: nat, stride: nat, capacity: nat, p: nat)
    requires stride >= 1
  {
    var end := Ends(|media|, length, stride, capacity, p);
    p <= end <= |media| && Hides(pr, media, length, p, end)
  }

  lemma VisitedIsServed(media: seq<byte>, length: nat, stride: nat, capacity: nat, p: nat)
    requires stride >= 1 && |media| <= length <= U64_MAX && capacity > LEAD_IN + PROBE_TAIL
    requires p in Grid(stride, Limit(|media|, length), 0)
    ensures Reaches(media, p, Ends(|media|, length, stride, capacity, p))
  {
    VisitedReach(Pass(|media|, length, stride, capacity), NOTHING, 0, p);
  }

  /** A visited position shows what the whole medium does iff its chunk does not stop short of a refutation. */
  lemma PositionShowsIff(pr: Probes, media: seq<byte>, length: nat, stride: nat, capacity: nat, p: nat)
    requires stride >= 1 && |media| <= length <= U64_MAX && capacity > LEAD_IN + PROBE_TAIL
    requires p in Grid(stride, Limit(|media|, length), 0)
    ensures
      var chunked, whole := ScanWorld(pr, media, length, stride, capacity), WorldOf(pr, media, length);
      && (chunked.found(p) == whole.found(p) <==> !HiddenAt(pr, media, length, stride, capacity, p))
      && (HiddenAt(pr, media, length, stride, capacity, p) ==>
            && whole.found(p).Some? && whole.found(p).value.ExtPrimary? && whole.found(p).value.verdict != Start
            && chunked.found(p) == Some(whole.found(p).value.(verdict := Start)))
  {
    VisitedIsServed(media, length, stride, capacity, p);
    ChunkFindsIff(pr, media, length, p, Ends(|media|, length, stride, capacity, p));
  }

  // ------------------------------------------------------------------
  // The condition for the whole scan
  // ------------------------------------------------------------------

  ghost predicate NothingHidden(pr: Probes, media: seq<byte>, length: nat, stride: nat, capacity: nat)
    requires stride >= 1
  {
    forall p :: p in Grid(stride, Limit(|media|, length), 0) ==> !HiddenAt(pr, media, length, stride, capacity, p)
  }

  /** The chunks show the whole medium at every position the scan visits iff none of them hides a refutation. */
  lemma ChunksShowTheMediumIff(pr: Probes, media: seq<byte>, length: nat, stride: nat, capacity: nat)
    requires stride >= 1 && |media| <= length <= U64_MAX && capacity > LEAD_IN + PROBE_TAIL
    ensures
      var chunked, whole := ScanWorld(pr, media, length, stride, capacity), WorldOf(pr, media, length);
      (forall p :: p in Grid(stride, Limit(|media|, length), 0) ==> chunked.found(p) == whole.found(p))
      <==> NothingHidden(pr, media, length, stride, capacity)
  {
    forall p | p in Grid(stride, Limit(|media|, length), 0)
      ensures ScanWorld(pr, media, length, stride, capacity).found(p) == WorldOf(pr, media, length).found(p)
         <==> !HiddenAt(pr, media, length, stride, capacity, p)
    {
      PositionShowsIff(pr, media, length, stride, capacity, p);
    }
  }

  lemma UnhiddenRunsAlike(pr: Probes, media: seq<byte>, length: nat, stride: nat, capacity: nat)
    requires stride >= 1 && |media| <= length <= U64_MAX && capacity > LEAD_IN + PROBE_TAIL
    requires NothingHidden(pr, media, length, stride, capacity)
    ensures
      var grid := Grid(stride, Limit(|media|, length), 0);
      Run(ScanWorld(pr, media, length, stride, capacity), EMPTY, grid) == Run(WorldOf(pr, media, length), EMPTY, grid)
  {
    ChunksShowTheMediumIff(pr, media, length, stride, capacity);
    RunOfSameWorld(ScanWorld(pr, media, length, stride, capacity), WorldOf(pr, media, length), EMPTY,
                   Grid(stride, Limit(|media|, length), 0));
  }

  /** Where nothing is hidden the report in chunks is the report of one scan over the whole medium. */
  lemma ChunkingIsInvisible(pr: Probes, media: seq<byte>, length: nat, stride: nat, capacity: nat)
    requires stride >= 1 && |media| <= length <= U64_MAX && capacity > LEAD_IN + PROBE_TAIL
    requires NothingHidden(pr, media, length, stride, capacity)
    ensures ChunkedScan(pr, media, length, stride, capacity) == WholeScan(pr, media, length, stride)
  {
    UnhiddenRunsAlike(pr, media, length, stride, capacity);
  }

  // ------------------------------------------------------------------
  // Media on which nothing can be hidden
  // ------------------------------------------------------------------

  lemma OneChunkServesAll(ps: Pass, p: nat)
    requires ps.Valid() && ps.size <= ps.length && ps.size <= ps.capacity
    requires p in Grid(ps.stride, Limit(ps.size, ps.length), 0)
    ensures ps.EndAt(p) == ps.size
  {
    GridFrom(ps.stride, Limit(ps.size, ps.length), 0, p);
    assert ps.Serving(NOTHING, 0) == Hand(ps.size, Limit(ps.size, ps.length));
    ServesTheRest(ps, Hand(ps.size, Limit(ps.size, ps.length)), Limit(ps.size, ps.length), 0, p);
  }

  lemma OneChunkHidesNothing(pr: Probes, media: seq<byte>, length: nat, stride: nat, capacity: nat)
    requires stride >= 1 && |media| <= length <= U64_MAX && capacity > LEAD_IN + PROBE_TAIL
    requires |media| <= capacity
    ensures NothingHidden(pr, media, length, stride, capacity)
  {
    forall p | p in Grid(stride, Limit(|media|, length), 0)
      ensures !HiddenAt(pr, media, length, stride, capacity, p)
    {
      OneChunkServesAll(Pass(|media|, length, stride, capacity), p);
    }
  }

  /** A medium that fits one chunk is scanned as a whole. */
  lemma OneChunkIsInvisible(pr: Probes, media: seq<byte>, length: nat, stride: nat, capacity: nat)
    requires stride >= 1 && |media| <= length <= U64_MAX && capacity > LEAD_IN + PROBE_TAIL
    requires |media| <= capacity
    ensures ChunkedScan(pr, media, length, stride, capacity) == WholeScan(pr, media, length, stride)
  {
    OneChunkHidesNothing(pr, media, length, stride, capacity);
    ChunkingIsInvisible(pr, media, length, stride, capacity);
  }

  lemma OneChunkRunsAlike(pr: Probes, media: seq<byte>, length: nat, stride: nat, capacity: nat)
    requires stride >= 1 && |media| <= length <= U64_MAX && capacity > LEAD_IN + PROBE_TAIL
    requires |media| <= capacity
    ensures
      var grid := Grid(stride, Limit(|media|, length), 0);
      Run(ScanWorld(pr, media, length, stride, capacity), EMPTY, grid) == Run(WorldOf(pr, media, length), EMPTY, grid)
  {
    OneChunkHidesNothing(pr, media, length, stride, capacity);
    UnhiddenRunsAlike(pr, media, length, stride, capacity);
  }

  /** With the capacity the scanner chooses, that is every medium of up to 64 MiB. */
  lemma SmallMediaAreScannedWhole(pr: Probes, media: seq<byte>, length: nat, stride: nat)
    requires stride >= 1 && |media| <= length <= U64_MAX && |media| <= CHUNK_SIZE
    ensures ChunkedScan(pr, media, length, stride, ChunkCapacity(length, stride)) ==
      WholeScan(pr, media, length, stride)
  {
    OneChunkIsInvisible(pr, media, length, stride, ChunkCapacity(length, stride));
  }

  /** No start at `p` is refused by a descriptor past the probe tail. */
  ghost predicate EdgeSafe(pr: Probes, media: seq<byte>, length: nat, p: nat)
    requires p <= |media|
  {
    !Cut(media[p..]) && FarDescriptor(media[p..], PROBE_TAIL) ==> VerdictIn(pr, media, length, p, media[p..]) == Start
  }

  /** Edge safety is exact for chunks of any length: none that reaches the probe tail changes the verdict. */
  lemma EdgeSafeIff(pr: Probes, media: seq<byte>, length: nat, p: nat)
    requires p <= |media| && !Cut(media[p..])
    ensures EdgeSafe(pr, media, length, p)
       <==> forall k :: PROBE_TAIL <= k <= |media| - p ==>
              VerdictIn(pr, media, length, p, media[p..][..k]) == VerdictIn(pr, media, length, p, media[p..])
  {
    forall k | PROBE_TAIL <= k <= |media| - p
      ensures VerdictIn(pr, media, length, p, media[p..][..k]) == VerdictIn(pr, media, length, p, media[p..])
         <==> !(FarDescriptor(media[p..], k) && VerdictIn(pr, media, length, p, media[p..]) != Start)
    {
      ChunkVerdict(pr, media, length, p, k);
    }
    if !EdgeSafe(pr, media, length, p) {
      ChunkVerdict(pr, media, length, p, PROBE_TAIL);
    }
  }

  /** A medium that is edge-safe on the grid is scanned as a whole whatever the capacity. */
  lemma EdgeSafeIsInvisible(pr: Probes, media: seq<byte>, length: nat, stride: nat, capacity: nat)
    requires stride >= 1 && |media| <= length <= U64_MAX && capacity > LEAD_IN + PROBE_TAIL
    requires forall p :: p in Grid(stride, Limit(|media|, length), 0) && p <= |media| ==> EdgeSafe(pr, media, length, p)
    ensures ChunkedScan(pr, media, length, stride, capacity) == WholeScan(pr, media, length, stride)
  {
    forall p | p in Grid(stride, Limit(|media|, length), 0)
      ensures !HiddenAt(pr, media, length, stride, capacity, p)
    {
      VisitedIsServed(media, length, stride, capacity, p);
      EdgeSafeHidesNothing(pr, media, length, p, Ends(|media|, length, stride, capacity, p));
    }
    ChunkingIsInvisible(pr, media, length, stride, capacity);
  }

  lemma EdgeSafeHidesNothing(pr: Probes, media: seq<byte>, length: nat, p: nat, end: nat)
    requires Reaches(media, p, end) && EdgeSafe(pr, media, length, p)
    ensures !Hides(pr, media, length, p, end)
  {
  }

  // ------------------------------------------------------------------
  // Media on which a boundary shows
  // ------------------------------------------------------------------

  ghost predicate ListsExtAt(hits: seq<Hit>, p: nat) {
    exists hit :: hit in hits && hit.offset == p && hit.IsExtFilesystem()
  }

  lemma ReportListsIff(s: Scan, p: nat)
    ensures ListsExtAt(InOffsetOrder(s.hits), p) <==> ReportsExtAt(s, p)
  {
    SortByKeepsElements(s.hits, Offset);
    if ReportsExtAt(s, p) {
      var i :| 0 <= i < |s.hits| && s.hits[i].offset == p && s.hits[i].IsExtFilesystem();
      assert s.hits[i] in InOffsetOrder(s.hits);
    }
    if ListsExtAt(InOffsetOrder(s.hits), p) {
      var hit :| hit in InOffsetOrder(s.hits) && hit.offset == p && hit.IsExtFilesystem();
      var i :| 0 <= i < |s.hits| && s.hits[i] == hit;
    }
  }

  /** A start whose refuting descriptor a chunk hides is in the report in chunks as a filesystem. */
  lemma HiddenStartIsReported(pr: Probes, media: seq<byte>, length: nat, stride: nat, capacity: nat, p: nat)
    requires stride >= 1 && |media| <= length <= U64_MAX && capacity > LEAD_IN + PROBE_TAIL
    requires p in Grid(stride, Limit(|media|, length), 0) && HiddenAt(pr, media, length, stride, capacity, p)
    requires ChunkedScan(pr, media, length, stride, capacity).Ok?
    ensures ListsExtAt(ChunkedScan(pr, media, length, stride, capacity).value, p)
  {
    var grid := Grid(stride, Limit(|media|, length), 0);
    GridIsExact(stride, Limit(|media|, length), 0);
    PositionShowsIff(pr, media, length, stride, capacity, p);
    var k :| 0 <= k < |grid| && grid[k] == p;
    var w := ScanWorld(pr, media, length, stride, capacity);
    EstablishedStartIsReported(w, grid, k);
    ReportListsIff(Run(w, EMPTY, grid), p);
  }

  /** If it is the table that refuses it, the report of the whole medium does not list it: the reports differ. */
  lemma HiddenTableShows(pr: Probes, media: seq<byte>, length: nat, stride: nat, capacity: nat, p: nat)
    requires stride >= 1 && |media| <= length <= U64_MAX && capacity > LEAD_IN + PROBE_TAIL
    requires p in Grid(stride, Limit(|media|, length), 0) && HiddenAt(pr, media, length, stride, capacity, p)
    requires FoundAt(pr, media, length, p).value.verdict == TableUnconfirmed
    requires ChunkedScan(pr, media, length, stride, capacity).Ok?
    ensures WholeScan(pr, media, length, stride).Ok? && !ListsExtAt(WholeScan(pr, media, length, stride).value, p)
    ensures ChunkedScan(pr, media, length, stride, capacity) != WholeScan(pr, media, length, stride)
  {
    var grid, whole := Grid(stride, Limit(|media|, length), 0), WorldOf(pr, media, length);
    HiddenStartIsReported(pr, media, length, stride, capacity, p);
    GridIsExact(stride, Limit(|media|, length), 0);
    MediumIsSane(pr, media, length);
    UnconfirmedTableIsNeverReported(whole, grid, p);
    ReportListsIff(Run(whole, EMPTY, grid), p);
  }

  /**
   So two equal reports hide only starts that nothing but their root inode refuses, and that the report of the whole
   medium lists as filesystems too.
   */
  lemma EqualReportsHideOnlyListedStarts(pr: Probes, media: seq<byte>, length: nat, stride: nat, capacity: nat, p: nat)
    requires stride >= 1 && |media| <= length <= U64_MAX && capacity > LEAD_IN + PROBE_TAIL
    requires p in Grid(stride, Limit(|media|, length), 0) && HiddenAt(pr, media, length, stride, capacity, p)
    requires ChunkedScan(pr, media, length, stride, capacity).Ok?
    requires ChunkedScan(pr, media, length, stride, capacity) == WholeScan(pr, media, length, stride)
    ensures FoundAt(pr, media, length, p).value.verdict == RootInodeRefuted
    ensures ListsExtAt(WholeScan(pr, media, length, stride).value, p)
  {
    HiddenStartIsReported(pr, media, length, stride, capacity, p);
    if FoundAt(pr, media, length, p).value.verdict == TableUnconfirmed {
      HiddenTableShows(pr, media, length, stride, capacity, p);
    }
  }

  const FAR_SIZE: nat := 67_109_920

  /** A group-0 superblock of 1 KiB blocks whose first data block is 65536. */
  function FarByte(i: nat): byte {
    if i == 1024 + 0x38 then 0x53
    else if i == 1024 + 0x39 then 0xEF
    else if i == 1024 + 0x16 || i == 1024 + 0x20 || i == 1024 + 0x28 then 1
    else 0
  }

  ghost function FarMedium(): seq<byte> {
    seq(FAR_SIZE, (i: nat) => FarByte(i))
  }

  lemma FarInfo(media: seq<byte>)
    requires media == FarMedium()
    ensures ProbeExt(media) && !Cut(media)
    ensures Parse(media).value.firstDataBlock == 65536 && Parse(media).value.blockSize == 1024
    ensures Parse(media).value.descSize == 32 && !Parse(media).value.wide
  {
    assert media[1024 + 0x38] == 0x53 && media[1024 + 0x39] == 0xEF;
  }

  lemma FarDescriptorIs(media: seq<byte>)
    requires media == FarMedium()
    ensures !Cut(media) && FarDescriptor(media, CHUNK_SIZE)
    ensures Descriptor(media, Parse(media).value) == Some(seq<byte>(32, (_: nat) => 0))
  {
    FarInfo(media);
    var desc := media[67_109_888..67_109_920];
    assert desc == seq<byte>(32, (_: nat) => 0);
  }

  /** Any probes that do not take this medium for another format, nor believe its descriptor. */
  ghost predicate SeesNothingElse(pr: Probes) {
    && pr.standard(Window(FarMedium())) == Unknown
    && !pr.describes(Prefix(FarMedium()), seq<byte>(32, (_: nat) => 0))
  }

  /** Probes that judge starts by their structure do not believe it: a block of no filesystem holds its bitmap. */
  lemma StructureIsNotBelieved(pr: Probes, media: seq<byte>)
    requires media == FarMedium() && JudgesStarts(pr) && pr.standard(Window(media)) == Unknown
    ensures SeesNothingElse(pr)
  {
    var prefix := Prefix(media);
    assert forall i :: 0 <= i < |prefix| ==> prefix[i] == FarByte(i);
    assert U32(prefix, SUPERBLOCK_OFFSET + 0x04) == 0;
    assert !Cut(prefix);
  }

  lemma FarFound(pr: Probes, media: seq<byte>)
    requires media == FarMedium() && SeesNothingElse(pr)
    ensures FoundAt(pr, media, FAR_SIZE, 0).Some? && FoundAt(pr, media, FAR_SIZE, 0).value.ExtPrimary?
    ensures FoundAt(pr, media, FAR_SIZE, 0).value.verdict == TableUnconfirmed
  {
    assert media[0..] == media;
    FarInfo(media);
    FarDescriptorIs(media);
    WindowParses(media);
  }

  lemma FarIsNotCut(media: seq<byte>, grid: seq<nat>)
    requires |media| == FAR_SIZE && forall p :: p in grid ==> p < FAR_SIZE && exists k: nat :: IsMultiple(p, 4096, k)
    ensures !CutOnGrid(media, grid)
  {
    forall p | p in grid
      ensures !Risky(FAR_SIZE, p)
    {
      var k: nat :| IsMultiple(p, 4096, k);
      FarIsNotRisky(p, k);
    }
    PanicFreeIff(FAR_SIZE, grid);
  }

  lemma FarIsNotRisky(p: nat, k: nat)
    requires p == k * 4096
    ensures !Risky(FAR_SIZE, p)
  {
  }

  lemma FarGrid(media: seq<byte>)
    requires |media| == FAR_SIZE
    ensures 0 in Grid(4096, FAR_SIZE, 0) && !CutOnGrid(media, Grid(4096, FAR_SIZE, 0))
  {
    var grid := Grid(4096, FAR_SIZE, 0);
    assert IsMultiple(0, 4096, 0);
    GridIsExact(4096, FAR_SIZE, 0);
    forall p | p in grid
      ensures p < FAR_SIZE && exists k: nat :: IsMultiple(p, 4096, k)
    {
      GridIsExact(4096, FAR_SIZE, p);
    }
    FarIsNotCut(media, grid);
  }

  lemma FarCapacity()
    ensures ChunkCapacity(FAR_SIZE, 4096) == CHUNK_SIZE
    ensures Ends(FAR_SIZE, FAR_SIZE, 4096, CHUNK_SIZE, 0) == CHUNK_SIZE
  {
  }

  lemma FarIsHidden(pr: Probes, media: seq<byte>)
    requires media == FarMedium() && SeesNothingElse(pr)
    ensures HiddenAt(pr, media, FAR_SIZE, 4096, CHUNK_SIZE, 0)
    ensures FoundAt(pr, media, FAR_SIZE, 0).value.verdict == TableUnconfirmed
  {
    FarCapacity();
    FarFound(pr, media);
    FarDescriptorIs(media);
    assert media[0..] == media;
  }

  /** In chunks of `capacity`, the scan of `media` reports an ext filesystem at `p` that one of the whole does not. */
  ghost predicate BoundaryShows(pr: Probes, media: seq<byte>, stride: nat, capacity: nat, p: nat)
    requires stride >= 1
  {
    var scanned := ChunkedScan(pr, media, |media|, stride, capacity);
    var whole := WholeScan(pr, media, |media|, stride);
    scanned.Ok? && whole.Ok? && ListsExtAt(scanned.value, p) && !ListsExtAt(whole.value, p)
  }

  lemma HiddenTableShowsBoundary(pr: Probes, media: seq<byte>, stride: nat, capacity: nat, p: nat)
    requires stride >= 1 && |media| <= U64_MAX && capacity > LEAD_IN + PROBE_TAIL
    requires p in Grid(stride, |media|, 0) && !CutOnGrid(media, Grid(stride, |media|, 0))
    requires HiddenAt(pr, media, |media|, stride, capacity, p)
    requires FoundAt(pr, media, |media|, p).value.verdict == TableUnconfirmed
    ensures BoundaryShows(pr, media, stride, capacity, p)
  {
    assert Limit(|media|, |media|) == |media|;
    HiddenStartIsReported(pr, media, |media|, stride, capacity, p);
    HiddenTableShows(pr, media, |media|, stride, capacity, p);
  }

  /**
   With the scanner's own chunk size: the descriptor of this superblock lies just past the first chunk, so the scan
   reports a filesystem at 0 that a scan of the whole medium does not.
   */
  lemma ChunkBoundaryCanShow(pr: Probes)
    requires SeesNothingElse(pr)
    ensures BoundaryShows(pr, FarMedium(), 4096, ChunkCapacity(FAR_SIZE, 4096), 0)
  {
    var media := FarMedium();
    FarCapacity();
    FarGrid(media);
    FarIsHidden(pr, media);
    HiddenTableShowsBoundary(pr, media, 4096, CHUNK_SIZE, 0);
  }
}

/**
 A medium on which a lone backup implies the start of an ext filesystem of another UUID: that start was refused, and
 put back once a backup of its own vouched for it.
 */
module Promotion {
  import opened Machine
  import opened ExtSuperblock
  import opened ExtTable
  import opened Hits
  import opened ChunkBoundaries
  import opened MediumWorld
  import opened ScanEngine
  import opened ScanLimits
  import opened ScanModel
  import opened ScanPass
  import opened Specimens

  // The refused start at 0, a backup of another filesystem at 4096 and one of its own at 8192; both name 0.
  const PRIMARY := Copy(12, 1, 0, 0, 2)
  const STRANGER := Copy(0, 0, 2, 1, 1)
  const WITNESS := Copy(0, 0, 3, 1, 2)

  const CLAIMS_SIZE: nat := 12288

  /** The descriptor at 2048 puts the bitmaps in blocks 3 and 4 and the inode table, all zeros, in block 5. */
  function ClaimByte(i: int): byte {
    if 1024 <= i < 2048 then PRIMARY.Byte(i - 1024)
    else if i == 2048 then 3
    else if i == 2052 then 4
    else if i == 2056 then 5
    else if 4096 <= i < 5120 then STRANGER.Byte(i - 4096)
    else if 8192 <= i < 9216 then WITNESS.Byte(i - 8192)
    else 0
  }

  ghost predicate IsClaims(media: seq<byte>) {
    |media| == CLAIMS_SIZE && forall i :: 0 <= i < |media| ==> media[i] == ClaimByte(i)
  }

  const ROOT := InodeLocation(5248, 128)

  /** The probes take the three places for no other format. */
  ghost predicate OnlyExtOnClaims(pr: Probes, media: seq<byte>)
    requires |media| == CLAIMS_SIZE
  {
    && OnlyExtAt(pr, media, 0, CLAIMS_SIZE) && OnlyExtAt(pr, media, 4096, CLAIMS_SIZE)
    && OnlyExtAt(pr, media, 8192, CLAIMS_SIZE)
  }

  /** The probes believe this medium's descriptor and find no directory where it puts the root inode. */
  ghost predicate Doubts(pr: Probes, media: seq<byte>)
    requires |media| == CLAIMS_SIZE
  {
    && OnlyExtOnClaims(pr, media)
    && pr.describes(Prefix(media), media[2048..2080])
    && pr.rootInode(Prefix(media), media[2048..2080]) == Some(ROOT)
    && !pr.directory(media[5248..5376])
  }

  // ------------------------------------------------------------------
  // Probes that judge starts by their structure do doubt it
  // ------------------------------------------------------------------

  lemma ClaimsPrefix(media: seq<byte>)
    requires IsClaims(media)
    ensures Plausible(Prefix(media)) && !Cut(Prefix(media)) && Parse(Prefix(media)) == Some(PRIMARY.Info())
    ensures InodesPerGroup(Prefix(media)) == 1 && InodeSize(Prefix(media)) == 128 && !IsChecksummed(Prefix(media))
  {
    CopyIsPlausible(Prefix(media), PRIMARY);
    CopyParses(Prefix(media), PRIMARY);
  }

  lemma ClaimsDescriptor(media: seq<byte>, desc: seq<byte>)
    requires IsClaims(media) && desc == media[2048..2080]
    ensures |desc| == 32 && U32(desc, 0) == 3 && U32(desc, 4) == 4 && U32(desc, 8) == 5
    ensures forall off: nat :: 12 <= off <= 30 ==> U16(desc, off) == 0
  {
  }

  lemma ClaimsTable(media: seq<byte>)
    requires IsClaims(media)
    ensures Structural(Prefix(media), media[2048..2080]) && !IsChecksummed(Prefix(media))
    ensures RootInode(Prefix(media), media[2048..2080]) == Some(ROOT)
  {
    ClaimsPrefix(media);
    ClaimsDescriptor(media, media[2048..2080]);
  }

  lemma ClaimsHaveNoRoot(media: seq<byte>)
    requires IsClaims(media)
    ensures !IsRootDirectory(media[5248..5376])
  {
    assert U16(media[5248..5376], 0) == 0;
  }

  /** Judged by its structure, the descriptor is believed and what it names is no directory. */
  lemma StructureDoubts(pr: Probes, media: seq<byte>)
    requires IsClaims(media) && JudgesStarts(pr) && OnlyExtOnClaims(pr, media)
    ensures Doubts(pr, media)
  {
    ClaimsTable(media);
    ClaimsHaveNoRoot(media);
  }

  // ------------------------------------------------------------------
  // What the medium shows
  // ------------------------------------------------------------------

  ghost predicate ShowsClaims(w: World) {
    && w.found(0) == Some(ExtPrimary(Tag(2), CLAIMS_SIZE, RootInodeRefuted))
    && w.found(4096) == None && w.found(8192) == None
    && w.info(1024) == Some(PRIMARY.Info()) && w.info(5120) == None && w.info(9216) == None
    && w.info(4096) == Some(STRANGER.Info()) && w.info(8192) == Some(WITNESS.Info())
  }

  lemma ClaimsInfo(media: seq<byte>)
    requires IsClaims(media)
    ensures InfoAt(media, 1024) == Some(PRIMARY.Info())
    ensures InfoAt(media, 4096) == Some(STRANGER.Info())
    ensures InfoAt(media, 8192) == Some(WITNESS.Info())
    ensures InfoAt(media, 5120) == None && InfoAt(media, 9216) == None
  {
    InfoAtCopy(media, 1024, PRIMARY);
    InfoAtCopy(media, 4096, STRANGER);
    InfoAtCopy(media, 8192, WITNESS);
    NoInfoWithoutMagic(media, 5120);
    NoInfoWithoutMagic(media, 9216);
  }

  lemma ClaimsElsewhere(pr: Probes, media: seq<byte>)
    requires IsClaims(media) && OnlyExtOnClaims(pr, media)
    ensures FoundAt(pr, media, CLAIMS_SIZE, 4096) == None && FoundAt(pr, media, CLAIMS_SIZE, 8192) == None
  {
    NothingFound(pr, media, CLAIMS_SIZE, 4096, CLAIMS_SIZE);
    NothingFound(pr, media, CLAIMS_SIZE, 8192, CLAIMS_SIZE);
    WholeIsOneChunk(pr, media, CLAIMS_SIZE, 4096);
    WholeIsOneChunk(pr, media, CLAIMS_SIZE, 8192);
  }

  lemma ClaimsPrimary(media: seq<byte>)
    requires IsClaims(media)
    ensures ProbeExt(media) && !Cut(media) && Parse(media) == Some(PRIMARY.Info())
  {
    CopyParses(media, PRIMARY);
    CopyIsPlausible(media, PRIMARY);
  }

  lemma ClaimsVerdict(pr: Probes, media: seq<byte>)
    requires IsClaims(media) && Doubts(pr, media)
    ensures !Cut(media) && VerdictIn(pr, media, CLAIMS_SIZE, 0, media) == RootInodeRefuted
  {
    ClaimsPrimary(media);
    assert Descriptor(media, PRIMARY.Info()) == Some(media[2048..2080]);
    assert StartEvidence(pr.describes, media) == Confirmed(media[2048..2080]);
    assert !RootInodeReads(pr, media, CLAIMS_SIZE, 0, media);
  }

  lemma ClaimsStart(pr: Probes, media: seq<byte>)
    requires IsClaims(media) && Doubts(pr, media)
    ensures FoundAt(pr, media, CLAIMS_SIZE, 0) == Some(ExtPrimary(Tag(2), CLAIMS_SIZE, RootInodeRefuted))
  {
    assert media[0..] == media && media[0..CLAIMS_SIZE] == media;
    ClaimsPrimary(media);
    ClaimsVerdict(pr, media);
    WindowParses(media);
  }

  lemma ClaimsAreShown(pr: Probes, media: seq<byte>)
    requires IsClaims(media) && Doubts(pr, media)
    ensures ShowsClaims(WorldOf(pr, media, CLAIMS_SIZE))
  {
    ClaimsInfo(media);
    ClaimsStart(pr, media);
    ClaimsElsewhere(pr, media);
  }

  // ------------------------------------------------------------------
  // What a scan makes of it
  // ------------------------------------------------------------------

  const DEMOTED_RUN := Hit(0, PrimaryCopies(1, 0), Some(CLAIMS_SIZE), [])

  ghost function AfterFirst(): Scan {
    ScanRecord([DEMOTED_RUN], [Some(Tag(2))], 0, [], [0])
  }

  ghost function AfterSecond(): Scan {
    ScanRecord([DEMOTED_RUN, LoneHit(4096, STRANGER.Info())], [Some(Tag(2)), Some(Tag(1))], 0, [4096], [0])
  }

  lemma FirstClaim(w: World)
    requires ShowsClaims(w)
    ensures Step(w, EMPTY, 0) == AfterFirst()
  {
  }

  lemma SecondClaim(w: World)
    requires ShowsClaims(w)
    ensures Step(w, AfterFirst(), 4096) == AfterSecond()
  {
    assert STRANGER.Info().CopyOffset() == 4096;
    assert Tag(2)[0] != Tag(1)[0];
  }

  /** A lone backup implies the start of a run of copies, or of a filesystem, of another UUID. */
  ghost predicate ImpliesAnothersStart(s: Scan) {
    && |s.hits| == 2 && s.uuids[0] != s.uuids[1] && s.hits[0].offset == 0
    && s.hits[1].kind.LoneBackup? && s.hits[1].SignedStart() == 0
  }

  /** Before anything vouches for the refused start, the backup implies a run of copies. */
  lemma RunIsImplied()
    ensures ImpliesAnothersStart(AfterSecond()) && AfterSecond().hits[0].kind.PrimaryCopies?
  {
    assert STRANGER.Info().CopyOffset() == 4096;
    assert Tag(2)[0] != Tag(1)[0];
  }

  ghost function Noted(): Scan {
    AfterSecond().(seen := [4096, 8192])
  }

  lemma WitnessVouches()
    ensures Corroborated(Noted(), 8192, WITNESS.Info()) == Some(0)
  {
    assert WITNESS.Info().CopyOffset() == 8192;
    assert Tag(2)[0] != Tag(1)[0];
    assert Matches(CopiesAt(0, Tag(2)), Noted().hits[0], Noted().uuids[0]);
  }

  lemma VouchedIsFolded(s: Scan, noted: Scan, sb: nat, info: Info, index: nat)
    requires !info.IsPrimary() && sb !in s.seen && noted == s.(seen := s.seen + [sb])
    requires Corroborated(noted, sb, info) == Some(index)
    ensures RecordBackup(s, sb, Some(info)) == Promote(Fold(noted, index, Backup(sb, info.group)), index)
  {
  }

  lemma WitnessIsFolded(s: Scan, info: Info)
    requires s == AfterSecond() && info == WITNESS.Info()
    ensures RecordBackup(s, 8192, Some(info)) == Promote(Fold(Noted(), 0, Backup(8192, info.group)), 0)
  {
    WitnessVouches();
    VouchedIsFolded(s, Noted(), 8192, info, 0);
  }

  lemma StartIsPutBack(copy: Backup)
    ensures
      var s := Promote(Fold(Noted(), 0, copy), 0);
      ImpliesAnothersStart(s) && s.hits[0].IsExtFilesystem()
  {
    RunIsImplied();
  }

  lemma ThirdClaim(w: World)
    requires ShowsClaims(w)
    ensures Step(w, AfterSecond(), 8192) == RecordBackup(AfterSecond(), 8192, Some(WITNESS.Info()))
  {
  }

  lemma ClaimsRun(w: World)
    requires ShowsClaims(w)
    ensures
      var s := Run(w, EMPTY, [0, 4096, 8192]);
      ImpliesAnothersStart(s) && s.hits[0].IsExtFilesystem()
    ensures Run(w, EMPTY, [0, 4096]) == AfterSecond()
  {
    FirstClaim(w);
    SecondClaim(w);
    ThirdClaim(w);
    WitnessIsFolded(AfterSecond(), WITNESS.Info());
    StartIsPutBack(Backup(8192, WITNESS.Info().group));
    RunThree(w, 0, 4096, 8192);
    RunTwo(w, 0, 4096);
  }

  lemma ClaimsGrid()
    ensures Grid(4096, CLAIMS_SIZE, 0) == [0, 4096, 8192]
  {
    assert Grid(4096, CLAIMS_SIZE, 8192) == [8192];
    assert Grid(4096, CLAIMS_SIZE, 4096) == [4096, 8192];
  }

  lemma ClaimsAreNotCut(media: seq<byte>)
    requires |media| == CLAIMS_SIZE
    ensures !CutOnGrid(media, [0, 4096, 8192])
  {
    PanicFreeIff(CLAIMS_SIZE, [0, 4096, 8192]);
  }

  lemma ClaimsScanned(pr: Probes, media: seq<byte>, capacity: nat)
    requires |media| == CLAIMS_SIZE && capacity > LEAD_IN + PROBE_TAIL
    ensures Run(ScanWorld(pr, media, CLAIMS_SIZE, 4096, capacity), EMPTY, Grid(4096, CLAIMS_SIZE, 0))
         == Run(WorldOf(pr, media, CLAIMS_SIZE), EMPTY, Grid(4096, CLAIMS_SIZE, 0))
  {
    OneChunkRunsAlike(pr, media, CLAIMS_SIZE, 4096, capacity);
  }

  /** The scanner, on `media` at a stride of 4096, lists a filesystem and a lone backup that contradicts its start. */
  ghost predicate Contradicts(pr: Probes, media: seq<byte>) {
    var capacity := ChunkCapacity(|media|, 4096);
    var s := Run(ScanWorld(pr, media, |media|, 4096, capacity), EMPTY, Grid(4096, |media|, 0));
    && ImpliesAnothersStart(s) && s.hits[0].IsExtFilesystem()
    && ChunkedScan(pr, media, |media|, 4096, capacity) == Ok(InOffsetOrder(s.hits))
  }

  lemma DoubtedClaimsContradict(pr: Probes, media: seq<byte>)
    requires IsClaims(media) && Doubts(pr, media)
    ensures Contradicts(pr, media)
  {
    ClaimsAreShown(pr, media);
    ClaimsRun(WorldOf(pr, media, CLAIMS_SIZE));
    ClaimsGrid();
    ClaimsAreNotCut(media);
    ClaimsScanned(pr, media, ChunkCapacity(CLAIMS_SIZE, 4096));
  }

  ghost function Claims(): (media: seq<byte>)
    ensures IsClaims(media)
  {
    seq<byte>(CLAIMS_SIZE, (i: nat) => ClaimByte(i))
  }

  lemma ProbesByStructure() returns (pr: Probes)
    ensures JudgesStarts(pr) && OnlyExtOnClaims(pr, Claims())
  {
    pr := ONLY_EXT.(describes := (buf, desc) => Structural(buf, desc),
                    rootInode := (buf, desc) => RootInode(buf, desc),
                    directory := inode => IsRootDirectory(inode));
  }

  /**
   With any probes that judge starts by their structure and take this medium for no other format, the report lists an
   ext filesystem at 0 and a lone backup of another UUID that implies the same start.
   */
  lemma PromotionCanContradict(pr: Probes)
    requires JudgesStarts(pr) && OnlyExtOnClaims(pr, Claims())
    ensures Contradicts(pr, Claims())
  {
    StructureDoubts(pr, Claims());
    DoubtedClaimsContradict(pr, Claims());
  }
}

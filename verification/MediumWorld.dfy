/**
 What the probes answer about a medium, first from the bytes a chunk holds and then from the whole medium, and when
 the two agree.
 */
module MediumWorld {
  import opened Machine
  import opened ExtSuperblock
  import opened Hits
  import opened ScanModel

  const PROBE_WINDOW: nat := 0x2200
  const BTRFS_OFFSET: nat := 0x1_0000
  const BTRFS_PROBE: nat := 0x98
  const PROBE_TAIL: nat := BTRFS_OFFSET + BTRFS_PROBE

  type NonExtKind = d: Detected | d != Ext witness Unknown

  /** The format knowledge the scanner borrows, as arbitrary functions of the bytes each probe reads. */
  datatype Probes = Probes(
    standard: seq<byte> -> NonExtKind,
    btrfs: seq<byte> -> bool,
    table: seq<byte> -> bool,
    size: (Detected, seq<byte>) -> Option<u64>,
    describes: (seq<byte>, seq<byte>) -> bool,
    rootInode: (seq<byte>, seq<byte>) -> Option<InodeLocation>,
    directory: seq<byte> -> bool)

  // ------------------------------------------------------------------
  // From the bytes in hand
  // ------------------------------------------------------------------

  function Window(tail: seq<byte>): seq<byte> {
    tail[..Min(|tail|, PROBE_WINDOW)]
  }

  /** Ext is tried only once every other format has declined. */
  function FromBytes(pr: Probes, window: seq<byte>): Detected {
    var standard := pr.standard(window);
    if standard == Unknown && ProbeExt(window) then Ext else standard
  }

  function DetectIn(pr: Probes, tail: seq<byte>): Option<Detected> {
    var detected := FromBytes(pr, Window(tail));
    if detected != Unknown then Some(detected)
    else if |tail| >= PROBE_TAIL && pr.btrfs(tail[BTRFS_OFFSET..PROBE_TAIL]) then Some(Btrfs)
    else None
  }

  function DeclaredSize(pr: Probes, detected: Detected, window: seq<byte>): Option<nat> {
    if detected in {Apfs, Btrfs, MbrPartitioned, GptPartitioned, Unknown} then None
    else match pr.size(detected, window)
      case None => None
      case Some(n) => Some(n)
  }

  function RootInodeReads(pr: Probes, media: seq<byte>, length: nat, position: nat, tail: seq<byte>): bool
    requires !Cut(tail)
  {
    var evidence := StartEvidence(pr.describes, tail);
    if !evidence.Confirmed? then true
    else match pr.rootInode(Prefix(tail), evidence.desc)
      case None => true
      case Some(location) =>
        var start := position + location.offset;
        var end := start + location.len;
        if end > U64_MAX || end > length || start > |media| then true
        else
          var inode := media[start..Min(end, |media|)];
          |inode| < INODE_BASE_LEN || pr.directory(inode)
  }

  function VerdictIn(pr: Probes, media: seq<byte>, length: nat, position: nat, tail: seq<byte>): Verdict
    requires !Cut(tail)
  {
    if StartEvidence(pr.describes, tail) == Unconfirmed then TableUnconfirmed
    else if RootInodeReads(pr, media, length, position, tail) then Start
    else RootInodeRefuted
  }

  lemma WindowParses(tail: seq<byte>)
    ensures Plausible(Window(tail)) == Plausible(tail)
    ensures ProbeExt(Window(tail)) == ProbeExt(tail)
    ensures Cut(Window(tail)) == Cut(tail)
    ensures !Cut(tail) ==> Parse(Window(tail)) == Parse(tail)
  {
    if |tail| > PROBE_WINDOW {
      SamePrefix(tail, PROBE_WINDOW);
    } else {
      assert Window(tail) == tail;
    }
  }

  /** The superblock reads the same from any prefix that holds all of it. */
  lemma SamePrefix(buf: seq<byte>, k: nat)
    requires PREFIX_LEN <= k <= |buf|
    ensures Plausible(buf[..k]) == Plausible(buf)
    ensures ProbeExt(buf[..k]) == ProbeExt(buf)
    ensures !Cut(buf) && !Cut(buf[..k])
    ensures Parse(buf[..k]) == Parse(buf)
    ensures Prefix(buf[..k]) == Prefix(buf)
  {
    assert forall off: nat :: off + 2 <= PREFIX_LEN ==> U16(buf[..k], off) == U16(buf, off);
    assert buf[..k][SUPERBLOCK_OFFSET + 0x68..SUPERBLOCK_OFFSET + 0x78]
        == buf[SUPERBLOCK_OFFSET + 0x68..SUPERBLOCK_OFFSET + 0x78];
  }

  function FoundIn(pr: Probes, media: seq<byte>, length: nat, position: nat, tail: seq<byte>): Option<Found>
    requires !Cut(tail)
  {
    WindowParses(tail);
    match DetectIn(pr, tail)
    case None => None
    case Some(detected) =>
      if detected == Ext then
        var info := Parse(Window(tail)).value;
        Some(ExtPrimary(info.uuid, info.SizeBytes(), VerdictIn(pr, media, length, position, tail)))
      else if detected.IsPartitionTable() then Some(Table(detected, pr.table(Window(tail))))
      else Some(Volume(detected, DeclaredSize(pr, detected, Window(tail))))
  }

  // ------------------------------------------------------------------
  // The world of a whole medium
  // ------------------------------------------------------------------

  function FoundAt(pr: Probes, media: seq<byte>, length: nat, p: nat): Option<Found> {
    if p > |media| || Cut(media[p..]) then None else FoundIn(pr, media, length, p, media[p..])
  }

  function InfoAt(media: seq<byte>, sb: nat): Option<Info> {
    if sb < LEAD_IN || sb - LEAD_IN > |media| || Cut(Window(media[sb - LEAD_IN..])) then None
    else Parse(Window(media[sb - LEAD_IN..]))
  }

  function WorldOf(pr: Probes, media: seq<byte>, length: nat): World {
    World((sb: nat) => InfoAt(media, sb), (p: nat) => FoundAt(pr, media, length, p))
  }

  /** Classifying `p` would read past the end of a superblock the medium cuts short. */
  predicate CutAt(media: seq<byte>, p: nat)
    requires p <= |media|
  {
    Cut(Window(media[p..])) || (p >= LEAD_IN && Cut(Window(media[p - LEAD_IN..])))
  }

  // ------------------------------------------------------------------
  // The world of a scan in chunks
  // ------------------------------------------------------------------

  /** What `p` shows when the bytes in hand end at `end`. */
  function FoundBefore(pr: Probes, media: seq<byte>, length: nat, p: nat, end: nat): Option<Found> {
    if p > end || end > |media| || Cut(media[p..end]) then None else FoundIn(pr, media, length, p, media[p..end])
  }

  /** The world of a scan that classifies each position `p` with the bytes in hand up to `ends(p)`. */
  function ChunkWorld(pr: Probes, media: seq<byte>, length: nat, ends: nat -> nat): World {
    World((sb: nat) => InfoAt(media, sb), (p: nat) => FoundBefore(pr, media, length, p, ends(p)))
  }

  /** A detected ext start carries a primary superblock, however few of the bytes after it are in hand. */
  lemma ExtIsPrimary(pr: Probes, media: seq<byte>, length: nat, p: nat, end: nat)
    requires FoundBefore(pr, media, length, p, end).Some? && FoundBefore(pr, media, length, p, end).value.ExtPrimary?
    ensures InfoAt(media, p + LEAD_IN).Some? && InfoAt(media, p + LEAD_IN).value.IsPrimary()
  {
    var tail, whole := media[p..end], media[p..];
    WindowParses(tail);
    WindowParses(whole);
    assert forall i :: 0 <= i < |tail| ==> tail[i] == whole[i];
  }

  /** Every run theorem holds of every scan, wherever its chunks end. */
  lemma ChunksAreSane(pr: Probes, media: seq<byte>, length: nat, ends: nat -> nat)
    requires |media| <= U64_MAX
    ensures Sane(ChunkWorld(pr, media, length, ends))
  {
    forall p: nat
      ensures SaneAt(media, p, FoundBefore(pr, media, length, p, ends(p)))
    {
      FoundIsSane(pr, media, length, p, ends(p));
    }
    SaneWhereFound(media, ChunkWorld(pr, media, length, ends));
  }

  ghost predicate SaneAt(media: seq<byte>, p: nat, found: Option<Found>) {
    && (found.Some? && found.value.ExtPrimary? ==>
          InfoAt(media, p + LEAD_IN).Some? && InfoAt(media, p + LEAD_IN).value.IsPrimary())
    && (found.Some? && found.value.Volume? ==> found.value.detected != Ext)
  }

  lemma FoundIsSane(pr: Probes, media: seq<byte>, length: nat, p: nat, end: nat)
    ensures SaneAt(media, p, FoundBefore(pr, media, length, p, end))
  {
    var found := FoundBefore(pr, media, length, p, end);
    if found.Some? && found.value.ExtPrimary? {
      ExtIsPrimary(pr, media, length, p, end);
    }
  }

  lemma SaneWhereFound(media: seq<byte>, w: World)
    requires |media| <= U64_MAX
    requires forall sb: nat :: w.info(sb) == InfoAt(media, sb)
    requires forall p: nat :: SaneAt(media, p, w.found(p))
    ensures Sane(w)
  {
    forall sb: nat | w.info(sb).Some?
      ensures sb <= U64_MAX
    {
      InfoIsOnTheMedium(media, sb);
    }
  }

  lemma InfoIsOnTheMedium(media: seq<byte>, sb: nat)
    requires InfoAt(media, sb).Some?
    ensures LEAD_IN <= sb < |media|
  {
  }

  lemma WholeIsOneChunk(pr: Probes, media: seq<byte>, length: nat, p: nat)
    ensures FoundBefore(pr, media, length, p, |media|) == FoundAt(pr, media, length, p)
  {
    if p <= |media| {
      assert media[p..|media|] == media[p..];
    }
  }

  lemma MediumIsSane(pr: Probes, media: seq<byte>, length: nat)
    requires |media| <= U64_MAX
    ensures Sane(WorldOf(pr, media, length))
  {
    forall p: nat
      ensures SaneAt(media, p, FoundAt(pr, media, length, p))
    {
      WholeIsOneChunk(pr, media, length, p);
      FoundIsSane(pr, media, length, p, |media|);
    }
    SaneWhereFound(media, WorldOf(pr, media, length));
  }

  // ------------------------------------------------------------------
  // When a chunk answers like the whole medium
  // ------------------------------------------------------------------

  /** The descriptor a plausible group-0 superblock points at lies past the first `k` bytes, but on the medium. */
  predicate FarDescriptor(tail: seq<byte>, k: nat)
    requires !Cut(tail)
  {
    ProbeExt(tail) && WidthPlausible(Parse(tail).value) && k < DescriptorEnd(Parse(tail).value) <= |tail|
  }

  lemma EvidenceOfPrefix(pr: Probes, tail: seq<byte>, k: nat)
    requires PREFIX_LEN <= k <= |tail|
    ensures !Cut(tail) && !Cut(tail[..k])
    ensures StartEvidence(pr.describes, tail[..k])
         == if FarDescriptor(tail, k) then Inconclusive else StartEvidence(pr.describes, tail)
  {
    SamePrefix(tail, k);
    if ProbeExt(tail) {
      DescriptorOfPrefix(tail, k, Parse(tail).value);
    }
  }

  lemma DescriptorOfPrefix(tail: seq<byte>, k: nat, info: Info)
    requires k <= |tail|
    ensures Descriptor(tail[..k], info) == if DescriptorEnd(info) <= k then Descriptor(tail, info) else None
    ensures Descriptor(tail, info).Some? <==> DescriptorEnd(info) <= |tail|
  {
    SliceOfPrefix(tail, k, (info.firstDataBlock + 1) * info.blockSize, info.descSize);
  }

  lemma SliceOfPrefix(tail: seq<byte>, k: nat, start: nat, len: nat)
    requires k <= |tail|
    ensures start + len <= k ==> tail[..k][start..start + len] == tail[start..start + len]
  {
  }

  /**
   Where a chunk boundary shows. A verdict drawn from the first `k` bytes is the verdict of the whole medium unless
   the group descriptor lies beyond them and refutes the start; then the chunk, and only the chunk, sees a start.
   */
  lemma ChunkVerdict(pr: Probes, media: seq<byte>, length: nat, p: nat, k: nat)
    requires p <= |media| && PREFIX_LEN <= k <= |media| - p
    ensures !Cut(media[p..]) && !Cut(media[p..][..k])
    ensures
      var whole := VerdictIn(pr, media, length, p, media[p..]);
      var chunk := VerdictIn(pr, media, length, p, media[p..][..k]);
      && (chunk == whole <==> !(FarDescriptor(media[p..], k) && whole != Start))
      && (chunk != whole ==> chunk == Start)
  {
    EvidenceOfPrefix(pr, media[p..], k);
    SamePrefix(media[p..], k);
  }

  /**
   The bytes in hand stop short of the descriptor that makes the medium refuse the ext start at `p`.
   */
  predicate Hides(pr: Probes, media: seq<byte>, length: nat, p: nat, end: nat)
    requires p <= end <= |media|
  {
    var found := FoundAt(pr, media, length, p);
    && found.Some? && found.value.ExtPrimary? && found.value.verdict != Start
    && FarDescriptor(media[p..], end - p)
  }

  /** Bytes in hand that reach the probe tail, or the end of the medium. */
  predicate Reaches(media: seq<byte>, p: nat, end: nat) {
    p <= end <= |media| && (end == |media| || p + PROBE_TAIL <= end)
  }

  /** Only the verdict on an ext start can depend on where the bytes in hand stop. */
  lemma FoundUpToVerdict(pr: Probes, media: seq<byte>, length: nat, p: nat, k: nat)
    requires p <= |media| && PROBE_TAIL <= k <= |media| - p
    ensures !Cut(media[p..]) && !Cut(media[p..][..k])
    ensures Window(media[p..][..k]) == Window(media[p..])
    ensures DetectIn(pr, media[p..][..k]) == DetectIn(pr, media[p..])
  {
    var tail := media[p..];
    SamePrefix(tail, k);
    assert tail[..k][..PROBE_WINDOW] == tail[..PROBE_WINDOW];
    assert tail[..k][BTRFS_OFFSET..PROBE_TAIL] == tail[BTRFS_OFFSET..PROBE_TAIL];
  }

  /**
   Where a chunk boundary shows. A position shows the same as on the whole medium iff the bytes in hand do not hide a
   refutation; where they do, they show a start.
   */
  lemma ChunkFindsIff(pr: Probes, media: seq<byte>, length: nat, p: nat, end: nat)
    requires Reaches(media, p, end)
    ensures FoundBefore(pr, media, length, p, end) == FoundAt(pr, media, length, p) <==>
      !Hides(pr, media, length, p, end)
    ensures Hides(pr, media, length, p, end) ==>
      FoundBefore(pr, media, length, p, end) == Some(FoundAt(pr, media, length, p).value.(verdict := Start))
  {
    if end == |media| {
      WholeIsOneChunk(pr, media, length, p);
    } else {
      var k := end - p;
      assert media[p..end] == media[p..][..k];
      FoundUpToVerdict(pr, media, length, p, k);
      FoundByVerdict(pr, media, length, p, media[p..], media[p..][..k]);
      ChunkVerdict(pr, media, length, p, k);
    }
  }

  /** Two tails detected alike are found alike, but for the verdict on an ext start. */
  lemma FoundByVerdict(pr: Probes, media: seq<byte>, length: nat, p: nat, whole: seq<byte>, part: seq<byte>)
    requires !Cut(whole) && !Cut(part) && Window(part) == Window(whole) && DetectIn(pr, part) == DetectIn(pr, whole)
    ensures
      var found := FoundIn(pr, media, length, p, whole);
      if found.Some? && found.value.ExtPrimary? then
        && found.value.verdict == VerdictIn(pr, media, length, p, whole)
        && FoundIn(pr, media, length, p, part)
           == Some(found.value.(verdict := VerdictIn(pr, media, length, p, part)))
      else FoundIn(pr, media, length, p, part) == found
  {
  }

  // ------------------------------------------------------------------
  // When part of a medium is enough
  // ------------------------------------------------------------------

  /** The root inode is only looked for below `length`, so bytes of the medium past it do not matter. */
  lemma FoundOnPrefix(pr: Probes, contents: seq<byte>, media: seq<byte>, length: nat, p: nat, tail: seq<byte>)
    requires Min(|contents|, length) <= |media| <= |contents| && media == contents[..|media|] && !Cut(tail)
    ensures FoundIn(pr, contents, length, p, tail) == FoundIn(pr, media, length, p, tail)
  {
    RootOnPrefix(pr, contents, media, length, p, tail);
  }

  lemma RootOnPrefix(pr: Probes, contents: seq<byte>, media: seq<byte>, length: nat, p: nat, tail: seq<byte>)
    requires Min(|contents|, length) <= |media| <= |contents| && media == contents[..|media|] && !Cut(tail)
    ensures RootInodeReads(pr, contents, length, p, tail) == RootInodeReads(pr, media, length, p, tail)
  {
    var evidence := StartEvidence(pr.describes, tail);
    if evidence.Confirmed? && pr.rootInode(Prefix(tail), evidence.desc).Some? {
      var location := pr.rootInode(Prefix(tail), evidence.desc).value;
      var start, end := p + location.offset, p + location.offset + location.len;
      if |contents| <= length {
        assert media == contents;
      } else if end <= length {
        assert contents[start..end] == media[start..end];
      }
    }
  }
}

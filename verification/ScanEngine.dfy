/** The scanner itself: the state it mutates position by position, each change proved to be the step of the model. */
module ScanEngine {
  import opened Machine
  import opened ExtSuperblock
  import opened Hits
  import opened Media
  import opened MediumWorld
  import opened StableSort
  import M = ScanModel

  const CHUNK_SIZE: nat := 64 * 1024 * 1024

  function Offset(hit: Hit): nat {
    hit.offset
  }

  function InOffsetOrder(hits: seq<Hit>): seq<Hit> {
    SortBy(hits, Offset)
  }

  class ScanState {
    var hits: seq<Hit>
    var uuids: seq<Option<Uuid>>
    var coveredEnd: nat
    var seen: seq<nat>
    var demoted: seq<nat>

    ghost predicate Valid()
      reads this
    {
      |hits| == |uuids|
    }

    ghost function Model(): M.Scan
      requires Valid()
      reads this
    {
      M.ScanRecord(hits, uuids, coveredEnd, seen, demoted)
    }

    constructor ()
      ensures Valid() && Model() == M.EMPTY
    {
      hits, uuids, coveredEnd, seen, demoted := [], [], 0, [], [];
    }

    method PushHit(hit: Hit, uuid: Option<Uuid>)
      requires Valid()
      modifies this
      ensures Valid() && Model() == M.Push(old(Model()), hit, uuid)
    {
      hits := hits + [hit];
      uuids := uuids + [uuid];
    }

    method RecordPrimaryCopy(position: nat, claimed: nat, uuid: Uuid)
      requires Valid()
      modifies this
      ensures Valid() && Model() == M.RecordCopy(old(Model()), position, claimed, uuid)
    {
      var now := M.ScanRecord(hits, uuids, coveredEnd, seen, demoted);
      if M.InsideExt(now, position, uuid) {
        return;
      }
      if M.LastIsCopies(now, uuid) {
        var n := |hits| - 1;
        hits := hits[n := hits[n].(kind := PrimaryCopies(hits[n].kind.copies + 1, position))];
        return;
      }
      PushHit(Hit(position, PrimaryCopies(1, position), Some(claimed), []), Some(uuid));
    }

    /** Turn a run of one copy back into a filesystem, if its root inode was the only thing against it. */
    method Promote(index: nat)
      requires Valid() && index < |hits|
      modifies this
      ensures Valid() && Model() == M.Promote(old(Model()), index)
    {
      var hit := hits[index];
      if hit.offset !in demoted || !(hit.kind.PrimaryCopies? && hit.kind.copies == 1) {
        return;
      }
      hits := hits[index := hit.(kind := Filesystem(Ext))];
      var end := SatAdd(hit.offset, if hit.size.Some? then hit.size.value else 0);
      coveredEnd := Max(coveredEnd, end);
    }

    /** Record the backup superblock at `sb`, if the window read from 1024 bytes before it shows one. */
    method RecordBackup(sb: nat, window: seq<byte>) returns (panicked: bool)
      requires Valid()
      modifies this
      ensures Valid()
      ensures panicked == Cut(window)
      ensures !panicked ==> Model() == M.RecordBackup(old(Model()), sb, Parse(window))
    {
      panicked := Cut(window);
      if panicked {
        return;
      }
      var parsed := Parse(window);
      if parsed.None? || parsed.value.IsPrimary() || sb in seen {
        return;
      }
      var info := parsed.value;
      seen := seen + [sb];
      var now := M.ScanRecord(hits, uuids, coveredEnd, seen, demoted);
      var corroborates := M.Corroborated(now, sb, info);
      if corroborates.Some? {
        var index := corroborates.value;
        hits := hits[index := hits[index].(backups := hits[index].backups + [Backup(sb, info.group)])];
        Promote(index);
        return;
      }
      PushHit(M.LoneHit(sb, info), Some(info.uuid));
    }

    /** Record an ext start; `spared` is whether its root inode refutes it but could not be read. */
    method RecordExt(pr: Probes, medium: Medium, length: nat, position: nat, window: seq<byte>, tail: seq<byte>)
      returns (ghost spared: bool)
      requires Valid() && this != medium as object
      requires window == Window(tail) && !Cut(tail) && ProbeExt(window)
      modifies this, medium
      ensures Valid() && Parse(window).Some?
      ensures old(medium.Reliable()) ==> medium.Reliable() && !spared
      ensures
        var verdict := VerdictIn(pr, medium.contents, length, position, tail);
        && (spared ==> verdict == M.RootInodeRefuted)
        && Model() == M.RecordExt(old(Model()), position, Parse(window).value.uuid, Parse(window).value.SizeBytes(),
                                  if spared then M.Start else verdict)
    {
      WindowParses(tail);
      spared := false;
      var info := Parse(window).value;
      if StartEvidence(pr.describes, tail) == Unconfirmed {
        RecordPrimaryCopy(position, info.SizeBytes(), info.uuid);
        return;
      }
      var directory := RootInodeReadsAsADirectory(pr, medium, length, position, tail);
      spared := directory && !RootInodeReads(pr, medium.contents, length, position, tail);
      if !directory {
        demoted := demoted + [position];
        RecordPrimaryCopy(position, info.SizeBytes(), info.uuid);
        return;
      }
      seen := seen + [SatAdd(position, M.LEAD_IN)];
      coveredEnd := Max(coveredEnd, SatAdd(position, info.SizeBytes()));
      PushHit(Hit(position, Filesystem(Ext), Some(info.SizeBytes()), []), Some(info.uuid));
    }

    method RecordDetected(pr: Probes, medium: Medium, length: nat, position: nat, detected: Detected,
                          window: seq<byte>, tail: seq<byte>)
      returns (ghost spared: bool)
      requires Valid() && this != medium as object
      requires window == Window(tail) && !Cut(tail) && DetectIn(pr, tail) == Some(detected)
      modifies this, medium
      ensures Valid() && FoundIn(pr, medium.contents, length, position, tail).Some?
      ensures old(medium.Reliable()) ==> medium.Reliable() && !spared
      ensures
        var found := FoundIn(pr, medium.contents, length, position, tail).value;
        && (spared ==> found.ExtPrimary? && found.verdict == M.RootInodeRefuted)
        && Model() == M.RecordDetected(old(Model()), position, if spared then found.(verdict := M.Start) else found)
    {
      WindowParses(tail);
      spared := false;
      if position < coveredEnd && detected != Ext {
        return;
      }
      if detected.IsPartitionTable() && !pr.table(window) {
        return;
      }
      if detected == Ext {
        spared := RecordExt(pr, medium, length, position, window, tail);
        return;
      }
      var size := DeclaredSize(pr, detected, window);
      if size.Some? {
        coveredEnd := Max(coveredEnd, SatAdd(position, size.value));
      }
      var kind := if detected.IsPartitionTable() then PartitionTable(detected) else Filesystem(detected);
      PushHit(Hit(position, kind, size, []), None);
    }

    /**
     One step of the scan, with the bytes of `chunk` from `offset` on in hand. A refuting root inode that cannot be
     read spares the start at `position`, and nothing else.
     */
    method Classify(pr: Probes, medium: Medium, length: nat, chunk: seq<byte>, offset: nat, position: nat,
                    ghost w: M.World)
      returns (panicked: bool, ghost spared: set<nat>)
      requires Valid() && this != medium as object
      requires offset <= |chunk| && (position >= M.LEAD_IN ==> offset >= M.LEAD_IN)
      modifies this, medium
      ensures Valid()
      ensures panicked <==> ChunkCut(chunk, offset, position)
      ensures spared <= {position}
      ensures old(medium.Reliable()) ==> medium.Reliable() && spared == {}
      ensures !panicked && Shows(pr, medium.contents, length, chunk, offset, position, w) ==>
                && (position in spared ==> M.IsDoubted(w, position))
                && Model() == M.Step(M.Sparing(w, spared), old(Model()), position)
    {
      var tail := chunk[offset..];
      var window := Window(tail);
      WindowParses(tail);
      spared := {};
      var detected := DetectIn(pr, tail);
      if detected.Some? {
        if Cut(tail) {
          return true, {};
        }
        ghost var spare := RecordDetected(pr, medium, length, position, detected.value, window, tail);
        spared := if spare then {position} else {};
      }
      panicked := RecordBackup(SatAdd(position, M.LEAD_IN), window);
      if panicked {
        return;
      }
      if position >= M.LEAD_IN {
        var shifted := chunk[offset - M.LEAD_IN..];
        panicked := RecordBackup(position, Window(shifted));
      }
    }

    /** Hand over every hit, by ascending offset; hits at one offset stay in the order they were recorded. */
    method IntoHits() returns (r: seq<Hit>)
      requires Valid()
      ensures Sorted(r, Offset) && multiset(r) == multiset(hits)
      ensures forall offset: nat :: WithKey(r, Offset, offset) == WithKey(hits, Offset, offset)
      ensures r == InOffsetOrder(hits)
    {
      r := InOffsetOrder(hits);
      forall offset: nat
        ensures WithKey(r, Offset, offset) == WithKey(hits, Offset, offset)
      {
        SortByIsStable(hits, Offset, offset);
      }
      SortByIsStable(hits, Offset, 0);
    }
  }

  /** Classifying would read past the end of a superblock the chunk cuts short. */
  ghost predicate ChunkCut(chunk: seq<byte>, offset: nat, position: nat)
    requires offset <= |chunk| && (position >= M.LEAD_IN ==> offset >= M.LEAD_IN)
  {
    Cut(Window(chunk[offset..])) || (position >= M.LEAD_IN && Cut(Window(chunk[offset - M.LEAD_IN..])))
  }

  ghost predicate ShowsInfo(window: seq<byte>, sb: nat, w: M.World) {
    !Cut(window) ==> w.info(sb) == Parse(window)
  }

  ghost predicate ShowsFound(pr: Probes, media: seq<byte>, length: nat, tail: seq<byte>, position: nat, w: M.World) {
    !Cut(tail) ==> w.found(position) == FoundIn(pr, media, length, position, tail)
  }

  /** What the chunk shows at `position` is what the world holds there. */
  ghost predicate Shows(pr: Probes, media: seq<byte>, length: nat, chunk: seq<byte>, offset: nat, position: nat,
                        w: M.World)
    requires offset <= |chunk| && (position >= M.LEAD_IN ==> offset >= M.LEAD_IN)
  {
    && ShowsFound(pr, media, length, chunk[offset..], position, w)
    && ShowsInfo(Window(chunk[offset..]), position + M.LEAD_IN, w)
    && (position >= M.LEAD_IN ==> ShowsInfo(Window(chunk[offset - M.LEAD_IN..]), position, w))
  }

  /** Whether the root inode a candidate names reads as a directory; whatever cannot be looked at decides nothing. */
  method RootInodeReadsAsADirectory(pr: Probes, medium: Medium, length: nat, position: nat, tail: seq<byte>)
    returns (r: bool)
    requires !Cut(tail)
    modifies medium
    ensures old(medium.Reliable()) ==>
              medium.Reliable() && r == RootInodeReads(pr, medium.contents, length, position, tail)
    // A read that fails refutes nothing.
    ensures !r ==> !RootInodeReads(pr, medium.contents, length, position, tail)
  {
    var evidence := StartEvidence(pr.describes, tail);
    if !evidence.Confirmed? {
      return true;
    }
    var location := pr.rootInode(Prefix(tail), evidence.desc);
    if location.None? {
      return true;
    }
    var start := position + location.value.offset;
    var end := start + location.value.len;
    if end > U64_MAX || end > length {
      return true;
    }
    var inode := new byte[location.value.len](_ => 0);
    var read := ReadChunk(medium, start, inode);
    if read.Err? {
      return true;
    }
    r := read.value < INODE_BASE_LEN || pr.directory(inode[..read.value]);
    assert start <= |medium.contents| ==> inode[..read.value] == medium.contents[start..Min(end, |medium.contents|)];
  }
}

/**
 A reported negative offset is right: opening the medium as a volume with that many absent bytes puts every listed
 superblock copy, byte for byte, at the volume offset its own geometry names.
 */
module HeadAbsent {
  import opened Machine
  import opened Hits
  import opened ScanModel
  import opened ScanConservation
  import opened ScanInvariants
  import opened ScanTheorems
  import opened MediumWorld
  import opened Media
  import R = Readers

  /** On every scan, wherever its chunks end and whatever it spares. */
  lemma ListedCopyNamesTheGap(pr: Probes, media: seq<byte>, length: nat, ends: nat -> nat, spared: set<nat>,
                              positions: seq<nat>, hit: Hit, n: nat, sb: nat)
    requires |media| <= U64_MAX && Increasing(positions)
    requires hit in Run(Sparing(ChunkWorld(pr, media, length, ends), spared), EMPTY, positions).hits
    requires hit.HeadAbsent() == Some(n) && Lists(hit, sb)
    ensures InfoAt(media, sb).Some? && !InfoAt(media, sb).value.IsPrimary()
    ensures InfoAt(media, sb).value.CopyOffset() == n + sb
  {
    var w := Sparing(ChunkWorld(pr, media, length, ends), spared);
    var s := Run(w, EMPTY, positions);
    ChunksAreSane(pr, media, length, ends);
    SparingIsSane(ChunkWorld(pr, media, length, ends), spared);
    RunFromEmpty(w, positions);
    var i :| 0 <= i < |s.hits| && s.hits[i] == hit;
    assert HitOk(w, hit, s.uuids[i]);
    SignedStartOfLone(hit.offset, w.info(hit.offset).value);
    if hit.offset != sb {
      var k :| 0 <= k < |hit.backups| && hit.backups[k].offset == sb;
      assert Names(w, hit.backups[k], hit.SignedStart());
    }
  }

  /** The window an absent-head open reads through, standing at `at`. */
  function Opened(media: seq<byte>, n: nat, at: nat): R.Window {
    R.Window(R.Volume(n, media), 0, n + |media|, at, None, 0)
  }

  /** A read at volume offset `at` yields the medium's bytes from `sb` on: at least one, and all when it may. */
  ghost predicate Serves(media: seq<byte>, n: nat, at: nat, sb: nat, room: nat, most: nat) {
    var read := R.ReadStep(Opened(media, n, at), room, AtMost(most)).1;
    && read.Bytes? && 1 <= |read.bytes| <= room && sb + |read.bytes| <= |media|
    && read.bytes == media[sb..sb + |read.bytes|]
    && (most >= room && sb + room <= |media| ==> |read.bytes| == room)
  }

  ghost predicate Refuses(media: seq<byte>, n: nat, at: nat, room: nat, most: nat) {
    R.ReadStep(Opened(media, n, at), room, AtMost(most)).1.Fail?
  }

  /**
   For every hit that reports an absent head of `n` bytes and every copy listed under it, reading through the stack at
   the offset the copy's geometry names yields the copy's own bytes; and any non-empty read of the head fails.
   */
  lemma NegativeOffsetIsRight(pr: Probes, media: seq<byte>, length: nat, ends: nat -> nat, spared: set<nat>,
                              positions: seq<nat>, hit: Hit, n: nat, sb: nat, room: nat, most: nat)
    requires Increasing(positions)
    requires hit in Run(Sparing(ChunkWorld(pr, media, length, ends), spared), EMPTY, positions).hits
    requires hit.HeadAbsent() == Some(n) && Lists(hit, sb)
    requires n + |media| <= U64_MAX && room > 0
    ensures InfoAt(media, sb).Some? && Serves(media, n, InfoAt(media, sb).value.CopyOffset(), sb, room, most)
    ensures forall at: nat :: at < n ==> Refuses(media, n, at, room, most)
  {
    ListedCopyNamesTheGap(pr, media, length, ends, spared, positions, hit, n, sb);
    InfoIsOnTheMedium(media, sb);
    StackServes(media, n, sb, room, most);
    forall at: nat | at < n
      ensures Refuses(media, n, at, room, most)
    {
      HeadRefuses(media, n, at, room, most);
    }
  }

  lemma StackServes(media: seq<byte>, n: nat, sb: nat, room: nat, most: nat)
    requires n + |media| <= U64_MAX && sb < |media| && room > 0
    ensures Serves(media, n, n + sb, sb, room, most)
  {
  }

  lemma HeadRefuses(media: seq<byte>, n: nat, at: nat, room: nat, most: nat)
    requires n + |media| <= U64_MAX && at < n && room > 0
    ensures Refuses(media, n, at, room, most)
  {
  }

  /** The window can be sought to a copy iff its offset fits the window's signed arithmetic. */
  lemma SeekReachesCopyIff(media: seq<byte>, n: nat, from: nat, at: nat)
    ensures R.SeekStep(Opened(media, n, from), R.FromStart(at)) == (Opened(media, n, at), Some(at)) <==> at <= I64_MAX
  {
  }
}

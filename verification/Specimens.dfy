/** Media written out byte by byte: superblocks put where a scan will meet them, and what the probes see there. */
module Specimens {
  import opened Machine
  import opened ExtSuperblock
  import opened Hits
  import opened MediumWorld
  import opened ScanModel

  /** The fields of a superblock that the specimens vary. */
  datatype Copy = Copy(blocks: byte, firstDataBlock: byte, log: byte, group: byte, tag: byte)
  {
    predicate Valid() {
      log <= 6
    }

    /** Byte `x` of the superblock: one block a group, no features, a UUID whose first byte is the tag. */
    function Byte(x: int): byte {
      if x == 0x38 then 0x53
      else if x == 0x39 then 0xEF
      else if x == 0x04 then blocks
      else if x == 0x14 then firstDataBlock
      else if x == 0x18 then log
      else if x == 0x20 || x == 0x28 then 1
      else if x == 0x5A then group
      else if x == 0x68 then tag
      else 0
    }

    function Info(): Info
      requires Valid()
    {
      Geometry(BlockSize(log), blocks, 1, firstDataBlock, group, Tag(tag), false, 32)
    }
  }

  function Tag(tag: byte): Uuid {
    [tag, 0, 0, 0, 0, 0, 0, 0, 0, 0, 0, 0, 0, 0, 0, 0]
  }

  /** From `at` on the bytes are the copy's, as far as a superblock goes or the bytes last. */
  ghost predicate Holds(bytes: seq<byte>, at: nat, copy: Copy) {
    forall i :: at <= i < at + 1024 && i < |bytes| ==> bytes[i] == copy.Byte(i - at)
  }

  lemma CopyIsPlausible(buf: seq<byte>, copy: Copy)
    requires copy.Valid() && Holds(buf, SUPERBLOCK_OFFSET, copy) && |buf| >= PARSE_MIN_LEN
    ensures Plausible(buf) && !Cut(buf) && U16(buf, SUPERBLOCK_OFFSET + 0x5A) == copy.group as nat
  {
  }

  /** A copy parses to the geometry it was written with. */
  lemma CopyParses(buf: seq<byte>, copy: Copy)
    requires copy.Valid() && Holds(buf, SUPERBLOCK_OFFSET, copy) && |buf| >= PARSE_MIN_LEN
    requires |buf| >= SUPERBLOCK_OFFSET + 0x78 || copy.tag == 0
    ensures !Cut(buf) && Parse(buf) == Some(copy.Info())
  {
    CopyIsPlausible(buf, copy);
    if |buf| >= SUPERBLOCK_OFFSET + 0x78 {
      assert buf[SUPERBLOCK_OFFSET + 0x68..SUPERBLOCK_OFFSET + 0x78] == Tag(copy.tag);
    } else {
      assert seq<byte>(16, _ => 0) == Tag(0);
    }
  }

  /** Without the magic number there is no superblock. */
  lemma NoMagic(buf: seq<byte>)
    requires |buf| > SUPERBLOCK_OFFSET + 0x38 ==> buf[SUPERBLOCK_OFFSET + 0x38] != 0x53
    ensures !Plausible(buf) && !Cut(buf)
  {
  }

  lemma InfoAtCopy(media: seq<byte>, sb: nat, copy: Copy)
    requires sb >= LEAD_IN && sb + 0x64 <= |media| && copy.Valid() && Holds(media, sb, copy)
    requires sb + 0x78 <= |media| || copy.tag == 0
    ensures InfoAt(media, sb) == Some(copy.Info()) && !Cut(Window(media[sb - LEAD_IN..]))
  {
    var tail := media[sb - LEAD_IN..];
    var window := Window(tail);
    forall i | SUPERBLOCK_OFFSET <= i < SUPERBLOCK_OFFSET + 1024 && i < |window|
      ensures window[i] == copy.Byte(i - SUPERBLOCK_OFFSET)
    {
      assert window[i] == media[sb - LEAD_IN + i];
    }
    CopyParses(window, copy);
  }

  lemma NoInfoWithoutMagic(media: seq<byte>, sb: nat)
    requires sb + 0x38 < |media| ==> media[sb + 0x38] != 0x53
    ensures InfoAt(media, sb) == None
  {
    if sb >= LEAD_IN && sb - LEAD_IN <= |media| {
      NoCutWithoutMagic(media, sb - LEAD_IN);
    }
  }

  lemma NoCutWithoutMagic(media: seq<byte>, q: nat)
    requires q <= |media| && (q + LEAD_IN + 0x38 < |media| ==> media[q + LEAD_IN + 0x38] != 0x53)
    ensures !Plausible(Window(media[q..])) && !Cut(Window(media[q..]))
  {
    NoMagic(Window(media[q..]));
  }

  /** The probes take the bytes from `p` up to `end` for no format but ext. */
  ghost predicate OnlyExtAt(pr: Probes, media: seq<byte>, p: nat, end: nat)
    requires p <= end <= |media|
  {
    && pr.standard(Window(media[p..end])) == Unknown
    && (p + PROBE_TAIL <= end ==> !pr.btrfs(media[p + BTRFS_OFFSET..p + PROBE_TAIL]))
  }

  ghost predicate SeesOnlyExt(pr: Probes, media: seq<byte>) {
    forall p: nat, end: nat :: p <= end <= |media| ==> OnlyExtAt(pr, media, p, end)
  }

  /** Some probes that know no format but ext, and believe no descriptor. */
  const ONLY_EXT: Probes :=
    Probes(_ => Unknown, _ => false, _ => false, (_, _) => None, (_, _) => false, (_, _) => None, _ => false)

  /** Such probes find nothing where there is no primary superblock. */
  lemma NothingFound(pr: Probes, media: seq<byte>, length: nat, p: nat, end: nat)
    requires p <= end <= |media| ==> OnlyExtAt(pr, media, p, end)
    requires p + LEAD_IN + 0x38 < |media| && media[p + LEAD_IN + 0x38] == 0x53 ==>
      p + LEAD_IN + 0x5B < |media| && media[p + LEAD_IN + 0x5A] != 0
    ensures FoundBefore(pr, media, length, p, end) == None
  {
    if p <= end <= |media| {
      var tail := media[p..end];
      WindowParses(tail);
      assert forall i :: 0 <= i < |tail| ==> tail[i] == media[p + i];
      assert !ProbeExt(tail);
      if p + PROBE_TAIL <= end {
        assert tail[BTRFS_OFFSET..PROBE_TAIL] == media[p + BTRFS_OFFSET..p + PROBE_TAIL];
      }
    }
  }
}

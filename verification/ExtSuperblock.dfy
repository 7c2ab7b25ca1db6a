/**
 The ext superblock probe, read from bytes, and the evidence that a group-0 copy is a filesystem start.

 What the probe cannot be judged by (checksums, the descriptor's own fields, the root inode) is a field of
 `Probes`, so every theorem holds whatever those answers are.
 */
module ExtSuperblock {
  import opened Machine

  const SUPERBLOCK_OFFSET: nat := 1024
  // The shortest buffer the plausibility test accepts, and the shortest the parser can read.
  const PROBE_MIN_LEN: nat := SUPERBLOCK_OFFSET + 0x5A + 2
  const PARSE_MIN_LEN: nat := SUPERBLOCK_OFFSET + 0x60 + 4
  // All superblock fields lie in this prefix.
  const PREFIX_LEN: nat := 2048
  const INODE_BASE_LEN: nat := 128

  function U16(b: seq<byte>, off: nat): nat
    requires off + 2 <= |b|
  {
    b[off] as nat + 256 * (b[off + 1] as nat)
  }

  function U32(b: seq<byte>, off: nat): nat
    requires off + 4 <= |b|
  {
    U16(b, off) + 65536 * U16(b, off + 2)
  }

  predicate Plausible(buf: seq<byte>) {
    && |buf| >= PROBE_MIN_LEN
    && U16(buf, SUPERBLOCK_OFFSET + 0x38) == 0xEF53
    && U32(buf, SUPERBLOCK_OFFSET + 0x18) <= 6
    && U32(buf, SUPERBLOCK_OFFSET + 0x20) != 0
    && U32(buf, SUPERBLOCK_OFFSET + 0x28) != 0
  }

  /** A plausible superblock of block group 0: what detection calls `Ext`. */
  predicate ProbeExt(buf: seq<byte>) {
    Plausible(buf) && U16(buf, SUPERBLOCK_OFFSET + 0x5A) == 0
  }

  /** The bytes pass the plausibility test but stop before a field the parser reads unchecked. */
  predicate Cut(buf: seq<byte>) {
    Plausible(buf) && |buf| < PARSE_MIN_LEN
  }

  type Uuid = seq<byte>

  datatype Geometry = Geometry(
    blockSize: nat,
    blocksCount: nat,
    blocksPerGroup: nat,
    firstDataBlock: nat,
    group: nat,
    uuid: Uuid,
    wide: bool,
    descSize: nat)
  {
    predicate Valid() {
      && 1024 <= blockSize <= 65536
      && 1 <= blocksPerGroup < 0x1_0000_0000
      && firstDataBlock < 0x1_0000_0000
      && group < 0x1_0000
      && descSize < 0x1_0000
    }

    predicate IsPrimary() {
      group == 0
    }

    function SizeBytes(): nat {
      SatMul(blocksCount, blockSize)
    }

    /** Distance from the filesystem's first byte to this copy. */
    function CopyOffset(): nat {
      if IsPrimary() then 1024
      else SatMul(SatAdd(firstDataBlock, SatMul(group, blocksPerGroup)), blockSize)
    }
  }

  type Info = g: Geometry | g.Valid() witness Geometry(1024, 0, 1, 0, 0, [], false, 32)

  function BlockSize(log: nat): (r: nat)
    requires log <= 6
    ensures 1024 <= r <= 65536
  {
    [1024, 2048, 4096, 8192, 16384, 32768, 65536][log]
  }

  function U32Or(buf: seq<byte>, off: nat, default: nat): nat {
    if off + 4 <= |buf| then U32(buf, off) else default
  }

  function Parse(buf: seq<byte>): Option<Info>
    requires !Cut(buf)
  {
    if !Plausible(buf) then None
    else
      var wide := U32(buf, SUPERBLOCK_OFFSET + 0x60) / 0x80 % 2 == 1;
      var low := U32(buf, SUPERBLOCK_OFFSET + 0x04);
      var high := if wide then U32Or(buf, SUPERBLOCK_OFFSET + 0x150, 0) else 0;
      var descSize := if !wide then 32
                      else if SUPERBLOCK_OFFSET + 0xFE + 2 <= |buf| then U16(buf, SUPERBLOCK_OFFSET + 0xFE)
                      else 0;
      var uuid := if SUPERBLOCK_OFFSET + 0x68 + 16 <= |buf|
                  then buf[SUPERBLOCK_OFFSET + 0x68..SUPERBLOCK_OFFSET + 0x78]
                  else seq(16, _ => 0);
      Some(Geometry(
             BlockSize(U32(buf, SUPERBLOCK_OFFSET + 0x18)),
             low + 0x1_0000_0000 * high,
             U32(buf, SUPERBLOCK_OFFSET + 0x20),
             U32(buf, SUPERBLOCK_OFFSET + 0x14),
             U16(buf, SUPERBLOCK_OFFSET + 0x5A),
             uuid, wide, descSize))
  }

  /** Every copy sits at least 1024 bytes into its filesystem, which is what puts a start before its backups. */
  lemma CopyOffsetAtLeast1024(i: Info)
    ensures i.CopyOffset() >= 1024
  {
    if !i.IsPrimary() {
      var groups := i.group * i.blocksPerGroup;
      assert groups >= 1 by { ProductPositive(i.group, i.blocksPerGroup); }
      var block := SatAdd(i.firstDataBlock, SatMul(i.group, i.blocksPerGroup));
      assert block >= 1;
      ProductAtLeast(block, i.blockSize);
    }
  }

  lemma ProductPositive(a: nat, b: nat)
    requires a >= 1 && b >= 1
    ensures a * b >= 1
  {
  }

  lemma ProductAtLeast(a: nat, b: nat)
    requires a >= 1
    ensures a * b >= b
  {
  }

  // ------------------------------------------------------------------
  // The start check
  // ------------------------------------------------------------------

  datatype InodeLocation = InodeLocation(offset: nat, len: nat)

  predicate IsPowerOfTwoUpTo1024(n: nat) {
    n in {32, 64, 128, 256, 512, 1024}
  }

  predicate WidthPlausible(i: Info) {
    if i.wide then IsPowerOfTwoUpTo1024(i.descSize) else i.descSize == 32
  }

  /** Where the group-0 descriptor ends, measured from the candidate start. */
  function DescriptorEnd(i: Info): nat {
    (i.firstDataBlock + 1) * i.blockSize + i.descSize
  }

  function Descriptor(buf: seq<byte>, i: Info): Option<seq<byte>> {
    var start := (i.firstDataBlock + 1) * i.blockSize;
    if start + i.descSize <= |buf| then Some(buf[start..start + i.descSize]) else None
  }

  function Prefix(buf: seq<byte>): seq<byte> {
    buf[..Min(|buf|, PREFIX_LEN)]
  }

  datatype Evidence = Confirmed(desc: seq<byte>) | Unconfirmed | Inconclusive

  function StartEvidence(describes: (seq<byte>, seq<byte>) -> bool, buf: seq<byte>): Evidence
    requires !Cut(buf)
  {
    if !ProbeExt(buf) then Inconclusive
    else
      var info := Parse(buf).value;
      if !WidthPlausible(info) then Unconfirmed
      else match Descriptor(buf, info)
        case None => Inconclusive
        case Some(desc) => if describes(Prefix(buf), desc) then Confirmed(desc) else Unconfirmed
  }
}

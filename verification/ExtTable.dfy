/**
 How a group-0 descriptor and a root inode are judged: the descriptor by whether its fields fit the geometry of its
 superblock, the inode by what every root directory has. Checksums are not computed here.
 */
module ExtTable {
  import opened Machine
  import opened ExtSuperblock
  import opened MediumWorld

  function U16Or(buf: seq<byte>, off: nat, default: nat): nat {
    if off + 2 <= |buf| then U16(buf, off) else default
  }

  /** Revision 0 has no inode size field: its inodes are 128 bytes. */
  function InodeSize(buf: seq<byte>): nat {
    if U32Or(buf, SUPERBLOCK_OFFSET + 0x4C, 1) == 0 then 128 else U16Or(buf, SUPERBLOCK_OFFSET + 0x58, 0)
  }

  function InodesPerGroup(buf: seq<byte>): nat {
    U32Or(buf, SUPERBLOCK_OFFSET + 0x28, 0)
  }

  /** A block number of the descriptor, with its high half where there is one. */
  function Block(desc: seq<byte>, low: nat, high: nat, wide: bool): Option<nat> {
    if low + 4 > |desc| || (wide && high + 4 > |desc|) then None
    else Some(U32(desc, low) + if wide then 0x1_0000_0000 * U32(desc, high) else 0)
  }

  predicate IsWide(info: Info) {
    info.wide && info.descSize >= 64
  }

  function BlockBitmap(info: Info, desc: seq<byte>): Option<nat> {
    Block(desc, 0x00, 0x20, IsWide(info))
  }

  function InodeBitmap(info: Info, desc: seq<byte>): Option<nat> {
    Block(desc, 0x04, 0x24, IsWide(info))
  }

  function InodeTable(info: Info, desc: seq<byte>): Option<nat> {
    Block(desc, 0x08, 0x28, IsWide(info))
  }

  function TableBlocks(info: Info, inodes: nat, inodeSize: nat): nat {
    (inodes * inodeSize + info.blockSize - 1) / info.blockSize
  }

  predicate SizesFit(info: Info, inodes: nat, inodeSize: nat) {
    && inodeSize in {128, 256, 512, 1024, 2048, 4096, 8192, 16384, 32768}
    && inodeSize <= info.blockSize && inodes <= info.blockSize * 8
  }

  predicate IsOwnBlock(info: Info, block: Option<nat>) {
    block.Some? && info.firstDataBlock < block.value < info.blocksCount
  }

  predicate BlocksFit(info: Info, desc: seq<byte>, inodes: nat, inodeSize: nat) {
    var blocks, bitmap, table := BlockBitmap(info, desc), InodeBitmap(info, desc), InodeTable(info, desc);
    && IsOwnBlock(info, blocks) && IsOwnBlock(info, bitmap) && IsOwnBlock(info, table)
    && blocks != bitmap && blocks != table && bitmap != table
    && SatAdd(table.value, TableBlocks(info, inodes, inodeSize)) <= info.blocksCount
  }

  /** Counts no larger than the group, and only the three flags there are. */
  predicate CountsFit(info: Info, desc: seq<byte>, inodes: nat) {
    && |desc| >= 0x20 && U16(desc, 0x0C) <= info.blocksPerGroup
    && U16(desc, 0x0E) <= inodes && U16(desc, 0x10) <= inodes && U16(desc, 0x1C) <= inodes
    && U16(desc, 0x12) <= 7
  }

  predicate Structural(buf: seq<byte>, desc: seq<byte>) {
    && !Cut(buf) && Plausible(buf)
    && var info, inodes, inodeSize := Parse(buf).value, InodesPerGroup(buf), InodeSize(buf);
       SizesFit(info, inodes, inodeSize) && BlocksFit(info, desc, inodes, inodeSize) && CountsFit(info, desc, inodes)
  }

  /** The features under which a descriptor also has to carry a checksum. */
  predicate IsChecksummed(buf: seq<byte>) {
    var features := U32Or(buf, SUPERBLOCK_OFFSET + 0x64, 0);
    features / 0x10 % 2 == 1 || features / 0x400 % 2 == 1
  }

  /** Inode 2, the second of the table the descriptor names. */
  function RootInode(buf: seq<byte>, desc: seq<byte>): Option<InodeLocation> {
    if Cut(buf) || !Plausible(buf) || InodeTable(Parse(buf).value, desc).None? then None
    else
      var offset := InodeTable(Parse(buf).value, desc).value * Parse(buf).value.blockSize + InodeSize(buf);
      if offset > U64_MAX then None else Some(InodeLocation(offset, InodeSize(buf)))
  }

  /** A directory, linked at least twice, of some size, never deleted. */
  predicate IsRootDirectory(inode: seq<byte>) {
    && |inode| >= INODE_BASE_LEN
    && U16(inode, 0x00) / 0x1000 == 4 && U16(inode, 0x1A) >= 2 && U32(inode, 0x04) > 0 && U32(inode, 0x14) == 0
  }

  /** Probes that judge a start this way, whatever they make of checksums and of other formats. */
  ghost predicate JudgesStarts(pr: Probes) {
    && (forall buf, desc :: pr.describes(buf, desc) ==> Structural(buf, desc))
    && (forall buf, desc :: Structural(buf, desc) && !IsChecksummed(buf) ==> pr.describes(buf, desc))
    && (forall buf, desc :: pr.rootInode(buf, desc) == RootInode(buf, desc))
    && (forall inode :: pr.directory(inode) == IsRootDirectory(inode))
  }

  // ------------------------------------------------------------------
  // Where a believed descriptor puts the root inode
  // ------------------------------------------------------------------

  /**
   A structural descriptor puts the root inode inside the inode table it describes, unless the group has one inode
   that fills a block; then inode 2 begins where the table ends.
   */
  lemma RootInodeIsInItsTableIff(buf: seq<byte>, desc: seq<byte>)
    requires Structural(buf, desc) && RootInode(buf, desc).Some?
    ensures
      var info, location := Parse(buf).value, RootInode(buf, desc).value;
      var table, blocks := InodeTable(info, desc).value, TableBlocks(info, InodesPerGroup(buf), InodeSize(buf));
      && table * info.blockSize <= location.offset
      && (location.offset + location.len <= (table + blocks) * info.blockSize
          <==> !(InodesPerGroup(buf) == 1 && InodeSize(buf) == info.blockSize))
  {
    var info, inodes, size := Parse(buf).value, InodesPerGroup(buf), InodeSize(buf);
    BlockSizes(U32(buf, SUPERBLOCK_OFFSET + 0x18));
    TableHoldsTwoIff(info, inodes, size);
    var table, blocks := InodeTable(info, desc).value, TableBlocks(info, inodes, size);
    assert (table + blocks) * info.blockSize == table * info.blockSize + blocks * info.blockSize;
  }

  lemma BlockSizes(log: nat)
    requires log <= 6
    ensures BlockSize(log) in {1024, 2048, 4096, 8192, 16384, 32768, 65536}
  {
  }

  lemma TableHoldsTwoIff(info: Info, inodes: nat, size: nat)
    requires info.blockSize in {1024, 2048, 4096, 8192, 16384, 32768, 65536}
    requires SizesFit(info, inodes, size) && inodes >= 1
    ensures 2 * size <= TableBlocks(info, inodes, size) * info.blockSize <==> !(inodes == 1 && size == info.blockSize)
  {
    var bytes := inodes * size;
    if inodes == 1 {
      assert bytes == size;
      OneBlock(size, info.blockSize);
    } else {
      assert bytes >= 2 * size by { assert bytes == 2 * size + (inodes - 2) * size; }
      RoundsUp(bytes, info.blockSize);
    }
  }

  lemma OneBlock(n: nat, block: nat)
    requires 1 <= n <= block
    ensures (n + block - 1) / block == 1
  {
    var over := n - 1;
    assert n + block - 1 == block + over;
  }

  lemma RoundsUp(n: nat, block: nat)
    requires block >= 1
    ensures (n + block - 1) / block * block >= n
  {
  }
}

/** Reading one GPT partition entry with whole, aligned sectors. */
module GptEntry {
  import opened Machine

  const ENTRY_BYTES: nat := 128

  type u32 = n: nat | n < 0x1_0000_0000

  datatype Header = Header(entries: u32, entrySize: u32, entryLba: u64)

  datatype Access = Access(offset: nat, length: nat)

  datatype GptError = OutOfRange | EntryTooSmall | OffsetOverflow | ReadFailed | Panicked

  /** A raw disk: some accesses fail, and a read past the end is an error. */
  class RawDisk {
    const contents: seq<byte>
    const fails: Access -> bool
    var cursor: nat
    ghost var log: seq<Access>

    constructor (contents: seq<byte>, fails: Access -> bool)
      ensures this.contents == contents && this.fails == fails && log == []
    {
      this.contents, this.fails := contents, fails;
      cursor := 0;
      log := [];
    }

    predicate Readable(offset: nat, length: nat) {
      offset + length <= |contents| && !fails(Access(offset, length))
    }

    method Seek(to: nat)
      modifies this
      ensures cursor == to && log == old(log)
    {
      cursor := to;
    }

    /** `read_exact` */
    method ReadExact(length: nat) returns (r: Option<seq<byte>>)
      modifies this
      ensures log == old(log) + [Access(old(cursor), length)]
      ensures r.Some? <==> Readable(old(cursor), length)
      ensures r.Some? ==> r.value == contents[old(cursor)..old(cursor) + length] && cursor == old(cursor) + length
    {
      log := log + [Access(cursor, length)];
      if !Readable(cursor, length) {
        return None;
      }
      r := Some(contents[cursor..cursor + length]);
      cursor := cursor + length;
    }
  }

  /** Where an entry lies on the disk. */
  function EntryOffset(header: Header, sectorSize: u32, index: nat): nat {
    header.entryLba * sectorSize + index * header.entrySize
  }

  /** The checks made before anything is read. */
  function Refusal(header: Header, sectorSize: u32, index: nat): Option<GptError> {
    if index >= header.entries then Some(OutOfRange)
    else if header.entrySize < ENTRY_BYTES then Some(EntryTooSmall)
    else if EntryOffset(header, sectorSize, index) > U64_MAX then Some(OffsetOverflow)
    else None
  }

  /** An entry begins `within` bytes into the sector at `start`. */
  datatype Place = Place(start: nat, within: nat)

  function PlaceOf(sectorSize: nat, at: nat): Place
    requires sectorSize > 0
  {
    Place(at / sectorSize * sectorSize, at % sectorSize)
  }

  lemma PlaceIsExact(sectorSize: nat, at: nat)
    requires sectorSize > 0
    ensures
      var p := PlaceOf(sectorSize, at);
      p.start + p.within == at && p.within < sectorSize && Aligned(sectorSize, p.start)
  {
    assert Multiple(sectorSize, at / sectorSize, PlaceOf(sectorSize, at).start);
  }

  predicate Multiple(sectorSize: nat, k: nat, offset: nat) {
    offset == k * sectorSize
  }

  ghost predicate Aligned(sectorSize: nat, offset: nat) {
    exists k: nat :: Multiple(sectorSize, k, offset)
  }

  lemma NextIsAligned(sectorSize: nat, offset: nat)
    requires Aligned(sectorSize, offset)
    ensures Aligned(sectorSize, offset + sectorSize)
  {
    var k: nat :| Multiple(sectorSize, k, offset);
    assert Multiple(sectorSize, k + 1, offset + sectorSize);
  }

  ghost predicate WholeSector(sectorSize: nat, access: Access) {
    access.length == sectorSize && Aligned(sectorSize, access.offset)
  }

  ghost predicate OnlyWholeSectors(sectorSize: nat, before: seq<Access>, after: seq<Access>) {
    before <= after && forall i :: |before| <= i < |after| ==> WholeSector(sectorSize, after[i])
  }

  predicate Straddles(sectorSize: nat, p: Place) {
    p.within + ENTRY_BYTES > sectorSize
  }

  /** The sector that holds the entry's first byte and, if it straddles, the next can be read. */
  predicate SectorsReadable(disk: RawDisk, sectorSize: nat, p: Place) {
    disk.Readable(p.start, sectorSize) && (Straddles(sectorSize, p) ==> disk.Readable(p.start + sectorSize, sectorSize))
  }

  /** Two sectors are enough for an entry exactly when it does not run past the second. */
  predicate TwoSectorsSuffice(sectorSize: nat, p: Place) {
    p.within + ENTRY_BYTES <= 2 * sectorSize
  }

  /** Assemble the entry from the sector it begins in and, if need be, the one after. */
  method ReadEntry(disk: RawDisk, sectorSize: nat, p: Place) returns (r: Result<seq<byte>, GptError>)
    requires p.within < sectorSize && Aligned(sectorSize, p.start)
    modifies disk
    ensures r.Ok? ==>
      var at := p.start + p.within;
      at + ENTRY_BYTES <= |disk.contents| && r.value == disk.contents[at..at + ENTRY_BYTES]
    ensures
      if !SectorsReadable(disk, sectorSize, p) then r == Err(ReadFailed)
      else if !TwoSectorsSuffice(sectorSize, p) then r == Err(Panicked)
      else r.Ok?
    ensures OnlyWholeSectors(sectorSize, old(disk.log), disk.log)
  {
    NextIsAligned(sectorSize, p.start);
    disk.Seek(p.start);
    var sector := disk.ReadExact(sectorSize);
    assert OnlyWholeSectors(sectorSize, old(disk.log), disk.log);
    if sector.None? {
      return Err(ReadFailed);
    }
    ghost var contents, end := disk.contents, p.start + sectorSize;
    assert sector.value == contents[p.start..end];
    if p.within + ENTRY_BYTES > sectorSize {
      var firstPart := sectorSize - p.within;
      var next := disk.ReadExact(sectorSize);
      assert OnlyWholeSectors(sectorSize, old(disk.log), disk.log);
      if next.None? {
        return Err(ReadFailed);
      }
      if ENTRY_BYTES - firstPart > sectorSize {
        return Err(Panicked);
      }
      assert next.value == contents[end..end + sectorSize];
      Straddling(contents, p.start, p.within, sectorSize, sector.value, next.value);
      r := Ok(sector.value[p.within..] + next.value[..ENTRY_BYTES - firstPart]);
    } else {
      Inside(contents, p.start, p.within, sectorSize, sector.value);
      r := Ok(sector.value[p.within..p.within + ENTRY_BYTES]);
    }
  }

  lemma Inside(contents: seq<byte>, start: nat, within: nat, sectorSize: nat, sector: seq<byte>)
    requires within + ENTRY_BYTES <= sectorSize && start + sectorSize <= |contents|
    requires sector == contents[start..start + sectorSize]
    ensures sector[within..within + ENTRY_BYTES] == contents[start + within..start + within + ENTRY_BYTES]
  {
    var entry, bytes := sector[within..within + ENTRY_BYTES], contents[start + within..start + within + ENTRY_BYTES];
    forall i | 0 <= i < ENTRY_BYTES
      ensures entry[i] == bytes[i]
    {
      assert entry[i] == sector[within + i];
    }
  }

  /** The end of one sector and the start of the next are consecutive bytes. */
  lemma Straddling(contents: seq<byte>, start: nat, within: nat, sectorSize: nat, sector: seq<byte>, next: seq<byte>)
    requires within < sectorSize && start + sectorSize + sectorSize <= |contents|
    requires sectorSize < within + ENTRY_BYTES <= 2 * sectorSize
    requires sector == contents[start..start + sectorSize]
    requires next == contents[start + sectorSize..start + sectorSize + sectorSize]
    ensures sector[within..] + next[..ENTRY_BYTES - (sectorSize - within)] ==
      contents[start + within..start + within + ENTRY_BYTES]
  {
  }

  /** `gpt_partition` up to the interpretation of the 128 bytes. */
  method GptPartition(disk: RawDisk, header: Header, sectorSize: u32, index: nat)
    returns (r: Result<seq<byte>, GptError>)
    modifies disk
    // The bytes are the disk's own, wherever they fall among the sectors.
    ensures r.Ok? ==>
      var at := EntryOffset(header, sectorSize, index);
      at + ENTRY_BYTES <= |disk.contents| && r.value == disk.contents[at..at + ENTRY_BYTES]
    // Every outcome, by what the header, the sector size and the disk allow.
    ensures
      match Refusal(header, sectorSize, index)
      case Some(e) => r == Err(e) && disk.log == old(disk.log)
      case None =>
        if sectorSize == 0 then r == Err(Panicked)
        else
          var p := PlaceOf(sectorSize, EntryOffset(header, sectorSize, index));
          if !SectorsReadable(disk, sectorSize, p) then r == Err(ReadFailed)
          else if !TwoSectorsSuffice(sectorSize, p) then r == Err(Panicked)
          else r.Ok?
    // Nothing but whole, aligned sectors is ever asked for.
    ensures OnlyWholeSectors(sectorSize, old(disk.log), disk.log)
  {
    if index >= header.entries {
      return Err(OutOfRange);
    }
    if header.entrySize < ENTRY_BYTES {
      return Err(EntryTooSmall);
    }
    var at := EntryOffset(header, sectorSize, index);
    if at > U64_MAX {
      return Err(OffsetOverflow);
    }
    if sectorSize == 0 {
      return Err(Panicked);
    }
    PlaceIsExact(sectorSize, at);
    r := ReadEntry(disk, sectorSize, PlaceOf(sectorSize, at));
  }

  /** No entry ever needs a third sector iff a sector holds all but one byte of an entry. */
  lemma TwoSectorsAlwaysSufficeIff(sectorSize: nat)
    requires sectorSize > 0
    ensures (forall at: nat :: TwoSectorsSuffice(sectorSize, PlaceOf(sectorSize, at))) <==>
      sectorSize >= ENTRY_BYTES - 1
  {
    forall at: nat
      ensures PlaceOf(sectorSize, at).within < sectorSize
    {
      PlaceIsExact(sectorSize, at);
    }
    LastByteOfSector(sectorSize);
    assert PlaceOf(sectorSize, sectorSize - 1).within == sectorSize - 1;
  }

  lemma LastByteOfSector(sectorSize: nat)
    requires sectorSize > 0
    ensures (sectorSize - 1) % sectorSize == sectorSize - 1
  {
  }
}

/**
 From hits to something openable: the three places that number a scan's hits agree, and an ordinal resolves to the
 window that was numbered.
 */
module Layout {
  import opened Machine
  import opened Hits
  import opened ScanModel
  import opened ScanTheorems
  import opened MediumWorld
  import opened ScanEngine
  import opened ScanPass
  import opened StableSort

  /** One row of the `scan` report. */
  datatype Row = Row(ordinal: Option<nat>, hit: Hit)

  /** One entry of a scanned layout. */
  datatype Entry = Entry(ordinal: Option<nat>, offset: nat, size: nat, missing: nat, headAbsent: Option<nat>)
  {
    function Available(): nat {
      SatSub(size, missing)
    }

    predicate IsBeyondEnd() {
      Available() == 0
    }
  }

  /** How much of an extent lies past the end of the medium, as far as its length is known. */
  function MissingBytes(offset: nat, size: nat, media: Option<nat>): nat {
    if media.None? then 0 else Min(SatSub(SatAdd(offset, size), media.value), size)
  }

  predicate Listed(hit: Hit) {
    hit.MountOffset().Some? || hit.HeadAbsent().Some?
  }

  function EntryOf(hit: Hit, ordinal: Option<nat>, media: Option<nat>): Entry {
    var head := hit.HeadAbsent();
    var offset := if head.Some? then 0 else if hit.MountOffset().Some? then hit.MountOffset().value else hit.offset;
    var rest := if media.Some? then SatSub(media.value, offset) else 0;
    var claimed := if hit.size.Some? then hit.size.value else rest;
    Entry(ordinal, offset, claimed, MissingBytes(offset, claimed, media), head)
  }

  // ------------------------------------------------------------------
  // The numberings
  // ------------------------------------------------------------------

  function Rows(hits: seq<Hit>, next: nat): seq<Row> {
    if hits == [] then []
    else
      var numbered := hits[0].MountOffset().Some?;
      [Row(if numbered then Some(next) else None, hits[0])] + Rows(hits[1..], if numbered then next + 1 else next)
  }

  function Entries(hits: seq<Hit>, media: Option<nat>, next: nat): seq<Entry> {
    if hits == [] then []
    else if !Listed(hits[0]) then Entries(hits[1..], media, next)
    else
      var numbered := hits[0].HeadAbsent().None?;
      [EntryOf(hits[0], if numbered then Some(next) else None, media)]
      + Entries(hits[1..], media, if numbered then next + 1 else next)
  }

  method HitEntries(hits: seq<Hit>) returns (rows: seq<Row>)
    ensures rows == Rows(hits, 0)
  {
    rows := [];
    var ordinal := 0;
    for i := 0 to |hits|
      invariant rows + Rows(hits[i..], ordinal) == Rows(hits, 0)
    {
      assert hits[i..][1..] == hits[i + 1..];
      if hits[i].MountOffset().Some? {
        rows := rows + [Row(Some(ordinal), hits[i])];
        ordinal := ordinal + 1;
      } else {
        rows := rows + [Row(None, hits[i])];
      }
    }
  }

  method LayoutFromHits(hits: seq<Hit>, media: Option<nat>) returns (entries: seq<Entry>)
    ensures entries == Entries(hits, media, 0)
  {
    entries := [];
    var ordinals := 0;
    for i := 0 to |hits|
      invariant entries + Entries(hits[i..], media, ordinals) == Entries(hits, media, 0)
    {
      assert hits[i..][1..] == hits[i + 1..];
      if Listed(hits[i]) {
        if hits[i].HeadAbsent().None? {
          entries := entries + [EntryOf(hits[i], Some(ordinals), media)];
          ordinals := ordinals + 1;
        } else {
          entries := entries + [EntryOf(hits[i], None, media)];
        }
      }
    }
  }

  /** Ordinal and offset of every numbered item, in order. */
  datatype Number = Number(ordinal: nat, offset: nat)

  function OfMountable(hits: seq<Hit>, next: nat): seq<Number>
    requires forall hit :: hit in hits ==> hit.MountOffset().Some?
  {
    if hits == [] then [] else [Number(next, hits[0].MountOffset().value)] + OfMountable(hits[1..], next + 1)
  }

  function OfRows(rows: seq<Row>): seq<Number> {
    if rows == [] then []
    else if rows[0].ordinal.Some? && rows[0].hit.MountOffset().Some? then
      [Number(rows[0].ordinal.value, rows[0].hit.MountOffset().value)] + OfRows(rows[1..])
    else OfRows(rows[1..])
  }

  function OfEntries(entries: seq<Entry>): seq<Number> {
    if entries == [] then []
    else if entries[0].ordinal.Some? then
      [Number(entries[0].ordinal.value, entries[0].offset)] + OfEntries(entries[1..])
    else OfEntries(entries[1..])
  }

  lemma {:induction false} MountableHitsAre(hits: seq<Hit>)
    ensures forall hit :: hit in MountableHits(hits) ==> hit.MountOffset().Some? && hit in hits
  {
    if hits != [] {
      MountableHitsAre(hits[1..]);
    }
  }

  /** No hit both starts on the medium and begins before it. */
  ghost predicate OneSided(hits: seq<Hit>) {
    forall hit :: hit in hits ==> hit.MountOffset().None? || hit.HeadAbsent().None?
  }

  lemma {:induction false} RowsFollowMountable(hits: seq<Hit>, next: nat)
    ensures forall hit :: hit in MountableHits(hits) ==> hit.MountOffset().Some?
    ensures OfRows(Rows(hits, next)) == OfMountable(MountableHits(hits), next)
    decreases |hits|
  {
    MountableHitsAre(hits);
    if hits != [] {
      var rows := Rows(hits, next);
      var numbered := hits[0].MountOffset().Some?;
      assert rows[1..] == Rows(hits[1..], if numbered then next + 1 else next);
      RowsFollowMountable(hits[1..], if numbered then next + 1 else next);
      if numbered {
        assert MountableHits(hits)[1..] == MountableHits(hits[1..]);
      }
    }
  }

  lemma {:induction false} EntriesFollowMountable(hits: seq<Hit>, media: Option<nat>, next: nat)
    requires OneSided(hits)
    ensures forall hit :: hit in MountableHits(hits) ==> hit.MountOffset().Some?
    ensures OfEntries(Entries(hits, media, next)) == OfMountable(MountableHits(hits), next)
    decreases |hits|
  {
    MountableHitsAre(hits);
    if hits != [] {
      assert hits[0] in hits;
      assert forall hit :: hit in hits[1..] ==> hit in hits;
      if hits[0].MountOffset().Some? {
        EntriesFollowMountable(hits[1..], media, next + 1);
        EntriesCons(hits, media, next, Some(next), next + 1);
        assert MountableHits(hits)[1..] == MountableHits(hits[1..]);
      } else {
        EntriesFollowMountable(hits[1..], media, next);
        if Listed(hits[0]) {
          EntriesCons(hits, media, next, None, next);
        }
      }
    }
  }

  lemma {:induction false} EntriesNumberFewer(hits: seq<Hit>, media: Option<nat>, next: nat)
    ensures |OfEntries(Entries(hits, media, next))| <= |MountableHits(hits)|
    ensures !OneSided(hits) ==> |OfEntries(Entries(hits, media, next))| < |MountableHits(hits)|
    decreases |hits|
  {
    if hits != [] {
      var numbered := hits[0].HeadAbsent().None? && Listed(hits[0]);
      EntriesNumberFewer(hits[1..], media, if numbered then next + 1 else next);
      if Listed(hits[0]) {
        assert Entries(hits, media, next)[1..] == Entries(hits[1..], media, if numbered then next + 1 else next);
      }
    }
  }

  lemma {:induction false} OfMountableLength(hits: seq<Hit>, next: nat)
    requires forall hit :: hit in hits ==> hit.MountOffset().Some?
    ensures |OfMountable(hits, next)| == |hits|
    ensures forall k :: 0 <= k < |hits| ==> OfMountable(hits, next)[k] == Number(next + k, hits[k].MountOffset().value)
    decreases |hits|
  {
    if hits != [] {
      OfMountableLength(hits[1..], next + 1);
    }
  }

  /**
   The report, the mountable list and the layout carry the same dense numbering with the same offsets iff no hit both
   starts on the medium and begins before it.
   */
  lemma NumberingsAgreeIff(hits: seq<Hit>, media: Option<nat>)
    ensures forall hit :: hit in MountableHits(hits) ==> hit.MountOffset().Some?
    ensures OfRows(Rows(hits, 0)) == OfMountable(MountableHits(hits), 0)
    ensures OfEntries(Entries(hits, media, 0)) == OfRows(Rows(hits, 0)) <==> OneSided(hits)
    ensures |OfMountable(MountableHits(hits), 0)| == |MountableHits(hits)|
    ensures forall k :: 0 <= k < |MountableHits(hits)| ==>
              OfMountable(MountableHits(hits), 0)[k] == Number(k, MountableHits(hits)[k].MountOffset().value)
  {
    RowsFollowMountable(hits, 0);
    OfMountableLength(MountableHits(hits), 0);
    EntriesNumberFewer(hits, media, 0);
    if OneSided(hits) {
      EntriesFollowMountable(hits, media, 0);
    }
  }

  // ------------------------------------------------------------------
  // Looking an ordinal up
  // ------------------------------------------------------------------

  function Find(entries: seq<Entry>, ordinal: nat): Option<Entry> {
    if entries == [] then None
    else if entries[0].ordinal == Some(ordinal) then Some(entries[0])
    else Find(entries[1..], ordinal)
  }

  datatype LocateError = NotFound(available: nat) | OutOfRange(offset: nat)

  datatype Located = Located(offset: nat, declared: nat, available: nat)

  function Locate(entries: seq<Entry>, size: nat, ordinal: nat): Result<Located, LocateError> {
    match Find(entries, ordinal)
    case None => Err(NotFound(|OfEntries(entries)|))
    case Some(entry) =>
      if entry.offset >= size then Err(OutOfRange(entry.offset))
      else Ok(Located(entry.offset, entry.size, entry.Available()))
  }

  /** The extent a drive partition is opened with; a size of 0 means the drive would not say. */
  function ScannedExtent(entries: seq<Entry>, size: nat, ordinal: nat): Option<(nat, nat)> {
    match Find(entries, ordinal)
    case None => None
    case Some(entry) =>
      var length := if entry.Available() > 0 then entry.Available()
                    else if size > entry.offset then size - entry.offset
                    else U64_MAX;
      Some((entry.offset, length))
  }

  /** Ordinal lookup finds the entry of the hit that carries the number. */
  lemma {:induction false} FindIsMountable(hits: seq<Hit>, media: Option<nat>, next: nat, k: nat)
    requires OneSided(hits)
    ensures Find(Entries(hits, media, next), k)
         == if next <= k < next + |MountableHits(hits)| then
           Some(EntryOf(MountableHits(hits)[k - next], Some(k), media))
            else None
    decreases |hits|
  {
    if hits != [] {
      assert hits[0] in hits;
      assert forall hit :: hit in hits[1..] ==> hit in hits;
      if hits[0].MountOffset().Some? {
        FindIsMountable(hits[1..], media, next + 1, k);
        EntriesCons(hits, media, next, Some(next), next + 1);
      } else {
        FindIsMountable(hits[1..], media, next, k);
        if Listed(hits[0]) {
          EntriesCons(hits, media, next, None, next);
        }
      }
    }
  }

  lemma EntriesCons(hits: seq<Hit>, media: Option<nat>, next: nat, ordinal: Option<nat>, after: nat)
    requires hits != [] && Listed(hits[0])
    requires ordinal == (if hits[0].HeadAbsent().None? then Some(next) else None)
    requires after == (if hits[0].HeadAbsent().None? then next + 1 else next)
    ensures Entries(hits, media, next) != [] && Entries(hits, media, next)[0] == EntryOf(hits[0], ordinal, media)
    ensures Entries(hits, media, next)[1..] == Entries(hits[1..], media, after)
  {
  }

  /** A non-empty available extent ends within the medium iff the claimed end fits in 64 bits. */
  lemma AvailableEndsWithinIff(entry: Entry, media: nat)
    requires entry.missing == MissingBytes(entry.offset, entry.size, Some(media)) && entry.Available() > 0
    requires media <= U64_MAX
    ensures entry.offset + entry.Available() <= media <==> entry.offset + entry.size <= U64_MAX
    ensures entry.offset + entry.size <= U64_MAX ==> entry.offset < media
  {
  }

  // ------------------------------------------------------------------
  // Scanned media
  // ------------------------------------------------------------------

  /** What a scan that ends well reports, with the doubted starts `spared` whose root inodes could not be read. */
  ghost function ScannedHits(pr: Probes, media: seq<byte>, length: nat, stride: nat, spared: set<nat>): seq<Hit>
    requires stride >= 1
  {
    var w := ScanWorld(pr, media, length, stride, ChunkCapacity(length, stride));
    InOffsetOrder(Run(Sparing(w, spared), EMPTY, Grid(stride, Limit(|media|, length), 0)).hits)
  }

  lemma ScannedHitsAreOneSided(pr: Probes, media: seq<byte>, length: nat, stride: nat, spared: set<nat>)
    requires stride >= 1 && |media| <= U64_MAX && length <= U64_MAX
    ensures OneSided(ScannedHits(pr, media, length, stride, spared))
    ensures forall hit :: hit in ScannedHits(pr, media, length, stride, spared) && hit.MountOffset().Some? ==>
              hit.MountOffset().value < |media|
  {
    var capacity := ChunkCapacity(length, stride);
    var w := Sparing(ScanWorld(pr, media, length, stride, capacity), spared);
    var grid := Grid(stride, Limit(|media|, length), 0);
    var hits := Run(w, EMPTY, grid).hits;
    ScanIsSane(pr, media, length, stride, capacity, spared);
    GridIsExact(stride, Limit(|media|, length), 0);
    SortByKeepsElements(hits, Offset);
    forall hit | hit in ScannedHits(pr, media, length, stride, spared) && hit.MountOffset().Some?
      ensures hit.MountOffset().value < |media| && hit.HeadAbsent().None?
    {
      assert hit in hits;
      MountOffsetIsOnTheMedium(w, grid, hit, |media|);
    }
  }

  /**
   On every scanned medium the numberings agree, every number resolves to the hit that carries it, inside the medium,
   and no other number resolves to anything.
   */
  lemma ScannedOrdinalsResolve(pr: Probes, media: seq<byte>, length: nat, stride: nat, spared: set<nat>, k: nat)
    requires stride >= 1 && |media| <= U64_MAX && length <= U64_MAX
    ensures
      var hits := ScannedHits(pr, media, length, stride, spared);
      var entries := Entries(hits, Some(|media|), 0);
      && OfEntries(entries) == OfRows(Rows(hits, 0))
      && (k < |MountableHits(hits)| ==>
            && MountableHits(hits)[k].MountOffset().Some?
            && Locate(entries, |media|, k).Ok?
            && Locate(entries, |media|, k).value.offset == MountableHits(hits)[k].MountOffset().value)
      && (k >= |MountableHits(hits)| ==> Locate(entries, |media|, k) == Err(NotFound(|MountableHits(hits)|)))
  {
    var hits := ScannedHits(pr, media, length, stride, spared);
    ScannedHitsAreOneSided(pr, media, length, stride, spared);
    NumberingsAgreeIff(hits, Some(|media|));
    OfMountableLength(MountableHits(hits), 0);
    FindIsMountable(hits, Some(|media|), 0, k);
    MountableHitsAre(hits);
    if k < |MountableHits(hits)| {
      assert MountableHits(hits)[k] in hits;
    }
  }

  /** An ordinal opened on a drive of known size gets a window that ends on the drive, unless its claim overflows. */
  lemma ScannedExtentIsOnTheDrive(entries: seq<Entry>, size: nat, k: nat)
    requires 0 < size <= U64_MAX
    requires forall e :: e in entries ==> e.missing == MissingBytes(e.offset, e.size, Some(size))
    requires Find(entries, k).Some? && Find(entries, k).value.offset < size
    ensures
      var entry := Find(entries, k).value;
      var (offset, length) := ScannedExtent(entries, size, k).value;
      && offset == entry.offset
      && (offset + length <= size <==> entry.offset + entry.size <= U64_MAX)
  {
    FindIsListed(entries, k);
    var entry := Find(entries, k).value;
    if entry.Available() > 0 {
      AvailableEndsWithinIff(entry, size);
    }
  }

  lemma {:induction false} FindIsListed(entries: seq<Entry>, k: nat)
    requires Find(entries, k).Some?
    ensures Find(entries, k).value in entries
  {
    if entries[0].ordinal != Some(k) {
      FindIsListed(entries[1..], k);
    }
  }
}

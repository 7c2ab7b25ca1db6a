/**
 The copies listed under a hit are documented as being in offset order. They are, on every medium, exactly when the
 stride divides the 1024-byte lead-in (or is too large for a second position to have a copy ahead of it): otherwise
 one position can record the copy ahead of it before the copy at it.
 */
module ScanOrder {
  import opened Machine
  import opened ExtSuperblock
  import opened Hits
  import opened ScanModel
  import opened ScanInvariants
  import opened ScanConservation
  import opened ScanTheorems
  import opened ScanPass
  import opened MediumWorld
  import opened ScanEngine
  import opened Specimens
  import opened StableSort

  /** The hit's copies ascend, and a lone copy precedes the ones folded into it. */
  ghost predicate InOrder(hit: Hit) {
    && (forall i, j :: 0 <= i < j < |hit.backups| ==> hit.backups[i].offset < hit.backups[j].offset)
    && (hit.kind.LoneBackup? ==> forall i :: 0 <= i < |hit.backups| ==> hit.offset < hit.backups[i].offset)
  }

  ghost predicate AllInOrder(hits: seq<Hit>) {
    forall i :: 0 <= i < |hits| ==> InOrder(hits[i])
  }

  ghost predicate CopiesBelow(hit: Hit, b: nat) {
    && (hit.kind.LoneBackup? ==> hit.offset < b)
    && (forall i :: 0 <= i < |hit.backups| ==> hit.backups[i].offset < b)
  }

  ghost predicate OrderedBelow(s: Scan, b: nat) {
    AllInOrder(s.hits) && forall i :: 0 <= i < |s.hits| ==> CopiesBelow(s.hits[i], b)
  }

  /** Recording something found adds a hit without copies, or changes the kind of one that is no lone copy. */
  ghost predicate SameCopies(s: seq<Hit>, t: seq<Hit>) {
    && |s| <= |t|
    && (forall i :: 0 <= i < |s| ==>
      t[i].backups == s[i].backups && t[i].offset == s[i].offset && (t[i].kind.LoneBackup? <==> s[i].kind.LoneBackup?))
    && (forall i :: |s| <= i < |t| ==> t[i].backups == [] && !t[i].kind.LoneBackup?)
  }

  lemma CopyKeepsCopies(s: Scan, p: nat, claimed: nat, uuid: Uuid)
    ensures SameCopies(s.hits, RecordCopy(s, p, claimed, uuid).hits)
  {
  }

  lemma DetectKeepsCopies(w: World, s: Scan, p: nat)
    ensures SameCopies(s.hits, Detect(w, s, p).hits)
  {
    if w.found(p).Some? && w.found(p).value.ExtPrimary? {
      var found := w.found(p).value;
      CopyKeepsCopies(s, p, found.claimed, found.uuid);
      CopyKeepsCopies(s.(demoted := s.demoted + [p]), p, found.claimed, found.uuid);
    }
  }

  lemma DetectOrders(w: World, s: Scan, p: nat, b: nat)
    requires OrderedBelow(s, b)
    ensures OrderedBelow(Detect(w, s, p), b)
  {
    DetectKeepsCopies(w, s, p);
    SameCopiesOrder(s.hits, Detect(w, s, p).hits, b);
  }

  lemma SameCopiesOrder(s: seq<Hit>, t: seq<Hit>, b: nat)
    requires SameCopies(s, t) && AllInOrder(s) && forall i :: 0 <= i < |s| ==> CopiesBelow(s[i], b)
    ensures AllInOrder(t) && forall i :: 0 <= i < |t| ==> CopiesBelow(t[i], b)
  {
    forall i | 0 <= i < |t|
      ensures InOrder(t[i]) && CopiesBelow(t[i], b)
    {
      if i < |s| {
        assert InOrder(s[i]) && CopiesBelow(s[i], b);
      }
    }
  }

  lemma BackupOrders(w: World, s: Scan, sb: nat)
    requires OrderedBelow(s, sb)
    ensures OrderedBelow(RecordBackup(s, sb, w.info(sb)), sb + 1)
  {
    if IsBackup(w, sb) && sb !in s.seen {
      var info := w.info(sb).value;
      var noted := s.(seen := s.seen + [sb]);
      match Corroborated(noted, sb, info)
      case None =>
        assert CopiesBelow(LoneHit(sb, info), sb + 1);
      case Some(index) =>
        assert InOrder(s.hits[index]) && CopiesBelow(s.hits[index], sb);
        FoldOrders(s.hits[index], Backup(sb, info.group));
        ReplaceOrders(noted, index, Promote(Fold(noted, index, Backup(sb, info.group)), index), sb);
    }
  }

  lemma FoldOrders(hit: Hit, copy: Backup)
    requires InOrder(hit) && CopiesBelow(hit, copy.offset)
    ensures
      var folded := hit.(backups := hit.backups + [copy]);
      && InOrder(folded) && CopiesBelow(folded, copy.offset + 1)
      && (hit.kind.PrimaryCopies? ==>
            InOrder(folded.(kind := Filesystem(Ext))) && CopiesBelow(folded.(kind := Filesystem(Ext)), copy.offset + 1))
  {
  }

  lemma ReplaceOrders(s: Scan, index: nat, t: Scan, sb: nat)
    requires OrderedBelow(s, sb) && index < |s.hits| && |t.hits| == |s.hits|
    requires forall i :: 0 <= i < |s.hits| && i != index ==> t.hits[i] == s.hits[i]
    requires InOrder(t.hits[index]) && CopiesBelow(t.hits[index], sb + 1)
    ensures OrderedBelow(t, sb + 1)
  {
    forall i | 0 <= i < |t.hits|
      ensures InOrder(t.hits[i]) && CopiesBelow(t.hits[i], sb + 1)
    {
      assert i != index ==> CopiesBelow(s.hits[i], sb);
    }
  }

  lemma AheadOrders(w: World, s: Scan, p: nat)
    requires Sane(w) && OrderedBelow(s, p + LEAD_IN)
    ensures OrderedBelow(Ahead(w, s, p), p + LEAD_IN + 1)
  {
    DetectOrders(w, s, p, p + LEAD_IN);
    AheadOffset(w, Detect(w, s, p), p);
    BackupOrders(w, Detect(w, s, p), p + LEAD_IN);
  }

  lemma AheadRemembers(w: World, s: Scan, p: nat)
    ensures forall sb :: sb in s.seen ==> sb in Ahead(w, s, p).seen
  {
  }

  /** When the copy at a position was already met from behind, its own probe changes nothing. */
  lemma StepOrders(w: World, s: Scan, p: nat)
    requires Sane(w) && OrderedBelow(s, p + LEAD_IN)
    requires p >= LEAD_IN && IsBackup(w, p) ==> p in s.seen
    ensures OrderedBelow(Step(w, s, p), p + LEAD_IN + 1)
  {
    AheadOrders(w, s, p);
    AheadRemembers(w, s, p);
  }

  /** Every position a lead-in or more along has the position one lead-in earlier before it. */
  ghost predicate LeadInClosed(positions: seq<nat>) {
    forall p :: p in positions && p >= LEAD_IN ==> p - LEAD_IN in positions
  }

  /** The copy at a position was met from one lead-in behind. */
  lemma SeenFromBehind(w: World, positions: seq<nat>, k: nat)
    requires Sane(w) && Increasing(positions) && LeadInClosed(positions) && k < |positions|
    requires positions[k] >= LEAD_IN && IsBackup(w, positions[k])
    ensures positions[k] in Run(w, EMPTY, positions[..k]).seen
  {
    PrefixIncreasing(positions, k);
    RunAccounts(w, EMPTY, positions[..k], 0, positions[k], false);
    EarlierInPrefix(positions, k);
  }

  lemma NextOrders(w: World, positions: seq<nat>, k: nat)
    requires Sane(w) && Increasing(positions) && LeadInClosed(positions) && k < |positions|
    requires OrderedBelow(Run(w, EMPTY, positions[..k]), positions[k] + LEAD_IN)
    ensures OrderedBelow(Run(w, EMPTY, positions[..k + 1]), positions[k] + LEAD_IN + 1)
  {
    if positions[k] >= LEAD_IN && IsBackup(w, positions[k]) {
      SeenFromBehind(w, positions, k);
    }
    StepOrders(w, Run(w, EMPTY, positions[..k]), positions[k]);
    RunSnoc(w, positions, k);
  }

  lemma {:induction false} RunOrders(w: World, positions: seq<nat>, k: nat)
    requires Sane(w) && Increasing(positions) && LeadInClosed(positions) && k <= |positions|
    ensures OrderedBelow(Run(w, EMPTY, positions[..k]), Frontier(0, positions[..k]) + LEAD_IN)
    decreases k
  {
    if k > 0 {
      RunOrders(w, positions, k - 1);
      var p, s := positions[k - 1], Run(w, EMPTY, positions[..k - 1]);
      assert Frontier(0, positions[..k - 1]) <= p && Frontier(0, positions[..k]) == p + 1;
      OrderedWeakens(s, Frontier(0, positions[..k - 1]) + LEAD_IN, p + LEAD_IN);
      NextOrders(w, positions, k - 1);
    }
  }

  lemma OrderedWeakens(s: Scan, b: nat, c: nat)
    requires OrderedBelow(s, b) && b <= c
    ensures OrderedBelow(s, c)
  {
    forall i | 0 <= i < |s.hits|
      ensures CopiesBelow(s.hits[i], c)
    {
      assert CopiesBelow(s.hits[i], b);
    }
  }

  lemma EarlierInPrefix(positions: seq<nat>, k: nat)
    requires Increasing(positions) && LeadInClosed(positions) && k < |positions| && positions[k] >= LEAD_IN
    ensures positions[k] - LEAD_IN in positions[..k]
  {
    assert positions[k] in positions;
    assert positions[k] - LEAD_IN in positions;
    var i :| 0 <= i < |positions| && positions[i] == positions[k] - LEAD_IN;
    assert i < k;
    assert positions[..k][i] == positions[i];
  }

  lemma DivisorClosesGrid(stride: nat, limit: nat, k: nat)
    requires stride >= 1 && IsMultiple(LEAD_IN, stride, k)
    ensures LeadInClosed(Grid(stride, limit, 0))
  {
    forall p | p in Grid(stride, limit, 0) && p >= LEAD_IN
      ensures p - LEAD_IN in Grid(stride, limit, 0)
    {
      GridIsExact(stride, limit, p);
      var c: nat :| IsMultiple(p, stride, c);
      MultiplesDiffer(stride, c, k);
      assert IsMultiple(p - LEAD_IN, stride, c - k);
      GridIsExact(stride, limit, p - LEAD_IN);
    }
  }

  lemma MultiplesDiffer(stride: nat, c: nat, k: nat)
    requires stride >= 1 && c * stride >= k * stride
    ensures c >= k && (c - k) * stride == c * stride - k * stride
  {
    if c < k {
      MultipleGrows(c, k, stride);
    }
  }

  // ------------------------------------------------------------------
  // Every report
  // ------------------------------------------------------------------

  /** What the scanner reports of a medium, with the doubted starts `spared` whose root inodes could not be read. */
  ghost function ScanOf(pr: Probes, media: seq<byte>, length: nat, stride: nat, spared: set<nat>)
    : Result<seq<Hit>, ScanError>
    requires stride >= 1
  {
    SparedScan(pr, media, length, stride, ChunkCapacity(length, stride), spared)
  }

  ghost function WorldScanned(pr: Probes, media: seq<byte>, length: nat, stride: nat, spared: set<nat>): World
    requires stride >= 1
  {
    Sparing(ScanWorld(pr, media, length, stride, ChunkCapacity(length, stride)), spared)
  }

  ghost predicate InOrderOn(pr: Probes, media: seq<byte>, length: nat, stride: nat, spared: set<nat>)
    requires stride >= 1
  {
    |media| <= U64_MAX && length <= U64_MAX && ScanOf(pr, media, length, stride, spared).Ok? ==>
      AllInOrder(ScanOf(pr, media, length, stride, spared).value)
  }

  /** On every medium, whatever the probes answer about it, every report lists its copies in offset order. */
  ghost predicate AlwaysInOrder(stride: nat)
    requires stride >= 1
  {
    forall pr: Probes, media: seq<byte>, length: nat, spared: set<nat> :: InOrderOn(pr, media, length, stride, spared)
  }

  lemma SortedInOrderIff(hits: seq<Hit>)
    ensures AllInOrder(InOffsetOrder(hits)) <==> AllInOrder(hits)
  {
    var sorted := InOffsetOrder(hits);
    SortByKeepsElements(hits, Offset);
    forall i | 0 <= i < |hits|
      ensures hits[i] in sorted
    {
      assert hits[i] in hits;
    }
    forall i | 0 <= i < |sorted|
      ensures sorted[i] in hits
    {
      assert sorted[i] in sorted;
    }
  }

  // ------------------------------------------------------------------
  // Strides that keep the order
  // ------------------------------------------------------------------

  lemma DivisorKeepsOrder(pr: Probes, media: seq<byte>, length: nat, stride: nat, spared: set<nat>, k: nat)
    requires stride >= 1 && IsMultiple(LEAD_IN, stride, k)
    ensures InOrderOn(pr, media, length, stride, spared)
  {
    if |media| <= U64_MAX && length <= U64_MAX {
      var w, limit := WorldScanned(pr, media, length, stride, spared), Limit(|media|, length);
      var grid := Grid(stride, limit, 0);
      ScanIsSane(pr, media, length, stride, ChunkCapacity(length, stride), spared);
      GridIsExact(stride, limit, 0);
      DivisorClosesGrid(stride, limit, k);
      RunOrders(w, grid, |grid|);
      assert grid[..|grid|] == grid;
      SortedInOrderIff(Run(w, EMPTY, grid).hits);
    }
  }

  /** No superblock can be read from fewer bytes than the parser needs. */
  lemma ShortTailHasNoInfo(media: seq<byte>, sb: nat)
    requires sb >= LEAD_IN ==> |media| < sb - LEAD_IN + PARSE_MIN_LEN
    ensures InfoAt(media, sb) == None
  {
    if sb >= LEAD_IN && sb - LEAD_IN <= |media| {
      assert |Window(media[sb - LEAD_IN..])| < PARSE_MIN_LEN;
    }
  }

  predicate TooLarge(stride: nat) {
    stride > U64_MAX - PARSE_MIN_LEN
  }

  lemma LargeStepOrders(w: World, s: Scan, p: nat)
    requires Sane(w) && OrderedBelow(s, LEAD_IN + 1) && p > LEAD_IN && w.info(p + LEAD_IN) == None
    ensures OrderedBelow(Step(w, s, p), p + 1)
  {
    var detected := Detect(w, s, p);
    DetectOrders(w, s, p, LEAD_IN + 1);
    OrderedWeakens(detected, LEAD_IN + 1, p);
    BackupOrders(w, detected, p);
  }

  /** With a stride this large there is at most one position after 0, and nothing can be read ahead of it. */
  lemma LargeStrideKeepsOrder(pr: Probes, media: seq<byte>, length: nat, stride: nat, spared: set<nat>)
    requires stride >= 1 && TooLarge(stride)
    ensures InOrderOn(pr, media, length, stride, spared)
  {
    if |media| <= U64_MAX && length <= U64_MAX {
      var w, limit := WorldScanned(pr, media, length, stride, spared), Limit(|media|, length);
      ScanIsSane(pr, media, length, stride, ChunkCapacity(length, stride), spared);
      ShortTailHasNoInfo(Seen(media, length, stride, ChunkCapacity(length, stride)), stride + LEAD_IN);
      LargeRunOrders(w, stride, limit);
      SortedInOrderIff(Run(w, EMPTY, Grid(stride, limit, 0)).hits);
    }
  }

  lemma LargeRunOrders(w: World, stride: nat, limit: nat)
    requires Sane(w) && stride > LEAD_IN && limit <= 2 * stride && w.info(stride + LEAD_IN) == None
    ensures AllInOrder(Run(w, EMPTY, Grid(stride, limit, 0)).hits)
  {
    var first := Step(w, EMPTY, 0);
    StepOrders(w, EMPTY, 0);
    LargeStepOrders(w, first, stride);
    assert Grid(stride, limit, 2 * stride) == [];
    var later := Grid(stride, limit, stride);
    assert later == (if stride < limit then [stride] else []);
    assert Run(w, first, later) == (if stride < limit then Step(w, first, stride) else first);
    if limit > 0 {
      assert Grid(stride, limit, 0) == [0] + later && ([0] + later)[1..] == later;
    }
  }

  // ------------------------------------------------------------------
  // A medium against any other stride
  // ------------------------------------------------------------------

  const NEAR := Copy(0, 0, 0, 1, 0)
  const FAR := Copy(0, 1, 0, 1, 0)

  function ApartByte(r: int): byte {
    if 0 <= r < 1024 then NEAR.Byte(r) else if r >= 1024 then FAR.Byte(r - 1024) else 0
  }

  /** Two copies of one filesystem, at `p` and 1024 bytes on, on a medium that ends with the second. */
  ghost predicate IsApart(media: seq<byte>, p: nat) {
    |media| == p + PARSE_MIN_LEN && forall i :: 0 <= i < |media| ==> media[i] == ApartByte(i - p)
  }

  /** A world that shows those two copies and nothing else. */
  ghost predicate ShowsApart(w: World, p: nat) {
    && w.info(p) == Some(NEAR.Info()) && w.info(p + LEAD_IN) == Some(FAR.Info())
    && (forall sb: nat :: sb != p && sb != p + LEAD_IN ==> w.info(sb) == None)
    && (forall q: nat :: w.found(q) == None)
  }

  lemma ApartMagic(media: seq<byte>, p: nat, sb: nat)
    requires IsApart(media, p) && sb != p && sb != p + LEAD_IN
    ensures sb + 0x38 < |media| ==> media[sb + 0x38] != 0x53
  {
  }

  lemma ApartHolds(media: seq<byte>, p: nat)
    requires IsApart(media, p)
    ensures Holds(media, p, NEAR) && Holds(media, p + LEAD_IN, FAR)
  {
  }

  lemma ApartNear(media: seq<byte>, p: nat)
    requires IsApart(media, p) && p >= LEAD_IN
    ensures InfoAt(media, p) == Some(NEAR.Info()) && !Cut(Window(media[p - LEAD_IN..]))
  {
    ApartHolds(media, p);
    InfoAtCopy(media, p, NEAR);
  }

  lemma ApartFar(media: seq<byte>, p: nat)
    requires IsApart(media, p)
    ensures InfoAt(media, p + LEAD_IN) == Some(FAR.Info()) && !Cut(Window(media[p..]))
  {
    ApartHolds(media, p);
    InfoAtCopy(media, p + LEAD_IN, FAR);
  }

  lemma ApartElsewhere(media: seq<byte>, p: nat, sb: nat)
    requires IsApart(media, p) && sb != p && sb != p + LEAD_IN
    ensures InfoAt(media, sb) == None
  {
    ApartMagic(media, p, sb);
    NoInfoWithoutMagic(media, sb);
  }

  lemma ApartUncut(media: seq<byte>, p: nat, q: nat)
    requires IsApart(media, p) && p >= LEAD_IN && q <= |media|
    ensures !Cut(Window(media[q..]))
  {
    if q + LEAD_IN == p {
      ApartNear(media, p);
    } else if q == p {
      ApartFar(media, p);
    } else {
      ApartMagic(media, p, q + LEAD_IN);
      NoCutWithoutMagic(media, q);
    }
  }

  lemma ApartFound(pr: Probes, media: seq<byte>, p: nat, length: nat, q: nat, end: nat)
    requires IsApart(media, p) && p >= LEAD_IN && SeesOnlyExt(pr, media)
    ensures FoundBefore(pr, media, length, q, end) == None
  {
    var sb := q + LEAD_IN;
    if sb != p && sb != p + LEAD_IN {
      ApartMagic(media, p, sb);
    }
    NothingFound(pr, media, length, q, end);
  }

  lemma ApartIsShown(pr: Probes, media: seq<byte>, p: nat, stride: nat)
    requires stride >= 1 && IsApart(media, p) && p >= LEAD_IN && SeesOnlyExt(pr, media)
    ensures ShowsApart(WorldScanned(pr, media, |media|, stride, {}), p)
  {
    var w := ScanWorld(pr, media, |media|, stride, ChunkCapacity(|media|, stride));
    ApartNear(media, p);
    ApartFar(media, p);
    forall sb: nat | sb != p && sb != p + LEAD_IN
      ensures w.info(sb) == None
    {
      ApartElsewhere(media, p, sb);
    }
    forall q: nat
      ensures w.found(q) == None
    {
      var end := Pass(|media|, |media|, stride, ChunkCapacity(|media|, stride)).EndAt(q);
      ApartFound(pr, media, p, |media|, q, end);
    }
    ApartUnspared(w, p);
  }

  lemma ApartUnspared(w: World, p: nat)
    requires w.info(p) == Some(NEAR.Info()) && w.info(p + LEAD_IN) == Some(FAR.Info())
    requires forall sb: nat :: sb != p && sb != p + LEAD_IN ==> w.info(sb) == None
    requires forall q: nat :: w.found(q) == None
    ensures ShowsApart(Sparing(w, {}), p)
  {
  }

  lemma ApartIsNotCut(media: seq<byte>, p: nat, grid: seq<nat>)
    requires IsApart(media, p) && p >= LEAD_IN
    ensures !CutOnGrid(media, grid)
  {
    forall q: nat | q <= |media|
      ensures !CutAt(media, q)
    {
      ApartUncut(media, p, q);
      if q >= LEAD_IN {
        ApartUncut(media, p, q - LEAD_IN);
      }
    }
  }

  lemma {:induction false} QuietRun(w: World, s: Scan, positions: seq<nat>)
    requires forall q :: q in positions ==> Quiet(w, q)
    ensures Run(w, s, positions) == s
    decreases |positions|
  {
    if positions != [] {
      assert positions[0] in positions;
      assert forall q :: q in positions[1..] ==> q in positions;
      QuietRun(w, s, positions[1..]);
    }
  }

  ghost predicate Quiet(w: World, q: nat) {
    w.found(q).None? && w.info(q + LEAD_IN).None? && (q >= LEAD_IN ==> w.info(q).None?)
  }

  /** A run in which only one position has anything to show is that position's step. */
  lemma QuietBut(w: World, grid: seq<nat>, c: nat)
    requires c < |grid| && forall i :: 0 <= i < |grid| && i != c ==> Quiet(w, grid[i])
    ensures Run(w, EMPTY, grid) == Step(w, EMPTY, grid[c])
  {
    var before, p, after := grid[..c], grid[c], grid[c + 1..];
    assert forall q :: q in before ==> Quiet(w, q);
    assert forall i :: 0 <= i < |after| ==> after[i] == grid[c + 1 + i];
    assert forall q :: q in after ==> Quiet(w, q);
    assert grid == before + [p] + after;
    QuietRun(w, EMPTY, before);
    RunAppend(w, EMPTY, before + [p], after);
    RunAppend(w, EMPTY, before, [p]);
    assert [p][1..] == [];
    QuietRun(w, Step(w, EMPTY, p), after);
  }

  /** The copy ahead is recorded first, and then the copy at the position is listed under it. */
  lemma ApartStep(w: World, p: nat)
    requires LEAD_IN <= p <= U64_MAX - LEAD_IN && ShowsApart(w, p)
    ensures !AllInOrder(Step(w, EMPTY, p).hits)
  {
    var near, far := NEAR.Info(), FAR.Info();
    assert near.CopyOffset() == 1024 && far.CopyOffset() == 2048;
    var lone := LoneHit(p + LEAD_IN, far);
    var first := ScanRecord([lone], [Some(Tag(0))], 0, [p + LEAD_IN], []);
    assert Ahead(w, EMPTY, p) == first;
    var noted := first.(seen := first.seen + [p]);
    assert Matches(LoneImplying(Tag(0), ImpliedStart(p, near), AbsentHead(p, near)), noted.hits[0], noted.uuids[0]);
    assert Corroborated(noted, p, near) == Some(0);
    var last := Step(w, EMPTY, p).hits[0];
    assert last == lone.(backups := [Backup(p, 1)]);
    assert last.kind.LoneBackup? && last.backups[0].offset < last.offset;
  }

  /** The first grid position a lead-in or more along. */
  lemma FirstPastLeadIn(stride: nat) returns (c: nat)
    requires stride >= 1
    ensures c >= 1 && (c - 1) * stride < LEAD_IN <= c * stride
  {
    c := 1;
    while c * stride < LEAD_IN
      invariant c >= 1 && (c - 1) * stride < LEAD_IN
      decreases LEAD_IN - c * stride
    {
      assert (c + 1) * stride == c * stride + stride;
      c := c + 1;
    }
  }

  /** With a stride that does not divide the lead-in, no other position looks at either copy. */
  lemma QuietElsewhere(w: World, stride: nat, c: nat, d: nat)
    requires stride >= 1 && ShowsApart(w, c * stride) && d != c
    requires !exists k: nat :: IsMultiple(LEAD_IN, stride, k)
    ensures w.info(d * stride + LEAD_IN).None? && w.info(d * stride).None?
  {
    if d < c {
      MultipleGrows(d, c, stride);
      MultiplesDiffer(stride, c, d);
      assert d * stride + LEAD_IN == c * stride ==> IsMultiple(LEAD_IN, stride, c - d);
    } else {
      MultipleGrows(c, d, stride);
      MultiplesDiffer(stride, d, c);
      assert d * stride == c * stride + LEAD_IN ==> IsMultiple(LEAD_IN, stride, d - c);
    }
  }

  lemma ApartRun(w: World, stride: nat, c: nat, limit: nat)
    requires stride >= 1 && LEAD_IN <= c * stride <= U64_MAX - LEAD_IN && c * stride < limit
    requires ShowsApart(w, c * stride) && !exists k: nat :: IsMultiple(LEAD_IN, stride, k)
    ensures !AllInOrder(Run(w, EMPTY, Grid(stride, limit, 0)).hits)
  {
    var grid := Grid(stride, limit, 0);
    GridHas(stride, limit, 0, c);
    GridAt(stride, limit, 0, c);
    forall i | 0 <= i < |grid| && i != c
      ensures Quiet(w, grid[i])
    {
      GridAt(stride, limit, 0, i);
      QuietElsewhere(w, stride, c, i);
    }
    QuietBut(w, grid, c);
    ApartStep(w, c * stride);
  }

  lemma ApartRuns(pr: Probes, media: seq<byte>, stride: nat, c: nat)
    requires SeesOnlyExt(pr, media)
    requires stride >= 1 && LEAD_IN <= c * stride && IsApart(media, c * stride) && |media| <= U64_MAX
    requires !exists k: nat :: IsMultiple(LEAD_IN, stride, k)
    ensures !AllInOrder(Run(WorldScanned(pr, media, |media|, stride, {}), EMPTY, Grid(stride, |media|, 0)).hits)
  {
    ApartIsShown(pr, media, c * stride, stride);
    ApartRun(WorldScanned(pr, media, |media|, stride, {}), stride, c, |media|);
  }

  /** Whatever the probes make of other bytes, so long as they take this medium for no other format. */
  lemma ApartMisorders(pr: Probes, media: seq<byte>, stride: nat, c: nat)
    requires SeesOnlyExt(pr, media)
    requires stride >= 1 && LEAD_IN <= c * stride && IsApart(media, c * stride) && |media| <= U64_MAX
    requires !exists k: nat :: IsMultiple(LEAD_IN, stride, k)
    ensures !InOrderOn(pr, media, |media|, stride, {})
  {
    ApartRuns(pr, media, stride, c);
    ApartIsNotCut(media, c * stride, Grid(stride, |media|, 0));
    SortedInOrderIff(Run(WorldScanned(pr, media, |media|, stride, {}), EMPTY, Grid(stride, |media|, 0)).hits);
  }

  lemma OtherStrideMisorders(stride: nat)
    requires stride >= 1 && !TooLarge(stride)
    requires !exists k: nat :: IsMultiple(LEAD_IN, stride, k)
    ensures !AlwaysInOrder(stride)
  {
    var c := FirstPastLeadIn(stride);
    FirstIsAddressable(stride, c);
    var p := c * stride;
    var media := seq<byte>(p + PARSE_MIN_LEN, (i: nat) => ApartByte(i - p));
    ApartMisorders(ONLY_EXT, media, stride, c);
  }

  lemma FirstIsAddressable(stride: nat, c: nat)
    requires stride >= 1 && !TooLarge(stride) && c >= 1 && (c - 1) * stride < LEAD_IN
    ensures c * stride + PARSE_MIN_LEN <= U64_MAX
  {
    assert (c - 1) * stride + stride == c * stride;
    if c > 1 {
      ProductAtLeast(c - 1, stride);
    }
  }

  /**
   Every report of every medium lists its copies in offset order iff the stride divides the lead-in, or is so large
   that no position but 0 can have a copy ahead of it.
   */
  lemma CopiesAreInOrderIffStrideDividesLeadIn(stride: nat)
    requires stride >= 1
    ensures AlwaysInOrder(stride) <==> (exists k: nat :: IsMultiple(LEAD_IN, stride, k)) || TooLarge(stride)
  {
    if k: nat :| IsMultiple(LEAD_IN, stride, k) {
      forall pr: Probes, media: seq<byte>, length: nat, spared: set<nat>
        ensures InOrderOn(pr, media, length, stride, spared)
      {
        DivisorKeepsOrder(pr, media, length, stride, spared, k);
      }
    } else if TooLarge(stride) {
      forall pr: Probes, media: seq<byte>, length: nat, spared: set<nat>
        ensures InOrderOn(pr, media, length, stride, spared)
      {
        LargeStrideKeepsOrder(pr, media, length, stride, spared);
      }
    } else {
      OtherStrideMisorders(stride);
    }
  }
}

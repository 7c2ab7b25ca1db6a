/**
 The sequential pass over a medium in overlapping chunks, proved to classify every stride-aligned position exactly
 once, each with the bytes of the chunk that position falls into, whatever the medium's reads do.
 */
module ScanPass {
  import opened Machine
  import opened ExtSuperblock
  import opened Hits
  import opened Media
  import opened MediumWorld
  import opened ScanEngine
  import M = ScanModel

  datatype ScanError = ZeroStride | ReadFailed(offset: nat) | Panicked

  /** The stride-aligned positions from `from` up to `limit`. */
  function Grid(stride: nat, limit: nat, from: nat): seq<nat>
    requires stride >= 1
    decreases limit - from
  {
    if from >= limit then [] else [from] + Grid(stride, limit, from + stride)
  }

  lemma {:induction false} GridAt(stride: nat, limit: nat, from: nat, i: nat)
    requires stride >= 1 && i < |Grid(stride, limit, from)|
    ensures Grid(stride, limit, from)[i] == from + i * stride
    ensures from + i * stride < limit
    decreases i
  {
    if i > 0 {
      GridAt(stride, limit, from + stride, i - 1);
    }
  }

  lemma {:induction false} GridHas(stride: nat, limit: nat, from: nat, k: nat)
    requires stride >= 1 && from + k * stride < limit
    ensures k < |Grid(stride, limit, from)|
    decreases k
  {
    if k > 0 {
      assert from + stride + (k - 1) * stride == from + k * stride;
      GridHas(stride, limit, from + stride, k - 1);
    }
  }

  predicate IsMultiple(x: nat, stride: nat, k: nat) {
    x == k * stride
  }

  /** The grid is 0, stride, 2*stride, ... below the limit, each once, in order. */
  lemma GridIsExact(stride: nat, limit: nat, x: nat)
    requires stride >= 1
    ensures x in Grid(stride, limit, 0) <==> x < limit && exists k: nat :: IsMultiple(x, stride, k)
    ensures M.Increasing(Grid(stride, limit, 0))
    ensures forall p :: p in Grid(stride, limit, 0) ==> p < limit
  {
    var grid := Grid(stride, limit, 0);
    forall i, j | 0 <= i < j < |grid|
      ensures grid[i] < grid[j]
    {
      GridAt(stride, limit, 0, i);
      GridAt(stride, limit, 0, j);
      MultipleGrows(i, j, stride);
    }
    forall p | p in grid
      ensures p < limit && exists k: nat :: IsMultiple(p, stride, k)
    {
      var i :| 0 <= i < |grid| && grid[i] == p;
      GridAt(stride, limit, 0, i);
      assert IsMultiple(p, stride, i);
    }
    if x < limit && exists k: nat :: IsMultiple(x, stride, k) {
      var k: nat :| IsMultiple(x, stride, k);
      GridHas(stride, limit, 0, k);
      GridAt(stride, limit, 0, k);
    }
  }

  lemma MultipleGrows(i: nat, j: nat, stride: nat)
    requires i < j && stride >= 1
    ensures i * stride < j * stride
  {
    assert j * stride == i * stride + (j - i) * stride;
  }

  /** Positions are classified up to `length`, or, on a medium that ends early, while their probe tail is whole. */
  function Limit(size: nat, length: nat): nat {
    if size >= length then length else SatSub(size, PROBE_TAIL)
  }

  function ChunkCapacity(length: nat, stride: nat): (r: nat)
    ensures stride >= 1 ==> r > M.LEAD_IN + PROBE_TAIL
  {
    var minimum := SatAdd(SatAdd(M.LEAD_IN, PROBE_TAIL), Max(stride, 1));
    Min(Max(SatAdd(length, M.LEAD_IN), minimum), CHUNK_SIZE)
  }

  // ------------------------------------------------------------------
  // Which chunk a position falls into
  // ------------------------------------------------------------------

  /** The chunk in hand ends at `end` on the medium and settles the positions below `last`. */
  datatype Hand = Hand(end: nat, last: nat)

  const NOTHING := Hand(0, 0)

  /** A pass of chunks of `capacity` bytes over a medium of `size` bytes, scanned as `length` bytes. */
  datatype Pass = Pass(size: nat, length: nat, stride: nat, capacity: nat)
  {
    predicate Valid() {
      stride >= 1 && length <= U64_MAX && capacity > M.LEAD_IN + PROBE_TAIL
    }

    /** Where the chunk read for `from` ends. */
    function End(from: nat): nat {
      var readAt := SatSub(from, M.LEAD_IN);
      readAt + Min(capacity, SatSub(size, readAt))
    }

    function Last(from: nat): nat {
      if End(from) >= length then length else SatSub(End(from), PROBE_TAIL)
    }

    /** The chunk that serves `position`, coming to it with `hand`. */
    function Serving(hand: Hand, position: nat): Hand {
      if position < hand.last then hand else Hand(End(position), Last(position))
    }

    /** The chunk that serves `p`, coming to `position` with `hand`. */
    function HandAt(hand: Hand, position: nat, p: nat): Hand
      requires stride >= 1
      decreases p - position
    {
      if p < position + stride then Serving(hand, position)
      else HandAt(Serving(hand, position), position + stride, p)
    }

    function EndAt(p: nat): nat
      requires stride >= 1
    {
      HandAt(NOTHING, 0, p).end
    }
  }

  /** How much of the medium the scan goes by: all of it, or no more than it has in hand when it reaches `length`. */
  function Reach(size: nat, length: nat, stride: nat, capacity: nat): (r: nat)
    requires stride >= 1
    ensures Min(size, length) <= r <= size
  {
    var grid := Grid(stride, length, 0);
    if size <= length then size
    else if grid == [] then length
    else Max(length, Min(size, Pass(size, length, stride, capacity).EndAt(grid[|grid| - 1])))
  }

  function Seen(media: seq<byte>, length: nat, stride: nat, capacity: nat): seq<byte>
    requires stride >= 1
  {
    if |media| <= length then media else media[..Reach(|media|, length, stride, capacity)]
  }

  /** What the scan's own chunks show at each position it visits. */
  ghost function ScanWorld(pr: Probes, media: seq<byte>, length: nat, stride: nat, capacity: nat): M.World
    requires stride >= 1
  {
    ChunkWorld(pr, Seen(media, length, stride, capacity), length,
               (p: nat) => Pass(|media|, length, stride, capacity).EndAt(p))
  }

  /** The scan in chunks: every visited position classified with the bytes its chunk holds. */
  ghost function ChunkedScan(pr: Probes, media: seq<byte>, length: nat, stride: nat, capacity: nat)
    : Result<seq<Hit>, ScanError>
    requires stride >= 1
  {
    var grid := Grid(stride, Limit(|media|, length), 0);
    if CutOnGrid(Seen(media, length, stride, capacity), grid) then Err(Panicked)
    else Ok(InOffsetOrder(M.Run(ScanWorld(pr, media, length, stride, capacity), M.EMPTY, grid).hits))
  }

  /** The same scan when the refuting root inodes of the starts `spared` could not be read. */
  ghost function SparedScan(pr: Probes, media: seq<byte>, length: nat, stride: nat, capacity: nat, spared: set<nat>)
    : Result<seq<Hit>, ScanError>
    requires stride >= 1
  {
    var grid, w := Grid(stride, Limit(|media|, length), 0), ScanWorld(pr, media, length, stride, capacity);
    if CutOnGrid(Seen(media, length, stride, capacity), grid) then Err(Panicked)
    else Ok(InOffsetOrder(M.Run(M.Sparing(w, spared), M.EMPTY, grid).hits))
  }

  /** Only visited starts that nothing but their root inode refuses can be spared. */
  ghost predicate MaySpare(pr: Probes, media: seq<byte>, length: nat, stride: nat, capacity: nat, spared: set<nat>)
    requires stride >= 1
  {
    forall p :: p in spared ==>
      p in Grid(stride, Limit(|media|, length), 0) && M.IsDoubted(ScanWorld(pr, media, length, stride, capacity), p)
  }

  lemma NothingSpared(pr: Probes, media: seq<byte>, length: nat, stride: nat, capacity: nat)
    requires stride >= 1
    ensures SparedScan(pr, media, length, stride, capacity, {}) == ChunkedScan(pr, media, length, stride, capacity)
  {
    var w := ScanWorld(pr, media, length, stride, capacity);
    M.RunOfSameWorld(M.Sparing(w, {}), w, M.EMPTY, Grid(stride, Limit(|media|, length), 0));
  }

  /** Every run theorem holds of every scan, whatever is spared. */
  lemma ScanIsSane(pr: Probes, media: seq<byte>, length: nat, stride: nat, capacity: nat, spared: set<nat>)
    requires stride >= 1 && |media| <= U64_MAX
    ensures M.Sane(M.Sparing(ScanWorld(pr, media, length, stride, capacity), spared))
  {
    var ends := (p: nat) => Pass(|media|, length, stride, capacity).EndAt(p);
    ChunksAreSane(pr, Seen(media, length, stride, capacity), length, ends);
    M.SparingIsSane(ChunkWorld(pr, Seen(media, length, stride, capacity), length, ends), spared);
  }

  /** One scan over the whole medium: every position classified with all the bytes from it onwards in hand. */
  ghost function WholeScan(pr: Probes, media: seq<byte>, length: nat, stride: nat): Result<seq<Hit>, ScanError>
    requires stride >= 1 && |media| <= length
  {
    var grid := Grid(stride, Limit(|media|, length), 0);
    if CutOnGrid(media, grid) then Err(Panicked)
    else Ok(InOffsetOrder(M.Run(WorldOf(pr, media, length), M.EMPTY, grid).hits))
  }

  ghost predicate CutOnGrid(media: seq<byte>, grid: seq<nat>) {
    exists p :: p in grid && p <= |media| && CutAt(media, p)
  }

  /** A filled chunk settles the positions below its `last`; an unusable one means the grid is exhausted. */
  lemma ChunkAdvances(ps: Pass, from: nat)
    requires ps.Valid() && from < ps.length
    ensures ps.Last(from) <= from ==> from >= Limit(ps.size, ps.length)
    ensures ps.Last(from) > from ==>
      && ps.Last(from) <= Limit(ps.size, ps.length) && ps.End(from) <= ps.size
      && (ps.End(from) == ps.size || ps.End(from) >= ps.length || ps.Last(from) + PROBE_TAIL <= ps.End(from))
  {
  }

  /** A chunk in hand serves every position below its `last` with the probe tail, or with all there is. */
  ghost predicate Serves(ps: Pass, size: nat, hand: Hand) {
    && hand.last <= Limit(ps.size, ps.length) && hand.end <= size
    && (hand.end == size || hand.last + PROBE_TAIL <= hand.end)
  }

  /** Every visited position is classified with the probe tail in hand, or with all the medium has. */
  lemma {:induction false} VisitedReach(ps: Pass, hand: Hand, position: nat, p: nat)
    requires ps.Valid() && ps.size <= ps.length && (position < hand.last ==> Serves(ps, ps.size, hand))
    requires p in Grid(ps.stride, Limit(ps.size, ps.length), position)
    ensures
      var end := ps.HandAt(hand, position, p).end;
      p <= end <= ps.size && (end == ps.size || p + PROBE_TAIL <= end)
    decreases p - position
  {
    GridFrom(ps.stride, Limit(ps.size, ps.length), position, p);
    if hand.last <= position {
      ChunkAdvances(ps, position);
    }
    if p != position {
      VisitedReach(ps, ps.Serving(hand, position), position + ps.stride, p);
    }
  }

  /** A chunk that settles the rest of the grid serves all of it. */
  lemma {:induction false} ServesTheRest(ps: Pass, hand: Hand, limit: nat, position: nat, p: nat)
    requires ps.stride >= 1 && limit <= hand.last && p in Grid(ps.stride, limit, position)
    ensures ps.HandAt(hand, position, p) == hand
    decreases p - position
  {
    GridFrom(ps.stride, limit, position, p);
    if p != position {
      ServesTheRest(ps, hand, limit, position + ps.stride, p);
    }
  }

  lemma {:induction false} GridFrom(stride: nat, limit: nat, from: nat, p: nat)
    requires stride >= 1 && p in Grid(stride, limit, from)
    ensures p < limit && (p == from || (p >= from + stride && p in Grid(stride, limit, from + stride)))
    decreases limit - from
  {
    if p != from {
      GridFrom(stride, limit, from + stride, p);
    }
  }

  // ------------------------------------------------------------------
  // What the bytes in hand show
  // ------------------------------------------------------------------

  /** A world that holds the medium's superblocks. */
  ghost predicate HoldsInfo(media: seq<byte>, w: M.World) {
    forall sb: nat :: w.info(sb) == InfoAt(media, sb)
  }

  /** The chunk's bytes from `p` on are the medium's, and so is the probe window. */
  lemma ChunkWindow(media: seq<byte>, readAt: nat, end: nat, p: nat)
    requires readAt <= p <= end <= |media| && (end == |media| || p + PROBE_WINDOW <= end)
    ensures media[readAt..end][p - readAt..] == media[p..][..end - p]
    ensures Window(media[readAt..end][p - readAt..]) == Window(media[p..])
  {
    assert media[readAt..end][p - readAt..] == media[p..][..end - p];
    SameWindow(media, p, end);
  }

  lemma ChunkShowsInfo(media: seq<byte>, readAt: nat, end: nat, p: nat, w: M.World)
    requires readAt <= p <= end <= |media| && (end == |media| || p + PROBE_WINDOW <= end) && HoldsInfo(media, w)
    ensures ShowsInfo(Window(media[readAt..end][p - readAt..]), p + M.LEAD_IN, w)
  {
    ChunkWindow(media, readAt, end, p);
    assert w.info(p + M.LEAD_IN) == InfoAt(media, p + M.LEAD_IN);
  }

  lemma ChunkLeadWindow(media: seq<byte>, readAt: nat, end: nat, p: nat)
    requires readAt + M.LEAD_IN <= p <= end <= |media| && (end == |media| || p + PROBE_WINDOW <= end)
    ensures Window(media[readAt..end][p - readAt - M.LEAD_IN..]) == Window(media[p - M.LEAD_IN..])
  {
    var q := p - M.LEAD_IN;
    assert p - readAt - M.LEAD_IN == q - readAt;
    ChunkWindow(media, readAt, end, q);
  }

  lemma ChunkShowsLeadIn(media: seq<byte>, readAt: nat, end: nat, p: nat, w: M.World)
    requires readAt + M.LEAD_IN <= p <= end <= |media| && (end == |media| || p + PROBE_WINDOW <= end)
    requires HoldsInfo(media, w)
    ensures ShowsInfo(Window(media[readAt..end][p - readAt - M.LEAD_IN..]), p, w)
  {
    ChunkLeadWindow(media, readAt, end, p);
    assert w.info(p) == InfoAt(media, p);
  }

  lemma ChunkCutsWhereMediumDoes(media: seq<byte>, chunk: seq<byte>, readAt: nat, end: nat, p: nat)
    requires readAt <= p <= end <= |media| && (end == |media| || p + PROBE_WINDOW <= end)
    requires chunk == media[readAt..end]
    requires p >= M.LEAD_IN ==> readAt + M.LEAD_IN <= p
    ensures ChunkCut(chunk, p - readAt, p) == CutAt(media, p)
  {
    ChunkWindow(media, readAt, end, p);
    if p >= M.LEAD_IN {
      ChunkLeadWindow(media, readAt, end, p);
    }
  }

  /**
   A chunk holding enough past `p` shows there what the world of the scan's chunks holds, whatever the medium has past
   the bytes the scan goes by.
   */
  lemma ChunkShows(pr: Probes, contents: seq<byte>, media: seq<byte>, length: nat, ends: nat -> nat,
                   chunk: seq<byte>, readAt: nat, p: nat, w: M.World)
    requires Min(|contents|, length) <= |media| <= |contents| && media == contents[..|media|]
    requires readAt <= p <= ends(p) <= |media| && chunk == media[readAt..ends(p)]
    requires p >= M.LEAD_IN ==> readAt + M.LEAD_IN <= p
    requires Reaches(media, p, ends(p)) && w == ChunkWorld(pr, media, length, ends)
    ensures Shows(pr, contents, length, chunk, p - readAt, p, w)
  {
    var tail := media[p..ends(p)];
    assert chunk[p - readAt..] == tail;
    ChunkShowsInfo(media, readAt, ends(p), p, w);
    if p >= M.LEAD_IN {
      ChunkShowsLeadIn(media, readAt, ends(p), p, w);
    }
    if !Cut(tail) {
      FoundOnPrefix(pr, contents, media, length, p, tail);
    }
  }

  lemma SameWindow(media: seq<byte>, p: nat, end: nat)
    requires p <= end <= |media| && (end == |media| || p + PROBE_WINDOW <= end)
    ensures Window(media[p..][..end - p]) == Window(media[p..])
  {
  }

  // ------------------------------------------------------------------
  // The loop
  // ------------------------------------------------------------------

  /** Names a state, so that what it is is looked up only where it is asked for. */
  ghost predicate AskAfter(spared: set<nat>, k: nat) {
    true
  }

  /** Names one position, so that what the medium shows there is looked up only where it is asked for. */
  ghost predicate AskPlace(p: nat) {
    true
  }

  /** Names a world, so that what it shows is looked up only where it is asked for. */
  ghost predicate AskWorld(w: M.World) {
    true
  }

  /** Names a stage of the scan, so that what it means is looked up only where it is asked for. */
  ghost predicate AskStage(hand: Hand, position: nat, spared: set<nat>, s: M.Scan) {
    true
  }

  /** A position the pass stands at is one of the grid, or past the end. */
  ghost predicate Aligned(stride: nat, length: nat, position: nat) {
    position < length ==> exists k: nat :: IsMultiple(position, stride, k)
  }

  lemma AlignedNext(stride: nat, length: nat, position: nat)
    requires stride >= 1 && length <= U64_MAX && position < length && Aligned(stride, length, position)
    ensures Aligned(stride, length, SatAdd(position, stride))
  {
    var k: nat :| IsMultiple(position, stride, k);
    assert IsMultiple(position + stride, stride, k + 1);
  }

  /** The chunk read for some position of the grid starts at `offset`. */
  ghost predicate IsChunkStart(stride: nat, length: nat, offset: nat)
    requires stride >= 1
  {
    exists p :: p in Grid(stride, length, 0) && offset == SatSub(p, M.LEAD_IN)
  }

  lemma AlignedIsChunkStart(stride: nat, length: nat, position: nat)
    requires stride >= 1 && position < length && Aligned(stride, length, position)
    ensures IsChunkStart(stride, length, SatSub(position, M.LEAD_IN))
  {
    GridIsExact(stride, length, position);
  }

  /**
   A scan to be made: what the medium holds and what of it the scan goes by, the positions to visit, where the bytes in
   hand must end at each and what they show, where a superblock is cut short, and the state after so many positions
   with some spared.
   */
  datatype Plan = Plan(
    pr: Probes,
    contents: seq<byte>,
    media: seq<byte>,
    pass: Pass,
    grid: seq<nat>,
    ends: nat -> nat,
    world: M.World,
    cuts: nat -> bool,
    after: (set<nat>, nat) -> M.Scan)
  {
    ghost function Limited(): nat {
      Limit(pass.size, pass.length)
    }

    ghost predicate Valid() {
      && pass.Valid() && pass.size == |contents| && grid == Grid(pass.stride, Limited(), 0)
      && IsSeen()
      && (forall w {:trigger AskWorld(w)} :: AskWorld(w) && w == world ==>
            w == ChunkWorld(pr, media, pass.length, ends))
      && (forall p: nat {:trigger AskPlace(p)} :: AskPlace(p) && p <= |media| ==> cuts(p) == CutAt(media, p))
      && (forall spared: set<nat>, k: nat {:trigger AskAfter(spared, k)} :: AskAfter(spared, k) && k <= |grid| ==>
            after(spared, k) == M.Run(M.Sparing(world, spared), M.EMPTY, grid[..k]))
    }

    /** The scan goes by the whole medium, or by as much as the last chunk of a longer one holds. */
    ghost predicate IsSeen() {
      && Min(|contents|, pass.length) <= |media| <= |contents| && media == contents[..|media|]
      && (|contents| <= pass.length ==> |media| == |contents|)
      && (|contents| > pass.length && grid != [] ==>
            |media| == Max(pass.length, Min(|contents|, ends(grid[|grid| - 1]))))
    }

    ghost function Left(position: nat): seq<nat>
      requires Valid()
    {
      Grid(pass.stride, Limited(), position)
    }

    ghost predicate Spares(spared: set<nat>, k: nat) {
      k <= |grid| && forall p :: p in spared ==> p in grid[..k] && M.IsDoubted(world, p)
    }

    /** The positions left from `position` on are the last of the grid. */
    ghost predicate Stands(position: nat)
      requires Valid()
    {
      |Left(position)| <= |grid| && Left(position) == grid[|grid| - |Left(position)|..]
    }

    /** How many positions are behind. */
    ghost function Behind(position: nat): nat
      requires Valid() && Stands(position)
    {
      |grid| - |Left(position)|
    }

    /** Everything before `position` has been classified, which has come to `s`, and no superblock was cut short. */
    ghost predicate At(position: nat, spared: set<nat>, s: M.Scan)
      requires Valid()
    {
      && Aligned(pass.stride, pass.length, position) && Stands(position)
      && s == after(spared, Behind(position)) && Spares(spared, Behind(position))
      && forall i :: 0 <= i < Behind(position) ==> !cuts(grid[i])
    }

    /** Coming to `position` with `hand`, each later position will be served up to where its bytes must end. */
    ghost predicate OnTrack(hand: Hand, position: nat)
      requires Valid()
    {
      forall p :: p in Left(position) ==> ends(p) == pass.HandAt(hand, position, p).end
    }

    /** A chunk of the medium, read from `readAt`, that is what `hand` says. */
    ghost predicate Holds(hand: Hand, chunk: seq<byte>, readAt: nat) {
      && Serves(pass, |media|, hand) && hand.end == readAt + |chunk|
      && chunk == media[readAt..readAt + |chunk|]
    }

    /** All that the pass reads for `from`: a full chunk, or what the medium has left. */
    ghost predicate ReadFor(from: nat, chunk: seq<byte>, readAt: nat) {
      && readAt == SatSub(from, M.LEAD_IN) && |chunk| == Min(pass.capacity, SatSub(|contents|, readAt))
      && (|chunk| > 0 ==> chunk == contents[readAt..readAt + |chunk|])
    }

    /** A superblock is cut short at a position the scan visits. */
    ghost predicate IsCut() {
      exists p :: p in grid && cuts(p)
    }

    /** The hits of the whole grid, with some doubted starts spared and no superblock cut short. */
    ghost predicate IsOutcome(hits: seq<Hit>, spared: set<nat>) {
      && !IsCut() && Spares(spared, |grid|)
      && hits == InOffsetOrder(M.Run(M.Sparing(world, spared), M.EMPTY, grid).hits)
    }

    // Moving on by one position

    lemma Next(position: nat)
      requires Valid() && position < Limited() && Stands(position)
      ensures Behind(position) < |grid| && grid[Behind(position)] == position
      ensures
        var next := SatAdd(position, pass.stride);
        Stands(next) && Behind(next) == Behind(position) + 1
    {
      var next := Grid(pass.stride, Limited(), position + pass.stride);
      assert Left(position) == [position] + next;
      assert Left(SatAdd(position, pass.stride)) == next;
      assert grid[Behind(position)..][0] == position && grid[Behind(position)..][1..] == next;
    }

    lemma AfterNext(spared: set<nat>, k: nat, more: set<nat>)
      requires Valid() && k < |grid| && Spares(spared, k) && more <= {grid[k]}
      ensures after(spared + more, k + 1) == M.Step(M.Sparing(world, more), after(spared, k), grid[k])
    {
      var w, p := world, grid[k];
      GridIsExact(pass.stride, Limited(), 0);
      assert p !in grid[..k];
      assert AskAfter(spared, k) && AskAfter(spared + more, k + 1);
      M.RunSnoc(M.Sparing(w, spared + more), grid, k);
      M.RunOfSameWorld(M.Sparing(w, spared + more), M.Sparing(w, spared), M.EMPTY, grid[..k]);
      M.StepOfSameWorld(M.Sparing(w, spared + more), M.Sparing(w, more), after(spared, k), p);
    }

    lemma AtNext(position: nat, spared: set<nat>, s: M.Scan, more: set<nat>, t: M.Scan)
      requires Valid() && position < Limited() && At(position, spared, s) && !cuts(position)
      requires more <= {position} && (position in more ==> M.IsDoubted(world, position))
      requires t == M.Step(M.Sparing(world, more), s, position)
      ensures At(SatAdd(position, pass.stride), spared + more, t)
    {
      var k := Behind(position);
      Next(position);
      AlignedNext(pass.stride, pass.length, position);
      AfterNext(spared, k, more);
      assert grid[..k + 1] == grid[..k] + [position];
    }

    lemma OnTrackNext(hand: Hand, position: nat)
      requires Valid() && position < Limited() && position < hand.last && OnTrack(hand, position)
      ensures ends(position) == hand.end && OnTrack(hand, SatAdd(position, pass.stride))
    {
      var rest := Left(position);
      assert position in rest;
      forall p | p in Left(SatAdd(position, pass.stride))
        ensures ends(p) == pass.HandAt(hand, SatAdd(position, pass.stride), p).end
      {
        GridFrom(pass.stride, Limited(), position + pass.stride, p);
        assert p in rest;
      }
    }

    // Moving on by one chunk

    /** Once a chunk is used up it does not matter which it was. */
    lemma Resume(from: Hand, to: Hand, position: nat)
      requires Valid() && OnTrack(from, position) && pass.Serving(from, position) == pass.Serving(to, position)
      ensures OnTrack(to, position)
    {
      assert forall p :: p in Left(position) ==> pass.HandAt(to, position, p) == pass.HandAt(from, position, p);
    }

    /** A chunk that reaches `length` on a longer medium is the last, and holds all that the scan goes by. */
    lemma LastChunkIsAll(hand: Hand, position: nat)
      requires Valid() && |contents| > pass.length && position < pass.length && OnTrack(hand, position)
      requires Stands(position) && pass.length <= hand.last && pass.length <= hand.end <= |contents|
      ensures hand.end == |media|
    {
      Next(position);
      var q := grid[|grid| - 1];
      assert grid[Behind(position)..][|Left(position)| - 1] == q;
      ServesTheRest(pass, hand, Limited(), position, q);
    }

    lemma HoldsWhatWasRead(from: nat, chunk: seq<byte>, readAt: nat)
      requires Valid() && ReadFor(from, chunk, readAt) && |chunk| > 0
      requires Serves(pass, |media|, Hand(pass.End(from), pass.Last(from)))
      ensures Holds(Hand(pass.End(from), pass.Last(from)), chunk, readAt)
    {
      SliceOfPart(contents, media, readAt, readAt + |chunk|);
    }

    // Classifying one position against the chunk in hand

    lemma ShownHere(chunk: seq<byte>, readAt: nat, position: nat)
      requires Valid() && Reaches(media, position, ends(position)) && readAt <= position
      requires chunk == media[readAt..ends(position)] && (position >= M.LEAD_IN ==> readAt + M.LEAD_IN <= position)
      ensures Shows(pr, contents, pass.length, chunk, position - readAt, position, world)
    {
      assert AskWorld(world);
      ChunkShows(pr, contents, media, pass.length, ends, chunk, readAt, position, world);
    }

    lemma ChunkCuts(hand: Hand, chunk: seq<byte>, readAt: nat, position: nat)
      requires Valid() && Holds(hand, chunk, readAt) && position < hand.last
      requires readAt <= position <= readAt + |chunk| && (position >= M.LEAD_IN ==> readAt + M.LEAD_IN <= position)
      ensures ChunkCut(chunk, position - readAt, position) == cuts(position)
    {
      assert AskPlace(position);
      ChunkCutsWhereMediumDoes(media, chunk, readAt, readAt + |chunk|, position);
    }
  }

  /** A plan and the stages of carrying it out: which chunk is in hand where, what was spared and what that came to. */
  datatype Job = Job(plan: Plan, reached: (Hand, nat, set<nat>, M.Scan) -> bool)
  {
    ghost predicate Valid() {
      && plan.Valid()
      && forall hand, position, spared, s {:trigger AskStage(hand, position, spared, s)} ::
           AskStage(hand, position, spared, s) ==>
             reached(hand, position, spared, s) == (plan.At(position, spared, s) && plan.OnTrack(hand, position))
    }

    /** The chunk read for `from` takes the scan up; when it is used up the next one can. */
    lemma TakeUp(from: nat, spared: set<nat>, s: M.Scan)
      requires Valid() && from < plan.pass.length && reached(NOTHING, from, spared, s)
      ensures
        var hand := Hand(plan.pass.End(from), plan.pass.Last(from));
        if hand.last <= from then from >= plan.Limited()
        else Serves(plan.pass, |plan.media|, hand) && reached(hand, from, spared, s)
    {
      var hand := Hand(plan.pass.End(from), plan.pass.Last(from));
      assert AskStage(NOTHING, from, spared, s) && AskStage(hand, from, spared, s);
      ChunkAdvances(plan.pass, from);
      if hand.last > from {
        plan.Resume(NOTHING, hand, from);
        if |plan.contents| > plan.pass.length && hand.end >= plan.pass.length {
          plan.LastChunkIsAll(hand, from);
        }
      }
    }

    lemma PutDown(hand: Hand, position: nat, spared: set<nat>, s: M.Scan)
      requires Valid() && hand.last <= position && reached(hand, position, spared, s)
      ensures reached(NOTHING, position, spared, s)
    {
      assert AskStage(NOTHING, position, spared, s) && AskStage(hand, position, spared, s);
      plan.Resume(hand, NOTHING, position);
    }

    lemma StandsOnGrid(hand: Hand, position: nat, spared: set<nat>, s: M.Scan)
      requires Valid() && position < plan.pass.length && reached(hand, position, spared, s)
      ensures IsChunkStart(plan.pass.stride, plan.pass.length, SatSub(position, M.LEAD_IN))
    {
      assert AskStage(hand, position, spared, s);
      AlignedIsChunkStart(plan.pass.stride, plan.pass.length, position);
    }

    lemma Done(hand: Hand, position: nat, spared: set<nat>, s: M.Scan)
      requires Valid() && position >= plan.Limited() && reached(hand, position, spared, s)
      ensures plan.IsOutcome(InOffsetOrder(s.hits), spared)
    {
      assert AskStage(hand, position, spared, s) && AskAfter(spared, |plan.grid|);
      assert plan.grid[..|plan.grid|] == plan.grid;
    }

    /** The chunk in hand shows at the next position what the world of the scan holds there. */
    lemma ReadyShows(hand: Hand, chunk: seq<byte>, readAt: nat, position: nat, spared: set<nat>, s: M.Scan)
      requires Valid() && plan.Holds(hand, chunk, readAt)
      requires position < hand.last && reached(hand, position, spared, s)
      requires readAt <= position <= readAt + |chunk| && (position >= M.LEAD_IN ==> readAt + M.LEAD_IN <= position)
      ensures Shows(plan.pr, plan.contents, plan.pass.length, chunk, position - readAt, position, plan.world)
    {
      assert AskStage(hand, position, spared, s);
      plan.OnTrackNext(hand, position);
      plan.ShownHere(chunk, readAt, position);
    }

    /** Classifying it meets a cut superblock, or moves on with what that step leaves. */
    lemma Settled(hand: Hand, chunk: seq<byte>, readAt: nat, position: nat, spared: set<nat>, s: M.Scan,
                  panicked: bool, more: set<nat>, t: M.Scan)
      requires Valid() && plan.Holds(hand, chunk, readAt)
      requires position < hand.last && reached(hand, position, spared, s)
      requires readAt <= position <= readAt + |chunk| && (position >= M.LEAD_IN ==> readAt + M.LEAD_IN <= position)
      requires panicked == ChunkCut(chunk, position - readAt, position)
      requires more <= {position}
      requires !panicked ==>
                 && (position in more ==> M.IsDoubted(plan.world, position))
                 && t == M.Step(M.Sparing(plan.world, more), s, position)
      ensures if panicked then plan.IsCut() else reached(hand, SatAdd(position, plan.pass.stride), spared + more, t)
    {
      assert AskStage(hand, position, spared, s);
      plan.ChunkCuts(hand, chunk, readAt, position);
      if panicked {
        plan.Next(position);
      } else {
        plan.AtNext(position, spared, s, more, t);
        plan.OnTrackNext(hand, position);
        assert AskStage(hand, SatAdd(position, plan.pass.stride), spared + more, t);
      }
    }
  }

  lemma SliceOfPart(contents: seq<byte>, media: seq<byte>, from: nat, to: nat)
    requires |media| <= |contents| && media == contents[..|media|] && from <= to <= |media|
    ensures contents[from..to] == media[from..to]
  {
  }

  ghost function PlanFor(pr: Probes, media: seq<byte>, length: nat, stride: nat, capacity: nat): Plan
    requires stride >= 1
  {
    var pass, seen := Pass(|media|, length, stride, capacity), Seen(media, length, stride, capacity);
    var grid, w := Grid(stride, Limit(|media|, length), 0), ScanWorld(pr, media, length, stride, capacity);
    Plan(pr, media, seen, pass, grid, (p: nat) => Pass(|media|, length, stride, capacity).EndAt(p), w,
         (p: nat) => p <= |seen| && CutAt(seen, p),
         (spared: set<nat>, k: nat) => RunOf(M.Sparing(w, spared), grid, k))
  }

  ghost function RunOf(w: M.World, grid: seq<nat>, k: nat): M.Scan {
    if k <= |grid| then M.Run(w, M.EMPTY, grid[..k]) else M.EMPTY
  }

  lemma PlanIsValid(pr: Probes, media: seq<byte>, length: nat, stride: nat, capacity: nat)
    requires stride >= 1 && length <= U64_MAX && capacity > M.LEAD_IN + PROBE_TAIL
    ensures PlanFor(pr, media, length, stride, capacity).Valid()
  {
    assert PlanFor(pr, media, length, stride, capacity).IsSeen();
  }

  lemma PlanStarts(plan: Plan)
    requires plan.Valid() && forall p :: p in plan.grid ==> plan.ends(p) == plan.pass.EndAt(p)
    ensures plan.At(0, {}, M.EMPTY) && plan.OnTrack(NOTHING, 0)
  {
    assert IsMultiple(0, plan.pass.stride, 0);
    assert plan.grid[0..] == plan.grid;
    NothingBehind(plan);
  }

  lemma NothingBehind(plan: Plan)
    requires plan.Valid()
    ensures plan.after({}, 0) == M.EMPTY
  {
    assert AskAfter({}, 0);
    assert plan.grid[..0] == [];
  }

  ghost function JobOf(plan: Plan): (job: Job)
    requires plan.Valid()
    ensures job.Valid() && job.plan == plan
  {
    Job(plan, (hand: Hand, position: nat, spared: set<nat>, s: M.Scan) =>
          plan.Valid() && plan.At(position, spared, s) && plan.OnTrack(hand, position))
  }

  /** What the outcomes of a plan say of the medium. */
  ghost predicate Answers(plan: Plan, pr: Probes, media: seq<byte>, length: nat, stride: nat, capacity: nat)
    requires stride >= 1
  {
    && (plan.IsCut() ==> SparedScan(pr, media, length, stride, capacity, {}) == Err(Panicked))
    && (forall hits, spared :: plan.IsOutcome(hits, spared) ==>
          && SparedScan(pr, media, length, stride, capacity, spared) == Ok(hits)
          && MaySpare(pr, media, length, stride, capacity, spared))
  }

  lemma PlanAnswers(plan: Plan, pr: Probes, media: seq<byte>, length: nat, stride: nat, capacity: nat)
    requires stride >= 1 && plan.grid == Grid(stride, Limit(|media|, length), 0)
    requires plan.world == ScanWorld(pr, media, length, stride, capacity)
    requires plan.IsCut() <==> CutOnGrid(Seen(media, length, stride, capacity), plan.grid)
    ensures Answers(plan, pr, media, length, stride, capacity)
  {
    assert plan.grid[..|plan.grid|] == plan.grid;
  }

  lemma PlanCuts(plan: Plan, pr: Probes, media: seq<byte>, length: nat, stride: nat, capacity: nat)
    requires stride >= 1 && plan == PlanFor(pr, media, length, stride, capacity)
    ensures plan.IsCut() <==> CutOnGrid(Seen(media, length, stride, capacity), plan.grid)
  {
  }

  lemma TakePlan(pr: Probes, media: seq<byte>, length: nat, stride: nat, capacity: nat) returns (plan: Plan)
    requires stride >= 1 && length <= U64_MAX && capacity > M.LEAD_IN + PROBE_TAIL
    ensures plan.Valid() && plan.pr == pr && plan.contents == media
    ensures plan.pass == Pass(|media|, length, stride, capacity)
    ensures forall p :: p in plan.grid ==> plan.ends(p) == plan.pass.EndAt(p)
    ensures Answers(plan, pr, media, length, stride, capacity)
  {
    plan := PlanFor(pr, media, length, stride, capacity);
    PlanIsValid(pr, media, length, stride, capacity);
    PlanCuts(plan, pr, media, length, stride, capacity);
    PlanAnswers(plan, pr, media, length, stride, capacity);
  }

  /** The scan of a medium, about to start. */
  lemma TakeJob(pr: Probes, media: seq<byte>, length: nat, stride: nat, capacity: nat) returns (job: Job)
    requires stride >= 1 && length <= U64_MAX && capacity > M.LEAD_IN + PROBE_TAIL
    ensures job.Valid() && job.reached(NOTHING, 0, {}, M.EMPTY)
    ensures job.plan.pr == pr && job.plan.contents == media && job.plan.pass == Pass(|media|, length, stride, capacity)
    ensures Answers(job.plan, pr, media, length, stride, capacity)
  {
    var plan := TakePlan(pr, media, length, stride, capacity);
    PlanStarts(plan);
    job := JobOf(plan);
    assert AskStage(NOTHING, 0, {}, M.EMPTY);
  }

  lemma ChunkIsSlice(media: seq<byte>, readAt: nat, filled: nat, chunk: seq<byte>)
    requires filled <= SatSub(|media|, readAt)
    requires chunk == media[Min(readAt, |media|)..][..filled]
    ensures |chunk| == filled && (filled > 0 ==> chunk == media[readAt..readAt + filled])
  {
  }

  /** One position against the chunk in hand. */
  method ClassifyPosition(pr: Probes, medium: Medium, state: ScanState, length: nat, chunk: seq<byte>, readAt: nat,
                          position: nat, ghost hand: Hand, ghost job: Job, ghost spared: set<nat>)
    returns (panicked: bool, ghost more: set<nat>)
    requires state.Valid() && state != medium as object
    requires readAt <= position <= readAt + |chunk| && (position >= M.LEAD_IN ==> readAt + M.LEAD_IN <= position)
    requires job.Valid() && job.plan.pr == pr && job.plan.contents == medium.contents && job.plan.pass.length == length
    requires job.plan.Holds(hand, chunk, readAt) && position < hand.last
    requires job.reached(hand, position, spared, state.Model())
    modifies state, medium
    ensures state.Valid()
    ensures old(medium.Reliable()) ==> medium.Reliable() && more == {}
    ensures if panicked then job.plan.IsCut()
            else job.reached(hand, SatAdd(position, job.plan.pass.stride), spared + more, state.Model())
  {
    ghost var before, w := state.Model(), job.plan.world;
    job.ReadyShows(hand, chunk, readAt, position, spared, before);
    assert Shows(pr, medium.contents, length, chunk, position - readAt, position, w);
    panicked, more := state.Classify(pr, medium, length, chunk, position - readAt, position, w);
    assert !panicked ==> state.Model() == M.Step(M.Sparing(w, more), before, position);
    job.Settled(hand, chunk, readAt, position, spared, before, panicked, more, state.Model());
  }

  /** Classify the grid positions from `from` up to `last` against one chunk. */
  method ClassifyChunk(pr: Probes, medium: Medium, state: ScanState, length: nat, stride: nat,
                       chunk: seq<byte>, readAt: nat, from: nat, last: nat, ghost job: Job, ghost spared: set<nat>)
    returns (position: nat, panicked: bool, ghost spared': set<nat>)
    requires stride >= 1 && state.Valid() && state != medium as object
    requires from < last <= length <= U64_MAX
    requires readAt == SatSub(from, M.LEAD_IN) && last <= readAt + |chunk|
    requires job.Valid() && job.plan.pr == pr && job.plan.contents == medium.contents
    requires job.plan.pass.length == length && job.plan.pass.stride == stride
    requires job.plan.Holds(Hand(readAt + |chunk|, last), chunk, readAt)
    requires job.reached(Hand(readAt + |chunk|, last), from, spared, state.Model())
    modifies state, medium
    ensures state.Valid() && from < position && (!panicked ==> last <= position)
    ensures old(medium.Reliable()) ==> medium.Reliable() && spared' == spared
    ensures if panicked then job.plan.IsCut()
            else job.reached(Hand(readAt + |chunk|, last), position, spared', state.Model())
  {
    ghost var hand := Hand(readAt + |chunk|, last);
    position := from;
    panicked := false;
    spared' := spared;
    while position < last
      invariant state.Valid() && (position == from || from < position)
      invariant old(medium.Reliable()) ==> medium.Reliable() && spared' == spared
      invariant job.reached(hand, position, spared', state.Model())
      decreases last - position
    {
      ghost var more;
      panicked, more := ClassifyPosition(pr, medium, state, length, chunk, readAt, position, hand, job, spared');
      position := SatAdd(position, stride);
      if panicked {
        return;
      }
      spared' := spared' + more;
    }
  }

  datatype Progress = More | Finished | Aborted(error: ScanError)

  /** Classify what a chunk read for `from` settles. */
  method SettleChunk(pr: Probes, medium: Medium, state: ScanState, length: nat, stride: nat, chunk: seq<byte>,
                     readAt: nat, from: nat, ghost job: Job, ghost spared: set<nat>)
    returns (progress: Progress, position: nat, ghost spared': set<nat>)
    requires stride >= 1 && state.Valid() && state != medium as object
    requires from < length <= U64_MAX && readAt == SatSub(from, M.LEAD_IN)
    requires job.Valid() && job.plan.pr == pr && job.plan.contents == medium.contents
    requires job.plan.pass.length == length && job.plan.pass.stride == stride
    requires job.plan.ReadFor(from, chunk, readAt) && job.reached(NOTHING, from, spared, state.Model())
    modifies medium, state
    ensures state.Valid() && (progress.More? ==> from < position)
    ensures old(medium.Reliable()) ==> medium.Reliable() && spared' == spared
    ensures match progress
            case More => job.reached(NOTHING, position, spared', state.Model())
            case Finished => position >= job.plan.Limited() && job.reached(NOTHING, position, spared', state.Model())
            case Aborted(error) => error == Panicked && job.plan.IsCut()
  {
    position := from;
    spared' := spared;
    var chunkEnd := SatAdd(readAt, |chunk|);
    var last := if chunkEnd >= length then length else SatSub(chunkEnd, PROBE_TAIL);
    ghost var hand := Hand(job.plan.pass.End(from), job.plan.pass.Last(from));
    job.TakeUp(from, spared, state.Model());
    if |chunk| == 0 || last <= position {
      return Finished, position, spared;
    }
    job.plan.HoldsWhatWasRead(from, chunk, readAt);
    var panicked;
    position, panicked, spared' :=
      ClassifyChunk(pr, medium, state, length, stride, chunk, readAt, position, last, job, spared);
    if !panicked {
      job.PutDown(hand, position, spared', state.Model());
    }
    progress := if panicked then Aborted(Panicked) else More;
  }

  /** Read the chunk `from` calls for and classify what it settles. */
  method ScanChunk(pr: Probes, medium: Medium, state: ScanState, buffer: array<byte>, length: nat, stride: nat,
                   from: nat, ghost job: Job, ghost spared: set<nat>)
    returns (progress: Progress, position: nat, ghost spared': set<nat>)
    requires stride >= 1 && state.Valid() && state != medium as object && buffer != state as object
    requires from < length <= U64_MAX && buffer.Length > M.LEAD_IN + PROBE_TAIL
    requires job.Valid() && job.plan.pr == pr && job.plan.contents == medium.contents
    requires job.plan.pass == Pass(|medium.contents|, length, stride, buffer.Length)
    requires job.reached(NOTHING, from, spared, state.Model())
    modifies medium, state, buffer
    ensures state.Valid() && (progress.More? ==> from < position)
    ensures old(medium.Reliable()) ==> medium.Reliable() && spared' == spared
    ensures match progress
            case More => job.reached(NOTHING, position, spared', state.Model())
            case Finished => position >= job.plan.Limited() && job.reached(NOTHING, position, spared', state.Model())
            case Aborted(Panicked) => job.plan.IsCut()
            case Aborted(ReadFailed(offset)) => !old(medium.Reliable()) && IsChunkStart(stride, length, offset)
            case Aborted(ZeroStride) => false
  {
    var readAt := SatSub(from, M.LEAD_IN);
    var read := ReadChunk(medium, readAt, buffer);
    if read.Err? {
      job.StandsOnGrid(NOTHING, from, spared, state.Model());
      return Aborted(ReadFailed(readAt)), from, spared;
    }
    var chunk := buffer[..read.value];
    ChunkIsSlice(medium.contents, readAt, read.value, chunk);
    progress, position, spared' := SettleChunk(pr, medium, state, length, stride, chunk, readAt, from, job, spared);
  }

  /** What a scan can come to: a failed read of a chunk, or the scan with some doubted starts spared. */
  ghost predicate ComesTo(pr: Probes, media: seq<byte>, length: nat, stride: nat, capacity: nat,
                          r: Result<seq<Hit>, ScanError>, spared: set<nat>, reliable: bool)
    requires stride >= 1
  {
    if r.Err? && r.error.ReadFailed? then !reliable && IsChunkStart(stride, length, r.error.offset)
    else
      && r == SparedScan(pr, media, length, stride, capacity, spared)
      && (r.Ok? ==> MaySpare(pr, media, length, stride, capacity, spared))
      && (reliable ==> spared == {} && r == ChunkedScan(pr, media, length, stride, capacity))
  }

  /** The loop over the chunks. */
  method ScanChunks(pr: Probes, medium: Medium, length: nat, stride: nat, capacity: nat, ghost job: Job)
    returns (r: Result<seq<Hit>, ScanError>, ghost spared: set<nat>)
    requires stride >= 1 && length <= U64_MAX && capacity > M.LEAD_IN + PROBE_TAIL
    requires job.Valid() && job.plan.pr == pr && job.plan.contents == medium.contents
    requires job.plan.pass == Pass(|medium.contents|, length, stride, capacity) && job.reached(NOTHING, 0, {}, M.EMPTY)
    modifies medium
    ensures old(medium.Reliable()) ==> r.Ok? ==> spared == {}
    ensures match r
            case Ok(hits) => job.plan.IsOutcome(hits, spared)
            case Err(Panicked) => job.plan.IsCut()
            case Err(ReadFailed(offset)) => !old(medium.Reliable()) && IsChunkStart(stride, length, offset)
            case Err(ZeroStride) => false
  {
    var state := new ScanState();
    var buffer := new byte[capacity](_ => 0);
    var position := 0;
    spared := {};

    while position < length
      invariant state.Valid() && fresh(state) && fresh(buffer)
      invariant job.reached(NOTHING, position, spared, state.Model())
      invariant old(medium.Reliable()) ==> medium.Reliable() && spared == {}
      decreases length - position
    {
      var progress;
      progress, position, spared := ScanChunk(pr, medium, state, buffer, length, stride, position, job, spared);
      match progress
      case More =>
      case Finished => break;
      case Aborted(error) => return Err(error), spared;
    }
    job.Done(NOTHING, position, spared, state.Model());
    var hits := state.IntoHits();
    r := Ok(hits);
  }

  lemma PlanComesTo(plan: Plan, pr: Probes, media: seq<byte>, length: nat, stride: nat, capacity: nat,
                   r: Result<seq<Hit>, ScanError>, spared: set<nat>, reliable: bool)
    requires stride >= 1 && Answers(plan, pr, media, length, stride, capacity) && (reliable || r.Err? ==> spared == {})
    requires match r
             case Ok(hits) => plan.IsOutcome(hits, spared)
             case Err(Panicked) => plan.IsCut()
             case Err(ReadFailed(offset)) => !reliable && IsChunkStart(stride, length, offset)
             case Err(ZeroStride) => false
    ensures ComesTo(pr, media, length, stride, capacity, r, spared, reliable)
  {
    NothingSpared(pr, media, length, stride, capacity);
  }

  /**
   Scan `length` bytes of the medium in chunks of any capacity above the lead-in plus the probe tail.

   Whatever the medium's reads do, the scan stops at a chunk that cannot be read, or classifies exactly the grid, each
   position once and in order, with the bytes its chunk holds; a start is spared where its root inode cannot be read.
   */
  method ScanInChunks(pr: Probes, medium: Medium, length: nat, stride: nat, capacity: nat)
    returns (r: Result<seq<Hit>, ScanError>, ghost spared: set<nat>)
    requires stride >= 1 && length <= U64_MAX && capacity > M.LEAD_IN + PROBE_TAIL
    modifies medium
    ensures ComesTo(pr, medium.contents, length, stride, capacity, r, spared, old(medium.Reliable()))
  {
    ghost var job := TakeJob(pr, medium.contents, length, stride, capacity);
    r, spared := ScanChunks(pr, medium, length, stride, capacity, job);
    if r.Err? {
      spared := {};
    }
    PlanComesTo(job.plan, pr, medium.contents, length, stride, capacity, r, spared, old(medium.Reliable()));
  }

  method ScanMedia(pr: Probes, medium: Medium, length: nat, stride: nat)
    returns (r: Result<seq<Hit>, ScanError>, ghost spared: set<nat>)
    requires length <= U64_MAX
    modifies medium
    ensures stride == 0 ==> r == Err(ZeroStride)
    ensures stride >= 1 ==>
              ComesTo(pr, medium.contents, length, stride, ChunkCapacity(length, stride), r, spared,
                      old(medium.Reliable()))
  {
    if stride == 0 {
      return Err(ZeroStride), {};
    }
    r, spared := ScanInChunks(pr, medium, length, stride, ChunkCapacity(length, stride));
  }
}

/** What a scan makes of reads that fail, and how far past the length it was given it reads. */
module ScanReads {
  import opened Machine
  import opened ChunkBoundaries
  import opened MediumWorld
  import opened ScanEngine
  import opened ScanLimits
  import opened ScanModel
  import opened ScanPass

  // ------------------------------------------------------------------
  // Root inodes that cannot be read
  // ------------------------------------------------------------------

  lemma StartIsListed(w: World, grid: seq<nat>, p: nat)
    requires Increasing(grid) && p in grid
    requires w.found(p).Some? && w.found(p).value.ExtPrimary? && w.found(p).value.verdict == Start
    ensures ListsExtAt(InOffsetOrder(Run(w, EMPTY, grid).hits), p)
  {
    var k :| 0 <= k < |grid| && grid[k] == p;
    EstablishedStartIsReported(w, grid, k);
    ReportListsIff(Run(w, EMPTY, grid), p);
  }

  /**
   A read that fails never hides a start: a visited start is in the report as a filesystem if the bytes in hand
   establish it, and also if only its root inode refuses it but could not be read.
   */
  lemma FailedReadsHideNoStart(pr: Probes, media: seq<byte>, length: nat, stride: nat, capacity: nat,
                               spared: set<nat>, p: nat)
    requires stride >= 1 && SparedScan(pr, media, length, stride, capacity, spared).Ok?
    requires p in Grid(stride, Limit(|media|, length), 0)
    requires
      var w := ScanWorld(pr, media, length, stride, capacity);
      && w.found(p).Some? && w.found(p).value.ExtPrimary?
      && (w.found(p).value.verdict == Start || (p in spared && IsDoubted(w, p)))
    ensures ListsExtAt(SparedScan(pr, media, length, stride, capacity, spared).value, p)
  {
    var w := ScanWorld(pr, media, length, stride, capacity);
    GridIsExact(stride, Limit(|media|, length), p);
    StartIsListed(Sparing(w, spared), Grid(stride, Limit(|media|, length), 0), p);
  }

  // ------------------------------------------------------------------
  // Reads past the length
  // ------------------------------------------------------------------

  /** No chunk the scan reads ends past the length it was given. */
  ghost predicate ReadsWithin(ps: Pass)
    requires ps.stride >= 1
  {
    forall p :: p in Grid(ps.stride, Limit(ps.size, ps.length), 0) ==> ps.EndAt(p) <= ps.length
  }

  /** A chunk that reaches the length settles everything below it. */
  lemma {:induction false} ReachingChunkIsLast(ps: Pass, hand: Hand, position: nat, p: nat)
    requires ps.stride >= 1 && (hand.end >= ps.length ==> hand.last == ps.length)
    ensures
      var at := ps.HandAt(hand, position, p);
      at.end >= ps.length ==> at.last == ps.length
    decreases p - position
  {
    if p >= position + ps.stride {
      ReachingChunkIsLast(ps, ps.Serving(hand, position), position + ps.stride, p);
    }
  }

  lemma {:induction false} HandAtVia(ps: Pass, hand: Hand, limit: nat, position: nat, p: nat, q: nat)
    requires ps.stride >= 1 && p in Grid(ps.stride, limit, position) && p <= q
    ensures ps.HandAt(hand, position, q) == ps.HandAt(ps.HandAt(hand, position, p), p, q)
    decreases p - position
  {
    GridFrom(ps.stride, limit, position, p);
    if p != position {
      HandAtVia(ps, ps.Serving(hand, position), limit, position + ps.stride, p, q);
    }
  }

  lemma {:induction false} LaterIsLeft(stride: nat, limit: nat, from: nat, p: nat, q: nat)
    requires stride >= 1 && p in Grid(stride, limit, from) && q in Grid(stride, limit, from) && p <= q
    ensures q in Grid(stride, limit, p)
    decreases p - from
  {
    GridFrom(stride, limit, from, p);
    GridFrom(stride, limit, from, q);
    if p != from {
      LaterIsLeft(stride, limit, from + stride, p, q);
    }
  }

  /** Once a chunk ends past the length, so does the one that serves the last position. */
  lemma LastEndsPast(ps: Pass, p: nat, q: nat)
    requires ps.stride >= 1 && ps.length > 0 && p <= q && ps.EndAt(p) > ps.length
    requires p in Grid(ps.stride, ps.length, 0) && q in Grid(ps.stride, ps.length, 0)
    ensures ps.EndAt(q) == ps.EndAt(p)
  {
    var hand := ps.HandAt(NOTHING, 0, p);
    ReachingChunkIsLast(ps, NOTHING, 0, p);
    HandAtVia(ps, NOTHING, ps.length, 0, p, q);
    LaterIsLeft(ps.stride, ps.length, 0, p, q);
    ServesTheRest(ps, hand, ps.length, p, q);
  }

  lemma LastOfGrid(stride: nat, limit: nat, p: nat)
    requires stride >= 1 && p in Grid(stride, limit, 0)
    ensures
      var grid := Grid(stride, limit, 0);
      p <= grid[|grid| - 1] && grid[|grid| - 1] in grid
  {
    GridIsExact(stride, limit, p);
  }

  /** Chunks stay within the length iff the scan goes by no byte past it. */
  lemma ReadsStayWithinIff(ps: Pass)
    requires ps.Valid()
    ensures ReadsWithin(ps) <==> Reach(ps.size, ps.length, ps.stride, ps.capacity) <= ps.length
  {
    var grid := Grid(ps.stride, Limit(ps.size, ps.length), 0);
    forall p | p in grid && (ps.size <= ps.length || ps.EndAt(p) > ps.length)
      ensures if ps.size <= ps.length then ps.EndAt(p) <= ps.length
              else ps.EndAt(grid[|grid| - 1]) > ps.length
    {
      if ps.size <= ps.length {
        VisitedReach(ps, NOTHING, 0, p);
      } else {
        LastOfGrid(ps.stride, ps.length, p);
        LastEndsPast(ps, p, grid[|grid| - 1]);
      }
    }
  }

  /** With the capacity the scanner chooses, a length below 64 MiB is kept to only by media no longer than it. */
  lemma ShortLengthIsKeptIff(size: nat, length: nat, stride: nat)
    requires stride >= 1 && 0 < length < CHUNK_SIZE
    ensures Reach(size, length, stride, ChunkCapacity(length, stride)) <= length <==> size <= length
  {
    var ps := Pass(size, length, stride, ChunkCapacity(length, stride));
    if size > length {
      var grid := Grid(stride, length, 0);
      assert 0 in grid;
      LastOfGrid(stride, length, 0);
      assert ps.EndAt(0) > length;
      LastEndsPast(ps, 0, grid[|grid| - 1]);
    }
  }
}

/** Where the scanner's promises stop: each failing family with a witness, and the exact condition that shuts it out. */
module ScanLimits {
  import opened Machine
  import opened ExtSuperblock
  import opened ScanModel
  import opened ScanInvariants
  import opened ScanTheorems
  import opened MediumWorld
  import opened ScanPass

  // ------------------------------------------------------------------
  // What a verdict means for the report
  // ------------------------------------------------------------------

  ghost predicate ReportsExtAt(s: Scan, p: nat) {
    exists i :: 0 <= i < |s.hits| && s.hits[i].offset == p && s.hits[i].IsExtFilesystem()
  }

  /** Later positions leave an ext filesystem recorded at `p` where it is. */
  lemma ExtReportSurvives(s: Scan, t: Scan, p: nat, i: nat)
    requires Grows(s, t, p + 1) && i < |s.hits| && s.hits[i].offset == p && s.hits[i].IsExtFilesystem()
    ensures ReportsExtAt(t, p)
  {
    assert t.hits[i].offset == p && t.hits[i].IsExtFilesystem();
  }

  /** A start the medium establishes is always reported as a filesystem. */
  lemma EstablishedStartIsReported(w: World, positions: seq<nat>, k: nat)
    requires Increasing(positions) && k < |positions|
    requires w.found(positions[k]).Some? && w.found(positions[k]).value.ExtPrimary?
    requires w.found(positions[k]).value.verdict == Start
    ensures ReportsExtAt(Run(w, EMPTY, positions), positions[k])
  {
    var before, p, rest := Run(w, EMPTY, positions[..k]), positions[k], positions[k + 1..];
    RunSplitsAt(w, positions, k);
    assert forall i :: 0 <= i < |rest| ==> rest[i] == positions[k + 1 + i];
    StartStaysReported(w, before, p, rest);
  }

  lemma RunSplitsAt(w: World, positions: seq<nat>, k: nat)
    requires k < |positions|
    ensures Run(w, EMPTY, positions) == Run(w, Step(w, Run(w, EMPTY, positions[..k]), positions[k]), positions[k + 1..])
  {
    var later := positions[k..];
    assert positions == positions[..k] + later && later[1..] == positions[k + 1..] && later[0] == positions[k];
    RunAppend(w, EMPTY, positions[..k], later);
    RunOne(w, Run(w, EMPTY, positions[..k]), later);
  }

  lemma StartStaysReported(w: World, before: Scan, p: nat, rest: seq<nat>)
    requires w.found(p).Some? && w.found(p).value.ExtPrimary? && w.found(p).value.verdict == Start
    requires Increasing(rest) && (rest != [] ==> p < rest[0])
    ensures ReportsExtAt(Run(w, Step(w, before, p), rest), p)
  {
    var detected, stepped := Detect(w, before, p), Step(w, before, p);
    StepGrows(w, before, p);
    RunGrows(w, stepped, rest, p + 1);
    StartIsDetected(w, before, p);
    SurvivesTwice(detected, stepped, Run(w, stepped, rest), p, |before.hits|);
  }

  lemma StartIsDetected(w: World, before: Scan, p: nat)
    requires w.found(p).Some? && w.found(p).value.ExtPrimary? && w.found(p).value.verdict == Start
    ensures
      var detected := Detect(w, before, p);
      |detected.hits| == |before.hits| + 1 && detected.hits[|before.hits|].offset == p &&
        detected.hits[|before.hits|].IsExtFilesystem()
  {
  }

  lemma SurvivesTwice(s: Scan, t: Scan, u: Scan, p: nat, i: nat)
    requires Grows(s, t, p + 1) && Grows(t, u, p + 1) && i < |s.hits| && s.hits[i].offset == p &&
      s.hits[i].IsExtFilesystem()
    ensures ReportsExtAt(u, p)
  {
    GrowsTransitive(s, t, u, p + 1, p + 1);
    ExtReportSurvives(s, u, p, i);
  }

  /** One whose table is unconfirmed never is, whatever vouches for it. */
  lemma UnconfirmedTableIsNeverReported(w: World, positions: seq<nat>, p: nat)
    requires Sane(w) && Increasing(positions)
    requires w.found(p).Some? && w.found(p).value.ExtPrimary? && w.found(p).value.verdict == TableUnconfirmed
    ensures !ReportsExtAt(Run(w, EMPTY, positions), p)
  {
    var s := Run(w, EMPTY, positions);
    RunFromEmpty(w, positions);
    if i :| 0 <= i < |s.hits| && s.hits[i].offset == p && s.hits[i].IsExtFilesystem() {
      assert HitOk(w, s.hits[i], s.uuids[i]);
    }
  }

  // ------------------------------------------------------------------
  // Superblocks cut short by the end of the medium
  // ------------------------------------------------------------------

  /** So few bytes are left at `q` that a superblock there passes the plausibility test but cannot be parsed. */
  predicate LeavesTooLittle(size: nat, q: nat) {
    q <= size && PROBE_MIN_LEN <= size - q < PARSE_MIN_LEN
  }

  predicate Risky(size: nat, p: nat) {
    LeavesTooLittle(size, p) || (p >= LEAD_IN && LeavesTooLittle(size, p - LEAD_IN))
  }

  function CutByte(i: int): byte {
    if i == 1024 + 0x38 then 0x53
    else if i == 1024 + 0x39 then 0xEF
    else if i == 1024 + 0x20 || i == 1024 + 0x28 then 1
    else 0
  }

  ghost function CutMedium(size: nat, q: nat): seq<byte> {
    seq<byte>(size, (i: nat) => CutByte(i - q))
  }

  lemma CutMediumIsCut(size: nat, q: nat)
    requires LeavesTooLittle(size, q)
    ensures Cut(Window(CutMedium(size, q)[q..]))
  {
    var tail := CutMedium(size, q)[q..];
    assert Window(tail) == tail;
    assert forall i :: 0 <= i < |tail| ==> tail[i] == CutByte(i);
  }

  /** The scan can panic on some medium of this size iff a visited position, or its lead-in, leaves too little. */
  lemma PanicFreeIff(size: nat, grid: seq<nat>)
    requires forall p :: p in grid ==> p <= size
    ensures (forall media: seq<byte> :: |media| == size ==> !CutOnGrid(media, grid))
       <==> (forall p :: p in grid ==> !Risky(size, p))
  {
    if p :| p in grid && Risky(size, p) {
      var q := if LeavesTooLittle(size, p) then p else p - LEAD_IN;
      var media := CutMedium(size, q);
      CutMediumIsCut(size, q);
      assert CutAt(media, p);
      assert CutOnGrid(media, grid);
    }
  }

  /** Whole multiples of 64 bytes, as every sector is, never leave too little. */
  lemma SectorsArePanicFree(sectors: nat, p: nat, k: nat)
    requires p == 64 * k
    ensures !Risky(64 * sectors, p)
  {
  }

  lemma RunThree(w: World, a: nat, b: nat, c: nat)
    ensures Run(w, EMPTY, [a, b, c]) == Step(w, Step(w, Step(w, EMPTY, a), b), c)
  {
    RunOne(w, EMPTY, [a, b, c]);
    RunOne(w, Step(w, EMPTY, a), [b, c]);
    RunOne(w, Step(w, Step(w, EMPTY, a), b), [c]);
  }

  lemma RunTwo(w: World, a: nat, b: nat)
    ensures Run(w, EMPTY, [a, b]) == Step(w, Step(w, EMPTY, a), b)
  {
    RunOne(w, EMPTY, [a, b]);
    RunOne(w, Step(w, EMPTY, a), [b]);
  }

  lemma RunOne(w: World, s: Scan, positions: seq<nat>)
    requires positions != []
    ensures Run(w, s, positions) == Run(w, Step(w, s, positions[0]), positions[1..])
  {
  }
}

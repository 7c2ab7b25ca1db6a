/**
 Evidence is conserved: every backup superblock a run meets is accounted for exactly once, and every ext primary
 the medium refuses is counted exactly once unless it was dropped inside its own confirmed filesystem.
 */
module ScanConservation {
  import opened Machine
  import opened ExtSuperblock
  import opened Hits
  import opened ScanModel
  import opened ScanInvariants

  // ------------------------------------------------------------------
  // What the hits add up to
  // ------------------------------------------------------------------

  /** Two things hits are counted by: how often they account for one offset, and how many refusals they stand for. */
  datatype Measure = OccurrencesOf(offset: nat) | Refusals

  ghost function Occurrences(backups: seq<Backup>, x: nat): nat {
    if backups == [] then 0
    else Occurrences(backups[..|backups| - 1], x) + if backups[|backups| - 1].offset == x then 1 else 0
  }

  ghost function Weight(w: World, m: Measure, hit: Hit): nat {
    match m
    case OccurrencesOf(x) =>
      // The copies folded into the hit, and the hit itself when it is a lone copy.
      Occurrences(hit.backups, x) + if hit.kind.LoneBackup? && hit.offset == x then 1 else 0
    case Refusals =>
      // The copies of a run, or the one primary a filesystem was promoted from.
      if hit.kind.PrimaryCopies? then hit.kind.copies
      else if hit.IsExtFilesystem() && Refused(w, hit.offset) then 1
      else 0
  }

  ghost function Total(w: World, m: Measure, hits: seq<Hit>): nat {
    if hits == [] then 0 else Total(w, m, hits[..|hits| - 1]) + Weight(w, m, hits[|hits| - 1])
  }

  /** `sb` is a copy listed under this hit: the lone copy itself or one folded into it. */
  ghost predicate Lists(hit: Hit, sb: nat) {
    || (hit.kind.LoneBackup? && hit.offset == sb)
    || exists k :: 0 <= k < |hit.backups| && hit.backups[k].offset == sb
  }

  lemma {:induction false} FoldedOccurs(backups: seq<Backup>, k: nat)
    requires k < |backups|
    ensures Occurrences(backups, backups[k].offset) >= 1
    decreases |backups|
  {
    if k < |backups| - 1 {
      FoldedOccurs(backups[..|backups| - 1], k);
    }
  }

  lemma {:induction false} TotalAtLeast(w: World, m: Measure, hits: seq<Hit>, i: nat)
    requires i < |hits|
    ensures Total(w, m, hits) >= Weight(w, m, hits[i])
    decreases |hits|
  {
    if i < |hits| - 1 {
      TotalAtLeast(w, m, hits[..|hits| - 1], i);
    }
  }

  /** A listed copy is counted. */
  lemma ListedIsCounted(w: World, hits: seq<Hit>, i: nat, sb: nat)
    requires i < |hits| && Lists(hits[i], sb)
    ensures Total(w, OccurrencesOf(sb), hits) >= 1
  {
    TotalAtLeast(w, OccurrencesOf(sb), hits, i);
    if k :| 0 <= k < |hits[i].backups| && hits[i].backups[k].offset == sb {
      FoldedOccurs(hits[i].backups, k);
    }
  }

  lemma TotalPush(w: World, m: Measure, hits: seq<Hit>, hit: Hit)
    ensures Total(w, m, hits + [hit]) == Total(w, m, hits) + Weight(w, m, hit)
  {
    assert (hits + [hit])[..|hits|] == hits;
  }

  lemma {:induction false} TotalReplace(w: World, m: Measure, hits: seq<Hit>, n: nat, hit: Hit)
    requires n < |hits|
    ensures Total(w, m, hits[n := hit]) + Weight(w, m, hits[n]) == Total(w, m, hits) + Weight(w, m, hit)
    decreases |hits|
  {
    var last := |hits| - 1;
    if n == last {
      assert hits[n := hit][..last] == hits[..last];
    } else {
      assert hits[n := hit][..last] == hits[..last][n := hit];
      TotalReplace(w, m, hits[..last], n, hit);
    }
  }

  // ------------------------------------------------------------------
  // One step
  // ------------------------------------------------------------------

  /** What recording a copy adds. */
  lemma CopyTotal(w: World, m: Measure, s: Scan, p: nat, claimed: nat, uuid: Uuid)
    ensures Total(w, m, RecordCopy(s, p, claimed, uuid).hits)
         == Total(w, m, s.hits) + if m.Refusals? && !InsideExt(s, p, uuid) then 1 else 0
  {
    if InsideExt(s, p, uuid) {
    } else if LastIsCopies(s, uuid) {
      var n := |s.hits| - 1;
      TotalReplace(w, m, s.hits, n, s.hits[n].(kind := PrimaryCopies(s.hits[n].kind.copies + 1, p)));
    } else {
      TotalPush(w, m, s.hits, Hit(p, PrimaryCopies(1, p), Some(claimed), []));
    }
  }

  ghost predicate Kept(w: World, s: Scan, p: nat) {
    Refused(w, p) && !InsideExt(s, p, w.found(p).value.uuid)
  }

  lemma DetectTotal(w: World, m: Measure, s: Scan, p: nat)
    requires Sane(w)
    ensures Total(w, m, Detect(w, s, p).hits)
         == Total(w, m, s.hits) + if m.Refusals? && Kept(w, s, p) then 1 else 0
  {
    if w.found(p).Some? {
      match w.found(p).value
      case Volume(detected, size) =>
        TotalPush(w, m, s.hits, Hit(p, Filesystem(detected), size, []));
      case Table(detected, credible) =>
        TotalPush(w, m, s.hits, Hit(p, PartitionTable(detected), None, []));
      case ExtPrimary(uuid, claimed, verdict) =>
        ExtTotal(w, m, s, p, uuid, claimed, verdict);
    }
  }

  lemma ExtTotal(w: World, m: Measure, s: Scan, p: nat, uuid: Uuid, claimed: nat, verdict: Verdict)
    requires w.found(p) == Some(ExtPrimary(uuid, claimed, verdict))
    ensures Total(w, m, RecordExt(s, p, uuid, claimed, verdict).hits)
         == Total(w, m, s.hits) + if m.Refusals? && Kept(w, s, p) then 1 else 0
  {
    match verdict
    case Start =>
      TotalPush(w, m, s.hits, Hit(p, Filesystem(Ext), Some(claimed), []));
    case TableUnconfirmed =>
      CopyTotal(w, m, s, p, claimed, uuid);
    case RootInodeRefuted =>
      var demoted := s.(demoted := s.demoted + [p]);
      assert InsideExt(demoted, p, uuid) == InsideExt(s, p, uuid);
      CopyTotal(w, m, demoted, p, claimed, uuid);
  }

  lemma FoldWeight(w: World, m: Measure, hit: Hit, copy: Backup)
    ensures Weight(w, m, hit.(backups := hit.backups + [copy]))
         == Weight(w, m, hit) + if m == OccurrencesOf(copy.offset) then 1 else 0
  {
    assert (hit.backups + [copy])[..|hit.backups|] == hit.backups;
  }

  /** A promoted hit stands for the one primary it was promoted from. */
  lemma PromoteTotal(w: World, m: Measure, s: Scan, index: nat)
    requires index < |s.hits|
    requires s.hits[index].kind.PrimaryCopies? ==> Refused(w, s.hits[index].offset)
    ensures Total(w, m, Promote(s, index).hits) == Total(w, m, s.hits)
  {
    TotalReplace(w, m, s.hits, index, s.hits[index].(kind := Filesystem(Ext)));
  }

  lemma FoldTotal(w: World, m: Measure, s: Scan, index: nat, copy: Backup)
    requires index < |s.hits|
    ensures Total(w, m, Fold(s, index, copy).hits)
         == Total(w, m, s.hits) + if m == OccurrencesOf(copy.offset) then 1 else 0
  {
    FoldWeight(w, m, s.hits[index], copy);
    TotalReplace(w, m, s.hits, index, s.hits[index].(backups := s.hits[index].backups + [copy]));
  }

  /** Recording a backup adds one occurrence of its offset, the first time it is seen. */
  lemma BackupTotal(w: World, m: Measure, s: Scan, sb: nat)
    requires HitsOk(w, s)
    ensures Total(w, m, RecordBackup(s, sb, w.info(sb)).hits)
         == Total(w, m, s.hits) + if m == OccurrencesOf(sb) && IsBackup(w, sb) && sb !in s.seen then 1 else 0
  {
    if IsBackup(w, sb) && sb !in s.seen {
      var info := w.info(sb).value;
      var copy := Backup(sb, info.group);
      var noted := s.(seen := s.seen + [sb]);
      match Corroborated(noted, sb, info)
      case None => TotalPush(w, m, s.hits, LoneHit(sb, info));
      case Some(index) =>
        assert HitOk(w, s.hits[index], s.uuids[index]);
        FoldTotal(w, m, noted, index, copy);
        PromoteTotal(w, m, Fold(noted, index, copy), index);
    }
  }

  // ------------------------------------------------------------------
  // Backup superblocks over a run
  // ------------------------------------------------------------------

  /** A run over `positions` comes across the backup superblock at `x`. */
  ghost predicate Met(w: World, positions: seq<nat>, x: nat) {
    IsBackup(w, x) && x >= LEAD_IN && (x - LEAD_IN in positions || x in positions)
  }

  ghost predicate Accounted(w: World, s: Scan, x: nat, met: bool) {
    && Total(w, OccurrencesOf(x), s.hits) == (if met then 1 else 0)
    && (met ==> IsBackup(w, x))
    && (IsBackup(w, x) ==> (x in s.seen <==> met))
  }

  lemma DetectAccounts(w: World, s: Scan, p: nat, x: nat, met: bool)
    requires Sane(w) && Accounted(w, s, x, met)
    ensures Accounted(w, Detect(w, s, p), x, met)
  {
    DetectTotal(w, OccurrencesOf(x), s, p);
  }

  lemma BackupAccounts(w: World, s: Scan, sb: nat, x: nat, met: bool)
    requires HitsOk(w, s) && Accounted(w, s, x, met)
    ensures Accounted(w, RecordBackup(s, sb, w.info(sb)), x, met || (x == sb && IsBackup(w, sb)))
  {
    BackupTotal(w, OccurrencesOf(x), s, sb);
  }

  lemma MetOne(w: World, p: nat, x: nat)
    ensures Met(w, [p], x) <==> IsBackup(w, x) && (x == p + LEAD_IN || (x == p && p >= LEAD_IN))
  {
  }

  lemma AheadAccounts(w: World, s: Scan, p: nat, x: nat, met: bool)
    requires Sane(w) && Inv(w, s, p) && Accounted(w, s, x, met)
    ensures Accounted(w, Ahead(w, s, p), x, met || (x == p + LEAD_IN && IsBackup(w, x)))
  {
    AheadRecords(w, s, p);
    DetectAccounts(w, s, p, x, met);
    BackupAccounts(w, Detect(w, s, p), p + LEAD_IN, x, met);
  }

  lemma StepAccounts(w: World, s: Scan, p: nat, x: nat, met: bool)
    requires Sane(w) && Inv(w, s, p) && Accounted(w, s, x, met)
    ensures Accounted(w, Step(w, s, p), x, met || Met(w, [p], x))
  {
    MetOne(w, p, x);
    AheadKeeps(w, s, p);
    AheadAccounts(w, s, p, x, met);
    if p >= LEAD_IN {
      BackupAccounts(w, Ahead(w, s, p), p, x, met || (x == p + LEAD_IN && IsBackup(w, x)));
    }
  }

  lemma {:induction false} RunAccounts(w: World, s: Scan, positions: seq<nat>, q: nat, x: nat, met: bool)
    requires Sane(w) && Inv(w, s, q) && Increasing(positions) && Accounted(w, s, x, met)
    requires positions != [] ==> q <= positions[0]
    ensures Accounted(w, Run(w, s, positions), x, met || Met(w, positions, x))
    decreases |positions|
  {
    if positions != [] {
      var p := positions[0];
      InvWeakens(w, s, q, p);
      StepKeeps(w, s, p);
      StepAccounts(w, s, p, x, met);
      IncreasingTail(positions);
      RunAccounts(w, Step(w, s, p), positions[1..], p + 1, x, met || Met(w, [p], x));
      assert positions == [p] + positions[1..];
    }
  }

  // ------------------------------------------------------------------
  // Refused primaries over a run
  // ------------------------------------------------------------------

  /** The refused primaries of a run that do not lie inside their own filesystem as confirmed by then. */
  ghost function Undropped(w: World, s: Scan, positions: seq<nat>): nat
    decreases |positions|
  {
    if positions == [] then 0
    else (if Kept(w, s, positions[0]) then 1 else 0) + Undropped(w, Step(w, s, positions[0]), positions[1..])
  }

  lemma StepRefusals(w: World, s: Scan, p: nat)
    requires Sane(w) && Inv(w, s, p)
    ensures Total(w, Refusals, Step(w, s, p).hits) == Total(w, Refusals, s.hits) + if Kept(w, s, p) then 1 else 0
  {
    AheadRefusals(w, s, p);
    AheadKeeps(w, s, p);
    if p >= LEAD_IN {
      BackupTotal(w, Refusals, Ahead(w, s, p), p);
    }
  }

  lemma AheadRefusals(w: World, s: Scan, p: nat)
    requires Sane(w) && Inv(w, s, p)
    ensures Total(w, Refusals, Ahead(w, s, p).hits) == Total(w, Refusals, s.hits) + if Kept(w, s, p) then 1 else 0
  {
    var detected := Detect(w, s, p);
    DetectKeeps(w, s, p);
    DetectTotal(w, Refusals, s, p);
    AheadOffset(w, detected, p);
    BackupTotal(w, Refusals, detected, p + LEAD_IN);
  }

  lemma {:induction false} RunRefusals(w: World, s: Scan, positions: seq<nat>, q: nat)
    requires Sane(w) && Inv(w, s, q) && Increasing(positions)
    requires positions != [] ==> q <= positions[0]
    ensures Total(w, Refusals, Run(w, s, positions).hits) == Total(w, Refusals, s.hits) + Undropped(w, s, positions)
    decreases |positions|
  {
    if positions != [] {
      InvWeakens(w, s, q, positions[0]);
      StepKeeps(w, s, positions[0]);
      StepRefusals(w, s, positions[0]);
      IncreasingTail(positions);
      RunRefusals(w, Step(w, s, positions[0]), positions[1..], positions[0] + 1);
    }
  }
}

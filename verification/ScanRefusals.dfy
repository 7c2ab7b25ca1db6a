/**
 Where each refused ext primary of a run ends up: every one that was not dropped inside its own filesystem has exactly
 one home in the report, and every home counts exactly its own.
 */
module ScanRefusals {
  import opened Machine
  import opened ExtSuperblock
  import opened Hits
  import opened ScanModel
  import opened ScanInvariants
  import opened ScanConservation
  import opened ScanTheorems

  /** The refused primary at `p` belongs under this hit: a run of its UUID that spans it, or its own start put back. */
  ghost predicate Home(w: World, hit: Hit, uuid: Option<Uuid>, p: nat) {
    && Refused(w, p) && uuid == Some(w.found(p).value.uuid)
    && if hit.kind.PrimaryCopies? then hit.offset <= p <= hit.kind.last
       else hit.IsExtFilesystem() && Refused(w, hit.offset) && p == hit.offset
  }

  ghost predicate Housed(w: World, s: Scan, p: nat) {
    exists i :: 0 <= i < |s.hits| && Home(w, s.hits[i], s.uuids[i], p)
  }

  /** How many of the kept primaries belong under this hit. */
  ghost function Share(w: World, kept: seq<nat>, hit: Hit, uuid: Option<Uuid>): nat {
    if kept == [] then 0
    else Share(w, kept[..|kept| - 1], hit, uuid) + if Home(w, hit, uuid, kept[|kept| - 1]) then 1 else 0
  }

  /** A run ends before the next start. */
  ghost predicate RunsApart(s: Scan) {
    forall i, j :: 0 <= i < j < |s.hits| && s.hits[i].kind.PrimaryCopies? && !s.hits[j].kind.LoneBackup? ==>
      s.hits[i].kind.last < s.hits[j].offset
  }

  ghost predicate SharesAreExact(w: World, s: Scan, kept: seq<nat>) {
    forall i :: 0 <= i < |s.hits| ==> Share(w, kept, s.hits[i], s.uuids[i]) == Weight(w, Refusals, s.hits[i])
  }

  ghost predicate AllHoused(w: World, s: Scan, kept: seq<nat>, q: nat) {
    forall k :: 0 <= k < |kept| ==> kept[k] < q && Housed(w, s, kept[k])
  }

  ghost predicate Homed(w: World, s: Scan, kept: seq<nat>, q: nat) {
    AllHoused(w, s, kept, q) && SharesAreExact(w, s, kept) && RunsApart(s)
  }

  // ------------------------------------------------------------------
  // Counting
  // ------------------------------------------------------------------

  lemma ShareOn(w: World, kept: seq<nat>, p: nat, hit: Hit, uuid: Option<Uuid>)
    ensures Share(w, kept + [p], hit, uuid) == Share(w, kept, hit, uuid) + if Home(w, hit, uuid, p) then 1 else 0
  {
    assert (kept + [p])[..|kept|] == kept;
  }

  lemma {:induction false} ShareOfSameHomes(w: World, kept: seq<nat>, hit: Hit, uuid: Option<Uuid>,
                                            hit': Hit, uuid': Option<Uuid>)
    requires forall k :: 0 <= k < |kept| ==> (Home(w, hit, uuid, kept[k]) <==> Home(w, hit', uuid', kept[k]))
    ensures Share(w, kept, hit, uuid) == Share(w, kept, hit', uuid')
    decreases |kept|
  {
    if kept != [] {
      ShareOfSameHomes(w, kept[..|kept| - 1], hit, uuid, hit', uuid');
    }
  }

  lemma {:induction false} NoShare(w: World, kept: seq<nat>, hit: Hit, uuid: Option<Uuid>)
    requires forall k :: 0 <= k < |kept| ==> !Home(w, hit, uuid, kept[k])
    ensures Share(w, kept, hit, uuid) == 0
    decreases |kept|
  {
    if kept != [] {
      NoShare(w, kept[..|kept| - 1], hit, uuid);
    }
  }

  // ------------------------------------------------------------------
  // Steps that keep every home
  // ------------------------------------------------------------------

  /** The same homes and weights, in the same places; whatever is new is home to nothing kept so far. */
  ghost predicate SameHome(w: World, hit: Hit, uuid: Option<Uuid>, hit': Hit, uuid': Option<Uuid>) {
    && uuid == uuid' && hit.offset == hit'.offset
    && (hit.kind.LoneBackup? <==> hit'.kind.LoneBackup?)
    && (hit'.kind.PrimaryCopies? ==> hit'.kind == hit.kind)
    && Weight(w, Refusals, hit) == Weight(w, Refusals, hit')
    && forall p: nat :: Home(w, hit, uuid, p) <==> Home(w, hit', uuid', p)
  }

  ghost predicate SameHomes(w: World, s: Scan, t: Scan) {
    |s.hits| == |t.hits| && forall i :: 0 <= i < |s.hits| ==> SameHome(w, s.hits[i], s.uuids[i], t.hits[i], t.uuids[i])
  }

  lemma SameHomesKeep(w: World, s: Scan, t: Scan, kept: seq<nat>, q: nat)
    requires SameHomes(w, s, t) && Homed(w, s, kept, q)
    ensures Homed(w, t, kept, q)
  {
    forall k | 0 <= k < |kept|
      ensures Housed(w, t, kept[k])
    {
      var i :| 0 <= i < |s.hits| && Home(w, s.hits[i], s.uuids[i], kept[k]);
      assert SameHome(w, s.hits[i], s.uuids[i], t.hits[i], t.uuids[i]);
    }
    forall i | 0 <= i < |t.hits|
      ensures Share(w, kept, t.hits[i], t.uuids[i]) == Weight(w, Refusals, t.hits[i])
    {
      assert SameHome(w, s.hits[i], s.uuids[i], t.hits[i], t.uuids[i]);
      ShareOfSameHomes(w, kept, s.hits[i], s.uuids[i], t.hits[i], t.uuids[i]);
    }
    assert forall i :: 0 <= i < |s.hits| ==> SameHome(w, s.hits[i], s.uuids[i], t.hits[i], t.uuids[i]);
  }

  /** A pushed hit that is no home, at or past everything recorded. */
  lemma PushKeepsHomes(w: World, s: Scan, hit: Hit, uuid: Option<Uuid>, kept: seq<nat>, q: nat)
    requires Homed(w, s, kept, q) && Weight(w, Refusals, hit) == 0
    requires !hit.kind.PrimaryCopies? && (hit.IsExtFilesystem() ==> !Refused(w, hit.offset))
    requires hit.kind.LoneBackup? || (Bounded(s, hit.offset))
    ensures Homed(w, Push(s, hit, uuid), kept, q)
  {
    var t := Push(s, hit, uuid);
    forall k | 0 <= k < |kept|
      ensures Housed(w, t, kept[k])
    {
      var i :| 0 <= i < |s.hits| && Home(w, s.hits[i], s.uuids[i], kept[k]);
      assert Home(w, t.hits[i], t.uuids[i], kept[k]);
    }
    NoShare(w, kept, hit, uuid);
    assert forall i :: 0 <= i < |s.hits| ==> t.hits[i] == s.hits[i] && t.uuids[i] == s.uuids[i];
    if !hit.kind.LoneBackup? {
      assert forall i :: 0 <= i < |s.hits| ==> Below(s.hits[i], hit.offset);
    }
  }

  lemma FoldedSameHome(w: World, hit: Hit, uuid: Option<Uuid>, copy: Backup)
    ensures SameHome(w, hit, uuid, hit.(backups := hit.backups + [copy]), uuid)
  {
  }

  /** A run of one put back as a filesystem is home to the same primary. */
  lemma PromotedSameHome(w: World, hit: Hit, uuid: Option<Uuid>)
    requires HitOk(w, hit, uuid) && hit.kind.PrimaryCopies? && hit.kind.copies == 1
    ensures SameHome(w, hit, uuid, hit.(kind := Filesystem(Ext)), uuid)
  {
  }

  lemma SameHomeTrans(w: World, a: Hit, b: Hit, c: Hit, uuid: Option<Uuid>)
    requires SameHome(w, a, uuid, b, uuid) && SameHome(w, b, uuid, c, uuid)
    ensures SameHome(w, a, uuid, c, uuid)
  {
  }

  /** Folding a backup into a hit, and promoting it, changes no home. */
  lemma CorroboratedKeepsHomes(w: World, s: Scan, index: nat, copy: Backup)
    requires HitsOk(w, s) && index < |s.hits|
    ensures SameHomes(w, s, Promote(Fold(s, index, copy), index))
  {
    var hit, uuid := s.hits[index], s.uuids[index];
    assert HitOk(w, hit, uuid);
    FoldedSameHome(w, hit, uuid, copy);
    if hit.kind.PrimaryCopies? && hit.kind.copies == 1 {
      var promoted := hit.(kind := Filesystem(Ext));
      PromotedSameHome(w, hit, uuid);
      FoldedSameHome(w, promoted, uuid, copy);
      SameHomeTrans(w, hit, promoted, promoted.(backups := hit.backups + [copy]), uuid);
    }
    forall i | 0 <= i < |s.hits| && i != index
      ensures SameHome(w, s.hits[i], s.uuids[i], s.hits[i], s.uuids[i])
    {
    }
  }

  lemma BackupKeepsHomes(w: World, s: Scan, sb: nat, kept: seq<nat>, q: nat)
    requires HitsOk(w, s) && Homed(w, s, kept, q)
    ensures Homed(w, RecordBackup(s, sb, w.info(sb)), kept, q)
  {
    if IsBackup(w, sb) && sb !in s.seen {
      var info := w.info(sb).value;
      var noted := s.(seen := s.seen + [sb]);
      assert Homed(w, noted, kept, q);
      match Corroborated(noted, sb, info)
      case None =>
        PushKeepsHomes(w, noted, LoneHit(sb, info), Some(info.uuid), kept, q);
      case Some(index) =>
        CorroboratedKeepsHomes(w, noted, index, Backup(sb, info.group));
        SameHomesKeep(w, noted, Promote(Fold(noted, index, Backup(sb, info.group)), index), kept, q);
    }
  }

  // ------------------------------------------------------------------
  // A refused primary that is kept
  // ------------------------------------------------------------------

  /** Nothing recorded before `p` is home to `p`. */
  lemma NotYetHome(w: World, s: Scan, p: nat, i: nat)
    requires Bounded(s, p) && i < |s.hits|
    ensures !Home(w, s.hits[i], s.uuids[i], p)
  {
    assert Below(s.hits[i], p);
  }

  lemma SharesOn(w: World, s: Scan, kept: seq<nat>, p: nat, i: nat)
    requires Bounded(s, p) && SharesAreExact(w, s, kept) && i < |s.hits|
    ensures Share(w, kept + [p], s.hits[i], s.uuids[i]) == Weight(w, Refusals, s.hits[i])
  {
    NotYetHome(w, s, p, i);
    ShareOn(w, kept, p, s.hits[i], s.uuids[i]);
  }

  lemma StillHoused(w: World, s: Scan, t: Scan, p: nat)
    requires Housed(w, s, p) && |s.hits| <= |t.hits|
    requires forall i :: 0 <= i < |s.hits| && Home(w, s.hits[i], s.uuids[i], p) ==> Home(w, t.hits[i], t.uuids[i], p)
    ensures Housed(w, t, p)
  {
    var i :| 0 <= i < |s.hits| && Home(w, s.hits[i], s.uuids[i], p);
    assert Home(w, t.hits[i], t.uuids[i], p);
  }

  ghost function NewRun(p: nat, claimed: nat): Hit {
    Hit(p, PrimaryCopies(1, p), Some(claimed), [])
  }

  lemma NewRunShares(w: World, s: Scan, p: nat, kept: seq<nat>, claimed: nat, uuid: Uuid)
    requires Bounded(s, p) && AllHoused(w, s, kept, p) && SharesAreExact(w, s, kept)
    requires Home(w, NewRun(p, claimed), Some(uuid), p)
    ensures SharesAreExact(w, Push(s, NewRun(p, claimed), Some(uuid)), kept + [p])
  {
    var t := Push(s, NewRun(p, claimed), Some(uuid));
    forall i | 0 <= i < |s.hits|
      ensures Share(w, kept + [p], t.hits[i], t.uuids[i]) == Weight(w, Refusals, t.hits[i])
    {
      SharesOn(w, s, kept, p, i);
    }
    NoShare(w, kept, NewRun(p, claimed), Some(uuid));
    ShareOn(w, kept, p, NewRun(p, claimed), Some(uuid));
  }

  lemma NewRunHouses(w: World, s: Scan, p: nat, kept: seq<nat>, claimed: nat, uuid: Uuid)
    requires AllHoused(w, s, kept, p) && Home(w, NewRun(p, claimed), Some(uuid), p)
    ensures AllHoused(w, Push(s, NewRun(p, claimed), Some(uuid)), kept + [p], p + 1)
  {
    var t := Push(s, NewRun(p, claimed), Some(uuid));
    assert Home(w, t.hits[|s.hits|], t.uuids[|s.hits|], p);
    forall k | 0 <= k < |kept|
      ensures Housed(w, t, kept[k])
    {
      StillHoused(w, s, t, kept[k]);
    }
  }

  /** It starts a run of its own. */
  lemma NewRunIsHome(w: World, s: Scan, p: nat, kept: seq<nat>)
    requires Bounded(s, p) && Homed(w, s, kept, p) && Refused(w, p)
    ensures
      var found := w.found(p).value;
      Homed(w, Push(s, NewRun(p, found.claimed), Some(found.uuid)), kept + [p], p + 1)
  {
    var found := w.found(p).value;
    NewRunShares(w, s, p, kept, found.claimed, found.uuid);
    NewRunHouses(w, s, p, kept, found.claimed, found.uuid);
    PushedRunIsApart(s, NewRun(p, found.claimed), Some(found.uuid));
  }

  lemma PushedRunIsApart(s: Scan, hit: Hit, uuid: Option<Uuid>)
    requires RunsApart(s) && Bounded(s, hit.offset)
    ensures RunsApart(Push(s, hit, uuid))
  {
    assert forall i :: 0 <= i < |s.hits| ==> Below(s.hits[i], hit.offset);
  }

  /** Between the end of the last run and `p` nothing of its UUID was kept. */
  lemma NothingKeptSince(w: World, s: Scan, k: nat, p: nat)
    requires StartsOrdered(s) && RunsApart(s) && |s.hits| > 0 && s.hits[|s.hits| - 1].kind.PrimaryCopies?
    requires Housed(w, s, k) && s.hits[|s.hits| - 1].offset <= k && s.hits[|s.hits| - 1].kind.last <= p
    ensures
      var last := s.hits[|s.hits| - 1];
      Home(w, last.(kind := PrimaryCopies(last.kind.copies + 1, p)), s.uuids[|s.hits| - 1], k) ==>
        Home(w, last, s.uuids[|s.hits| - 1], k)
  {
    var n := |s.hits| - 1;
    assert forall i :: 0 <= i < n && !s.hits[i].kind.LoneBackup? ==> s.hits[i].offset < s.hits[n].offset;
    var j :| 0 <= j < |s.hits| && Home(w, s.hits[j], s.uuids[j], k);
  }

  ghost function Longer(s: Scan, p: nat): Scan
    requires |s.hits| > 0 && s.hits[|s.hits| - 1].kind.PrimaryCopies?
  {
    var n := |s.hits| - 1;
    s.(hits := s.hits[n := s.hits[n].(kind := PrimaryCopies(s.hits[n].kind.copies + 1, p))])
  }

  /** A longer run is home to the same primaries kept so far. */
  lemma LongerSameHomes(w: World, s: Scan, p: nat, k: nat)
    requires Bounded(s, p) && StartsOrdered(s) && RunsApart(s) && Housed(w, s, k) && k < p
    requires |s.hits| > 0 && s.hits[|s.hits| - 1].kind.PrimaryCopies?
    ensures
      var n := |s.hits| - 1;
      Home(w, s.hits[n], s.uuids[n], k) <==> Home(w, Longer(s, p).hits[n], s.uuids[n], k)
    ensures Housed(w, Longer(s, p), k)
  {
    var n := |s.hits| - 1;
    assert Below(s.hits[n], p);
    if s.hits[n].offset <= k {
      NothingKeptSince(w, s, k, p);
    }
    StillHoused(w, s, Longer(s, p), k);
  }

  lemma LongerIsApart(s: Scan, p: nat)
    requires RunsApart(s) && |s.hits| > 0 && s.hits[|s.hits| - 1].kind.PrimaryCopies?
    ensures RunsApart(Longer(s, p))
  {
  }

  lemma LongerShares(w: World, s: Scan, p: nat, kept: seq<nat>)
    requires Bounded(s, p) && StartsOrdered(s) && Homed(w, s, kept, p) && Refused(w, p)
    requires LastIsCopies(s, w.found(p).value.uuid)
    ensures SharesAreExact(w, Longer(s, p), kept + [p])
  {
    var n, t := |s.hits| - 1, Longer(s, p);
    var last, longer, uuid := s.hits[n], t.hits[n], s.uuids[n];
    forall k | 0 <= k < |kept|
      ensures Home(w, last, uuid, kept[k]) <==> Home(w, longer, uuid, kept[k])
    {
      LongerSameHomes(w, s, p, kept[k]);
    }
    ShareOfSameHomes(w, kept, last, uuid, longer, uuid);
    ShareOn(w, kept, p, longer, uuid);
    assert Below(last, p);
    forall i | 0 <= i < n
      ensures Share(w, kept + [p], t.hits[i], t.uuids[i]) == Weight(w, Refusals, t.hits[i])
    {
      SharesOn(w, s, kept, p, i);
    }
  }

  /** It joins the run recorded last. */
  lemma LongerRunIsHome(w: World, s: Scan, p: nat, kept: seq<nat>)
    requires Bounded(s, p) && StartsOrdered(s) && Homed(w, s, kept, p) && Refused(w, p)
    requires LastIsCopies(s, w.found(p).value.uuid)
    ensures Homed(w, Longer(s, p), kept + [p], p + 1)
  {
    var n, t := |s.hits| - 1, Longer(s, p);
    LongerShares(w, s, p, kept);
    LongerIsApart(s, p);
    assert Below(s.hits[n], p);
    assert Home(w, t.hits[n], t.uuids[n], p);
    forall k | 0 <= k < |kept|
      ensures Housed(w, t, kept[k])
    {
      LongerSameHomes(w, s, p, kept[k]);
    }
  }

  // ------------------------------------------------------------------
  // A whole run
  // ------------------------------------------------------------------

  lemma HomedWeakens(w: World, s: Scan, kept: seq<nat>, q: nat, r: nat)
    requires Homed(w, s, kept, q) && q <= r
    ensures Homed(w, s, kept, r)
  {
  }

  /** Only `hits` and `uuids` matter. */
  lemma HomedOfSameHits(w: World, s: Scan, t: Scan, kept: seq<nat>, q: nat)
    requires Homed(w, s, kept, q) && t.hits == s.hits && t.uuids == s.uuids
    ensures Homed(w, t, kept, q)
  {
    forall k | 0 <= k < |kept|
      ensures Housed(w, t, kept[k])
    {
      StillHoused(w, s, t, kept[k]);
    }
  }

  ghost function KeptOn(w: World, s: Scan, p: nat, kept: seq<nat>): seq<nat> {
    if Kept(w, s, p) then kept + [p] else kept
  }

  lemma CopyHomes(w: World, s: Scan, p: nat, kept: seq<nat>)
    requires Bounded(s, p) && StartsOrdered(s) && Homed(w, s, kept, p) && Refused(w, p)
    ensures
      var found := w.found(p).value;
      Homed(w, RecordCopy(s, p, found.claimed, found.uuid), KeptOn(w, s, p, kept), p + 1)
  {
    var found := w.found(p).value;
    if InsideExt(s, p, found.uuid) {
      HomedWeakens(w, s, kept, p, p + 1);
    } else if LastIsCopies(s, found.uuid) {
      LongerRunIsHome(w, s, p, kept);
    } else {
      NewRunIsHome(w, s, p, kept);
    }
  }

  /** The state with a primary that only its root inode refuses noted as one that may be put back. */
  ghost function Doubted(w: World, s: Scan, p: nat): Scan
    requires Refused(w, p)
  {
    if w.found(p).value.verdict == RootInodeRefuted then s.(demoted := s.demoted + [p]) else s
  }

  lemma RefusedIsCopied(w: World, s: Scan, p: nat)
    requires Refused(w, p)
    ensures
      var found := w.found(p).value;
      Detect(w, s, p) == RecordCopy(Doubted(w, s, p), p, found.claimed, found.uuid)
  {
  }

  lemma RefusedHomes(w: World, s: Scan, p: nat, kept: seq<nat>)
    requires Bounded(s, p) && StartsOrdered(s) && Homed(w, s, kept, p) && Refused(w, p)
    ensures Homed(w, Detect(w, s, p), KeptOn(w, s, p, kept), p + 1)
  {
    var noted := Doubted(w, s, p);
    HomedOfSameHits(w, s, noted, kept, p);
    assert InsideExt(noted, p, w.found(p).value.uuid) == InsideExt(s, p, w.found(p).value.uuid);
    CopyHomes(w, noted, p, kept);
    RefusedIsCopied(w, s, p);
  }

  lemma OtherHomes(w: World, s: Scan, p: nat, kept: seq<nat>)
    requires Sane(w) && Bounded(s, p) && Homed(w, s, kept, p) && !Refused(w, p)
    ensures Homed(w, Detect(w, s, p), kept, p + 1)
  {
    HomedWeakens(w, s, kept, p, p + 1);
    if w.found(p).Some? {
      match w.found(p).value
      case Volume(detected, size) =>
        HomedOfSameHits(w, s, Cover(s, p, size), kept, p + 1);
        PushKeepsHomes(w, Cover(s, p, size), Hit(p, Filesystem(detected), size, []), None, kept, p + 1);
      case Table(detected, credible) =>
        PushKeepsHomes(w, s, Hit(p, PartitionTable(detected), None, []), None, kept, p + 1);
      case ExtPrimary(uuid, claimed, verdict) =>
        var covered := Cover(s.(seen := s.seen + [SatAdd(p, LEAD_IN)]), p, Some(claimed));
        HomedOfSameHits(w, s, covered, kept, p + 1);
        PushKeepsHomes(w, covered, Hit(p, Filesystem(Ext), Some(claimed), []), Some(uuid), kept, p + 1);
    }
  }

  lemma DetectHomes(w: World, s: Scan, p: nat, kept: seq<nat>)
    requires Sane(w) && Inv(w, s, p) && Homed(w, s, kept, p)
    ensures Homed(w, Detect(w, s, p), KeptOn(w, s, p, kept), p + 1)
  {
    if Refused(w, p) {
      RefusedHomes(w, s, p, kept);
    } else {
      OtherHomes(w, s, p, kept);
    }
  }

  lemma AheadHomes(w: World, s: Scan, p: nat, kept: seq<nat>)
    requires Sane(w) && Inv(w, s, p) && Homed(w, s, kept, p)
    ensures Homed(w, Ahead(w, s, p), KeptOn(w, s, p, kept), p + 1)
  {
    DetectHomes(w, s, p, kept);
    AheadRecords(w, s, p);
    BackupKeepsHomes(w, Detect(w, s, p), p + LEAD_IN, KeptOn(w, s, p, kept), p + 1);
  }

  lemma StepHomes(w: World, s: Scan, p: nat, kept: seq<nat>)
    requires Sane(w) && Inv(w, s, p) && Homed(w, s, kept, p)
    ensures Homed(w, Step(w, s, p), KeptOn(w, s, p, kept), p + 1)
  {
    AheadHomes(w, s, p, kept);
    AheadKeeps(w, s, p);
    BackupKeepsHomes(w, Ahead(w, s, p), p, KeptOn(w, s, p, kept), p + 1);
  }

  /** The refused primaries of a run that were not inside their own filesystem as confirmed by then, in order. */
  ghost function KeptBy(w: World, s: Scan, positions: seq<nat>, kept: seq<nat>): seq<nat>
    decreases |positions|
  {
    if positions == [] then kept
    else KeptBy(w, Step(w, s, positions[0]), positions[1..], KeptOn(w, s, positions[0], kept))
  }

  lemma {:induction false} KeptAreCounted(w: World, s: Scan, positions: seq<nat>, kept: seq<nat>)
    ensures |KeptBy(w, s, positions, kept)| == |kept| + Undropped(w, s, positions)
    decreases |positions|
  {
    if positions != [] {
      KeptAreCounted(w, Step(w, s, positions[0]), positions[1..], KeptOn(w, s, positions[0], kept));
    }
  }

  lemma {:induction false} RunHomes(w: World, s: Scan, positions: seq<nat>, q: nat, kept: seq<nat>)
    requires Sane(w) && Inv(w, s, q) && Increasing(positions) && Homed(w, s, kept, q)
    requires positions != [] ==> q <= positions[0]
    ensures Homed(w, Run(w, s, positions), KeptBy(w, s, positions, kept), Max(q, Frontier(0, positions)))
    decreases |positions|
  {
    if positions != [] {
      var p := positions[0];
      InvWeakens(w, s, q, p);
      HomedWeakens(w, s, kept, q, p);
      StepKeeps(w, s, p);
      StepHomes(w, s, p, kept);
      IncreasingTail(positions);
      RunHomes(w, Step(w, s, p), positions[1..], p + 1, KeptOn(w, s, p, kept));
    }
  }

  /** Every refused primary of a run that was not dropped has exactly one home in the report. */
  lemma EachRefusedPrimaryHasOneHome(w: World, positions: seq<nat>, p: nat)
    requires Sane(w) && Increasing(positions) && p in KeptBy(w, EMPTY, positions, [])
    ensures HasOneHome(w, Run(w, EMPTY, positions), p)
  {
    var s, kept := Run(w, EMPTY, positions), KeptBy(w, EMPTY, positions, []);
    RunFromEmpty(w, positions);
    RunHomes(w, EMPTY, positions, 0, []);
    var k :| 0 <= k < |kept| && kept[k] == p;
    OnlyHome(w, s, p);
  }

  ghost predicate HasOneHome(w: World, s: Scan, p: nat) {
    exists i :: 0 <= i < |s.hits| && Home(w, s.hits[i], s.uuids[i], p)
                && forall j :: 0 <= j < |s.hits| && j != i ==> !Home(w, s.hits[j], s.uuids[j], p)
  }

  lemma OnlyHome(w: World, s: Scan, p: nat)
    requires StartsOrdered(s) && RunsApart(s) && Housed(w, s, p)
    ensures HasOneHome(w, s, p)
  {
    var i :| 0 <= i < |s.hits| && Home(w, s.hits[i], s.uuids[i], p);
    forall j | 0 <= j < |s.hits| && j != i
      ensures !Home(w, s.hits[j], s.uuids[j], p)
    {
      assert i < j && !s.hits[j].kind.LoneBackup? && !s.hits[i].kind.LoneBackup? ==>
          s.hits[i].offset < s.hits[j].offset;
    }
  }

  /** And every hit stands for exactly as many of them as it is home to. */
  lemma EveryHomeCountsItsOwn(w: World, positions: seq<nat>, i: nat)
    requires Sane(w) && Increasing(positions) && i < |Run(w, EMPTY, positions).hits|
    ensures
      var s, kept := Run(w, EMPTY, positions), KeptBy(w, EMPTY, positions, []);
      Share(w, kept, s.hits[i], s.uuids[i]) == Weight(w, Refusals, s.hits[i])
  {
    RunHomes(w, EMPTY, positions, 0, []);
  }
}

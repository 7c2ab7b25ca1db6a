/**
 What every run of the scanner keeps: each hit is justified by what the medium holds, folding is unanimous and
 unique, and no lone backup contradicts a start recorded for its own filesystem.

 `q` is the frontier: positions below it have been classified.
 */
module ScanInvariants {
  import opened Machine
  import opened ExtSuperblock
  import opened Hits
  import opened ScanModel

  // ------------------------------------------------------------------
  // The invariant
  // ------------------------------------------------------------------

  /** The copy's own geometry computes `start` as the first byte of its filesystem. */
  ghost predicate Names(w: World, b: Backup, start: int) {
    && IsBackup(w, b.offset)
    && b.group == w.info(b.offset).value.group
    && b.offset - w.info(b.offset).value.CopyOffset() == start
  }

  ghost predicate AllName(w: World, hit: Hit) {
    forall k :: 0 <= k < |hit.backups| ==> Names(w, hit.backups[k], hit.SignedStart())
  }

  ghost predicate AllOf(w: World, hit: Hit, uuid: Uuid) {
    forall k :: 0 <= k < |hit.backups| ==>
      w.info(hit.backups[k].offset).Some? && w.info(hit.backups[k].offset).value.uuid == uuid
  }

  /** An ext primary of `uuid` claiming `size` was detected at `p`. */
  ghost predicate ExtAt(w: World, p: nat, uuid: Option<Uuid>, size: Option<nat>) {
    && w.found(p).Some? && w.found(p).value.ExtPrimary?
    && uuid == Some(w.found(p).value.uuid)
    && size == Some(w.found(p).value.claimed)
  }

  /** An ext primary was detected at `p` and the medium did not establish it as a start. */
  ghost predicate Refused(w: World, p: nat) {
    w.found(p).Some? && w.found(p).value.ExtPrimary? && w.found(p).value.verdict != Start
  }

  ghost predicate ExtFilesystemOk(w: World, hit: Hit, uuid: Option<Uuid>) {
    && ExtAt(w, hit.offset, uuid, hit.size)
    && w.found(hit.offset).value.verdict != TableUnconfirmed
    && (w.found(hit.offset).value.verdict == RootInodeRefuted ==> hit.backups != [])
  }

  ghost predicate LoneOk(w: World, hit: Hit, uuid: Option<Uuid>)
    requires hit.kind.LoneBackup?
  {
    && IsBackup(w, hit.offset)
    && var info := w.info(hit.offset).value;
    && hit == LoneHit(hit.offset, info).(backups := hit.backups)
    && uuid == Some(info.uuid)
    && AllOf(w, hit, info.uuid)
  }

  ghost predicate CopiesOk(w: World, hit: Hit, uuid: Option<Uuid>)
    requires hit.kind.PrimaryCopies?
  {
    && ExtAt(w, hit.offset, uuid, hit.size) && Refused(w, hit.offset)
    && Refused(w, hit.kind.last) && uuid == Some(w.found(hit.kind.last).value.uuid)
    && hit.kind.copies >= 1
    && hit.offset <= hit.kind.last
    && (hit.kind.copies == 1 <==> hit.kind.last == hit.offset)
    && AllOf(w, hit, uuid.value)
  }

  ghost predicate HitOk(w: World, hit: Hit, uuid: Option<Uuid>) {
    && AllName(w, hit)
    && match hit.kind
       case Filesystem(detected) =>
         if detected == Ext then ExtFilesystemOk(w, hit, uuid)
         else w.found(hit.offset) == Some(Volume(detected, hit.size)) && uuid == None && hit.backups == []
       case PartitionTable(table) =>
         w.found(hit.offset) == Some(Table(table, true)) && hit.size == None && uuid == None && hit.backups == []
       case LoneBackup(_, _, _) => LoneOk(w, hit, uuid)
       case PrimaryCopies(_, _) => CopiesOk(w, hit, uuid)
  }

  ghost predicate HitsOk(w: World, s: Scan) {
    forall i :: 0 <= i < |s.hits| ==> HitOk(w, s.hits[i], s.uuids[i])
  }

  /** Every start a hit names, and the end of every run, lies below the frontier. */
  ghost predicate Below(hit: Hit, q: nat) {
    && (hit.kind.LoneBackup? ==> hit.SignedStart() < q)
    && (!hit.kind.LoneBackup? ==> hit.offset < q)
    && (hit.kind.PrimaryCopies? ==> hit.kind.last < q)
  }

  ghost predicate Bounded(s: Scan, q: nat) {
    forall i :: 0 <= i < |s.hits| ==> Below(s.hits[i], q)
  }

  /** Hits recorded at a classified position are in strictly increasing offset order. */
  ghost predicate StartsOrdered(s: Scan) {
    forall i, j :: 0 <= i < j < |s.hits| && !s.hits[i].kind.LoneBackup? && !s.hits[j].kind.LoneBackup? ==>
      s.hits[i].offset < s.hits[j].offset
  }

  /** No two lone-backup hits share a UUID and a signed start. */
  ghost predicate LonesUnique(s: Scan) {
    forall i, j :: 0 <= i < j < |s.hits| && s.hits[i].kind.LoneBackup? && s.hits[j].kind.LoneBackup? ==>
      s.uuids[i] != s.uuids[j] || s.hits[i].SignedStart() != s.hits[j].SignedStart()
  }

  ghost predicate IsExtStart(hit: Hit) {
    hit.IsExtFilesystem() || hit.kind.PrimaryCopies?
  }

  /** An ext filesystem recorded because the medium established it, not because a backup promoted it. */
  ghost predicate Established(w: World, hit: Hit) {
    hit.IsExtFilesystem() && !Refused(w, hit.offset)
  }

  /**
   No lone backup implies a start recorded, under the same UUID, as a filesystem or a run of copies; and none
   implies the start of an established ext filesystem, whatever its UUID.
   */
  ghost predicate NoContradiction(w: World, s: Scan) {
    forall i, j :: 0 <= i < |s.hits| && 0 <= j < |s.hits| && s.hits[i].kind.LoneBackup?
                   && (Established(w, s.hits[j]) || (IsExtStart(s.hits[j]) && s.uuids[i] == s.uuids[j])) ==>
      s.hits[i].SignedStart() != s.hits[j].offset
  }

  ghost predicate DemotedOk(w: World, s: Scan) {
    forall x :: x in s.demoted ==> Refused(w, x) && w.found(x).value.verdict == RootInodeRefuted
  }

  ghost predicate Inv(w: World, s: Scan, q: nat) {
    && HitsOk(w, s)
    && Bounded(s, q)
    && StartsOrdered(s)
    && LonesUnique(s)
    && NoContradiction(w, s)
    && DemotedOk(w, s)
  }

  // ------------------------------------------------------------------
  // Detection keeps it
  // ------------------------------------------------------------------

  /** Adding a hit at the frontier, where nothing earlier can lie. */
  lemma PushKeeps(w: World, s: Scan, hit: Hit, uuid: Option<Uuid>, p: nat)
    requires Inv(w, s, p)
    requires hit.offset == p && !hit.kind.LoneBackup? && Below(hit, p + 1)
    requires HitOk(w, hit, uuid)
    ensures Inv(w, Push(s, hit, uuid), p + 1)
  {
    var t := Push(s, hit, uuid);
    PushKeepsEach(w, s, hit, uuid, p);
    PushKeepsPairs(w, s, hit, uuid, p);
  }

  lemma PushKeepsPairs(w: World, s: Scan, hit: Hit, uuid: Option<Uuid>, p: nat)
    requires Bounded(s, p) && StartsOrdered(s) && LonesUnique(s) && NoContradiction(w, s)
    requires hit.offset == p && !hit.kind.LoneBackup?
    ensures StartsOrdered(Push(s, hit, uuid)) && LonesUnique(Push(s, hit, uuid)) &&
      NoContradiction(w, Push(s, hit, uuid))
  {
    assert forall i :: 0 <= i < |s.hits| ==> Below(s.hits[i], p);
  }

  lemma PushKeepsEach(w: World, s: Scan, hit: Hit, uuid: Option<Uuid>, p: nat)
    requires HitsOk(w, s) && Bounded(s, p) && HitOk(w, hit, uuid) && Below(hit, p + 1)
    ensures HitsOk(w, Push(s, hit, uuid)) && Bounded(Push(s, hit, uuid), p + 1)
  {
    var t := Push(s, hit, uuid);
    forall i | 0 <= i < |t.hits|
      ensures HitOk(w, t.hits[i], t.uuids[i]) && Below(t.hits[i], p + 1)
    {
      if i < |s.hits| {
        assert Below(s.hits[i], p);
      }
    }
  }

  lemma InvOfSameHits(w: World, s: Scan, t: Scan, q: nat)
    requires Inv(w, s, q)
    requires t.hits == s.hits && t.uuids == s.uuids
    requires DemotedOk(w, t)
    ensures Inv(w, t, q)
  {
  }

  lemma InvWeakens(w: World, s: Scan, q: nat, r: nat)
    requires Inv(w, s, q) && q <= r
    ensures Inv(w, s, r)
  {
    forall i | 0 <= i < |s.hits|
      ensures Below(s.hits[i], r)
    {
      assert Below(s.hits[i], q);
    }
  }

  lemma CopyKeeps(w: World, s: Scan, p: nat, claimed: nat, uuid: Uuid)
    requires Inv(w, s, p)
    requires ExtAt(w, p, Some(uuid), Some(claimed)) && Refused(w, p)
    ensures Inv(w, RecordCopy(s, p, claimed, uuid), p + 1)
  {
    if InsideExt(s, p, uuid) {
      InvWeakens(w, s, p, p + 1);
    } else if LastIsCopies(s, uuid) {
      LongerKeeps(w, s, p, uuid);
    } else {
      PushKeeps(w, s, Hit(p, PrimaryCopies(1, p), Some(claimed), []), Some(uuid), p);
    }
  }

  /** A run of copies that takes in one more. */
  lemma LongerKeeps(w: World, s: Scan, p: nat, uuid: Uuid)
    requires Inv(w, s, p) && LastIsCopies(s, uuid)
    requires (exists claimed :: ExtAt(w, p, Some(uuid), claimed)) && Refused(w, p)
    ensures
      var n := |s.hits| - 1;
      Inv(w, s.(hits := s.hits[n := s.hits[n].(kind := PrimaryCopies(s.hits[n].kind.copies + 1, p))]), p + 1)
  {
    var n := |s.hits| - 1;
    assert HitOk(w, s.hits[n], s.uuids[n]) && Below(s.hits[n], p);
    InvWeakens(w, s, p, p + 1);
    ReplaceKeeps(w, s, n, s.hits[n].(kind := PrimaryCopies(s.hits[n].kind.copies + 1, p)), p + 1);
  }

  /** Replacing a hit in place, keeping where it is and what it implies. */
  lemma ReplaceKeeps(w: World, s: Scan, n: nat, hit: Hit, q: nat)
    requires Inv(w, s, q) && n < |s.hits|
    requires hit.offset == s.hits[n].offset && hit.SignedStart() == s.hits[n].SignedStart()
    requires hit.kind.LoneBackup? == s.hits[n].kind.LoneBackup?
    requires (IsExtStart(hit) ==> IsExtStart(s.hits[n])) && (Established(w, hit) ==> Established(w, s.hits[n]))
    requires HitOk(w, hit, s.uuids[n]) && Below(hit, q)
    ensures Inv(w, s.(hits := s.hits[n := hit]), q)
  {
    var t := s.(hits := s.hits[n := hit]);
    assert HitsOk(w, t) && Bounded(t, q);
    assert StartsOrdered(t);
    assert LonesUnique(t);
    assert NoContradiction(w, t);
  }

  lemma DetectKeeps(w: World, s: Scan, p: nat)
    requires Sane(w) && Inv(w, s, p)
    ensures Inv(w, Detect(w, s, p), p + 1)
  {
    if w.found(p).None? {
      InvWeakens(w, s, p, p + 1);
      return;
    }
    match w.found(p).value
    case Volume(detected, size) =>
      if p < s.coveredEnd {
        InvWeakens(w, s, p, p + 1);
      } else {
        var covered := Cover(s, p, size);
        InvOfSameHits(w, s, covered, p);
        PushKeeps(w, covered, Hit(p, Filesystem(detected), size, []), None, p);
      }
    case Table(detected, credible) =>
      if p < s.coveredEnd || !credible {
        InvWeakens(w, s, p, p + 1);
      } else {
        PushKeeps(w, s, Hit(p, PartitionTable(detected), None, []), None, p);
      }
    case ExtPrimary(uuid, claimed, verdict) =>
      ExtKeeps(w, s, p, uuid, claimed, verdict);
  }

  lemma ExtKeeps(w: World, s: Scan, p: nat, uuid: Uuid, claimed: nat, verdict: Verdict)
    requires Inv(w, s, p)
    requires w.found(p) == Some(ExtPrimary(uuid, claimed, verdict))
    ensures Inv(w, RecordExt(s, p, uuid, claimed, verdict), p + 1)
  {
    match verdict
    case TableUnconfirmed => CopyKeeps(w, s, p, claimed, uuid);
    case RootInodeRefuted =>
      var demoted := s.(demoted := s.demoted + [p]);
      InvOfSameHits(w, s, demoted, p);
      CopyKeeps(w, demoted, p, claimed, uuid);
    case Start =>
      var covered := Cover(s.(seen := s.seen + [SatAdd(p, LEAD_IN)]), p, Some(claimed));
      InvOfSameHits(w, s, covered, p);
      PushKeeps(w, covered, Hit(p, Filesystem(Ext), Some(claimed), []), Some(uuid), p);
  }

  // ------------------------------------------------------------------
  // Recording a backup keeps it
  // ------------------------------------------------------------------

  lemma SignedStartOfLone(sb: nat, info: Info)
    ensures LoneHit(sb, info).SignedStart() == sb - info.CopyOffset()
    ensures ImpliedStart(sb, info).None? <==> AbsentHead(sb, info).Some?
  {
  }

  /** A lone backup of the same UUID is found by the lookup exactly when it names the same signed start. */
  lemma LoneMatch(w: World, hit: Hit, uuid: Option<Uuid>, sb: nat, info: Info)
    requires hit.kind.LoneBackup? && LoneOk(w, hit, uuid)
    ensures Matches(LoneImplying(info.uuid, ImpliedStart(sb, info), AbsentHead(sb, info)), hit, uuid)
       <==> uuid == Some(info.uuid) && hit.SignedStart() == sb - info.CopyOffset()
  {
    SignedStartOfLone(hit.offset, w.info(hit.offset).value);
  }

  /** The hit a backup is folded into names the backup's own start, and shares its UUID unless it is a filesystem. */
  lemma CorroboratedNames(w: World, s: Scan, sb: nat, info: Info)
    requires HitsOk(w, s)
    requires Corroborated(s, sb, info).Some?
    ensures
      var i := Corroborated(s, sb, info).value;
      && s.hits[i].SignedStart() == sb - info.CopyOffset()
      && (s.hits[i].IsExtFilesystem() || s.uuids[i] == Some(info.uuid))
      && (IsExtStart(s.hits[i]) || s.hits[i].kind.LoneBackup?)
  {
    var i := Corroborated(s, sb, info).value;
    assert HitOk(w, s.hits[i], s.uuids[i]);
    if s.hits[i].kind.LoneBackup? {
      LoneMatch(w, s.hits[i], s.uuids[i], sb, info);
    }
  }

  lemma FoldedHitOk(w: World, hit: Hit, uuid: Option<Uuid>, sb: nat)
    requires HitOk(w, hit, uuid)
    requires IsBackup(w, sb) && hit.SignedStart() == sb - w.info(sb).value.CopyOffset()
    requires hit.IsExtFilesystem() || uuid == Some(w.info(sb).value.uuid)
    requires IsExtStart(hit) || hit.kind.LoneBackup?
    ensures HitOk(w, hit.(backups := hit.backups + [Backup(sb, w.info(sb).value.group)]), uuid)
  {
    var copy := Backup(sb, w.info(sb).value.group);
    var folded := hit.(backups := hit.backups + [copy]);
    forall k | 0 <= k < |folded.backups|
      ensures Names(w, folded.backups[k], folded.SignedStart())
    {
      if k < |hit.backups| {
        assert folded.backups[k] == hit.backups[k];
      }
    }
  }

  lemma FoldKeeps(w: World, s: Scan, index: nat, sb: nat, q: nat)
    requires Inv(w, s, q) && IsBackup(w, sb)
    requires Corroborated(s, sb, w.info(sb).value) == Some(index)
    ensures Inv(w, Fold(s, index, Backup(sb, w.info(sb).value.group)), q)
  {
    CorroboratedNames(w, s, sb, w.info(sb).value);
    assert HitOk(w, s.hits[index], s.uuids[index]) && Below(s.hits[index], q);
    FoldedHitOk(w, s.hits[index], s.uuids[index], sb);
    var copy := Backup(sb, w.info(sb).value.group);
    ReplaceKeeps(w, s, index, s.hits[index].(backups := s.hits[index].backups + [copy]), q);
  }

  lemma PromoteKeeps(w: World, s: Scan, index: nat, q: nat)
    requires Inv(w, s, q) && index < |s.hits| && s.hits[index].backups != []
    ensures Inv(w, Promote(s, index), q)
  {
    var hit := s.hits[index];
    assert HitOk(w, hit, s.uuids[index]) && Below(hit, q);
    if hit.offset in s.demoted && hit.kind.PrimaryCopies? && hit.kind.copies == 1 {
      var promoted := hit.(kind := Filesystem(Ext));
      ReplaceKeeps(w, s, index, promoted, q);
      InvOfSameHits(w, s.(hits := s.hits[index := promoted]), Promote(s, index), q);
    }
  }

  /** A hit that a new lone backup of `uuid` must not agree with. */
  ghost predicate Rival(w: World, hit: Hit, hitUuid: Option<Uuid>, uuid: Option<Uuid>) {
    Established(w, hit) || (hitUuid == uuid && (hit.kind.LoneBackup? || IsExtStart(hit)))
  }

  /** When no hit is corroborated, none names the start the new lone backup implies. */
  lemma LoneIsNew(w: World, s: Scan, sb: nat, info: Info, i: nat)
    requires HitsOk(w, s) && i < |s.hits|
    requires Corroborated(s, sb, info).None?
    requires Rival(w, s.hits[i], s.uuids[i], Some(info.uuid))
    ensures s.hits[i].SignedStart() != sb - info.CopyOffset()
  {
    assert HitOk(w, s.hits[i], s.uuids[i]);
    if s.hits[i].kind.LoneBackup? {
      LoneMatch(w, s.hits[i], s.uuids[i], sb, info);
      assert !Matches(LoneImplying(info.uuid, ImpliedStart(sb, info), AbsentHead(sb, info)), s.hits[i], s.uuids[i]);
    } else if ImpliedStart(sb, info).Some? {
      assert !Matches(FilesystemAt(ImpliedStart(sb, info).value), s.hits[i], s.uuids[i]);
      assert !Matches(CopiesAt(ImpliedStart(sb, info).value, info.uuid), s.hits[i], s.uuids[i]);
    }
  }

  lemma PushLoneKeeps(w: World, s: Scan, sb: nat, q: nat)
    requires Inv(w, s, q) && IsBackup(w, sb) && sb < q + LEAD_IN
    requires Corroborated(s, sb, w.info(sb).value).None?
    ensures Inv(w, Push(s, LoneHit(sb, w.info(sb).value), Some(w.info(sb).value.uuid)), q)
  {
    var info := w.info(sb).value;
    var lone := LoneHit(sb, info);
    CopyOffsetAtLeast1024(info);
    SignedStartOfLone(sb, info);
    forall i | 0 <= i < |s.hits| && Rival(w, s.hits[i], s.uuids[i], Some(info.uuid))
      ensures s.hits[i].SignedStart() != lone.SignedStart()
    {
      LoneIsNew(w, s, sb, info, i);
    }
    AppendLoneKeeps(w, s, lone, Some(info.uuid), q);
  }

  lemma AppendLoneKeeps(w: World, s: Scan, lone: Hit, uuid: Option<Uuid>, q: nat)
    requires Inv(w, s, q) && lone.kind.LoneBackup? && HitOk(w, lone, uuid) && Below(lone, q)
    requires forall i :: 0 <= i < |s.hits| && Rival(w, s.hits[i], s.uuids[i], uuid) ==>
                           s.hits[i].SignedStart() != lone.SignedStart()
    ensures Inv(w, Push(s, lone, uuid), q)
  {
    AppendLonePairs(w, s, lone, uuid);
  }

  lemma AppendLonePairs(w: World, s: Scan, lone: Hit, uuid: Option<Uuid>)
    requires StartsOrdered(s) && LonesUnique(s) && NoContradiction(w, s) && lone.kind.LoneBackup?
    requires forall i :: 0 <= i < |s.hits| && Rival(w, s.hits[i], s.uuids[i], uuid) ==>
                           s.hits[i].SignedStart() != lone.SignedStart()
    ensures
      var t := Push(s, lone, uuid);
      StartsOrdered(t) && LonesUnique(t) && NoContradiction(w, t)
  {
  }

  lemma BackupKeeps(w: World, s: Scan, sb: nat, q: nat)
    requires Inv(w, s, q) && sb < q + LEAD_IN
    ensures Inv(w, RecordBackup(s, sb, w.info(sb)), q)
  {
    if IsBackup(w, sb) && sb !in s.seen {
      var info := w.info(sb).value;
      var noted := s.(seen := s.seen + [sb]);
      InvOfSameHits(w, s, noted, q);
      match Corroborated(noted, sb, info)
      case None => PushLoneKeeps(w, noted, sb, q);
      case Some(index) =>
        FoldKeeps(w, noted, index, sb, q);
        PromoteKeeps(w, Fold(noted, index, Backup(sb, info.group)), index, q);
    }
  }

  // ------------------------------------------------------------------
  // Runs
  // ------------------------------------------------------------------

  /** The ahead probe is filed under the position's own `u64` arithmetic, which never saturates on a real copy. */
  lemma AheadOffset(w: World, s: Scan, p: nat)
    requires Sane(w)
    ensures RecordBackup(s, SatAdd(p, LEAD_IN), w.info(p + LEAD_IN)) ==
      RecordBackup(s, p + LEAD_IN, w.info(p + LEAD_IN))
  {
  }

  /** Looking ahead is recording the backup one lead-in on, over hits that still check out. */
  lemma AheadRecords(w: World, s: Scan, p: nat)
    requires Sane(w) && Inv(w, s, p)
    ensures HitsOk(w, Detect(w, s, p))
    ensures Ahead(w, s, p) == RecordBackup(Detect(w, s, p), p + LEAD_IN, w.info(p + LEAD_IN))
  {
    DetectKeeps(w, s, p);
    AheadOffset(w, Detect(w, s, p), p);
  }

  lemma AheadKeeps(w: World, s: Scan, p: nat)
    requires Sane(w) && Inv(w, s, p)
    ensures Inv(w, Ahead(w, s, p), p + 1)
  {
    DetectKeeps(w, s, p);
    AheadOffset(w, Detect(w, s, p), p);
    BackupKeeps(w, Detect(w, s, p), p + LEAD_IN, p + 1);
  }

  lemma StepKeeps(w: World, s: Scan, p: nat)
    requires Sane(w) && Inv(w, s, p)
    ensures Inv(w, Step(w, s, p), p + 1)
  {
    AheadKeeps(w, s, p);
    BackupKeeps(w, Ahead(w, s, p), p, p + 1);
  }

  function Frontier(q: nat, positions: seq<nat>): nat {
    if positions == [] then q else positions[|positions| - 1] + 1
  }

  lemma IncreasingTail(positions: seq<nat>)
    requires Increasing(positions) && positions != []
    ensures Increasing(positions[1..])
    ensures Frontier(positions[0] + 1, positions[1..]) == Frontier(0, positions)
    ensures |positions| > 1 ==> positions[0] + 1 <= positions[1..][0]
  {
  }

  lemma {:induction false} RunKeeps(w: World, s: Scan, positions: seq<nat>, q: nat)
    requires Sane(w) && Inv(w, s, q) && Increasing(positions)
    requires positions != [] ==> q <= positions[0]
    ensures Inv(w, Run(w, s, positions), Frontier(q, positions))
    decreases |positions|
  {
    if positions != [] {
      InvWeakens(w, s, q, positions[0]);
      StepKeeps(w, s, positions[0]);
      IncreasingTail(positions);
      RunKeeps(w, Step(w, s, positions[0]), positions[1..], positions[0] + 1);
    }
  }
}

/** The promises of a whole scan, over every medium and every strictly increasing run of positions. */
module ScanTheorems {
  import opened Machine
  import opened ExtSuperblock
  import opened Hits
  import opened ScanModel
  import opened ScanInvariants
  import opened ScanWatermark
  import opened ScanConservation

  lemma RunFromEmpty(w: World, positions: seq<nat>)
    requires Sane(w) && Increasing(positions)
    ensures Inv(w, Run(w, EMPTY, positions), Frontier(0, positions))
  {
    RunKeeps(w, EMPTY, positions, 0);
  }

  // ------------------------------------------------------------------
  // Orphans and folding
  // ------------------------------------------------------------------

  /**
   A lone backup that implies a recorded ext start is of another UUID, and the medium refused that start. If the start
   is listed as a filesystem, only its root inode was against it and a backup listed under it names it; if it is
   listed as a run of copies, nothing more need hold.
   */
  lemma NoOrphanContradictsAStart(w: World, positions: seq<nat>, i: nat, j: nat)
    requires Sane(w) && Increasing(positions)
    requires i < |Run(w, EMPTY, positions).hits| && j < |Run(w, EMPTY, positions).hits|
    ensures
      var s := Run(w, EMPTY, positions);
      s.hits[i].kind.LoneBackup? && IsExtStart(s.hits[j]) && s.hits[i].SignedStart() == s.hits[j].offset ==>
        && s.uuids[i] != s.uuids[j]
        && Refused(w, s.hits[j].offset)
        && (s.hits[j].IsExtFilesystem() ==>
              && w.found(s.hits[j].offset).value.verdict == RootInodeRefuted
              && Vouched(w, s.hits[j], s.hits[j].offset))
  {
    RunFromEmpty(w, positions);
    var s := Run(w, EMPTY, positions);
    assert HitOk(w, s.hits[j], s.uuids[j]);
    if s.hits[j].backups != [] {
      assert Names(w, s.hits[j].backups[0], s.hits[j].SignedStart());
    }
  }

  /** What speaks for a start a backup of `uuid` names: an ext filesystem there, or a run or lone backup of its own. */
  ghost predicate SpeaksFor(hit: Hit, hitUuid: Option<Uuid>, uuid: Uuid, start: int) {
    && (hit.IsExtFilesystem() || (hitUuid == Some(uuid) && (hit.kind.PrimaryCopies? || hit.kind.LoneBackup?)))
    && hit.SignedStart() == start
  }

  /**
   When a backup is met, it is listed on its own iff no hit so far speaks for its start; otherwise one that does
   lists it. So a lone backup comes to imply another's start where a run of copies of another UUID stands, which may
   be put back as a filesystem afterwards.
   */
  lemma BackupIsListedAloneIff(w: World, s: Scan, sb: nat)
    requires HitsOk(w, s) && IsBackup(w, sb) && sb !in s.seen
    ensures
      var info, t := w.info(sb).value, RecordBackup(s, sb, w.info(sb));
      if forall i :: 0 <= i < |s.hits| ==> !SpeaksFor(s.hits[i], s.uuids[i], info.uuid, sb - info.CopyOffset()) then
        t.hits == s.hits + [LoneHit(sb, info)] && t.uuids == s.uuids + [Some(info.uuid)]
      else
        && |t.hits| == |s.hits|
        && exists i :: 0 <= i < |s.hits| && SpeaksFor(s.hits[i], s.uuids[i], info.uuid, sb - info.CopyOffset())
                       && t.hits[i].backups == s.hits[i].backups + [Backup(sb, info.group)]
  {
    var info := w.info(sb).value;
    var noted := s.(seen := s.seen + [sb]);
    if Corroborated(noted, sb, info).Some? {
      CorroboratedNames(w, noted, sb, info);
      var i := Corroborated(noted, sb, info).value;
      assert SpeaksFor(s.hits[i], s.uuids[i], info.uuid, sb - info.CopyOffset());
    } else {
      forall i | 0 <= i < |s.hits|
        ensures !SpeaksFor(s.hits[i], s.uuids[i], info.uuid, sb - info.CopyOffset())
      {
        UncorroboratedIsSilent(w, noted, sb, info, i);
      }
    }
  }

  lemma UncorroboratedIsSilent(w: World, s: Scan, sb: nat, info: Info, i: nat)
    requires HitsOk(w, s) && i < |s.hits| && Corroborated(s, sb, info).None?
    ensures !SpeaksFor(s.hits[i], s.uuids[i], info.uuid, sb - info.CopyOffset())
  {
    assert HitOk(w, s.hits[i], s.uuids[i]);
    if s.hits[i].kind.LoneBackup? {
      LoneMatch(w, s.hits[i], s.uuids[i], sb, info);
      assert !Matches(LoneImplying(info.uuid, ImpliedStart(sb, info), AbsentHead(sb, info)), s.hits[i], s.uuids[i]);
    } else if ImpliedStart(sb, info).Some? {
      assert !Matches(FilesystemAt(ImpliedStart(sb, info).value), s.hits[i], s.uuids[i]);
      assert !Matches(CopiesAt(ImpliedStart(sb, info).value, info.uuid), s.hits[i], s.uuids[i]);
    }
  }

  /** Every folded backup names its hit's signed start by its own geometry; lone hits are unique per UUID and start. */
  lemma FoldingIsUnanimousAndUnique(w: World, positions: seq<nat>, i: nat)
    requires Sane(w) && Increasing(positions)
    requires i < |Run(w, EMPTY, positions).hits|
    ensures
      var s := Run(w, EMPTY, positions);
      var hit := s.hits[i];
      && (forall k :: 0 <= k < |hit.backups| ==>
            && IsBackup(w, hit.backups[k].offset)
            && hit.backups[k].group == w.info(hit.backups[k].offset).value.group
            && hit.backups[k].offset - w.info(hit.backups[k].offset).value.CopyOffset() == hit.SignedStart())
      && (hit.backups != [] ==> IsExtStart(hit) || hit.kind.LoneBackup?)
      && (hit.kind.LoneBackup? ==>
            && IsBackup(w, hit.offset)
            && hit.kind.group == w.info(hit.offset).value.group
            && hit.offset - w.info(hit.offset).value.CopyOffset() == hit.SignedStart()
            && (hit.kind.start.None? <==> hit.kind.before.Some?)
            && forall j :: 0 <= j < |s.hits| && j != i && s.hits[j].kind.LoneBackup? && s.uuids[j] == s.uuids[i] ==>
                 s.hits[j].SignedStart() != hit.SignedStart())
  {
    RunFromEmpty(w, positions);
    var s := Run(w, EMPTY, positions);
    var hit := s.hits[i];
    assert HitOk(w, hit, s.uuids[i]);
    assert forall k :: 0 <= k < |hit.backups| ==> Names(w, hit.backups[k], hit.SignedStart());
    if hit.kind.LoneBackup? {
      SignedStartOfLone(hit.offset, w.info(hit.offset).value);
    }
  }

  // ------------------------------------------------------------------
  // Mountability
  // ------------------------------------------------------------------

  /** The group a hit offers to open by is that of a backup the run met, listed under it and naming its start. */
  lemma BackupGroupIsGenuine(w: World, positions: seq<nat>, i: nat)
    requires Sane(w) && Increasing(positions)
    requires i < |Run(w, EMPTY, positions).hits| && Run(w, EMPTY, positions).hits[i].BackupGroup().Some?
    ensures
      var hit := Run(w, EMPTY, positions).hits[i];
      exists sb: nat ::
        && Lists(hit, sb) && Met(w, positions, sb)
        && Names(w, Backup(sb, hit.BackupGroup().value), hit.SignedStart())
  {
    FoldingIsUnanimousAndUnique(w, positions, i);
    var hit := Run(w, EMPTY, positions).hits[i];
    var sb: nat := if hit.kind.LoneBackup? then hit.offset else hit.backups[0].offset;
    assert Lists(hit, sb);
    ListedIsCounted(w, Run(w, EMPTY, positions).hits, i, sb);
    EvidenceIsConserved(w, positions, sb);
    assert Names(w, Backup(sb, hit.BackupGroup().value), hit.SignedStart());
  }

  /** Some backup superblock on the medium, listed under this hit, computes `o` as its filesystem's start. */
  ghost predicate Vouched(w: World, hit: Hit, o: nat) {
    || (hit.kind.LoneBackup? && IsBackup(w, hit.offset)
        && hit.offset - w.info(hit.offset).value.CopyOffset() == o)
    || exists k :: 0 <= k < |hit.backups| && Names(w, hit.backups[k], o)
  }

  /**
   Every mount offset is earned: a plain detection there, an ext start the medium established there, or a backup
   whose geometry computes it. A start put back by promotion was refused by its root inode alone.
   */
  lemma MountabilityIsJustified(w: World, positions: seq<nat>, hit: Hit, o: nat)
    requires Sane(w) && Increasing(positions)
    requires hit in Run(w, EMPTY, positions).hits && hit.MountOffset() == Some(o)
    ensures
      || (hit.offset == o && !hit.IsExtFilesystem() && hit.kind.Filesystem?
          && w.found(o) == Some(Volume(hit.kind.detected, hit.size)))
      || (hit.offset == o && hit.IsExtFilesystem() && w.found(o).Some? && w.found(o).value.ExtPrimary?
          && w.found(o).value.verdict == Start)
      || Vouched(w, hit, o)
    ensures hit.IsExtFilesystem() && Refused(w, o) ==>
              w.found(o).value.verdict == RootInodeRefuted && Vouched(w, hit, o)
  {
    RunFromEmpty(w, positions);
    var s := Run(w, EMPTY, positions);
    var i :| 0 <= i < |s.hits| && s.hits[i] == hit;
    assert HitOk(w, hit, s.uuids[i]);
    if hit.backups != [] {
      assert Names(w, hit.backups[0], hit.SignedStart());
    }
  }

  /** Every start a numbered hit offers lies on the part of the medium already classified. */
  lemma MountOffsetIsOnTheMedium(w: World, positions: seq<nat>, hit: Hit, length: nat)
    requires Sane(w) && Increasing(positions)
    requires forall p :: p in positions ==> p < length
    requires hit in Run(w, EMPTY, positions).hits && hit.MountOffset().Some?
    ensures hit.MountOffset().value < length
    ensures hit.HeadAbsent().None?
  {
    RunFromEmpty(w, positions);
    var s := Run(w, EMPTY, positions);
    var i :| 0 <= i < |s.hits| && s.hits[i] == hit;
    assert HitOk(w, hit, s.uuids[i]);
    assert Below(s.hits[i], Frontier(0, positions));
    FrontierWithin(positions, length);
  }

  lemma FrontierWithin(positions: seq<nat>, length: nat)
    requires forall p :: p in positions ==> p < length
    ensures Frontier(0, positions) <= length
  {
    if positions != [] {
      assert positions[|positions| - 1] in positions;
    }
  }

  // ------------------------------------------------------------------
  // Conservation
  // ------------------------------------------------------------------

  /**
   Every backup superblock the run meets is accounted for exactly once, as a lone hit or in one hit's list, and
   nothing else is accounted for.
   */
  lemma EvidenceIsConserved(w: World, positions: seq<nat>, x: nat)
    requires Sane(w) && Increasing(positions)
    ensures Total(w, OccurrencesOf(x), Run(w, EMPTY, positions).hits) == if Met(w, positions, x) then 1 else 0
  {
    RunAccounts(w, EMPTY, positions, 0, x, false);
  }

  /** The copies in the runs, plus the promoted starts, are exactly the refused primaries that were not dropped. */
  lemma RefusedPrimariesAreCounted(w: World, positions: seq<nat>)
    requires Sane(w) && Increasing(positions)
    ensures Total(w, Refusals, Run(w, EMPTY, positions).hits) == Undropped(w, EMPTY, positions)
  {
    RunRefusals(w, EMPTY, positions, 0);
  }

  // ------------------------------------------------------------------
  // The watermark
  // ------------------------------------------------------------------

  lemma PrefixIncreasing(positions: seq<nat>, k: nat)
    requires Increasing(positions) && k <= |positions|
    ensures Increasing(positions[..k])
    ensures k < |positions| ==> Frontier(0, positions[..k]) <= positions[k]
  {
  }

  /** Just before any position is classified, it lies below the watermark iff a recorded extent contains it. */
  lemma WatermarkIsExact(w: World, positions: seq<nat>, k: nat)
    requires Sane(w) && Increasing(positions) && k < |positions| && positions[k] < U64_MAX
    ensures
      var before := Run(w, EMPTY, positions[..k]);
      positions[k] < before.coveredEnd <==> Claimed(before, positions[k])
  {
    PrefixIncreasing(positions, k);
    forall x | 0 <= x < U64_MAX
      ensures x < EMPTY.coveredEnd <==> Claimed(EMPTY, x)
    {
    }
    ExactRun(w, EMPTY, positions[..k], 0);
  }

  ghost predicate NonExt(hit: Hit) {
    hit.kind.PartitionTable? || (hit.kind.Filesystem? && hit.kind.detected != Ext)
  }

  /** What later steps leave alone: offsets, settled kinds, and everything recorded below `p`. */
  ghost predicate Grows(s: Scan, t: Scan, p: nat) {
    && |s.hits| <= |t.hits|
    && (forall i :: 0 <= i < |s.hits| ==>
          && t.hits[i].offset == s.hits[i].offset
          && (t.hits[i].kind == s.hits[i].kind || (s.hits[i].kind.PrimaryCopies? && IsExtStart(t.hits[i]))))
    && (forall i :: |s.hits| <= i < |t.hits| ==> t.hits[i].kind.LoneBackup? || t.hits[i].offset >= p)
  }

  lemma GrowsTransitive(s: Scan, t: Scan, u: Scan, p: nat, q: nat)
    requires Grows(s, t, p) && Grows(t, u, q) && p <= q
    ensures Grows(s, u, p)
  {
  }

  lemma BackupGrows(w: World, s: Scan, sb: nat, info: Option<Info>, p: nat)
    ensures Grows(s, RecordBackup(s, sb, info), p)
  {
  }

  lemma DetectGrows(w: World, s: Scan, p: nat)
    ensures Grows(s, Detect(w, s, p), p)
  {
  }

  lemma StepGrows(w: World, s: Scan, p: nat)
    ensures Grows(Detect(w, s, p), Step(w, s, p), p + 1)
    ensures Grows(s, Step(w, s, p), p)
  {
    var detected := Detect(w, s, p);
    BackupGrows(w, detected, SatAdd(p, LEAD_IN), w.info(p + LEAD_IN), p + 1);
    BackupGrows(w, Ahead(w, s, p), p, w.info(p), p + 1);
    GrowsTransitive(detected, Ahead(w, s, p), Step(w, s, p), p + 1, p + 1);
    DetectGrows(w, s, p);
    GrowsTransitive(s, detected, Step(w, s, p), p, p + 1);
  }

  lemma {:induction false} RunGrows(w: World, s: Scan, positions: seq<nat>, p: nat)
    requires Increasing(positions) && (positions != [] ==> p <= positions[0])
    ensures Grows(s, Run(w, s, positions), p)
    decreases |positions|
  {
    if positions != [] {
      StepGrows(w, s, positions[0]);
      IncreasingTail(positions);
      RunGrows(w, Step(w, s, positions[0]), positions[1..], positions[0]);
      GrowsTransitive(s, Step(w, s, positions[0]), Run(w, s, positions), positions[0], positions[0]);
    }
  }

  ghost predicate ReportsNonExtAt(s: Scan, p: nat) {
    exists i :: 0 <= i < |s.hits| && s.hits[i].offset == p && NonExt(s.hits[i])
  }

  lemma ReportSurvives(s: Scan, t: Scan, p: nat)
    requires Grows(s, t, p + 1)
    ensures ReportsNonExtAt(s, p) <==> ReportsNonExtAt(t, p)
  {
    if ReportsNonExtAt(s, p) {
      var i :| 0 <= i < |s.hits| && s.hits[i].offset == p && NonExt(s.hits[i]);
      assert t.hits[i].offset == p && NonExt(t.hits[i]);
    }
    if ReportsNonExtAt(t, p) {
      var i :| 0 <= i < |t.hits| && t.hits[i].offset == p && NonExt(t.hits[i]);
      assert i < |s.hits| && s.hits[i].offset == p && NonExt(s.hits[i]);
    }
  }

  /**
   The final report lists a non-ext filesystem or a credible partition table detected at a visited position exactly
   when no extent confirmed before that position contains it.
   */
  lemma NonExtIsReportedIffUnclaimed(w: World, positions: seq<nat>, k: nat)
    requires Sane(w) && Increasing(positions) && k < |positions| && positions[k] < U64_MAX
    requires w.found(positions[k]).Some?
    requires w.found(positions[k]).value.Volume? || (w.found(positions[k]).value.Table? &&
      w.found(positions[k]).value.credible)
    ensures ReportsNonExtAt(Run(w, EMPTY, positions), positions[k])
       <==> !Claimed(Run(w, EMPTY, positions[..k]), positions[k])
  {
    var p := positions[k];
    var before := Run(w, EMPTY, positions[..k]);
    var detected := Detect(w, before, p);
    WatermarkIsExact(w, positions, k);
    PrefixIncreasing(positions, k);
    RunFromEmpty(w, positions[..k]);
    InvWeakens(w, before, Frontier(0, positions[..k]), p);
    assert !ReportsNonExtAt(before, p) by {
      assert forall i :: 0 <= i < |before.hits| ==> Below(before.hits[i], p);
    }
    if p >= before.coveredEnd {
      assert detected.hits[|before.hits|].offset == p && NonExt(detected.hits[|before.hits|]);
    }
    StepGrows(w, before, p);
    ReportSurvives(detected, Step(w, before, p), p);
    var rest := positions[k + 1..];
    RunGrows(w, Step(w, before, p), rest, p + 1);
    ReportSurvives(Step(w, before, p), Run(w, Step(w, before, p), rest), p);
    RunAppend(w, EMPTY, positions[..k], positions[k..]);
    assert positions == positions[..k] + positions[k..];
    assert positions[k..][1..] == rest;
  }
}

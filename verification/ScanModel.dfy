/**
 The scanner's state machine on values: what one classified position does to the hits gathered so far.

 A `World` is what the probes answer: which superblock copy starts at each byte offset, and what is detected at
 each position. A run folds `Step` over the positions a scan visits.
 */
module ScanModel {
  import opened Machine
  import opened ExtSuperblock
  import opened Hits

  const LEAD_IN: nat := 1024

  datatype Verdict = Start | TableUnconfirmed | RootInodeRefuted

  datatype Found =
    | Volume(detected: Detected, size: Option<nat>)
    | Table(detected: Detected, credible: bool)
    | ExtPrimary(uuid: Uuid, claimed: nat, verdict: Verdict)

  datatype World = World(info: nat -> Option<Info>, found: nat -> Option<Found>)

  datatype ScanRecord = ScanRecord(
    hits: seq<Hit>,
    uuids: seq<Option<Uuid>>,
    coveredEnd: nat,
    seen: seq<nat>,
    demoted: seq<nat>)

  /** `hits` and `uuids` stay in step: every operation below keeps this. */
  type Scan = s: ScanRecord | |s.hits| == |s.uuids| witness ScanRecord([], [], 0, [], [])

  const EMPTY: Scan := ScanRecord([], [], 0, [], [])

  // ------------------------------------------------------------------
  // Lookups
  // ------------------------------------------------------------------

  datatype Query =
    | FilesystemAt(start: nat)
    | CopiesAt(start: nat, uuid: Uuid)
    | LoneImplying(uuid: Uuid, implied: Option<nat>, absent: Option<nat>)

  predicate Matches(q: Query, hit: Hit, uuid: Option<Uuid>) {
    match q
    case FilesystemAt(start) => hit.offset == start && hit.IsExtFilesystem()
    case CopiesAt(start, u) => hit.offset == start && hit.kind.PrimaryCopies? && uuid == Some(u)
    case LoneImplying(u, implied, absent) =>
      uuid == Some(u) && hit.kind.LoneBackup? && hit.kind.start == implied && hit.kind.before == absent
  }

  /** Index of the first hit the query matches. */
  function Position(q: Query, hits: seq<Hit>, uuids: seq<Option<Uuid>>): (r: Option<nat>)
    requires |hits| == |uuids|
    ensures r.Some? ==> r.value < |hits| && Matches(q, hits[r.value], uuids[r.value])
    ensures r.Some? ==> forall j :: 0 <= j < r.value ==> !Matches(q, hits[j], uuids[j])
    ensures r.None? ==> forall j :: 0 <= j < |hits| ==> !Matches(q, hits[j], uuids[j])
  {
    if hits == [] then None
    else if Matches(q, hits[0], uuids[0]) then Some(0)
    else match Position(q, hits[1..], uuids[1..])
      case None =>
        assert forall j :: 1 <= j < |hits| ==> hits[j] == hits[1..][j - 1] && uuids[j] == uuids[1..][j - 1];
        None
      case Some(k) =>
        assert forall j :: 1 <= j <= k ==> hits[j] == hits[1..][j - 1] && uuids[j] == uuids[1..][j - 1];
        Some(k + 1)
  }

  predicate Contains(hit: Hit, position: nat) {
    hit.offset <= position < SatAdd(hit.offset, if hit.size.Some? then hit.size.value else 0)
  }

  /** `position` lies in the extent of an ext filesystem already confirmed as `uuid`. */
  predicate InsideExt(s: Scan, position: nat, uuid: Uuid)
  {
    exists i :: 0 <= i < |s.hits| && s.uuids[i] == Some(uuid) && s.hits[i].IsExtFilesystem()
                && Contains(s.hits[i], position)
  }

  predicate LastIsCopies(s: Scan, uuid: Uuid)
  {
    && |s.hits| > 0
    && s.uuids[|s.uuids| - 1] == Some(uuid)
    && s.hits[|s.hits| - 1].kind.PrimaryCopies?
  }

  // ------------------------------------------------------------------
  // Recording
  // ------------------------------------------------------------------

  function Push(s: Scan, hit: Hit, uuid: Option<Uuid>): Scan {
    s.(hits := s.hits + [hit], uuids := s.uuids + [uuid])
  }

  function Cover(s: Scan, position: nat, size: Option<nat>): Scan {
    if size.Some? then s.(coveredEnd := Max(s.coveredEnd, SatAdd(position, size.value))) else s
  }

  function RecordCopy(s: Scan, position: nat, claimed: nat, uuid: Uuid): Scan
  {
    if InsideExt(s, position, uuid) then s
    else if LastIsCopies(s, uuid) then
      var n := |s.hits| - 1;
      s.(hits := s.hits[n := s.hits[n].(kind := PrimaryCopies(s.hits[n].kind.copies + 1, position))])
    else
      Push(s, Hit(position, PrimaryCopies(1, position), Some(claimed), []), Some(uuid))
  }

  function RecordExt(s: Scan, position: nat, uuid: Uuid, claimed: nat, verdict: Verdict): Scan
  {
    match verdict
    case TableUnconfirmed => RecordCopy(s, position, claimed, uuid)
    case RootInodeRefuted => RecordCopy(s.(demoted := s.demoted + [position]), position, claimed, uuid)
    case Start =>
      var seen := s.(seen := s.seen + [SatAdd(position, LEAD_IN)]);
      Push(Cover(seen, position, Some(claimed)),
           Hit(position, Filesystem(Ext), Some(claimed), []), Some(uuid))
  }

  function RecordDetected(s: Scan, position: nat, found: Found): Scan
  {
    match found
    case ExtPrimary(uuid, claimed, verdict) => RecordExt(s, position, uuid, claimed, verdict)
    case Volume(detected, size) =>
      if position < s.coveredEnd then s
      else Push(Cover(s, position, size), Hit(position, Filesystem(detected), size, []), None)
    case Table(detected, credible) =>
      if position < s.coveredEnd || !credible then s
      else Push(s, Hit(position, PartitionTable(detected), None, []), None)
  }

  function ImpliedStart(sb: nat, info: Info): Option<nat> {
    if sb >= info.CopyOffset() then Some(sb - info.CopyOffset()) else None
  }

  function AbsentHead(sb: nat, info: Info): Option<nat> {
    if sb >= info.CopyOffset() then None else Some(SatSub(info.CopyOffset(), sb))
  }

  /** The hit a backup at `sb` corroborates: a filesystem at its start, a run there, or an earlier lone backup. */
  function Corroborated(s: Scan, sb: nat, info: Info): (r: Option<nat>)
    ensures r.Some? ==> r.value < |s.hits|
  {
    var start := ImpliedStart(sb, info);
    var direct := if start.Some? then Position(FilesystemAt(start.value), s.hits, s.uuids) else None;
    var run := if start.Some? then Position(CopiesAt(start.value, info.uuid), s.hits, s.uuids) else None;
    if direct.Some? then direct
    else if run.Some? then run
    else Position(LoneImplying(info.uuid, start, AbsentHead(sb, info)), s.hits, s.uuids)
  }

  function Promote(s: Scan, index: nat): Scan
    requires index < |s.hits|
  {
    var hit := s.hits[index];
    if hit.offset in s.demoted && hit.kind.PrimaryCopies? && hit.kind.copies == 1 then
      var end := SatAdd(hit.offset, if hit.size.Some? then hit.size.value else 0);
      s.(hits := s.hits[index := hit.(kind := Filesystem(Ext))], coveredEnd := Max(s.coveredEnd, end))
    else s
  }

  function Fold(s: Scan, index: nat, copy: Backup): Scan
    requires index < |s.hits|
  {
    s.(hits := s.hits[index := s.hits[index].(backups := s.hits[index].backups + [copy])])
  }

  function LoneHit(sb: nat, info: Info): Hit {
    Hit(sb, LoneBackup(info.group, ImpliedStart(sb, info), AbsentHead(sb, info)), Some(info.SizeBytes()), [])
  }

  function RecordBackup(s: Scan, sb: nat, info: Option<Info>): Scan
  {
    if info.None? || info.value.IsPrimary() || sb in s.seen then s
    else
      var noted := s.(seen := s.seen + [sb]);
      match Corroborated(noted, sb, info.value)
      case Some(index) => Promote(Fold(noted, index, Backup(sb, info.value.group)), index)
      case None => Push(noted, LoneHit(sb, info.value), Some(info.value.uuid))
  }

  function Detect(w: World, s: Scan, position: nat): Scan
  {
    if w.found(position).Some? then RecordDetected(s, position, w.found(position).value) else s
  }

  function Ahead(w: World, s: Scan, position: nat): Scan {
    RecordBackup(Detect(w, s, position), SatAdd(position, LEAD_IN), w.info(position + LEAD_IN))
  }

  /** A backup is looked for 1024 bytes past the position, then at the position itself. */
  function Step(w: World, s: Scan, position: nat): Scan {
    var ahead := Ahead(w, s, position);
    if position >= LEAD_IN then RecordBackup(ahead, position, w.info(position)) else ahead
  }

  function Run(w: World, s: Scan, positions: seq<nat>): Scan
    decreases |positions|
  {
    if positions == [] then s else Run(w, Step(w, s, positions[0]), positions[1..])
  }

  // ------------------------------------------------------------------
  // What a real medium guarantees of its world
  // ------------------------------------------------------------------

  predicate IsBackup(w: World, sb: nat) {
    w.info(sb).Some? && !w.info(sb).value.IsPrimary()
  }

  /** Detected ext starts carry a primary superblock; nothing is found past the addressable range. */
  ghost predicate Sane(w: World) {
    && (forall p: nat :: w.found(p).Some? && w.found(p).value.ExtPrimary? ==>
          w.info(p + LEAD_IN).Some? && w.info(p + LEAD_IN).value.IsPrimary())
    && (forall p: nat :: w.found(p).Some? && w.found(p).value.Volume? ==> w.found(p).value.detected != Ext)
    && (forall sb: nat :: w.info(sb).Some? ==> sb <= U64_MAX)
  }

  ghost predicate Increasing(positions: seq<nat>) {
    forall i, j :: 0 <= i < j < |positions| ==> positions[i] < positions[j]
  }

  // ------------------------------------------------------------------
  // Runs
  // ------------------------------------------------------------------

  lemma {:induction false} RunAppend(w: World, s: Scan, front: seq<nat>, back: seq<nat>)
    ensures Run(w, s, front + back) == Run(w, Run(w, s, front), back)
    decreases |front|
  {
    if front == [] {
      assert front + back == back;
    } else {
      assert (front + back)[1..] == front[1..] + back;
      RunAppend(w, Step(w, s, front[0]), front[1..], back);
    }
  }

  lemma RunSnoc(w: World, positions: seq<nat>, k: nat)
    requires k < |positions|
    ensures Run(w, EMPTY, positions[..k + 1]) == Step(w, Run(w, EMPTY, positions[..k]), positions[k])
  {
    var p := positions[k];
    RunAppend(w, EMPTY, positions[..k], [p]);
    assert positions[..k + 1] == positions[..k] + [p];
    assert [p][1..] == [];
  }

  lemma {:induction false} RunOfSameWorld(w: World, v: World, s: Scan, positions: seq<nat>)
    requires forall sb: nat :: w.info(sb) == v.info(sb)
    requires forall p :: p in positions ==> w.found(p) == v.found(p)
    ensures Run(w, s, positions) == Run(v, s, positions)
    decreases |positions|
  {
    if positions != [] {
      assert positions[0] in positions;
      StepOfSameWorld(w, v, s, positions[0]);
      assert forall p :: p in positions[1..] ==> p in positions;
      RunOfSameWorld(w, v, Step(w, s, positions[0]), positions[1..]);
    }
  }

  lemma StepOfSameWorld(w: World, v: World, s: Scan, p: nat)
    requires forall sb: nat :: w.info(sb) == v.info(sb)
    requires w.found(p) == v.found(p)
    ensures Step(w, s, p) == Step(v, s, p)
  {
    assert w.info(p) == v.info(p) && w.info(p + LEAD_IN) == v.info(p + LEAD_IN);
  }

  // ------------------------------------------------------------------
  // Root inodes that cannot be read
  // ------------------------------------------------------------------

  /** Only its root inode speaks against the ext start at `p`. */
  predicate IsDoubted(w: World, p: nat) {
    w.found(p).Some? && w.found(p).value.ExtPrimary? && w.found(p).value.verdict == RootInodeRefuted
  }

  /** The world in which nothing speaks against those of the starts `spared`. */
  function Sparing(w: World, spared: set<nat>): World {
    World(w.info,
          (p: nat) => if p in spared && IsDoubted(w, p) then Some(w.found(p).value.(verdict := Start)) else w.found(p))
  }

  lemma SparingIsSane(w: World, spared: set<nat>)
    requires Sane(w)
    ensures Sane(Sparing(w, spared))
  {
  }
}

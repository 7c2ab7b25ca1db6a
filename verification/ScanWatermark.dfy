/**
 The watermark `coveredEnd` is exact, so a non-ext detection is reported exactly when no extent confirmed before
 it contains it.
 */
module ScanWatermark {
  import opened Machine
  import opened ExtSuperblock
  import opened Hits
  import opened ScanModel
  import opened ScanInvariants

  /** A filesystem or partition table of known size whose extent, in unbounded arithmetic, contains `x`. */
  predicate Claims(hit: Hit, x: nat) {
    && (hit.kind.Filesystem? || hit.kind.PartitionTable?)
    && hit.size.Some?
    && hit.offset <= x < hit.offset + hit.size.value
  }

  predicate Claimed(s: Scan, x: nat) {
    exists i :: 0 <= i < |s.hits| && Claims(s.hits[i], x)
  }

  ghost predicate Exact(s: Scan, q: nat) {
    forall x :: q <= x < U64_MAX ==> (x < s.coveredEnd <==> Claimed(s, x))
  }

  lemma ClaimedPush(s: Scan, hit: Hit, uuid: Option<Uuid>, x: nat)
    ensures Claimed(Push(s, hit, uuid), x) <==> Claimed(s, x) || Claims(hit, x)
  {
    var t := Push(s, hit, uuid);
    if Claimed(s, x) {
      var i :| 0 <= i < |s.hits| && Claims(s.hits[i], x);
      assert Claims(t.hits[i], x);
    }
    if Claims(hit, x) {
      assert t.hits[|s.hits|] == hit;
    }
  }

  lemma ClaimedReplace(s: Scan, n: nat, hit: Hit, x: nat)
    requires n < |s.hits|
    requires Claims(s.hits[n], x) ==> Claims(hit, x)
    ensures Claimed(s.(hits := s.hits[n := hit]), x) <==> Claimed(s, x) || Claims(hit, x)
  {
    var t := s.(hits := s.hits[n := hit]);
    if Claimed(s, x) {
      var i :| 0 <= i < |s.hits| && Claims(s.hits[i], x);
      assert Claims(t.hits[i], x);
    }
    if Claims(hit, x) {
      assert t.hits[n] == hit;
    }
  }

  lemma ExactPush(s: Scan, p: nat, hit: Hit, uuid: Option<Uuid>)
    requires Exact(s, p) && hit.offset == p
    requires hit.kind.Filesystem? || hit.size.None? || !hit.kind.PartitionTable?
    ensures Exact(Push(if hit.kind.Filesystem? then Cover(s, p, hit.size) else s, hit, uuid), p)
  {
    var c := if hit.kind.Filesystem? then Cover(s, p, hit.size) else s;
    forall x | p <= x < U64_MAX
      ensures x < Push(c, hit, uuid).coveredEnd <==> Claimed(Push(c, hit, uuid), x)
    {
      ClaimedPush(c, hit, uuid, x);
      assert Claimed(c, x) <==> Claimed(s, x);
    }
  }

  /** Replacing a hit by one that claims nothing new. */
  lemma ExactReplace(s: Scan, n: nat, hit: Hit, q: nat)
    requires Exact(s, q) && n < |s.hits|
    requires forall x :: Claims(hit, x) <==> Claims(s.hits[n], x)
    ensures Exact(s.(hits := s.hits[n := hit]), q)
  {
    var t := s.(hits := s.hits[n := hit]);
    forall x | q <= x < U64_MAX
      ensures x < t.coveredEnd <==> Claimed(t, x)
    {
      ClaimedReplace(s, n, hit, x);
      assert Claims(s.hits[n], x) ==> Claimed(s, x);
      assert x < s.coveredEnd <==> Claimed(s, x);
    }
  }

  lemma ExactSame(s: Scan, t: Scan, q: nat, r: nat)
    requires Exact(s, q) && q <= r && s.hits == t.hits && s.coveredEnd == t.coveredEnd
    ensures Exact(t, r)
  {
    forall x | r <= x < U64_MAX
      ensures x < t.coveredEnd <==> Claimed(t, x)
    {
      assert Claimed(s, x) <==> Claimed(t, x);
    }
  }

  lemma ExactCopy(s: Scan, p: nat, claimed: nat, uuid: Uuid)
    requires Exact(s, p)
    ensures Exact(RecordCopy(s, p, claimed, uuid), p)
  {
    if InsideExt(s, p, uuid) {
    } else if LastIsCopies(s, uuid) {
      var n := |s.hits| - 1;
      ExactReplace(s, n, s.hits[n].(kind := PrimaryCopies(s.hits[n].kind.copies + 1, p)), p);
    } else {
      ExactPush(s, p, Hit(p, PrimaryCopies(1, p), Some(claimed), []), Some(uuid));
    }
  }

  lemma ExactDetect(w: World, s: Scan, p: nat)
    requires Exact(s, p)
    ensures Exact(Detect(w, s, p), p)
  {
    if w.found(p).Some? {
      match w.found(p).value
      case Volume(detected, size) => ExactPush(s, p, Hit(p, Filesystem(detected), size, []), None);
      case Table(detected, credible) => ExactPush(s, p, Hit(p, PartitionTable(detected), None, []), None);
      case ExtPrimary(uuid, claimed, verdict) =>
        match verdict
        case TableUnconfirmed => ExactCopy(s, p, claimed, uuid);
        case RootInodeRefuted =>
          var demoted := s.(demoted := s.demoted + [p]);
          ExactSame(s, demoted, p, p);
          ExactCopy(demoted, p, claimed, uuid);
        case Start =>
          var seen := s.(seen := s.seen + [SatAdd(p, LEAD_IN)]);
          ExactSame(s, seen, p, p);
          ExactPush(seen, p, Hit(p, Filesystem(Ext), Some(claimed), []), Some(uuid));
    }
  }

  lemma ExactPromote(s: Scan, index: nat, q: nat)
    requires Exact(s, q) && Bounded(s, q) && index < |s.hits|
    ensures Exact(Promote(s, index), q)
  {
    var hit := s.hits[index];
    assert Below(hit, q);
    if hit.offset in s.demoted && hit.kind.PrimaryCopies? && hit.kind.copies == 1 {
      var promoted := hit.(kind := Filesystem(Ext));
      forall x | q <= x < U64_MAX
        ensures x < Promote(s, index).coveredEnd <==> Claimed(Promote(s, index), x)
      {
        ClaimedReplace(s, index, promoted, x);
        assert Claimed(Promote(s, index), x) <==> Claimed(s.(hits := s.hits[index := promoted]), x);
      }
    }
  }

  lemma ExactBackup(w: World, s: Scan, sb: nat, q: nat)
    requires Exact(s, q) && Inv(w, s, q)
    ensures Exact(RecordBackup(s, sb, w.info(sb)), q)
  {
    if IsBackup(w, sb) && sb !in s.seen {
      var info := w.info(sb).value;
      var noted := s.(seen := s.seen + [sb]);
      ExactSame(s, noted, q, q);
      match Corroborated(noted, sb, info)
      case None =>
        forall x | q <= x < U64_MAX
          ensures Claimed(Push(noted, LoneHit(sb, info), Some(info.uuid)), x) <==> Claimed(noted, x)
        {
          ClaimedPush(noted, LoneHit(sb, info), Some(info.uuid), x);
        }
      case Some(index) =>
        var folded := Fold(noted, index, Backup(sb, info.group));
        InvOfSameHits(w, s, noted, q);
        FoldKeeps(w, noted, index, sb, q);
        ExactReplace(noted, index, folded.hits[index], q);
        ExactPromote(folded, index, q);
    }
  }

  lemma ExactStep(w: World, s: Scan, p: nat)
    requires Sane(w) && Inv(w, s, p) && Exact(s, p)
    ensures Exact(Step(w, s, p), p + 1)
  {
    var detected := Detect(w, s, p);
    DetectKeeps(w, s, p);
    ExactDetect(w, s, p);
    ExactSame(detected, detected, p, p + 1);
    AheadOffset(w, detected, p);
    ExactBackup(w, detected, p + LEAD_IN, p + 1);
    AheadKeeps(w, s, p);
    ExactBackup(w, Ahead(w, s, p), p, p + 1);
  }

  lemma {:induction false} ExactRun(w: World, s: Scan, positions: seq<nat>, q: nat)
    requires Sane(w) && Inv(w, s, q) && Exact(s, q) && Increasing(positions)
    requires positions != [] ==> q <= positions[0]
    ensures Exact(Run(w, s, positions), Frontier(q, positions))
    decreases |positions|
  {
    if positions != [] {
      InvWeakens(w, s, q, positions[0]);
      ExactSame(s, s, q, positions[0]);
      StepKeeps(w, s, positions[0]);
      ExactStep(w, s, positions[0]);
      IncreasingTail(positions);
      ExactRun(w, Step(w, s, positions[0]), positions[1..], positions[0] + 1);
    }
  }
}

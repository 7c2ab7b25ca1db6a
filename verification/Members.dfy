/** Gathering the further devices a multi-device filesystem says it needs. */
module Members {
  import opened Machine

  datatype Extent = Extent(drive: nat, offset: nat, length: nat)

  datatype Located = Located(extent: Extent, sectorSize: nat, headAbsent: Option<nat>)

  datatype MemberId = MemberId(bytes: seq<byte>)

  datatype DiscoveryRecord = Discovery(driver: string, detected: nat, member: MemberId, required: set<MemberId>)

  /** A discovery always requires the member it was made on. */
  type Discovery = d: DiscoveryRecord | d.member in d.required
    witness Discovery("", 0, MemberId([]), {MemberId([])})

  /**
   * The machine: its drives, the partitions of each, and what opening a
   * partition and asking the drivers about it gives. Each of the three can fail.
   */
  datatype Host = Host(
    drives: Option<seq<nat>>,
    partitions: nat -> Option<seq<Located>>,
    identify: Located -> Result<Option<Discovery>, DeviceError>)

  datatype DeviceError = Failed

  predicate Distinct<T(==)>(xs: seq<T>) {
    forall i, j :: 0 <= i < j < |xs| ==> xs[i] != xs[j]
  }

  lemma DistinctPush<T>(xs: seq<T>, x: T)
    requires Distinct(xs)
    ensures Distinct(xs + [x]) <==> x !in xs
  {
    if x in xs {
      var i :| 0 <= i < |xs| && xs[i] == x;
      assert (xs + [x])[i] == (xs + [x])[|xs|];
    }
  }

  /** Part of the same filesystem, by the same driver. */
  predicate SameFilesystem(primary: Discovery, candidate: Discovery) {
    primary.driver == candidate.driver && primary.detected == candidate.detected && candidate.member in primary.required
  }

  predicate Matches(primary: Discovery, candidate: Discovery, ids: seq<MemberId>) {
    SameFilesystem(primary, candidate) && candidate.member !in ids
  }

  predicate Complete(primary: Discovery, ids: seq<MemberId>) {
    forall r :: r in primary.required ==> r in ids
  }

  /** A partition that would still add something. */
  predicate Wanted(host: Host, primary: Discovery, l: Located, ids: seq<MemberId>) {
    match host.identify(l)
    case Ok(Some(d)) => Matches(primary, d, ids)
    case _ => false
  }

  /** Nothing among these partitions was passed over: each is in the set, or would add nothing to it. */
  ghost predicate Exhausted(host: Host, primary: Discovery, ls: seq<Located>, extents: seq<Extent>,
                            ids: seq<MemberId>) {
    forall l :: l in ls ==> l.extent in extents || !Wanted(host, primary, l, ids)
  }

  lemma ExhaustedGrows(host: Host, primary: Discovery, ls: seq<Located>, extents: seq<Extent>, ids: seq<MemberId>,
                       extents': seq<Extent>, ids': seq<MemberId>)
    requires Exhausted(host, primary, ls, extents, ids) && extents <= extents' && ids <= ids'
    ensures Exhausted(host, primary, ls, extents', ids')
  {
    forall l | l in ls
      ensures l.extent in extents' || !Wanted(host, primary, l, ids')
    {
      assert l.extent in extents ==> l.extent in extents';
      assert forall d: Discovery :: d.member in ids ==> d.member in ids';
    }
  }

  /** What an adopted partition contributes. */
  ghost predicate Adopted(host: Host, primary: Discovery, l: Located, extent: Extent, id: MemberId) {
    l.extent == extent && host.identify(l).Ok? && host.identify(l).value.Some? &&
    host.identify(l).value.value.member == id && SameFilesystem(primary, host.identify(l).value.value)
  }

  /** Drives in search order: the primary's first, none twice, none of the machine's left out. */
  method HostDrives(primary: nat, drives: Option<seq<nat>>) returns (ids: seq<nat>)
    ensures |ids| >= 1 && ids[0] == primary && Distinct(ids)
    ensures forall d :: d in ids <==> d == primary || (drives.Some? && d in drives.value)
  {
    ids := [primary];
    if drives.Some? {
      for i := 0 to |drives.value|
        invariant |ids| >= 1 && ids[0] == primary && Distinct(ids)
        invariant forall d :: d in ids <==> d == primary || d in drives.value[..i]
      {
        DistinctPush(ids, drives.value[i]);
        assert forall d :: d in drives.value[..i + 1] <==> d in drives.value[..i] || d == drives.value[i];
        if drives.value[i] !in ids {
          ids := ids + [drives.value[i]];
        }
      }
      assert drives.value[..|drives.value|] == drives.value;
    }
  }

  /** The device set, the extents it was built from, and the filesystem members recognised so far. */
  class Assembly {
    var devices: seq<Extent>
    var extents: seq<Extent>
    var ids: seq<MemberId>

    /** The device set and the extents are in step, and nothing is in either list twice. */
    ghost predicate Valid()
      reads this
    {
      devices == extents && Distinct(extents) && Distinct(ids)
    }

    constructor (primary: Extent, ids: seq<MemberId>)
      requires Distinct(ids)
      ensures Valid() && extents == [primary] && this.ids == ids
    {
      devices, extents := [primary], [primary];
      this.ids := ids;
    }

    /** `DeviceSet::push`: a member is known by its extent, and a known one is refused. */
    method Push(extent: Extent) returns (ok: bool)
      modifies this`devices
      ensures ok <==> extent !in old(devices)
      ensures devices == if ok then old(devices) + [extent] else old(devices)
    {
      ok := extent !in devices;
      if ok {
        devices := devices + [extent];
      }
    }

    /** Add a partition the caller named, recognised or not; refused if it cannot be read or is already there. */
    method AddOne(host: Host, discovery: Option<Discovery>, l: Located) returns (ok: bool)
      requires Valid() && OnlyRequired(discovery, ids)
      modifies this
      ensures ok <==> host.identify(l).Ok? && l.extent !in old(extents)
      ensures ok ==> Valid() && extents == old(extents) + [l.extent]
      ensures OnlyRequired(discovery, ids) && old(ids) <= ids
    {
      var candidate := host.identify(l);
      if candidate.Err? {
        return false;
      }
      if discovery.Some? && candidate.value.Some? && Matches(discovery.value, candidate.value.value, ids) {
        DistinctPush(ids, candidate.value.value.member);
        ids := ids + [candidate.value.value.member];
      }
      DistinctPush(extents, l.extent);
      extents := extents + [l.extent];
      ok := Push(l.extent);
    }

    /** Look at one partition; adopt it if it is a missing member of the same filesystem. */
    method Consider(host: Host, primary: Discovery, l: Located) returns (adopted: bool)
      requires Valid() && !Complete(primary, ids)
      modifies this
      ensures Valid()
      ensures adopted <==> l.extent !in old(extents) && Wanted(host, primary, l, old(ids))
      ensures !adopted ==> extents == old(extents) && ids == old(ids)
      ensures adopted ==>
        exists id :: extents == old(extents) + [l.extent] && ids == old(ids) + [id] &&
          Adopted(host, primary, l, l.extent, id)
      ensures l.extent in extents || !Wanted(host, primary, l, ids)
    {
      if l.extent in extents {
        return false;
      }
      var identified := host.identify(l);
      if identified.Err? || identified.value.None? {
        return false;
      }
      var candidate := identified.value.value;
      if !Matches(primary, candidate, ids) {
        return false;
      }
      DistinctPush(extents, l.extent);
      DistinctPush(ids, candidate.member);
      var ok := Push(l.extent);
      ids := ids + [candidate.member];
      extents := extents + [l.extent];
      assert Adopted(host, primary, l, l.extent, candidate.member);
      adopted := true;
    }

    /** Search one drive's partitions, stopping as soon as nothing is missing. */
    method SearchDrive(host: Host, primary: Discovery, ls: seq<Located>) returns (ghost adopted: seq<Located>)
      requires Valid() && !Complete(primary, ids)
      modifies this
      ensures Valid()
      ensures Follows(host, primary, old(extents), old(ids), adopted)
      ensures forall l :: l in adopted ==> l in ls
      ensures Complete(primary, ids) || Exhausted(host, primary, ls, extents, ids)
    {
      adopted := [];
      for i := 0 to |ls|
        invariant Valid() && !Complete(primary, ids)
        invariant Follows(host, primary, old(extents), old(ids), adopted)
        invariant forall l :: l in adopted ==> l in ls
        invariant Exhausted(host, primary, ls[..i], extents, ids)
      {
        ghost var extentsBefore, idsBefore := extents, ids;
        assert ls[..i + 1] == ls[..i] + [ls[i]];
        var took := Consider(host, primary, ls[i]);
        ExhaustedGrows(host, primary, ls[..i], extentsBefore, idsBefore, extents, ids);
        if took {
          ghost var id :| ids == idsBefore + [id] && Adopted(host, primary, ls[i], ls[i].extent, id);
          FollowsOn(host, primary, old(extents), old(ids), adopted, extentsBefore, idsBefore, ls[i], id);
          adopted := adopted + [ls[i]];
          if Complete(primary, ids) {
            return;
          }
        }
      }
      assert ls[..|ls|] == ls;
    }

    /** What has been added since is exactly what `adopted` contributes, in order. */
    ghost predicate Follows(host: Host, primary: Discovery, extents0: seq<Extent>, ids0: seq<MemberId>,
                            adopted: seq<Located>)
      reads this
    {
      Contributes(host, primary, extents0, ids0, adopted, extents, ids)
    }

    /** `discover_raw_partitions`: search every drive until nothing is missing. */
    method Discover(host: Host, primary: Discovery, primaryDrive: nat) returns (ghost adopted: seq<Located>)
      requires Valid()
      modifies this
      ensures Valid()
      ensures Follows(host, primary, old(extents), old(ids), adopted)
      ensures forall l :: l in adopted ==> Enumerated(host, primaryDrive, l)
      ensures old(Complete(primary, ids)) ==> adopted == []
      ensures Complete(primary, ids) ||
        forall l :: Enumerated(host, primaryDrive, l) ==> l.extent in extents || !Wanted(host, primary, l, ids)
    {
      adopted := [];
      if Complete(primary, ids) {
        return;
      }
      var drives := HostDrives(primaryDrive, host.drives);
      ghost var searched: seq<Located> := [];
      for i := 0 to |drives|
        invariant Valid() && !Complete(primary, ids)
        invariant Follows(host, primary, old(extents), old(ids), adopted)
        invariant forall l :: l in adopted ==> Enumerated(host, primaryDrive, l)
        invariant Exhausted(host, primary, searched, extents, ids)
        invariant forall k :: 0 <= k < i ==> Covers(searched, host.partitions(drives[k]))
      {
        var located := host.partitions(drives[i]);
        if located.None? {
          continue;
        }
        ghost var extentsBefore, idsBefore := extents, ids;
        ghost var more := SearchDrive(host, primary, located.value);
        FollowsFurther(host, primary, old(extents), old(ids), adopted, extentsBefore, idsBefore, more, extents, ids);
        assert drives[i] in drives;
        adopted := adopted + more;
        if Complete(primary, ids) {
          return;
        }
        ExhaustedGrows(host, primary, searched, extentsBefore, idsBefore, extents, ids);
        searched := searched + located.value;
      }
      forall l | Enumerated(host, primaryDrive, l)
        ensures l in searched
      {
        var d :| InSearch(host, primaryDrive, d) && host.partitions(d).Some? && l in host.partitions(d).value;
        var k :| 0 <= k < |drives| && drives[k] == d;
      }
    }
  }

  ghost predicate Covers(searched: seq<Located>, partitions: Option<seq<Located>>) {
    partitions.Some? ==> forall l :: l in partitions.value ==> l in searched
  }

  predicate InSearch(host: Host, primaryDrive: nat, d: nat) {
    d == primaryDrive || (host.drives.Some? && d in host.drives.value)
  }

  /** A partition the search would come to. */
  ghost predicate Enumerated(host: Host, primaryDrive: nat, l: Located) {
    exists d :: InSearch(host, primaryDrive, d) && host.partitions(d).Some? && l in host.partitions(d).value
  }

  ghost predicate Contributes(host: Host, primary: Discovery, extents0: seq<Extent>, ids0: seq<MemberId>,
                              adopted: seq<Located>, extents: seq<Extent>, ids: seq<MemberId>) {
    && |extents| == |extents0| + |adopted| && extents0 <= extents
    && |ids| == |ids0| + |adopted| && ids0 <= ids
    && forall i :: 0 <= i < |adopted| ==> Adopted(host, primary, adopted[i], extents[|extents0| + i], ids[|ids0| + i])
  }

  lemma FollowsOn(host: Host, primary: Discovery, extents0: seq<Extent>, ids0: seq<MemberId>, adopted: seq<Located>,
                  extents: seq<Extent>, ids: seq<MemberId>, l: Located, id: MemberId)
    requires Contributes(host, primary, extents0, ids0, adopted, extents, ids) &&
      Adopted(host, primary, l, l.extent, id)
    ensures Contributes(host, primary, extents0, ids0, adopted + [l], extents + [l.extent], ids + [id])
  {
  }

  lemma FollowsFurther(host: Host, primary: Discovery, extents0: seq<Extent>, ids0: seq<MemberId>,
                       adopted: seq<Located>, extents: seq<Extent>, ids: seq<MemberId>,
                       more: seq<Located>, extents': seq<Extent>, ids': seq<MemberId>)
    requires Contributes(host, primary, extents0, ids0, adopted, extents, ids)
    requires Contributes(host, primary, extents, ids, more, extents', ids')
    ensures Contributes(host, primary, extents0, ids0, adopted + more, extents', ids')
  {
    var all := adopted + more;
    forall i | 0 <= i < |all|
      ensures Adopted(host, primary, all[i], extents'[|extents0| + i], ids'[|ids0| + i])
    {
      if i >= |adopted| {
        assert all[i] == more[i - |adopted|];
        var k := i - |adopted|;
        assert Adopted(host, primary, more[k], extents'[|extents| + k], ids'[|ids| + k]);
      }
    }
  }

  // ------------------------------------------------------------------
  // The whole assembly
  // ------------------------------------------------------------------

  /** The partitions a caller names must be located and readable, and no two may be the same. */
  ghost predicate StatedAreUsable(host: Host, primary: Located, stated: seq<Option<Located>>) {
    && host.identify(primary).Ok?
    && (forall i :: 0 <= i < |stated| ==> stated[i].Some? && host.identify(stated[i].value).Ok?)
    && Distinct([primary.extent] + StatedExtents(stated))
  }

  ghost function StatedExtents(stated: seq<Option<Located>>): seq<Extent>
    requires forall i :: 0 <= i < |stated| ==> stated[i].Some?
  {
    seq(|stated|, i requires 0 <= i < |stated| => stated[i].value.extent)
  }

  ghost predicate OnlyRequired(discovery: Option<Discovery>, ids: seq<MemberId>) {
    match discovery
    case None => ids == []
    case Some(d) => forall id :: id in ids ==> id in d.required
  }

  lemma StillRequired(host: Host, primary: Discovery, extents0: seq<Extent>, ids0: seq<MemberId>, adopted: seq<Located>,
                      extents: seq<Extent>, ids: seq<MemberId>)
    requires Contributes(host, primary, extents0, ids0, adopted, extents, ids) && OnlyRequired(Some(primary), ids0)
    ensures OnlyRequired(Some(primary), ids)
  {
    forall id | id in ids
      ensures id in primary.required
    {
      var k :| 0 <= k < |ids| && ids[k] == id;
      if k < |ids0| {
        assert ids0[k] == id;
      } else {
        var i := k - |ids0|;
        assert Adopted(host, primary, adopted[i], extents[|extents0| + i], ids[|ids0| + i]);
      }
    }
  }

  /** Add the partitions the caller named, recognising those that are members; any trouble with one ends it. */
  method AddStated(host: Host, primary: Located, discovery: Option<Discovery>, stated: seq<Option<Located>>)
    returns (r: Option<Assembly>)
    requires host.identify(primary) == Ok(discovery)
    ensures r.Some? <==> StatedAreUsable(host, primary, stated)
    ensures r.Some? ==> fresh(r.value) && r.value.Valid() && OnlyRequired(discovery, r.value.ids)
    ensures r.Some? && discovery.Some? ==> discovery.value.member in r.value.ids
    ensures r.Some? ==> r.value.extents == [primary.extent] + StatedExtents(stated)
  {
    var assembly := new Assembly(primary.extent, if discovery.Some? then [discovery.value.member] else []);
    for i := 0 to |stated|
      invariant fresh(assembly) && assembly.Valid()
      invariant forall j :: 0 <= j < i ==> stated[j].Some? && host.identify(stated[j].value).Ok?
      invariant assembly.extents == [primary.extent] + StatedExtents(stated[..i])
      invariant OnlyRequired(discovery, assembly.ids) && (discovery.Some? ==> discovery.value.member in assembly.ids)
    {
      if stated[i].None? {
        return None;
      }
      var ok := assembly.AddOne(host, discovery, stated[i].value);
      if !ok {
        if host.identify(stated[i].value).Ok? {
          StatedClash(primary.extent, stated, i);
        }
        return None;
      }
      StatedOn(stated, i);
      assert assembly.extents == [primary.extent] + StatedExtents(stated[..i + 1]);
    }
    assert stated[..|stated|] == stated;
    r := Some(assembly);
  }

  /** `open_raw_partitions` up to the opening of the device set it gathers. */
  method OpenRawPartitions(host: Host, primary: Located, stated: seq<Option<Located>>)
    returns (r: Option<Assembly>, ghost adopted: seq<Located>)
    ensures r.Some? <==> StatedAreUsable(host, primary, stated)
    ensures r.Some? ==> fresh(r.value) && r.value.Valid() && OnlyRequired(host.identify(primary).value, r.value.ids)
    ensures r.Some? ==>
      |r.value.extents| == 1 + |stated| + |adopted| && [primary.extent] + StatedExtents(stated) <= r.value.extents
    ensures r.Some? ==> forall l :: l in adopted ==>
      Enumerated(host, primary.extent.drive, l) && l.extent in r.value.extents
    ensures r.Some? && host.identify(primary).value.Some? ==>
      var d := host.identify(primary).value.value;
      d.member in r.value.ids &&
      (Complete(d, r.value.ids) ||
       forall l :: Enumerated(host, primary.extent.drive, l) ==>
         l.extent in r.value.extents || !Wanted(host, d, l, r.value.ids))
  {
    adopted := [];
    var identified := host.identify(primary);
    if identified.Err? {
      return None, adopted;
    }
    var discovery := identified.value;
    r := AddStated(host, primary, discovery, stated);
    if r.Some? && discovery.Some? {
      var assembly := r.value;
      ghost var extentsBefore, idsBefore := assembly.extents, assembly.ids;
      adopted := assembly.Discover(host, discovery.value, primary.extent.drive);
      StillRequired(host, discovery.value, extentsBefore, idsBefore, adopted, assembly.extents, assembly.ids);
      AdoptedAreIn(host, discovery.value, extentsBefore, idsBefore, adopted, assembly.extents, assembly.ids);
    }
  }

  lemma AdoptedAreIn(host: Host, primary: Discovery, extents0: seq<Extent>, ids0: seq<MemberId>, adopted: seq<Located>,
                     extents: seq<Extent>, ids: seq<MemberId>)
    requires Contributes(host, primary, extents0, ids0, adopted, extents, ids)
    ensures forall l :: l in adopted ==> l.extent in extents
  {
    forall l | l in adopted
      ensures l.extent in extents
    {
      var i :| 0 <= i < |adopted| && adopted[i] == l;
      assert Adopted(host, primary, adopted[i], extents[|extents0| + i], ids[|ids0| + i]);
    }
  }

  lemma StatedOn(stated: seq<Option<Located>>, i: nat)
    requires i < |stated| && forall j :: 0 <= j <= i ==> stated[j].Some?
    ensures StatedExtents(stated[..i + 1]) == StatedExtents(stated[..i]) + [stated[i].value.extent]
  {
  }

  /** A stated partition already in the set means the stated partitions were not distinct. */
  lemma StatedClash(first: Extent, stated: seq<Option<Located>>, i: nat)
    requires i < |stated| && forall j :: 0 <= j <= i ==> stated[j].Some?
    requires stated[i].value.extent in [first] + StatedExtents(stated[..i])
    ensures (forall j :: 0 <= j < |stated| ==> stated[j].Some?) ==> !Distinct([first] + StatedExtents(stated))
  {
    if forall j :: 0 <= j < |stated| ==> stated[j].Some? {
      var some, all := [first] + StatedExtents(stated[..i]), [first] + StatedExtents(stated);
      var k :| 0 <= k < |some| && some[k] == stated[i].value.extent;
      assert all[k] == some[k] && all[i + 1] == stated[i].value.extent;
    }
  }
}

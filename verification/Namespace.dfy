/** The mount namespace as it is kept: filesystems under path strings. */
module Namespace {
  import opened Machine
  import opened Paths
  import opened M = MountTree

  // ------------------------------------------------------------------
  // Path strings and the component lists they stand for
  // ------------------------------------------------------------------

  predicate IsPart(k: string, cs: seq<string>) {
    k != [] && Canonical(k) && cs == Components(k)
  }

  ghost predicate AllParts(parts: map<string, seq<string>>) {
    forall k {:trigger IsPart(k, parts[k])} :: k in parts ==> IsPart(k, parts[k])
  }

  ghost predicate Injective<K, T>(parts: map<K, seq<T>>) {
    forall a, b :: a in parts && b in parts && parts[a] == parts[b] ==> a == b
  }

  /** `parts` splits every mount point, no two alike, and every attached root is a directory. */
  ghost predicate Indexed(mounts: map<string, Fs>, parts: map<string, seq<string>>) {
    && parts.Keys == mounts.Keys
    && AllParts(parts)
    && Injective(parts)
    && AllRooted(mounts)
  }

  ghost predicate AllRooted<K>(mounts: map<K, Fs>) {
    forall k :: k in mounts ==> mounts[k].IsDirectory([])
  }

  lemma RootedAfter<K>(mounts: map<K, Fs>, k: K, fs: Fs)
    requires AllRooted(mounts) && fs.IsDirectory([])
    ensures AllRooted(mounts[k := fs])
  {
  }

  ghost function KeyOf<K, T>(parts: map<K, seq<T>>, cs: seq<T>): (k: K)
    requires cs in parts.Values
    ensures k in parts && parts[k] == cs
  {
    var k :| k in parts && parts[k] == cs;
    k
  }

  /** The same mounts under component lists. */
  ghost function Mounted<K, T, V>(mounts: map<K, V>, parts: map<K, seq<T>>): map<seq<T>, V>
    requires parts.Keys == mounts.Keys
  {
    map cs | cs in parts.Values :: mounts[KeyOf(parts, cs)]
  }

  lemma MountedAfter<K, T, V>(mounts: map<K, V>, parts: map<K, seq<T>>, k: K, cs: seq<T>, v: V)
    requires parts.Keys == mounts.Keys && Injective(parts) && k !in mounts && cs !in parts.Values
    ensures Injective(parts[k := cs])
    ensures Mounted(mounts[k := v], parts[k := cs]) == Mounted(mounts, parts)[cs := v]
  {
    var indexed := parts[k := cs];
    assert indexed[k] == cs;
    forall a | a in parts
      ensures parts[a] != cs && indexed[a] == parts[a]
    {
      assert parts[a] in parts.Values;
    }
    assert indexed.Values == parts.Values + {cs} by {
      forall x | x in parts.Values
        ensures x in indexed.Values
      {
        assert indexed[KeyOf(parts, x)] == x;
      }
    }
  }

  lemma MountedAt(mounts: map<string, Fs>, parts: map<string, seq<string>>, k: string)
    requires Indexed(mounts, parts) && k in mounts
    ensures parts[k] in Mounted(mounts, parts) && Mounted(mounts, parts)[parts[k]] == mounts[k]
    ensures IsPart(k, parts[k])
  {
    assert IsPart(k, parts[k]);
    assert k in parts;
    assert parts[k] in parts.Values;
  }

  lemma Unmounted(mounts: map<string, Fs>, parts: map<string, seq<string>>, path: string)
    requires Indexed(mounts, parts) && path !in mounts
    ensures Components(path) !in parts.Values
  {
    if Components(path) in parts.Values {
      var k := KeyOf(parts, Components(path));
      MountedAt(mounts, parts, k);
      ComponentsInjective(k, path);
    }
  }

  lemma MountedRooted(root: Fs, mounts: map<string, Fs>, parts: map<string, seq<string>>)
    requires Indexed(mounts, parts)
    ensures Rooted(M.Namespace(root, Mounted(mounts, parts)))
  {
  }

  lemma PartsAfter(parts: map<string, seq<string>>, path: string, cs: seq<string>)
    requires AllParts(parts) && IsPart(path, cs)
    ensures AllParts(parts[path := cs])
  {
    var after := parts[path := cs];
    forall k {:trigger IsPart(k, after[k])} | k in after
      ensures IsPart(k, after[k])
    {
      if k != path {
        assert IsPart(k, parts[k]);
      }
    }
  }

  lemma IndexedAfter(mounts: map<string, Fs>, parts: map<string, seq<string>>, path: string, cs: seq<string>, fs: Fs)
    requires Indexed(mounts, parts) && path !in mounts && cs !in parts.Values && fs.IsDirectory([])
    requires AllParts(parts[path := cs])
    ensures Indexed(mounts[path := fs], parts[path := cs])
    ensures Mounted(mounts[path := fs], parts[path := cs]) == Mounted(mounts, parts)[cs := fs]
  {
    RootedAfter(mounts, path, fs);
    MountedAfter(mounts, parts, path, cs, fs);
  }

  /** Where a canonical path stands among the mount points. */
  lemma Located(mounts: map<string, Fs>, parts: map<string, seq<string>>, c: string)
    requires Indexed(mounts, parts) && Canonical(c)
    ensures c == [] <==> Components(c) == []
    ensures c != [] ==> IsPart(c, Components(c))
    ensures c in mounts <==> Components(c) in Mounted(mounts, parts)
    ensures c !in mounts ==> Components(c) !in parts.Values
  {
    JoinOfComponents(c);
    if c in mounts {
      MountedAt(mounts, parts, c);
    } else {
      Unmounted(mounts, parts, c);
    }
  }

  function SplitOnce(s: string): (string, Option<string>) {
    if s == [] then ([], None)
    else if s[0] == '/' then ([], Some(s[1..]))
    else var rest := SplitOnce(s[1..]); ([s[0]] + rest.0, rest.1)
  }

  lemma {:induction false} SplitOnceIsFirst(s: string)
    ensures SplitOnce(s).0 == Split(s)[0]
    ensures SplitOnce(s).1.None? <==> |Split(s)| == 1
  {
    if s != [] {
      SplitOnceIsFirst(s[1..]);
    }
  }

  /** What of a mount point is left below a parent. */
  function Remainder(point: string, parent: string): Option<string> {
    if parent == [] then Some(point)
    else if |parent| <= |point| && point[..|parent|] == parent then
      var rest := point[|parent|..];
      if rest != [] && rest[0] == '/' then Some(rest[1..]) else None
    else None
  }

  lemma RemainderIs(point: string, parent: string)
    requires Canonical(point) && point != [] && Canonical(parent)
    ensures Remainder(point, parent).Some? <==>
      |Components(parent)| < |Components(point)| && IsPrefix(Components(parent), Components(point))
    ensures Remainder(point, parent).Some? ==>
      Split(Remainder(point, parent).value) == Components(point)[|Components(parent)|..]
  {
    if parent != [] {
      BelowIsProperPrefix(point, parent);
      if |Components(parent)| == |Components(point)| && IsPrefix(Components(parent), Components(point)) {
        assert Components(point)[..|Components(point)|] == Components(point);
        ComponentsInjective(point, parent);
      }
      if IsBelow(point, parent) {
        RelativeRebuilds(point, parent);
        assert point[|parent|..][1..] == point[|parent| + 1..];
        assert Components(point)[..|Components(parent)|] == Components(parent);
      }
    }
  }

  // ------------------------------------------------------------------
  // Children of a path
  // ------------------------------------------------------------------

  predicate Under<T(==)>(cp: seq<T>, cs: seq<T>) {
    |cp| < |cs| && IsPrefix(cp, cs)
  }

  /** What is known of the children once the mount points in `done` have been looked at. */
  ghost predicate ChildrenOf<K, T>(parts: map<K, seq<T>>, done: set<K>, cp: seq<T>, children: map<T, Option<K>>) {
    && (forall k :: k in done && k in parts && Under(cp, parts[k]) ==> parts[k][|cp|] in children)
    && (forall name :: name in children ==> Reached(parts, done, cp, name))
    && (forall k :: k in done && k in parts && Under(cp, parts[k]) && |parts[k]| == |cp| + 1 ==>
          parts[k][|cp|] in children && children[parts[k][|cp|]] == Some(k))
    && (forall name :: name in children && children[name].Some? ==>
      children[name].value in done && IsExact(parts, cp, name, children[name].value))
  }

  ghost predicate Reached<K, T>(parts: map<K, seq<T>>, done: set<K>, cp: seq<T>, name: T) {
    exists k :: k in done && k in parts && Under(cp, parts[k]) && parts[k][|cp|] == name
  }

  predicate IsExact<K(==), T(==)>(parts: map<K, seq<T>>, cp: seq<T>, name: T, k: K) {
    k in parts && parts[k] == cp + [name]
  }

  lemma ReachedGrows<K, T>(parts: map<K, seq<T>>, done: set<K>, cp: seq<T>, name: T, k: K)
    ensures Reached(parts, done, cp, name) ==> Reached(parts, done + {k}, cp, name)
  {
    if Reached(parts, done, cp, name) {
      var d :| d in done && d in parts && Under(cp, parts[d]) && parts[d][|cp|] == name;
      assert d in done + {k};
    }
  }

  lemma ChildSkipped<K, T>(parts: map<K, seq<T>>, done: set<K>, k: K, cp: seq<T>, children: map<T, Option<K>>)
    requires ChildrenOf(parts, done, cp, children) && k in parts && !Under(cp, parts[k])
    ensures ChildrenOf(parts, done + {k}, cp, children)
  {
    forall name | name in children
      ensures Reached(parts, done + {k}, cp, name)
    {
      ReachedGrows(parts, done, cp, name, k);
    }
  }

  function AddChild<K, T(==)>(cp: seq<T>, cs: seq<T>, k: K, children: map<T, Option<K>>): map<T, Option<K>>
    requires Under(cp, cs)
  {
    var name := cs[|cp|];
    if |cs| == |cp| + 1 then children[name := Some(k)]
    else if name in children then children
    else children[name := None]
  }

  lemma ChildAdded<K, T>(parts: map<K, seq<T>>, done: set<K>, k: K, cp: seq<T>, before: map<T, Option<K>>)
    requires ChildrenOf(parts, done, cp, before) && k in parts && k !in done && Under(cp, parts[k])
    requires Injective(parts)
    ensures ChildrenOf(parts, done + {k}, cp, AddChild(cp, parts[k], k, before))
  {
    var after, name := AddChild(cp, parts[k], k, before), parts[k][|cp|];
    forall n | n in after
      ensures Reached(parts, done + {k}, cp, n)
    {
      ReachedGrows(parts, done, cp, n, k);
    }
    OneMountAtAChild(parts, done, k, cp);
    assert |parts[k]| == |cp| + 1 ==> parts[k] == cp + [name];
  }

  lemma OneMountAtAChild<K, T>(parts: map<K, seq<T>>, done: set<K>, k: K, cp: seq<T>)
    requires k in parts && k !in done && Under(cp, parts[k])
    requires Injective(parts)
    ensures |parts[k]| == |cp| + 1 ==>
      forall d :: d in done && d in parts && Under(cp, parts[d]) && |parts[d]| == |cp| + 1 ==>
        parts[d][|cp|] != parts[k][|cp|]
  {
    forall d | d in done && d in parts && Under(cp, parts[d]) && |parts[d]| == |cp| + 1 && |parts[k]| == |cp| + 1
      ensures parts[d][|cp|] != parts[k][|cp|]
    {
      assert parts[d] == cp + [parts[d][|cp|]];
      assert parts[k] == cp + [parts[k][|cp|]];
    }
  }

  /** One mount point's turn in the loop over all of them. */
  function AddOne(children: map<string, Option<string>>, k: string, parent: string): map<string, Option<string>> {
    match Remainder(k, parent)
    case None => children
    case Some(remainder) =>
      var split := SplitOnce(remainder);
      if split.1.None? then children[split.0 := Some(k)]
      else if split.0 in children then children
      else children[split.0 := None]
  }

  lemma AddOneIsAddChild(children: map<string, Option<string>>, k: string, cs: seq<string>, parent: string)
    requires IsPart(k, cs) && Canonical(parent)
    ensures AddOne(children, k, parent) ==
      if Under(Components(parent), cs) then AddChild(Components(parent), cs, k, children) else children
  {
    RemainderIs(k, parent);
    if Remainder(k, parent).Some? {
      SplitOnceIsFirst(Remainder(k, parent).value);
    }
  }

  function AddAll(order: seq<string>, parent: string): map<string, Option<string>> {
    if order == [] then map[]
    else AddOne(AddAll(order[..|order| - 1], parent), order[|order| - 1], parent)
  }

  ghost predicate Distinct<K>(order: seq<K>) {
    forall i, j :: 0 <= i < j < |order| ==> order[i] != order[j]
  }

  ghost function Elements<K>(order: seq<K>): set<K> {
    set k | k in order
  }

  lemma {:induction false} AddAllFindsChildren(mounts: map<string, Fs>, parts: map<string, seq<string>>,
                                               order: seq<string>, parent: string)
    requires Indexed(mounts, parts) && Canonical(parent) && Distinct(order) && Elements(order) <= parts.Keys
    ensures ChildrenOf(parts, Elements(order), Components(parent), AddAll(order, parent))
    decreases |order|
  {
    if order != [] {
      var front, k := order[..|order| - 1], order[|order| - 1];
      LastIsNew(order);
      AddAllFindsChildren(mounts, parts, front, parent);
      MountedAt(mounts, parts, k);
      AddOneIsAddChild(AddAll(front, parent), k, parts[k], parent);
      AddedKeeps(parts, Elements(front), k, Components(parent), AddAll(front, parent));
    }
  }

  lemma LastIsNew<K>(order: seq<K>)
    requires order != [] && Distinct(order)
    ensures var front, k := order[..|order| - 1], order[|order| - 1];
      Distinct(front) && k !in Elements(front) && Elements(order) == Elements(front) + {k}
  {
    var front, k := order[..|order| - 1], order[|order| - 1];
    assert order == front + [k];
  }

  lemma AddedKeeps<K, T>(parts: map<K, seq<T>>, done: set<K>, k: K, cp: seq<T>, before: map<T, Option<K>>)
    requires ChildrenOf(parts, done, cp, before) && k in parts && k !in done && Injective(parts)
    ensures ChildrenOf(parts, done + {k}, cp, if Under(cp, parts[k]) then AddChild(cp, parts[k], k, before) else before)
  {
    if Under(cp, parts[k]) {
      ChildAdded(parts, done, k, cp, before);
    } else {
      ChildSkipped(parts, done, k, cp, before);
    }
  }

  /** `order` is what has been taken out of `points` to leave `keys`. */
  ghost predicate Walked<K>(points: set<K>, keys: set<K>, order: seq<K>) {
    keys <= points && Distinct(order) && Elements(order) == points - keys
  }

  lemma WalkOn<K>(points: set<K>, keys: set<K>, order: seq<K>, k: K)
    requires Walked(points, keys, order) && k in keys
    ensures Walked(points, keys - {k}, order + [k])
  {
    var longer := order + [k];
    assert k !in Elements(order);
    assert longer[..|order|] == order;
    forall x
      ensures x in Elements(longer) <==> x in Elements(order) || x == k
    {
      assert longer[|order|] == k;
    }
  }

  lemma AddAllOn(order: seq<string>, k: string, parent: string)
    ensures AddAll(order + [k], parent) == AddOne(AddAll(order, parent), k, parent)
  {
    assert (order + [k])[..|order|] == order;
  }

  /** The loop over every mount point, in whatever order they come. */
  method CollectChildren(points: set<string>, parent: string)
    returns (children: map<string, Option<string>>, ghost order: seq<string>)
    ensures children == AddAll(order, parent) && Walked(points, {}, order)
  {
    children, order := map[], [];
    var keys := points;
    while keys != {}
      invariant Walked(points, keys, order) && children == AddAll(order, parent)
      decreases |keys|
    {
      var k :| k in keys;
      WalkOn(points, keys, order, k);
      AddAllOn(order, k, parent);
      children := AddOne(children, k, parent);
      keys, order := keys - {k}, order + [k];
    }
  }

  /** The children of a path: the names mount points add there, and the mount point at each, if any. */
  ghost predicate Lists(ns: M.Namespace, mounts: map<string, Fs>, cp: seq<string>,
                        children: map<string, Option<string>>) {
    && children.Keys == ChildNames(ns, cp)
    && forall name :: name in children ==> ExactAt(ns, mounts, cp, name, children[name])
  }

  ghost predicate ExactAt(ns: M.Namespace, mounts: map<string, Fs>, cp: seq<string>, name: string,
                          point: Option<string>) {
    && (cp + [name] in ns.mounts <==> point.Some?)
    && (point.Some? ==>
      point.value in mounts && cp + [name] in ns.mounts && mounts[point.value] == ns.mounts[cp + [name]])
  }

  lemma ChildrenList(root: Fs, mounts: map<string, Fs>, parts: map<string, seq<string>>, cp: seq<string>,
                     children: map<string, Option<string>>)
    requires Indexed(mounts, parts) && ChildrenOf(parts, parts.Keys, cp, children)
    ensures Lists(M.Namespace(root, Mounted(mounts, parts)), mounts, cp, children)
  {
    ChildrenAreNames(root, mounts, parts, cp, children);
    forall name | name in children
      ensures ExactAt(M.Namespace(root, Mounted(mounts, parts)), mounts, cp, name, children[name])
    {
      ExactChild(mounts, parts, cp, children, name);
    }
  }

  lemma ChildrenAreNames(root: Fs, mounts: map<string, Fs>, parts: map<string, seq<string>>, cp: seq<string>,
                         children: map<string, Option<string>>)
    requires Indexed(mounts, parts) && ChildrenOf(parts, parts.Keys, cp, children)
    ensures children.Keys == ChildNames(M.Namespace(root, Mounted(mounts, parts)), cp)
  {
    var ns := M.Namespace(root, Mounted(mounts, parts));
    forall name | name in children
      ensures name in ChildNames(ns, cp)
    {
      assert Reached(parts, parts.Keys, cp, name);
      var k :| k in parts.Keys && k in parts && Under(cp, parts[k]) && parts[k][|cp|] == name;
      MountedAt(mounts, parts, k);
      assert parts[k] in ns.mounts;
    }
    forall m | m in ns.mounts && |cp| < |m| && IsPrefix(cp, m)
      ensures m[|cp|] in children
    {
      var k := KeyOf(parts, m);
      assert Under(cp, parts[k]);
    }
  }

  lemma ExactChild(mounts: map<string, Fs>, parts: map<string, seq<string>>, cp: seq<string>,
                   children: map<string, Option<string>>, name: string)
    requires Indexed(mounts, parts) && ChildrenOf(parts, parts.Keys, cp, children) && name in children
    ensures cp + [name] in Mounted(mounts, parts) <==> children[name].Some?
    ensures children[name].Some? ==>
      children[name].value in mounts && mounts[children[name].value] == Mounted(mounts, parts)[cp + [name]]
  {
    if cp + [name] in Mounted(mounts, parts) {
      var k := KeyOf(parts, cp + [name]);
      assert (cp + [name])[..|cp|] == cp;
      assert Under(cp, parts[k]);
    }
    if children[name].Some? {
      assert IsExact(parts, cp, name, children[name].value);
      MountedAt(mounts, parts, children[name].value);
    }
  }

  // ------------------------------------------------------------------
  // Merging
  // ------------------------------------------------------------------

  predicate Showable(mounts: map<string, Fs>, children: map<string, Option<string>>) {
    forall n :: n in children && children[n].Some? ==>
      children[n].value in mounts && mounts[children[n].value].IsDirectory([])
  }

  /** What a listing shows for each name that mount points add. */
  function Shown(mounts: map<string, Fs>, children: map<string, Option<string>>): map<string, Seen>
    requires Showable(mounts, children)
  {
    map name | name in children ::
      if children[name].Some? then Backed(mounts[children[name].value].nodes[[]]) else Synthetic
  }

  lemma MergeOne<K, V>(entries: map<K, V>, shown: map<K, V>, names: set<K>, name: K)
    requires name in names && name in shown
    ensures (entries + (shown - names))[name := shown[name]] == entries + (shown - (names - {name}))
  {
    var before, after := entries + (shown - names), entries + (shown - (names - {name}));
    assert (shown - (names - {name})).Keys == (shown - names).Keys + {name};
    assert before[name := shown[name]].Keys == after.Keys;
  }

  lemma MergeEnds<K, V>(entries: map<K, V>, shown: map<K, V>)
    ensures entries + (shown - shown.Keys) == entries && entries + (shown - {}) == entries + shown
  {
    assert shown - shown.Keys == map[] && shown - {} == shown;
  }

  /** Mount points replace or join the entries of the directory that holds them. */
  method Merge<K(==), V>(entries: map<K, V>, shown: map<K, V>) returns (merged: map<K, V>)
    ensures merged == entries + shown
  {
    MergeEnds(entries, shown);
    merged := entries;
    var names := shown.Keys;
    while names != {}
      invariant names <= shown.Keys
      invariant merged == entries + (shown - names)
      decreases |names|
    {
      var name :| name in names;
      MergeOne(entries, shown, names, name);
      merged := merged[name := shown[name]];
      names := names - {name};
    }
  }

  lemma MergedEntry(ns: M.Namespace, mounts: map<string, Fs>, cp: seq<string>,
                    entries: map<string, Seen>, children: map<string, Option<string>>, name: string)
    requires Rooted(ns) && Showable(mounts, children) && children.Keys == ChildNames(ns, cp)
    requires if name in children then ExactAt(ns, mounts, cp, name, children[name]) else name in entries
    ensures (entries + Shown(mounts, children))[name] == Overlaid(ns, cp, entries, name)
  {
    if name !in children {
      ChildNamesAre(ns, cp, name);
    }
  }

  lemma MergedIsOverlay(ns: M.Namespace, mounts: map<string, Fs>, cp: seq<string>, entries: map<string, Seen>,
                        children: map<string, Option<string>>)
    requires Rooted(ns) && Showable(mounts, children) && Lists(ns, mounts, cp, children)
    ensures entries + Shown(mounts, children) == Overlay(ns, cp, entries)
  {
    forall name | name in entries.Keys + children.Keys
      ensures (entries + Shown(mounts, children))[name] == Overlaid(ns, cp, entries, name)
    {
      MergedEntry(ns, mounts, cp, entries, children, name);
    }
  }

  /** What the owner lists, overlaid; a directory the owner does not have lists only its mount points. */
  method MergeListing(ghost ns: M.Namespace, mounts: map<string, Fs>, ghost cp: seq<string>,
                      entries: Result<map<string, Seen>, FsError>, children: map<string, Option<string>>)
    returns (r: Result<map<string, Seen>, FsError>)
    requires Rooted(ns) && Showable(mounts, children) && Lists(ns, mounts, cp, children)
    ensures r ==
      match entries
      case Ok(listed) => Ok(Overlay(ns, cp, listed))
      case Err(e) => if e == NotFound && ChildNames(ns, cp) != {} then Ok(Overlay(ns, cp, map[])) else Err(e)
  {
    if entries.Err? && (entries.error != NotFound || children.Keys == {}) {
      return Err(entries.error);
    }
    var byName := if entries.Ok? then entries.value else map[];
    var merged := Merge(byName, Shown(mounts, children));
    MergedIsOverlay(ns, mounts, cp, byName, children);
    r := Ok(merged);
  }

  // ------------------------------------------------------------------
  // Routing
  // ------------------------------------------------------------------

  method LongestMatch(points: set<string>, path: string) returns (best: Option<string>)
    ensures best.Some? ==> best.value in points && IsAtOrBelow(path, best.value)
    ensures forall k :: k in points && IsAtOrBelow(path, k) ==> best.Some? && |k| <= |best.value|
  {
    best := None;
    var keys := points;
    while keys != {}
      invariant keys <= points
      invariant best.Some? ==> best.value in points && IsAtOrBelow(path, best.value)
      invariant forall k :: k in points && k !in keys && IsAtOrBelow(path, k) ==> best.Some? && |k| <= |best.value|
      decreases |keys|
    {
      var k :| k in keys;
      keys := keys - {k};
      if IsAtOrBelow(path, k) && (best.None? || |best.value| <= |k|) {
        best := Some(k);
      }
    }
  }

  function RelativeString(path: string, mountPoint: Option<string>): string
    requires mountPoint.Some? ==> IsAtOrBelow(path, mountPoint.value)
  {
    match mountPoint
    case None => path
    case Some(m) => if path == m then [] else path[|m| + 1..]
  }

  /** The rest of the string is the rest of the components. */
  lemma RoutedRelative(mounts: map<string, Fs>, parts: map<string, seq<string>>, path: string,
                       mountPoint: Option<string>)
    requires Indexed(mounts, parts) && Canonical(path)
    requires mountPoint.Some? ==> mountPoint.value in mounts && IsAtOrBelow(path, mountPoint.value)
    ensures mountPoint.Some? ==> |parts[mountPoint.value]| <= |Components(path)|
    ensures Components(RelativeString(path, mountPoint)) ==
      if mountPoint.Some? then Components(path)[|parts[mountPoint.value]|..] else Components(path)
    ensures mountPoint == Some(path) <==> mountPoint.Some? && parts[mountPoint.value] == Components(path)
  {
    if mountPoint.Some? {
      var m := mountPoint.value;
      MountedAt(mounts, parts, m);
      RelativeRebuilds(path, m);
      assert Components(path)[|parts[m]|..] == Components(RelativeString(path, mountPoint));
      if parts[m] == Components(path) {
        ComponentsInjective(m, path);
      }
    }
  }

  /** Scanning all mount points for the longest match finds the deepest one. */
  lemma RouteIsDeepest(mounts: map<string, Fs>, parts: map<string, seq<string>>, path: string, best: Option<string>)
    requires Indexed(mounts, parts) && Canonical(path)
    requires best.Some? ==> best.value in mounts && IsAtOrBelow(path, best.value)
    requires forall k :: k in mounts && IsAtOrBelow(path, k) ==> best.Some? && |k| <= |best.value|
    ensures Deepest(Mounted(mounts, parts).Keys, Components(path)) ==
      if best.Some? then Some(parts[best.value]) else None
  {
    var keys, cs := Mounted(mounts, parts).Keys, Components(path);
    var r := if best.Some? then Some(parts[best.value]) else None;
    if best.Some? {
      MountedAt(mounts, parts, best.value);
      AtOrBelowIsPrefix(path, best.value);
    }
    forall m | m in keys && IsPrefix(m, cs)
      ensures best.Some? && |m| <= |parts[best.value]|
    {
      var k := KeyOf(parts, m);
      MountedAt(mounts, parts, k);
      AtOrBelowIsPrefix(path, k);
      LongerStringIsDeeper(path, k, best.value);
    }
    DeepestIsUnique(keys, cs, r);
  }

  /** Of two prefixes of one path, the longer string has the more components. */
  lemma LongerStringIsDeeper(path: string, a: string, b: string)
    requires Canonical(path) && Canonical(a) && Canonical(b) && a != [] && b != []
    requires IsPrefix(Components(a), Components(path)) && IsPrefix(Components(b), Components(path)) && |a| <= |b|
    ensures |Components(a)| <= |Components(b)|
  {
    BelowIsProperPrefix(a, b);
    assert Components(path)[..|Components(a)|] == Components(a);
    assert |Components(b)| <= |Components(a)| ==> IsPrefix(Components(b), Components(a));
  }

  /** The string test for something mounted below is the component test. */
  lemma DescendantIsAbove(root: Fs, mounts: map<string, Fs>, parts: map<string, seq<string>>, path: string)
    requires Indexed(mounts, parts) && Canonical(path)
    ensures (exists k :: k in mounts && (path == [] || IsBelow(k, path))) <==>
      Above(M.Namespace(root, Mounted(mounts, parts)), Components(path))
  {
    var ns, cs := M.Namespace(root, Mounted(mounts, parts)), Components(path);
    if k :| k in mounts && (path == [] || IsBelow(k, path)) {
      MountedAt(mounts, parts, k);
      BelowIsUnder(k, path);
      assert parts[k] in ns.mounts;
    }
    if m :| m in ns.mounts && |cs| < |m| && IsPrefix(cs, m) {
      var k := KeyOf(parts, m);
      MountedAt(mounts, parts, k);
      BelowIsUnder(k, path);
    }
  }

  lemma BelowIsUnder(k: string, path: string)
    requires k != [] && Canonical(k) && Canonical(path)
    ensures path == [] || IsBelow(k, path) <==> Under(Components(path), Components(k))
  {
    if path != [] {
      BelowIsProperPrefix(k, path);
      if k == path {
        assert !IsBelow(k, path);
      } else if |Components(k)| == |Components(path)| && IsPrefix(Components(path), Components(k)) {
        assert Components(k)[..|Components(k)|] == Components(k);
        ComponentsInjective(k, path);
      }
    }
  }

  class MountNamespace {
    var root: Fs
    var mounts: map<string, Fs>
    ghost var parts: map<string, seq<string>>

    ghost predicate Valid()
      reads this
    {
      Indexed(mounts, parts)
    }

    ghost function View(): M.Namespace
      requires Valid()
      reads this
    {
      M.Namespace(root, Mounted(mounts, parts))
    }

    constructor (root: Fs)
      ensures Valid() && View() == M.Namespace(root, map[])
    {
      this.root := root;
      mounts := map[];
      parts := map[];
    }

    function Filesystem(mountPoint: Option<string>): Fs
      requires mountPoint.Some? ==> mountPoint.value in mounts
      reads this
    {
      if mountPoint.Some? then mounts[mountPoint.value] else root
    }

    /** The most specific mount point, and the path below it. */
    method Route(path: string) returns (mountPoint: Option<string>, relative: string)
      requires Valid() && Canonical(path)
      ensures mountPoint.Some? ==> mountPoint.value in mounts
      ensures (mountPoint == Some(path)) == (Deepest(View().mounts.Keys, Components(path)) == Some(Components(path)))
      ensures Filesystem(mountPoint) == Owner(View(), Components(path))
      ensures Components(relative) == M.Relative(View(), Components(path))
    {
      mountPoint := LongestMatch(mounts.Keys, path);
      RouteIsDeepest(mounts, parts, path, mountPoint);
      RoutedRelative(mounts, parts, path, mountPoint);
      relative := RelativeString(path, mountPoint);
      if mountPoint.Some? {
        MountedAt(mounts, parts, mountPoint.value);
      }
    }

    predicate HasMountedDescendant(path: string)
      reads this
    {
      exists k :: k in mounts && (path == [] || IsBelow(k, path))
    }

    method TryIsDir(path: string) returns (r: Result<bool, FsError>)
      requires Valid()
      ensures r ==
        match CanonicalPath(path)
        case None => Err(InvalidPath)
        case Some(c) => M.TryIsDir(View(), Components(c))
    {
      var canonical := Canonicalize(path);
      if canonical.None? {
        return Err(InvalidPath);
      }
      var c := canonical.value;
      CanonicalPathIsCanonical(path);
      DescendantIsAbove(root, mounts, parts, c);
      var mountPoint, relative := Route(c);
      if HasMountedDescendant(c) {
        return Ok(true);
      }
      r := Filesystem(mountPoint).TryIsDir(Components(relative));
    }

    method Open(path: string) returns (r: Result<Seen, FsError>)
      requires Valid()
      ensures r ==
        match CanonicalPath(path)
        case None => Err(InvalidPath)
        case Some(c) => M.Open(View(), Components(c))
    {
      var canonical := Canonicalize(path);
      if canonical.None? {
        return Err(InvalidPath);
      }
      var c := canonical.value;
      CanonicalPathIsCanonical(path);
      DescendantIsAbove(root, mounts, parts, c);
      var mountPoint, relative := Route(c);
      var hasSyntheticFallback := HasMountedDescendant(c) && mountPoint != Some(c);
      r := Filesystem(mountPoint).Open(Components(relative));
      if r == Err(NotFound) && hasSyntheticFallback {
        r := Ok(Synthetic);
      }
    }

    method Metadata(path: string) returns (r: Result<Seen, FsError>)
      requires Valid()
      ensures r ==
        match CanonicalPath(path)
        case None => Err(InvalidPath)
        case Some(c) => M.Metadata(View(), Components(c))
    {
      var canonical := Canonicalize(path);
      if canonical.None? {
        return Err(InvalidPath);
      }
      var c := canonical.value;
      CanonicalPathIsCanonical(path);
      DescendantIsAbove(root, mounts, parts, c);
      var mountPoint, relative := Route(c);
      if HasMountedDescendant(c) && mountPoint != Some(c) {
        return Ok(Synthetic);
      }
      r := Filesystem(mountPoint).Open(Components(relative));
    }

    method Attach(path: string, fs: Fs) returns (r: Result<(), FsError>)
      requires Valid()
      modifies this
      ensures Valid()
      ensures match M.Attach(old(View()), path, fs)
              case Ok(after) => r == Ok(()) && View() == after
              case Err(e) => r == Err(e) && View() == old(View())
    {
      var canonical := Canonicalize(path);
      if canonical.None? {
        return Err(InvalidPath);
      }
      var c := canonical.value;
      CanonicalPathIsCanonical(path);
      Located(mounts, parts, c);
      if c == [] {
        return Err(InvalidPath);
      }
      if c in mounts {
        return Err(Occupied);
      }
      var isDir := TryIsDir(c);
      if isDir.Err? {
        return Err(isDir.error);
      }
      if !isDir.value {
        return Err(NotADirectory);
      }
      var top := fs.Open([]);
      if top.Err? {
        return Err(top.error);
      }
      if !top.value.IsDir() {
        return Err(NotADirectory);
      }
      PartsAfter(parts, c, Components(c));
      IndexedAfter(mounts, parts, c, Components(c), fs);
      mounts := mounts[c := fs];
      parts := parts[c := Components(c)];
      r := Ok(());
    }

    /** The names mount points add under a parent, each with the mount point that is exactly there. */
    method DirectMountChildren(parent: string) returns (children: map<string, Option<string>>)
      requires Valid() && Canonical(parent)
      ensures Lists(View(), mounts, Components(parent), children) && Showable(mounts, children)
    {
      ghost var order;
      children, order := CollectChildren(mounts.Keys, parent);
      CollectedIsListed(root, mounts, parts, order, parent);
    }

    method ReadDir(path: string) returns (r: Result<map<string, Seen>, FsError>)
      requires Valid()
      ensures Rooted(View())
      ensures r ==
        match CanonicalPath(path)
        case None => Err(InvalidPath)
        case Some(c) => M.ReadDir(View(), Components(c))
    {
      MountedRooted(root, mounts, parts);
      var canonical := Canonicalize(path);
      if canonical.None? {
        return Err(InvalidPath);
      }
      var c := canonical.value;
      ghost var cp := Components(c);
      CanonicalPathIsCanonical(path);
      var mountPoint, relative := Route(c);
      var children := DirectMountChildren(c);
      var entries := Filesystem(mountPoint).ReadDir(Components(relative));
      r := MergeListing(View(), mounts, cp, entries, children);
    }
  }

  /** Collecting over every mount point, in any order, finds the children of the path. */
  lemma CollectedIsListed(root: Fs, mounts: map<string, Fs>, parts: map<string, seq<string>>, order: seq<string>,
                          parent: string)
    requires Indexed(mounts, parts) && Canonical(parent) && Walked(mounts.Keys, {}, order)
    ensures Lists(M.Namespace(root, Mounted(mounts, parts)), mounts, Components(parent), AddAll(order, parent))
    ensures Showable(mounts, AddAll(order, parent))
  {
    assert Elements(order) == parts.Keys;
    AddAllFindsChildren(mounts, parts, order, parent);
    var children := AddAll(order, parent);
    ChildrenList(root, mounts, parts, Components(parent), children);
    ChildrenAreShowable(mounts, parts, Components(parent), children);
  }

  lemma ChildrenAreShowable(mounts: map<string, Fs>, parts: map<string, seq<string>>, cp: seq<string>,
                            children: map<string, Option<string>>)
    requires Indexed(mounts, parts) && ChildrenOf(parts, parts.Keys, cp, children)
    ensures Showable(mounts, children)
  {
  }
}

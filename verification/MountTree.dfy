/**
 * A mounted namespace on component lists: which filesystem owns a path, and
 * what each question about the path answers.
 */
module MountTree {
  import opened Machine
  import opened Paths

  datatype FsError = NotFound | InvalidPath | NotADirectory | Occupied | OtherError

  datatype Node = Directory(id: nat) | File(id: nat)

  /** What a question about a path shows: something stored, or a directory made up above a mount. */
  datatype Seen = Backed(node: Node) | Synthetic {
    predicate IsDir() {
      Synthetic? || node.Directory?
    }
  }

  /**
   A backing filesystem as a value. `absent` is the error it gives for a path it does not hold, and `trouble` the one
   that any question about a path it cannot read ends in.
   */
  datatype Fs = Fs(nodes: map<seq<string>, Node>, absent: seq<string> -> FsError,
                   trouble: seq<string> -> Option<FsError>)
  {
    predicate IsDirectory(path: seq<string>) {
      path in nodes && nodes[path].Directory? && trouble(path).None?
    }

    function TryIsDir(path: seq<string>): Result<bool, FsError> {
      if trouble(path).Some? then Err(trouble(path).value) else Ok(IsDirectory(path))
    }

    function Open(path: seq<string>): Result<Seen, FsError> {
      if trouble(path).Some? then Err(trouble(path).value)
      else if path in nodes then Ok(Backed(nodes[path]))
      else Err(absent(path))
    }

    function ReadDir(path: seq<string>): Result<map<string, Seen>, FsError> {
      if trouble(path).Some? then Err(trouble(path).value)
      else if path !in nodes then Err(absent(path))
      else if nodes[path].File? then Err(NotADirectory)
      else Ok(Listed(path))
    }

    function Names(path: seq<string>): set<string> {
      set p | p in nodes && |p| == |path| + 1 && p[..|path|] == path :: p[|path|]
    }

    function Listed(path: seq<string>): (r: map<string, Seen>)
      ensures forall name :: name in r <==> path + [name] in nodes
      ensures forall name :: name in r ==> r[name] == Backed(nodes[path + [name]])
    {
      assert forall p :: p in nodes && |p| == |path| + 1 && p[..|path|] == path ==> p == path + [p[|path|]];
      assert forall name :: (path + [name])[..|path|] == path && (path + [name])[|path|] == name;
      map name | name in Names(path) && path + [name] in nodes :: Backed(nodes[path + [name]])
    }
  }

  /** Everything below the root hangs off a directory. */
  ghost predicate TreeShaped(fs: Fs) {
    forall p :: p in fs.nodes && p != [] ==> fs.IsDirectory(p[..|p| - 1])
  }

  lemma {:induction false} AncestorsAreDirectories(fs: Fs, path: seq<string>, k: nat)
    requires TreeShaped(fs) && fs.IsDirectory(path) && k <= |path|
    ensures fs.IsDirectory(path[..k])
    decreases |path|
  {
    if k == |path| {
      assert path[..k] == path;
    } else {
      AncestorsAreDirectories(fs, path[..|path| - 1], k);
      assert path[..|path| - 1][..k] == path[..k];
    }
  }

  // ------------------------------------------------------------------
  // Routing
  // ------------------------------------------------------------------

  datatype Namespace = Namespace(root: Fs, mounts: map<seq<string>, Fs>)

  /** The deepest mount point at or above a path. */
  function Deepest(keys: set<seq<string>>, path: seq<string>): Option<seq<string>>
    decreases |path|
  {
    if path in keys then Some(path)
    else if path == [] then None
    else Deepest(keys, path[..|path| - 1])
  }

  predicate IsDeepest(keys: set<seq<string>>, path: seq<string>, r: Option<seq<string>>) {
    match r
    case None => forall k :: k in keys ==> !IsPrefix(k, path)
    case Some(m) => m in keys && IsPrefix(m, path) && forall k :: k in keys && IsPrefix(k, path) ==> |k| <= |m|
  }

  /** Routing picks the longest attached prefix, and there is only one. */
  lemma {:induction false} DeepestIsUnique(keys: set<seq<string>>, path: seq<string>, r: Option<seq<string>>)
    ensures IsDeepest(keys, path, r) <==> r == Deepest(keys, path)
    decreases |path|
  {
    if path in keys {
      assert path[..|path|] == path;
    } else if path != [] {
      var up := path[..|path| - 1];
      forall k | k in keys
        ensures IsPrefix(k, path) <==> IsPrefix(k, up)
      {
        assert path[..|path|] == path;
        if |k| < |path| {
          assert path[..|k|] == up[..|k|];
        }
      }
      DeepestIsUnique(keys, up, r);
      if r.Some? && r.value in keys {
        assert IsPrefix(r.value, path) <==> IsPrefix(r.value, up);
      }
    } else if r.Some? && IsPrefix(r.value, path) {
      assert r.value == [];
    }
  }

  function Owner(ns: Namespace, path: seq<string>): Fs {
    match Deepest(ns.mounts.Keys, path)
    case None => ns.root
    case Some(m) => if m in ns.mounts then ns.mounts[m] else ns.root
  }

  function Relative(ns: Namespace, path: seq<string>): seq<string> {
    match Deepest(ns.mounts.Keys, path)
    case None => path
    case Some(m) => if |m| <= |path| then path[|m|..] else []
  }

  /** Some mount point lies strictly below. */
  predicate Above(ns: Namespace, path: seq<string>) {
    exists m :: m in ns.mounts && |path| < |m| && IsPrefix(path, m)
  }

  predicate FallsBack(ns: Namespace, path: seq<string>) {
    Above(ns, path) && Deepest(ns.mounts.Keys, path) != Some(path)
  }

  function TryIsDir(ns: Namespace, path: seq<string>): Result<bool, FsError> {
    if Above(ns, path) then Ok(true) else Owner(ns, path).TryIsDir(Relative(ns, path))
  }

  function Metadata(ns: Namespace, path: seq<string>): Result<Seen, FsError> {
    if FallsBack(ns, path) then Ok(Synthetic) else Owner(ns, path).Open(Relative(ns, path))
  }

  function Open(ns: Namespace, path: seq<string>): Result<Seen, FsError> {
    var direct := Owner(ns, path).Open(Relative(ns, path));
    if direct == Err(NotFound) && FallsBack(ns, path) then Ok(Synthetic) else direct
  }

  // ------------------------------------------------------------------
  // Listing
  // ------------------------------------------------------------------

  /** The names directly under a path that some mount point passes through. */
  function ChildNames(ns: Namespace, path: seq<string>): set<string> {
    set m | m in ns.mounts && |path| < |m| && IsPrefix(path, m) :: m[|path|]
  }

  /** Every attached filesystem has a directory at its root. */
  predicate Rooted(ns: Namespace) {
    forall m :: m in ns.mounts ==> ns.mounts[m].IsDirectory([])
  }

  function Overlaid(ns: Namespace, path: seq<string>, entries: map<string, Seen>, name: string): Seen
    requires Rooted(ns) && (name in entries || name in ChildNames(ns, path))
  {
    if path + [name] in ns.mounts then Backed(ns.mounts[path + [name]].nodes[[]])
    else if name in ChildNames(ns, path) then Synthetic
    else entries[name]
  }

  function ReadDir(ns: Namespace, path: seq<string>): Result<map<string, Seen>, FsError>
    requires Rooted(ns)
  {
    match Owner(ns, path).ReadDir(Relative(ns, path))
    case Ok(entries) => Ok(Overlay(ns, path, entries))
    case Err(e) => if e == NotFound && ChildNames(ns, path) != {} then Ok(Overlay(ns, path, map[])) else Err(e)
  }

  function Overlay(ns: Namespace, path: seq<string>, entries: map<string, Seen>): map<string, Seen>
    requires Rooted(ns)
  {
    map name | name in entries.Keys + ChildNames(ns, path) :: Overlaid(ns, path, entries, name)
  }

  lemma ChildNamesAre(ns: Namespace, path: seq<string>, name: string)
    ensures name in ChildNames(ns, path) <==> path + [name] in ns.mounts || Above(ns, path + [name])
  {
    var child := path + [name];
    forall m | m in ns.mounts
      ensures |path| < |m| && IsPrefix(path, m) && m[|path|] == name <==> IsPrefix(child, m)
    {
      if |path| < |m| {
        assert m[..|path| + 1] == m[..|path|] + [m[|path|]];
        assert child[..|path|] == path;
      }
    }
    if child in ns.mounts {
      assert child[..|child|] == child;
      assert IsPrefix(child, child);
    }
    if name in ChildNames(ns, path) {
      var m :| m in ns.mounts && |path| < |m| && IsPrefix(path, m) && m[|path|] == name;
      assert IsPrefix(child, m);
      assert |m| == |child| ==> m[..|child|] == m;
    }
  }

  lemma ChildIsOwnedAlike(ns: Namespace, path: seq<string>, name: string)
    requires path + [name] !in ns.mounts
    ensures Owner(ns, path + [name]) == Owner(ns, path)
    ensures Relative(ns, path + [name]) == Relative(ns, path) + [name]
    ensures Deepest(ns.mounts.Keys, path + [name]) == Deepest(ns.mounts.Keys, path)
  {
    var child := path + [name];
    assert child[..|child| - 1] == path;
    DeepestIsUnique(ns.mounts.Keys, path, Deepest(ns.mounts.Keys, path));
  }

  /** The filesystem that owns the path cannot read it. */
  predicate Troubled(ns: Namespace, path: seq<string>) {
    Owner(ns, path).trouble(Relative(ns, path)).Some?
  }

  /**
   A listing names exactly the children that can be looked up, and shows each as looking it up does; a child that is
   listed and cannot be looked up is one its filesystem cannot read.
   */
  lemma ListingIsMetadata(ns: Namespace, path: seq<string>, name: string)
    requires AllTreeShaped(ns) && Rooted(ns) && ReadDir(ns, path).Ok?
    ensures Metadata(ns, path + [name]).Ok? ==> name in ReadDir(ns, path).value
    ensures name in ReadDir(ns, path).value ==>
      Metadata(ns, path + [name]) == Ok(ReadDir(ns, path).value[name]) || Troubled(ns, path + [name])
  {
    ChildNamesAre(ns, path, name);
    if path + [name] in ns.mounts {
      MountedChildShows(ns, path + [name]);
    } else if Above(ns, path + [name]) {
      NoDeepestAtItself(ns, path + [name]);
    } else {
      ChildIsOwnedAlike(ns, path, name);
      OwnerIsTreeShaped(ns, path);
      StoredChild(Owner(ns, path), Relative(ns, path), name);
    }
  }

  /** At a mount point one sees the root of what is mounted there. */
  lemma MountedChildShows(ns: Namespace, child: seq<string>)
    requires child in ns.mounts && Rooted(ns)
    ensures Metadata(ns, child) == Ok(Backed(ns.mounts[child].nodes[[]]))
  {
    assert child[|child|..] == [];
    assert Deepest(ns.mounts.Keys, child) == Some(child);
  }

  /** A stored child is found in its directory's listing, and only if the directory is there. */
  lemma StoredChild(fs: Fs, path: seq<string>, name: string)
    requires TreeShaped(fs)
    ensures path + [name] in fs.nodes ==> fs.IsDirectory(path)
    ensures fs.ReadDir(path).Ok? && fs.Open(path + [name]).Ok? ==> name in fs.ReadDir(path).value
    ensures fs.ReadDir(path).Ok? && name in fs.ReadDir(path).value ==>
      fs.Open(path + [name]) == Ok(fs.ReadDir(path).value[name]) || fs.trouble(path + [name]).Some?
  {
    assert (path + [name])[..|path + [name]| - 1] == path;
  }

  lemma OwnerIsTreeShaped(ns: Namespace, path: seq<string>)
    requires AllTreeShaped(ns)
    ensures TreeShaped(Owner(ns, path))
  {
    DeepestIsUnique(ns.mounts.Keys, path, Deepest(ns.mounts.Keys, path));
  }

  lemma NoDeepestAtItself(ns: Namespace, path: seq<string>)
    requires path !in ns.mounts
    ensures Deepest(ns.mounts.Keys, path) != Some(path)
  {
    DeepestIsUnique(ns.mounts.Keys, path, Deepest(ns.mounts.Keys, path));
  }

  /** Listing through an open handle: a made-up directory holds only mount points. */
  function ListOpened(ns: Namespace, path: seq<string>, handle: Seen): Result<map<string, Seen>, FsError>
    requires Rooted(ns)
  {
    if handle.Synthetic? then Ok(Overlay(ns, path, map[]))
    else match Owner(ns, path).ReadDir(Relative(ns, path))
      case Ok(entries) => Ok(Overlay(ns, path, entries))
      case Err(e) => Err(e)
  }

  /** Opening a directory and listing the handle is listing the path. */
  lemma OpenedListingIsReadDir(ns: Namespace, path: seq<string>)
    requires Rooted(ns)
    ensures ReadDir(ns, path) ==
      match Open(ns, path)
      case Ok(handle) => ListOpened(ns, path, handle)
      case Err(e) => Err(e)
  {
    FallsBackToChildren(ns, path);
  }

  lemma FallsBackToChildren(ns: Namespace, path: seq<string>)
    requires Rooted(ns)
    ensures Owner(ns, path).Open(Relative(ns, path)) == Err(NotFound) ==>
      (FallsBack(ns, path) <==> ChildNames(ns, path) != {})
  {
    DeepestIsUnique(ns.mounts.Keys, path, Deepest(ns.mounts.Keys, path));
    assert path[|path|..] == [];
    ChildNamesWhenAbove(ns, path);
  }

  lemma ChildNamesWhenAbove(ns: Namespace, path: seq<string>)
    ensures ChildNames(ns, path) != {} <==> Above(ns, path)
  {
    if Above(ns, path) {
      var m :| m in ns.mounts && |path| < |m| && IsPrefix(path, m);
      assert m[|path|] in ChildNames(ns, path);
    }
    if name :| name in ChildNames(ns, path) {
      assert exists m :: m in ns.mounts && |path| < |m| && IsPrefix(path, m) && m[|path|] == name;
    }
  }

  // ------------------------------------------------------------------
  // Attaching
  // ------------------------------------------------------------------

  /** `attach`, given the canonical mount point and what `try_is_dir` said about it. */
  function AttachAt(ns: Namespace, c: seq<string>, isDir: Result<bool, FsError>, fs: Fs): Result<Namespace, FsError> {
    if c == [] then Err(InvalidPath)
    else if c in ns.mounts then Err(Occupied)
    else if isDir.Err? then Err(isDir.error)
    else if !isDir.value then Err(NotADirectory)
    else match fs.Open([])
      case Err(e) => Err(e)
      case Ok(seen) => if seen.IsDir() then Ok(ns.(mounts := ns.mounts[c := fs])) else Err(NotADirectory)
  }

  /** The check looks at the canonical path canonicalised once more. */
  function Checked(ns: Namespace, canonical: string): Result<bool, FsError> {
    match CanonicalPath(canonical)
    case None => Err(InvalidPath)
    case Some(again) => TryIsDir(ns, Components(again))
  }

  function Attach(ns: Namespace, path: string, fs: Fs): Result<Namespace, FsError> {
    match CanonicalPath(path)
    case None => Err(InvalidPath)
    case Some(c) => AttachAt(ns, Components(c), Checked(ns, c), fs)
  }

  /** A mount point that is checked where it is attached. */
  predicate Steady(path: string) {
    CanonicalPath(path).Some? ==> !HasDrive(CanonicalPath(path).value)
  }

  function Point(path: string): seq<string>
    requires CanonicalPath(path).Some?
  {
    Components(CanonicalPath(path).value)
  }

  lemma SteadyIsCheckedInPlace(ns: Namespace, path: string)
    requires CanonicalPath(path).Some? && Steady(path)
    ensures Checked(ns, CanonicalPath(path).value) == TryIsDir(ns, Point(path))
  {
    CanonicalPathIsIdempotentIff(path);
  }

  // ------------------------------------------------------------------
  // Coherence
  // ------------------------------------------------------------------

  predicate RealDirectory(ns: Namespace, path: seq<string>) {
    Owner(ns, path).IsDirectory(Relative(ns, path))
  }

  /** Every directory above a mount point exists in the filesystem that owns it. */
  ghost predicate Coherent(ns: Namespace) {
    forall m, k: nat :: m in ns.mounts && k < |m| ==> RealDirectory(ns, m[..k])
  }

  ghost predicate AllTreeShaped(ns: Namespace) {
    TreeShaped(ns.root) && forall m :: m in ns.mounts ==> TreeShaped(ns.mounts[m])
  }

  predicate OpensADirectory(ns: Namespace, path: seq<string>) {
    Open(ns, path).Ok? && Open(ns, path).value.Backed? && Open(ns, path).value.node.Directory?
  }

  /** Coherence is agreement: `open` shows a stored directory exactly where `try_is_dir` says yes. */
  lemma CoherentIffQuestionsAgree(ns: Namespace)
    ensures Coherent(ns) <==> forall path :: TryIsDir(ns, path) == Ok(true) <==> OpensADirectory(ns, path)
  {
    if Coherent(ns) {
      forall path | Above(ns, path)
        ensures RealDirectory(ns, path)
      {
        var m :| m in ns.mounts && |path| < |m| && IsPrefix(path, m);
        assert m[..|path|] == path;
      }
    }
    if forall path :: TryIsDir(ns, path) == Ok(true) <==> OpensADirectory(ns, path) {
      forall m, k: nat | m in ns.mounts && k < |m|
        ensures RealDirectory(ns, m[..k])
      {
        assert IsPrefix(m[..k], m);
        assert Above(ns, m[..k]);
        assert TryIsDir(ns, m[..k]) == Ok(true);
      }
    }
  }

  /** `try_is_dir` answers as `open` does, and fails only where the owner cannot read the path. */
  predicate QuestionsAgree(ns: Namespace, path: seq<string>) {
    TryIsDir(ns, path) ==
      match Open(ns, path)
      case Ok(seen) => Ok(seen.IsDir())
      case Err(e) => if Troubled(ns, path) then Err(e) else Ok(false)
  }

  /** In a coherent namespace nothing is made up, and the three questions agree everywhere. */
  lemma CoherentNeverFallsBack(ns: Namespace, path: seq<string>)
    requires Coherent(ns)
    ensures Open(ns, path) != Ok(Synthetic)
    ensures Open(ns, path).Ok? <==> Metadata(ns, path).Ok?
    ensures Open(ns, path).Ok? ==> Open(ns, path).value.IsDir() == Metadata(ns, path).value.IsDir()
    ensures Open(ns, path).Err? ==> Metadata(ns, path) == Open(ns, path)
    ensures QuestionsAgree(ns, path)
  {
    if Above(ns, path) {
      var m :| m in ns.mounts && |path| < |m| && IsPrefix(path, m);
      assert m[..|path|] == path;
      assert RealDirectory(ns, path);
    }
  }

  /** Attaching at `c` moves exactly the paths at or below `c` that no deeper mount takes. */
  lemma {:induction false} DeepestAfter(keys: set<seq<string>>, c: seq<string>, path: seq<string>)
    ensures Deepest(keys + {c}, path) == if Shadows(keys, c, path) then Some(c) else Deepest(keys, path)
  {
    DeepestIsUnique(keys, path, Deepest(keys, path));
    var r := if Shadows(keys, c, path) then Some(c) else Deepest(keys, path);
    DeepestIsUnique(keys + {c}, path, r);
  }

  predicate Shadows(keys: set<seq<string>>, c: seq<string>, path: seq<string>) {
    IsPrefix(c, path) && (Deepest(keys, path).None? || |Deepest(keys, path).value| <= |c|)
  }

  /** Attaching hands over exactly those paths, each with what is left of it below the mount point. */
  lemma OwnerAfter(ns: Namespace, c: seq<string>, fs: Fs, path: seq<string>)
    ensures
      var after := ns.(mounts := ns.mounts[c := fs]);
      if Shadows(ns.mounts.Keys, c, path) then Owner(after, path) == fs && Relative(after, path) == path[|c|..]
      else Owner(after, path) == Owner(ns, path) && Relative(after, path) == Relative(ns, path)
  {
    var after := ns.(mounts := ns.mounts[c := fs]);
    assert after.mounts.Keys == ns.mounts.Keys + {c};
    DeepestAfter(ns.mounts.Keys, c, path);
    DeepestIsUnique(ns.mounts.Keys, path, Deepest(ns.mounts.Keys, path));
  }

  /** The directories above existing mounts that a filesystem attached at `c` would have to provide. */
  ghost predicate Provides(ns: Namespace, c: seq<string>, fs: Fs) {
    forall m, k: nat :: m in ns.mounts && k < |m| && Shadows(ns.mounts.Keys, c, m[..k]) ==> fs.IsDirectory(m[|c|..k])
  }

  /** An ancestor down to the mount point has the same owner, and there the leading part of the same relative path. */
  lemma OwnerOfAncestor(ns: Namespace, c: seq<string>, k: nat)
    requires k <= |c| && (Deepest(ns.mounts.Keys, c).Some? ==> |Deepest(ns.mounts.Keys, c).value| <= k)
    ensures Owner(ns, c[..k]) == Owner(ns, c)
    ensures |c| - k <= |Relative(ns, c)| && Relative(ns, c[..k]) == Relative(ns, c)[..|Relative(ns, c)| - (|c| - k)]
  {
    OwnerIsInherited(ns.mounts.Keys, c, k);
    match Deepest(ns.mounts.Keys, c)
    case None => SliceOfPrefix(c, k, 0);
    case Some(m) => SliceOfPrefix(c, k, |m|);
  }

  lemma SliceOfPrefix(c: seq<string>, k: nat, m: nat)
    requires m <= k <= |c|
    ensures c[..k][m..] == c[m..][..k - m] && c[0..] == c
  {
  }

  lemma OwnedAncestorIsReal(ns: Namespace, c: seq<string>, k: nat)
    requires AllTreeShaped(ns) && RealDirectory(ns, c) && k <= |c|
    requires Deepest(ns.mounts.Keys, c).Some? ==> |Deepest(ns.mounts.Keys, c).value| <= k
    ensures RealDirectory(ns, c[..k])
  {
    OwnerOfAncestor(ns, c, k);
    OwnerIsTreeShaped(ns, c);
    AncestorsAreDirectories(Owner(ns, c), Relative(ns, c), |Relative(ns, c)| - (|c| - k));
  }

  /** In a coherent namespace, what a path shares with a mount point is real. */
  lemma SharedAncestorIsReal(ns: Namespace, c: seq<string>, m: seq<string>, k: nat)
    requires Coherent(ns) && m in ns.mounts && k < |m| && k <= |c|
    requires IsPrefix(c, m) || IsPrefix(m, c)
    ensures RealDirectory(ns, c[..k])
  {
    assert RealDirectory(ns, m[..k]);
    if IsPrefix(c, m) {
      assert m[..|c|][..k] == m[..k];
    } else {
      assert c[..|m|][..k] == c[..k];
    }
  }

  /** The ancestors of a path that `try_is_dir` accepts are real. */
  lemma CheckedAncestorsAreReal(ns: Namespace, c: seq<string>, k: nat)
    requires Coherent(ns) && AllTreeShaped(ns) && TryIsDir(ns, c) == Ok(true) && k < |c|
    ensures RealDirectory(ns, c[..k])
  {
    var deepest := Deepest(ns.mounts.Keys, c);
    if Above(ns, c) {
      var m :| m in ns.mounts && |c| < |m| && IsPrefix(c, m);
      SharedAncestorIsReal(ns, c, m, k);
    } else if deepest.Some? && k < |deepest.value| {
      DeepestIsUnique(ns.mounts.Keys, c, deepest);
      SharedAncestorIsReal(ns, c, deepest.value, k);
    } else {
      OwnedAncestorIsReal(ns, c, k);
    }
  }

  lemma OwnerIsInherited(keys: set<seq<string>>, c: seq<string>, k: nat)
    requires k <= |c| && (Deepest(keys, c).Some? ==> |Deepest(keys, c).value| <= k)
    ensures Deepest(keys, c[..k]) == Deepest(keys, c)
  {
    var r := Deepest(keys, c);
    DeepestIsUnique(keys, c, r);
    forall m | m in keys && IsPrefix(m, c[..k])
      ensures IsPrefix(m, c)
    {
      assert c[..k][..|m|] == c[..|m|];
    }
    if r.Some? {
      assert c[..k][..|r.value|] == c[..|r.value|];
    }
    DeepestIsUnique(keys, c[..k], r);
  }

  /** Attaching keeps coherence exactly when the new filesystem provides the directories it covers. */
  lemma AttachKeepsCoherenceIff(ns: Namespace, path: string, fs: Fs)
    requires Coherent(ns) && AllTreeShaped(ns) && Steady(path)
    requires Attach(ns, path, fs).Ok?
    ensures Coherent(Attach(ns, path, fs).value) <==> Provides(ns, Point(path), fs)
  {
    SteadyIsGrounded(ns, path, fs);
    PlacedKeepsCoherenceIff(ns, Point(path), fs);
  }

  /** Every directory above `c` exists in the filesystem that owns it. */
  ghost predicate Grounded(ns: Namespace, c: seq<string>) {
    forall k: nat :: k < |c| ==> RealDirectory(ns, c[..k])
  }

  /** What `attach` checks in place stands on real directories. */
  lemma SteadyIsGrounded(ns: Namespace, path: string, fs: Fs)
    requires Coherent(ns) && AllTreeShaped(ns) && Steady(path) && Attach(ns, path, fs).Ok?
    ensures Grounded(ns, Point(path))
  {
    SteadyIsCheckedInPlace(ns, path);
    forall k: nat | k < |Point(path)|
      ensures RealDirectory(ns, Point(path)[..k])
    {
      CheckedAncestorsAreReal(ns, Point(path), k);
    }
  }

  lemma PlacedKeepsCoherenceIff(ns: Namespace, c: seq<string>, fs: Fs)
    requires Coherent(ns) && c !in ns.mounts
    ensures Coherent(ns.(mounts := ns.mounts[c := fs])) <==> Grounded(ns, c) && Provides(ns, c, fs)
  {
    var after := ns.(mounts := ns.mounts[c := fs]);
    forall m, k: nat | m in ns.mounts && k < |m|
      ensures RealDirectory(after, m[..k]) <==> (Shadows(ns.mounts.Keys, c, m[..k]) ==> fs.IsDirectory(m[|c|..k]))
    {
      OldAncestorAfter(ns, c, fs, m, k);
    }
    forall k: nat | k < |c|
      ensures RealDirectory(after, c[..k]) <==> RealDirectory(ns, c[..k])
    {
      NewAncestorAfter(ns, c, fs, k);
    }
    GroundedOrNot(ns, c, fs);
  }

  lemma GroundedOrNot(ns: Namespace, c: seq<string>, fs: Fs)
    requires forall k: nat :: k < |c| ==>
      (RealDirectory(ns.(mounts := ns.mounts[c := fs]), c[..k]) <==> RealDirectory(ns, c[..k]))
    ensures Coherent(ns.(mounts := ns.mounts[c := fs])) ==> Grounded(ns, c)
  {
    var after := ns.(mounts := ns.mounts[c := fs]);
    assert c in after.mounts;
  }

  lemma OldAncestorAfter(ns: Namespace, c: seq<string>, fs: Fs, m: seq<string>, k: nat)
    requires Coherent(ns) && m in ns.mounts && k < |m|
    ensures RealDirectory(ns.(mounts := ns.mounts[c := fs]), m[..k]) <==>
      (Shadows(ns.mounts.Keys, c, m[..k]) ==> fs.IsDirectory(m[|c|..k]))
  {
    OwnerAfter(ns, c, fs, m[..k]);
    if Shadows(ns.mounts.Keys, c, m[..k]) {
      assert m[..k][|c|..] == m[|c|..k];
    }
  }

  lemma NewAncestorAfter(ns: Namespace, c: seq<string>, fs: Fs, k: nat)
    requires k < |c|
    ensures RealDirectory(ns.(mounts := ns.mounts[c := fs]), c[..k]) <==> RealDirectory(ns, c[..k])
  {
    OwnerAfter(ns, c, fs, c[..k]);
  }

  /** A mount point with nothing attached strictly below it is always safe. */
  lemma NothingBelowProvides(ns: Namespace, c: seq<string>, fs: Fs)
    requires !Above(ns, c) && c !in ns.mounts
    ensures Provides(ns, c, fs)
  {
    forall m, k: nat | m in ns.mounts && k < |m|
      ensures IsPrefix(c, m[..k]) ==> |c| < |m| && IsPrefix(c, m)
    {
      assert |c| <= k ==> m[..k][..|c|] == m[..|c|];
    }
  }

  // ------------------------------------------------------------------
  // Runs of attachments
  // ------------------------------------------------------------------

  datatype Request = Request(path: string, fs: Fs)

  /** Attach in turn; a refused request leaves the namespace as it was. */
  function AttachAll(ns: Namespace, requests: seq<Request>): Namespace
    decreases |requests|
  {
    if requests == [] then ns
    else match Attach(ns, requests[0].path, requests[0].fs)
      case Ok(after) => AttachAll(after, requests[1..])
      case Err(_) => AttachAll(ns, requests[1..])
  }

  function AttachOne(ns: Namespace, request: Request): Namespace {
    match Attach(ns, request.path, request.fs)
    case Ok(after) => after
    case Err(_) => ns
  }

  /** Coherent now and after each of the requests. */
  ghost predicate CoherentThroughout(ns: Namespace, requests: seq<Request>)
    decreases |requests|
  {
    Coherent(ns) && (requests != [] ==> CoherentThroughout(AttachOne(ns, requests[0]), requests[1..]))
  }

  /** Every accepted attachment stands on real directories and provides those it covers. */
  ghost predicate EachFits(ns: Namespace, requests: seq<Request>)
    decreases |requests|
  {
    requests != [] ==>
      && (Attach(ns, requests[0].path, requests[0].fs).Ok? ==>
            Grounded(ns, Point(requests[0].path)) && Provides(ns, Point(requests[0].path), requests[0].fs))
      && EachFits(AttachOne(ns, requests[0]), requests[1..])
  }

  /** Any run of attachments stays coherent all along iff each one it accepts fits where it is put. */
  lemma {:induction false} CoherentThroughoutIff(ns: Namespace, requests: seq<Request>)
    requires Coherent(ns)
    ensures CoherentThroughout(ns, requests) <==> EachFits(ns, requests)
    decreases |requests|
  {
    if requests != [] {
      var request, after := requests[0], AttachOne(ns, requests[0]);
      if Attach(ns, request.path, request.fs).Ok? {
        PlacedKeepsCoherenceIff(ns, Point(request.path), request.fs);
      }
      if Coherent(after) {
        CoherentThroughoutIff(after, requests[1..]);
      }
    }
  }

  /** Throughout is after every prefix, and so at the end. */
  lemma {:induction false} ThroughoutIsEveryPrefix(ns: Namespace, requests: seq<Request>)
    ensures CoherentThroughout(ns, requests) <==>
      forall k: nat :: k <= |requests| ==> Coherent(AttachAll(ns, requests[..k]))
    decreases |requests|
  {
    assert requests[..0] == [];
    if requests != [] {
      var after, rest := AttachOne(ns, requests[0]), requests[1..];
      ThroughoutIsEveryPrefix(after, rest);
      forall k: nat | k <= |rest|
        ensures AttachAll(ns, requests[..k + 1]) == AttachAll(after, rest[..k])
      {
        assert requests[..k + 1][1..] == rest[..k];
      }
      if forall k: nat :: k <= |requests| ==> Coherent(AttachAll(ns, requests[..k])) {
        forall k: nat | k <= |rest|
          ensures Coherent(AttachAll(after, rest[..k]))
        {
          assert Coherent(AttachAll(ns, requests[..k + 1]));
        }
      }
      if CoherentThroughout(ns, requests) {
        forall k: nat | k <= |requests|
          ensures Coherent(AttachAll(ns, requests[..k]))
        {
          if k > 0 {
            assert Coherent(AttachAll(after, rest[..k - 1]));
          }
        }
      }
    }
  }

  function Depth(path: string): nat {
    if CanonicalPath(path).Some? then |Point(path)| else 0
  }

  ghost predicate ShallowFirst(requests: seq<Request>) {
    forall i, j :: 0 <= i < j < |requests|
                   && CanonicalPath(requests[i].path).Some? && CanonicalPath(requests[j].path).Some? ==>
      Depth(requests[i].path) <= Depth(requests[j].path)
  }

  ghost predicate AllSteady(requests: seq<Request>) {
    forall i :: 0 <= i < |requests| ==> Steady(requests[i].path) && TreeShaped(requests[i].fs)
  }

  ghost predicate NoDeeperThan(ns: Namespace, requests: seq<Request>) {
    forall m, i :: m in ns.mounts && 0 <= i < |requests| && CanonicalPath(requests[i].path).Some? ==>
      |m| <= Depth(requests[i].path)
  }

  lemma AttachKeepsShape(ns: Namespace, path: string, fs: Fs)
    requires AllTreeShaped(ns) && TreeShaped(fs) && Attach(ns, path, fs).Ok?
    ensures AllTreeShaped(Attach(ns, path, fs).value)
  {
  }

  lemma StepKeepsCoherence(ns: Namespace, path: string, fs: Fs)
    requires Coherent(ns) && AllTreeShaped(ns) && Steady(path) && TreeShaped(fs)
    requires CanonicalPath(path).Some? ==> forall m :: m in ns.mounts ==> |m| <= Depth(path)
    ensures Attach(ns, path, fs).Ok? ==>
      Coherent(Attach(ns, path, fs).value) && AllTreeShaped(Attach(ns, path, fs).value)
  {
    if Attach(ns, path, fs).Ok? {
      NothingBelowProvides(ns, Point(path), fs);
      AttachKeepsCoherenceIff(ns, path, fs);
      AttachKeepsShape(ns, path, fs);
    }
  }

  lemma RestIsShallowFirst(requests: seq<Request>)
    requires |requests| > 0 && AllSteady(requests) && ShallowFirst(requests)
    ensures AllSteady(requests[1..]) && ShallowFirst(requests[1..])
  {
    var rest := requests[1..];
    assert forall i :: 0 <= i < |rest| ==> rest[i] == requests[i + 1];
  }

  lemma RestIsNoShallower(ns: Namespace, requests: seq<Request>)
    requires |requests| > 0 && ShallowFirst(requests) && NoDeeperThan(ns, requests)
    requires Attach(ns, requests[0].path, requests[0].fs).Ok?
    ensures NoDeeperThan(Attach(ns, requests[0].path, requests[0].fs).value, requests[1..])
  {
    var rest := requests[1..];
    var after := Attach(ns, requests[0].path, requests[0].fs).value;
    assert after.mounts.Keys == ns.mounts.Keys + {Point(requests[0].path)};
    forall m, i | m in after.mounts && 0 <= i < |rest| && CanonicalPath(rest[i].path).Some?
      ensures |m| <= Depth(rest[i].path)
    {
      assert rest[i] == requests[i + 1];
    }
  }

  /** Attaching shallow mount points first builds a coherent namespace, whatever is refused on the way. */
  lemma {:induction false} ShallowFirstIsCoherent(ns: Namespace, requests: seq<Request>)
    requires Coherent(ns) && AllTreeShaped(ns)
    requires AllSteady(requests) && ShallowFirst(requests) && NoDeeperThan(ns, requests)
    ensures Coherent(AttachAll(ns, requests)) && AllTreeShaped(AttachAll(ns, requests))
    decreases |requests|
  {
    if requests != [] {
      var first, rest := requests[0], requests[1..];
      StepKeepsCoherence(ns, first.path, first.fs);
      RestIsShallowFirst(requests);
      if Attach(ns, first.path, first.fs).Ok? {
        RestIsNoShallower(ns, requests);
        ShallowFirstIsCoherent(Attach(ns, first.path, first.fs).value, rest);
      } else {
        ShallowFirstIsCoherent(ns, rest);
      }
    }
  }

  /** Starting from a bare root there is nothing to be deeper than. */
  lemma ComposedNamespaceIsCoherent(root: Fs, requests: seq<Request>, path: seq<string>)
    requires TreeShaped(root) && AllSteady(requests) && ShallowFirst(requests)
    ensures
      var ns := AttachAll(Namespace(root, map[]), requests);
      Coherent(ns) && Open(ns, path) != Ok(Synthetic) && QuestionsAgree(ns, path)
  {
    ShallowFirstIsCoherent(Namespace(root, map[]), requests);
    CoherentNeverFallsBack(AttachAll(Namespace(root, map[]), requests), path);
  }
}

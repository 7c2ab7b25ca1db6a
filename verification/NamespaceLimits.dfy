/** Where attaching and composing fall short: mount points that are not what they look like. */
module NamespaceLimits {
  import opened Machine
  import opened Paths
  import opened M = MountTree
  import opened Fstab
  import opened StableSort

  function Missing(path: seq<string>): FsError {
    NotFound
  }

  function Untroubled(path: seq<string>): Option<FsError> {
    None
  }

  /** A filesystem holding nothing but its root directory. */
  function Bare(): Fs {
    Fs(map[[] := Directory(0)], Missing, Untroubled)
  }

  predicate Piece(c: string) {
    c != [] && Plain(c) && NoBackslash(c)
  }

  predicate AllPieces(cs: seq<string>) {
    forall c :: c in cs ==> Piece(c)
  }

  // ------------------------------------------------------------------
  // Paths written out from their pieces
  // ------------------------------------------------------------------

  lemma WrittenNormalizes(cs: seq<string>)
    requires cs != [] && AllPieces(cs) && !HasDrive(Join(cs))
    ensures Normalize(Join(cs)) == Join(cs) && Normalize(['/'] + Join(cs)) == Join(cs)
  {
    var path := Join(cs);
    assert cs[0] in cs;
    assert Piece(cs[0]);
    assert path[0] == cs[0][0];
    assert cs[0][0] in cs[0];
    JoinHasNoBackslash(cs);
    ForwardSlashesKeeps(path);
    assert (['/'] + path)[1..] == path;
  }

  /** A path written from pieces canonicalises to what resolving the pieces gives. */
  lemma WrittenResolves(cs: seq<string>, names: seq<string>)
    requires cs != [] && AllPieces(cs) && !HasDrive(Join(cs))
    requires Resolve(cs, []) == Some(names) && AllNames(names)
    ensures CanonicalPath(Join(cs)) == CanonicalPath(['/'] + Join(cs)) == Some(Join(names))
    ensures Components(Join(names)) == names
  {
    WrittenNormalizes(cs);
    SplitJoin(cs);
    FastPathIsSlowPath(Join(cs));
    FastPathIsSlowPath(['/'] + Join(cs));
    ComponentsOfJoin(names);
  }

  lemma {:induction false} CountPieces(cs: seq<string>)
    requires AllPieces(cs)
    ensures CountNames(cs) == |cs|
  {
    if cs != [] {
      assert cs[0] in cs;
      assert forall c :: c in cs[1..] ==> c in cs;
      CountPieces(cs[1..]);
    }
  }

  /** A path written from pieces looks as deep as it has pieces. */
  lemma WrittenLooksDeep(cs: seq<string>)
    requires cs != [] && AllPieces(cs)
    ensures RawDepth(['/'] + Join(cs)) == |cs|
  {
    SplitAtSeparator([], Join(cs));
    assert [] + ['/'] + Join(cs) == ['/'] + Join(cs);
    SplitJoin(cs);
    CountPieces(cs);
    assert ([[]] + cs)[1..] == cs;
  }

  // ------------------------------------------------------------------
  // Dots
  // ------------------------------------------------------------------

  predicate Nameable(c: string) {
    Name(c) && NoBackslash(c)
  }

  lemma DeepPoint(a: string, b: string, c: string)
    requires Nameable(a) && Nameable(b) && Nameable(c) && !HasDrive(Join([a, b, c]))
    ensures
      var path := ['/'] + Join([a, b, c]);
      CanonicalPath(path) == Some(Join([a, b, c])) && Point(path) == [a, b, c] && Steady(path) && RawDepth(path) == 3
  {
    var cs := [a, b, c];
    ResolveOrdinary(cs, []);
    assert [] + cs == cs;
    WrittenResolves(cs, cs);
    WrittenLooksDeep(cs);
  }

  lemma DottedPoint(a: string)
    requires Nameable(a) && !HasDrive(a)
    ensures
      var path := ['/'] + Join([".", ".", a]);
      CanonicalPath(path) == Some(a) && Point(path) == [a] && Steady(path) && RawDepth(path) == 3
  {
    var cs := [".", ".", a];
    ResolveOrdinary([a], []);
    assert [] + [a] == [a];
    assert cs[1..] == [".", a] && cs[1..][1..] == [a];
    assert Resolve(cs[1..], []) == Some([a]);
    assert Join(cs) == "." + ['/'] + Join(cs[1..]);
    WrittenResolves(cs, [a]);
    WrittenLooksDeep(cs);
  }

  function ThreeDeep(a: string, b: string, c: string): Fs {
    Fs(map[[] := Directory(0), [a] := Directory(1), [a, b] := Directory(2), [a, b, c] := Directory(3)],
       Missing, Untroubled)
  }

  lemma TreesAreTrees(a: string, b: string, c: string)
    ensures TreeShaped(ThreeDeep(a, b, c)) && TreeShaped(Bare())
  {
    assert [a][..0] == [] && [a, b][..1] == [a] && [a, b, c][..2] == [a, b];
  }

  function With(a: string, b: string, c: string, points: seq<seq<string>>): Namespace {
    Namespace(ThreeDeep(a, b, c), map p | p in points :: Bare())
  }

  lemma DeepAttaches(bare: Namespace, deep: string, a: string, b: string, c: string)
    requires bare == Namespace(ThreeDeep(a, b, c), map[])
    requires CanonicalPath(deep).Some? && Steady(deep) && Point(deep) == [a, b, c]
    ensures Attach(bare, deep, Bare()) == Ok(With(a, b, c, [[a, b, c]]))
  {
    SteadyIsCheckedInPlace(bare, deep);
    DeepestIsUnique(bare.mounts.Keys, [a, b, c], None);
    assert RealDirectory(bare, [a, b, c]);
    assert bare.mounts[[a, b, c] := Bare()] == With(a, b, c, [[a, b, c]]).mounts;
  }

  lemma ShallowAttaches(deep: string, shallow: string, a: string, b: string, c: string)
    requires CanonicalPath(shallow).Some? && Steady(shallow) && Point(shallow) == [a]
    ensures Attach(With(a, b, c, [[a, b, c]]), shallow, Bare()) == Ok(With(a, b, c, [[a, b, c], [a]]))
  {
    var ns := With(a, b, c, [[a, b, c]]);
    SteadyIsCheckedInPlace(ns, shallow);
    assert [a, b, c][..1] == [a];
    assert [a, b, c] in ns.mounts;
    assert Above(ns, [a]);
    assert |[a]| != |[a, b, c]|;
    assert ns.mounts[[a] := Bare()] == With(a, b, c, [[a, b, c], [a]]).mounts;
  }

  lemma MiddleIsLost(a: string, b: string, c: string)
    ensures
      var both := With(a, b, c, [[a, b, c], [a]]);
      !Coherent(both) && Open(both, [a, b]) == Ok(Synthetic)
  {
    var both := With(a, b, c, [[a, b, c], [a]]);
    var keys, q, m := both.mounts.Keys, [a, b], [a, b, c];
    assert q[..1] == [a] && q[1..] == [b] && m[..2] == q;
    assert |[a]| == 1 && |q| == 2 && |m| == 3;
    assert [a] in keys && m in keys;
    assert Deepest(keys, q) == Some([a]);
    assert Above(both, q);
    assert !RealDirectory(both, m[..2]);
  }

  // ------------------------------------------------------------------
  // A two-line fstab
  // ------------------------------------------------------------------

  /** An fstab line that mounts the one other volume of the machine. */
  function Line(path: string): Entry {
    Entry(Uuid("1"), path, "ext4", false, false, Some(DefaultRoot))
  }

  function OpenBare(a: nat, root: RootSelector): Option<Volume> {
    Some(Volume(Bare(), Some("1")))
  }

  /** A root at 0, and one other volume, at 1, that carries the wanted UUID and nothing else. */
  function OneSibling(): Siblings<nat> {
    Siblings(0, Some([1]), OpenBare)
  }

  const RESOLVED: map<string, nat> := map["1" := 1]

  lemma LineOpens(path: string)
    ensures !Skipped(Line(path)) && OpenEntry(OneSibling(), RESOLVED, Line(path)) == Some(Volume(Bare(), Some("1")))
  {
    assert NormalizeUuid("1") == "1";
  }

  /** What the search finds on this machine for two such lines, whatever UUID its root has but that one. */
  lemma LinesResolve(deep: string, shallow: string)
    ensures Requested([Line(deep), Line(shallow)]) == {"1"}
    ensures Answers(SearchOf(OneSibling(), None), Listed(OneSibling()), {"1"}, RESOLVED)
  {
    assert NormalizeUuid("1") == "1";
    assert FoundAt(OneSibling(), 1) == Some("1");
  }

  lemma {:induction false} SortTwo(a: Entry, b: Entry)
    requires EntryDepth(a) <= EntryDepth(b)
    ensures SortBy([a, b], EntryDepth) == [a, b]
  {
    assert [a, b][..1] == [a] && [a][..0] == [];
    assert SortBy([a], EntryDepth) == [a];
  }

  lemma LinesInOrder(deep: string, shallow: string)
    requires RawDepth(deep) == RawDepth(shallow) && deep != "/" && shallow != "/"
    ensures MountEntries([Line(deep), Line(shallow)]) == [Line(deep), Line(shallow)]
  {
    var fstab := [Line(deep), Line(shallow)];
    assert fstab[1..] == [Line(shallow)] && [Line(shallow)][1..] == [];
    assert DropRoot([Line(shallow)]) == [Line(shallow)];
    assert DropRoot(fstab) == fstab;
    SortTwo(Line(deep), Line(shallow));
  }

  /** Composed in file order, `a/b/c` loses the directory it stands on to a bare filesystem at `a`. */
  lemma LinesCompose(deep: string, shallow: string, a: string, b: string, c: string)
    requires CanonicalPath(deep).Some? && Steady(deep) && Point(deep) == [a, b, c]
    requires CanonicalPath(shallow).Some? && Steady(shallow) && Point(shallow) == [a]
    ensures ComposeFrom(Namespace(ThreeDeep(a, b, c), map[]), OneSibling(), RESOLVED, [Line(deep), Line(shallow)])
         == Some(With(a, b, c, [[a, b, c], [a]]))
  {
    var bare, entries := Namespace(ThreeDeep(a, b, c), map[]), [Line(deep), Line(shallow)];
    LineOpens(deep);
    LineOpens(shallow);
    DeepAttaches(bare, deep, a, b, c);
    ShallowAttaches(deep, shallow, a, b, c);
    assert entries[1..] == [Line(shallow)] && [Line(shallow)][1..] == [];
    assert AttachEntry(bare, OneSibling(), RESOLVED, entries[0]) == Some(With(a, b, c, [[a, b, c]]));
    assert ComposeFrom(With(a, b, c, [[a, b, c]]), OneSibling(), RESOLVED, [Line(shallow)])
        == Some(With(a, b, c, [[a, b, c], [a]]));
  }

  /** On a root that holds `a/b/c`, the fstab composes into a namespace with a directory that nothing holds. */
  ghost predicate ComposesIncoherently(fstab: seq<Entry>, a: string, b: string, c: string) {
    var composed := ComposeFrom(Namespace(ThreeDeep(a, b, c), map[]), OneSibling(), RESOLVED, MountEntries(fstab));
    && Answers(SearchOf(OneSibling(), None), Listed(OneSibling()), Requested(MountEntries(fstab)), RESOLVED)
    && composed.Some? && !Coherent(composed.value) && Open(composed.value, [a, b]) == Ok(Synthetic)
  }

  lemma LinesBreakCoherence(deep: string, shallow: string, a: string, b: string, c: string)
    requires CanonicalPath(deep).Some? && Steady(deep) && Point(deep) == [a, b, c]
    requires CanonicalPath(shallow).Some? && Steady(shallow) && Point(shallow) == [a]
    requires RawDepth(deep) == RawDepth(shallow) && deep != "/" && shallow != "/"
    ensures ComposesIncoherently([Line(deep), Line(shallow)], a, b, c)
  {
    LinesInOrder(deep, shallow);
    LinesResolve(deep, shallow);
    LinesCompose(deep, shallow, a, b, c);
    MiddleIsLost(a, b, c);
  }

  lemma RootLooksShallow()
    ensures RawDepth("/") == 0
  {
    assert "/"[1..] == [];
    assert Split([]) == [[]];
    assert Split("/") == [[], []];
    assert Split("/")[1..] == [[]];
  }

  /**
   A two-line fstab whose mount points look equally deep is composed in file order, and the namespace has a directory
   that nothing holds.
   */
  lemma DotsBreakCoherence(a: string, b: string, c: string)
    requires Nameable(a) && Nameable(b) && Nameable(c) && !HasDrive(a) && !HasDrive(Join([a, b, c]))
    ensures TreeShaped(ThreeDeep(a, b, c)) && TreeShaped(Bare())
    ensures ComposesIncoherently([Line(['/'] + Join([a, b, c])), Line(['/'] + Join([".", ".", a]))], a, b, c)
  {
    DeepPoint(a, b, c);
    DottedPoint(a);
    TreesAreTrees(a, b, c);
    RootLooksShallow();
    LinesBreakCoherence(['/'] + Join([a, b, c]), ['/'] + Join([".", ".", a]), a, b, c);
  }

  // ------------------------------------------------------------------
  // Drive letters
  // ------------------------------------------------------------------

  lemma DrivePoint(e: string)
    requires Nameable(e)
    ensures CanonicalPath(Join([".", "C:", e])) == Some(Join(["C:", e])) && Components(Join(["C:", e])) == ["C:", e]
    ensures HasDrive(Join(["C:", e])) && CanonicalPath(Join(["C:", e])) == Some(e) && Components(e) == [e]
  {
    var cs, ds := [".", "C:", e], ["C:", e];
    assert cs[1..] == ds && ds[1..] == [e];
    ResolveOrdinary(ds, []);
    assert [] + ds == ds;
    assert Resolve(cs, []) == Resolve(ds, []);
    assert Join(cs) == "." + ['/'] + Join(ds);
    WrittenResolves(cs, ds);
    assert Join(ds) == "C:" + ['/'] + e;
    assert Join(ds)[2..] == ['/'] + e;
    DriveIsDropped(Join(ds), e);
  }

  lemma DriveIsDropped(path: string, e: string)
    requires Nameable(e) && HasDrive(path) && path[2..] == ['/'] + e
    ensures CanonicalPath(path) == Some(e) && Components(e) == [e]
  {
    assert (['/'] + e)[1..] == e;
    assert e[0] in e;
    assert TrimStart(['/'] + e) == TrimStart(e) == e;
    ForwardSlashesKeeps(e);
    assert Normalize(path) == e;
    SplitPiece(e);
    assert Ordinary([e]);
  }

  function OneDirectory(e: string): Fs {
    Fs(map[[] := Directory(0), [e] := Directory(1)], Missing, Untroubled)
  }

  /** A component that looks like a drive letter is attached in one place and checked in another. */
  lemma DriveLetterEscapesTheCheck(e: string)
    requires Nameable(e) && e != "C:"
    ensures TreeShaped(OneDirectory(e)) && TreeShaped(Bare())
    ensures
      var ns, path := Namespace(OneDirectory(e), map[]), Join([".", "C:", e]);
      && CanonicalPath(path).Some? && !Steady(path)
      && TryIsDir(ns, Point(path)) == Ok(false)
      && Attach(ns, path, Bare()).Ok?
      && !Coherent(Attach(ns, path, Bare()).value)
  {
    OneDirectoryIsATree(e);
    DrivePoint(e);
    CheckedElsewhere(Join([".", "C:", e]), "C:", e);
  }

  lemma OneDirectoryIsATree(e: string)
    ensures TreeShaped(OneDirectory(e)) && TreeShaped(Bare())
  {
    assert [e][..0] == [];
  }

  lemma CheckedElsewhere(path: string, d: string, e: string)
    requires CanonicalPath(path).Some? && Point(path) == [d, e] && d != e
    requires CanonicalPath(CanonicalPath(path).value) == Some(e) && Components(e) == [e]
    ensures
      var ns := Namespace(OneDirectory(e), map[]);
      && TryIsDir(ns, [d, e]) == Ok(false)
      && Attach(ns, path, Bare()).Ok?
      && !Coherent(Attach(ns, path, Bare()).value)
  {
    var ns, c := Namespace(OneDirectory(e), map[]), [d, e];
    DeepestIsUnique(ns.mounts.Keys, c, None);
    DeepestIsUnique(ns.mounts.Keys, [e], None);
    assert [e] in OneDirectory(e).nodes && RealDirectory(ns, [e]);
    assert c != [e] && c != [];
    var after := Attach(ns, path, Bare()).value;
    assert after.mounts.Keys == {c};
    DeepestIsUnique(after.mounts.Keys, [d], None);
    assert c[..1] == [d];
    assert [d][0] != [e][0];
    assert !RealDirectory(after, c[..1]);
  }
}

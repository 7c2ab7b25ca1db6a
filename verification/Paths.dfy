/** Path strings and the component lists they stand for. */
module Paths {
  import opened Machine

  // ------------------------------------------------------------------
  // Splitting and joining
  // ------------------------------------------------------------------

  /** `split('/')`: never empty, and a string without a separator is one piece. */
  function Split(s: string): (r: seq<string>)
    ensures |r| >= 1
  {
    if s == [] then [[]]
    else
      var rest := Split(s[1..]);
      if s[0] == '/' then [[]] + rest else [[s[0]] + rest[0]] + rest[1..]
  }

  function Join(cs: seq<string>): string {
    if cs == [] then []
    else if |cs| == 1 then cs[0]
    else cs[0] + ['/'] + Join(cs[1..])
  }

  predicate Plain(c: string) {
    '/' !in c
  }

  predicate AllPlain(cs: seq<string>) {
    forall c :: c in cs ==> Plain(c)
  }

  lemma {:induction false} SplitIsPlain(s: string)
    ensures AllPlain(Split(s))
  {
    if s != [] {
      SplitIsPlain(s[1..]);
      var rest := Split(s[1..]);
      assert rest[0] in rest;
      assert forall c :: c in rest[1..] ==> c in rest;
      assert forall c :: c in Split(s) ==> c == Split(s)[0] || c in rest;
    }
  }

  lemma {:induction false} SplitPiece(c: string)
    requires Plain(c)
    ensures Split(c) == [c]
  {
    if c != [] {
      assert c[0] in c;
      assert forall x :: x in c[1..] ==> x in c;
      SplitPiece(c[1..]);
      assert [c[0]] + c[1..] == c;
    }
  }

  lemma {:induction false} SplitAtSeparator(a: string, b: string)
    ensures Split(a + ['/'] + b) == Split(a) + Split(b)
  {
    var s := a + ['/'] + b;
    if a == [] {
      assert s[1..] == b;
    } else {
      assert s[1..] == a[1..] + ['/'] + b;
      SplitAtSeparator(a[1..], b);
    }
  }

  lemma {:induction false} SplitJoin(cs: seq<string>)
    requires |cs| >= 1 && AllPlain(cs)
    ensures Split(Join(cs)) == cs
  {
    if |cs| == 1 {
      SplitPiece(cs[0]);
    } else {
      SplitPiece(cs[0]);
      SplitJoin(cs[1..]);
      SplitAtSeparator(cs[0], Join(cs[1..]));
    }
  }

  lemma {:induction false} JoinSplit(s: string)
    ensures Join(Split(s)) == s
  {
    if s != [] {
      JoinSplit(s[1..]);
      var rest := Split(s[1..]);
      if s[0] != '/' && |rest| > 1 {
        assert Split(s)[1..] == rest[1..];
      }
    }
  }

  lemma {:induction false} JoinAppend(a: seq<string>, b: seq<string>)
    requires |a| >= 1 && |b| >= 1
    ensures Join(a + b) == Join(a) + ['/'] + Join(b)
  {
    if |a| == 1 {
      assert (a + b)[1..] == b;
    } else {
      assert (a + b)[1..] == a[1..] + b;
      JoinAppend(a[1..], b);
    }
  }

  // ------------------------------------------------------------------
  // Canonical paths
  // ------------------------------------------------------------------

  /** A component that names something. */
  predicate Name(c: string) {
    c != [] && Plain(c) && c != "." && c != ".."
  }

  predicate AllNames(cs: seq<string>) {
    forall c :: c in cs ==> Name(c)
  }

  /** The components of a canonical path; the root is the empty list. */
  function Components(path: string): seq<string> {
    if path == [] then [] else Split(path)
  }

  predicate Canonical(path: string) {
    AllNames(Components(path))
  }

  /** Canonical paths and lists of names are the same thing. */
  lemma ComponentsOfJoin(cs: seq<string>)
    requires AllNames(cs)
    ensures Components(Join(cs)) == cs && Canonical(Join(cs))
  {
    if cs != [] {
      SplitJoin(cs);
      JoinIsNotEmpty(cs);
    }
  }

  lemma JoinIsNotEmpty(cs: seq<string>)
    requires cs != [] && AllNames(cs)
    ensures Join(cs) != []
  {
    assert cs[0] in cs;
  }

  lemma JoinOfComponents(path: string)
    ensures Join(Components(path)) == path
  {
    JoinSplit(path);
  }

  // ------------------------------------------------------------------
  // Normalising
  // ------------------------------------------------------------------

  predicate IsLetter(c: char) {
    'a' <= c <= 'z' || 'A' <= c <= 'Z'
  }

  predicate HasDrive(path: string) {
    |path| >= 2 && IsLetter(path[0]) && path[1] == ':'
  }

  function TrimStart(path: string): (r: string)
    ensures r == [] || (r[0] != '/' && r[0] != '\\')
    ensures |r| <= |path|
  {
    if path != [] && (path[0] == '/' || path[0] == '\\') then TrimStart(path[1..]) else path
  }

  function ForwardSlashes(path: string): (r: string)
    ensures |r| == |path|
    ensures forall i :: 0 <= i < |path| ==> r[i] == if path[i] == '\\' then '/' else path[i]
  {
    if path == [] then [] else [if path[0] == '\\' then '/' else path[0]] + ForwardSlashes(path[1..])
  }

  /** `normalize_path`: drop a drive letter and leading separators, and turn backslashes round. */
  function Normalize(path: string): string {
    ForwardSlashes(TrimStart(if HasDrive(path) then path[2..] else path))
  }

  predicate Ordinary(cs: seq<string>) {
    forall c :: c in cs ==> c != [] && c != "." && c != ".."
  }

  /** Resolve components against a stack: empty and `.` vanish, `..` pops, and popping the root is an error. */
  function Resolve(cs: seq<string>, stack: seq<string>): Option<seq<string>>
    decreases |cs|
  {
    if cs == [] then Some(stack)
    else if cs[0] == [] || cs[0] == "." then Resolve(cs[1..], stack)
    else if cs[0] == ".." then
      if stack == [] then None else Resolve(cs[1..], stack[..|stack| - 1])
    else Resolve(cs[1..], stack + [cs[0]])
  }

  function CanonicalPath(path: string): Option<string> {
    var normalized := Normalize(path);
    if normalized == [] then Some([])
    else if Ordinary(Split(normalized)) then Some(normalized)
    else match Resolve(Split(normalized), [])
      case None => None
      case Some(cs) => Some(Join(cs))
  }

  method Canonicalize(path: string) returns (r: Option<string>)
    ensures r == CanonicalPath(path)
  {
    var normalized := Normalize(path);
    if normalized == [] {
      return Some([]);
    }
    var cs := Split(normalized);
    if Ordinary(cs) {
      return Some(normalized);
    }
    var components := [];
    for i := 0 to |cs|
      invariant Resolve(cs[i..], components) == Resolve(cs, [])
    {
      assert cs[i..][1..] == cs[i + 1..];
      if cs[i] == [] || cs[i] == "." {
      } else if cs[i] == ".." {
        if components == [] {
          return None;
        }
        components := components[..|components| - 1];
      } else {
        components := components + [cs[i]];
      }
    }
    r := Some(Join(components));
  }

  lemma {:induction false} ResolveOrdinary(cs: seq<string>, stack: seq<string>)
    requires Ordinary(cs)
    ensures Resolve(cs, stack) == Some(stack + cs)
    decreases |cs|
  {
    if cs != [] {
      assert cs[0] in cs;
      assert forall c :: c in cs[1..] ==> c in cs;
      ResolveOrdinary(cs[1..], stack + [cs[0]]);
      assert stack + [cs[0]] + cs[1..] == stack + cs;
    } else {
      assert stack + cs == stack;
    }
  }

  /** The fast path is the slow path: the result is always what resolving the components gives. */
  lemma FastPathIsSlowPath(path: string)
    ensures CanonicalPath(path) ==
      match Resolve(Split(Normalize(path)), []) case None => None case Some(cs) => Some(Join(cs))
  {
    var normalized := Normalize(path);
    if normalized == [] {
      assert Split(normalized) == [[]];
      assert Split(normalized)[1..] == [];
    } else if Ordinary(Split(normalized)) {
      ResolveOrdinary(Split(normalized), []);
      assert [] + Split(normalized) == Split(normalized);
      JoinSplit(normalized);
    }
  }

  predicate NoBackslash(s: string) {
    '\\' !in s
  }

  lemma {:induction false} ResolveKeepsNames(cs: seq<string>, stack: seq<string>)
    requires AllPlain(cs) && AllNames(stack)
    requires forall c :: c in cs || c in stack ==> NoBackslash(c)
    ensures Resolve(cs, stack).Some? ==> AllNames(Resolve(cs, stack).value)
    ensures Resolve(cs, stack).Some? ==> forall c :: c in Resolve(cs, stack).value ==> NoBackslash(c)
    decreases |cs|
  {
    if cs != [] {
      assert cs[0] in cs;
      assert forall c :: c in cs[1..] ==> c in cs;
      if cs[0] == [] || cs[0] == "." {
        ResolveKeepsNames(cs[1..], stack);
      } else if cs[0] == ".." {
        if stack != [] {
          assert forall c :: c in stack[..|stack| - 1] ==> c in stack;
          ResolveKeepsNames(cs[1..], stack[..|stack| - 1]);
        }
      } else {
        ResolveKeepsNames(cs[1..], stack + [cs[0]]);
      }
    }
  }

  lemma {:induction false} SplitHasNoBackslash(s: string)
    requires NoBackslash(s)
    ensures forall c :: c in Split(s) ==> NoBackslash(c)
  {
    if s != [] {
      assert s[0] in s;
      assert forall x :: x in s[1..] ==> x in s;
      SplitHasNoBackslash(s[1..]);
      var rest := Split(s[1..]);
      assert rest[0] in rest;
      assert forall c :: c in rest[1..] ==> c in rest;
      assert forall c :: c in Split(s) ==> c == Split(s)[0] || c in rest;
    }
  }

  lemma {:induction false} JoinHasNoBackslash(cs: seq<string>)
    requires forall c :: c in cs ==> NoBackslash(c)
    ensures NoBackslash(Join(cs))
  {
    if |cs| >= 1 {
      assert cs[0] in cs;
      if |cs| > 1 {
        assert forall c :: c in cs[1..] ==> c in cs;
        JoinHasNoBackslash(cs[1..]);
      }
    }
  }

  /** Whatever `canonical_path` returns is canonical, with forward slashes only. */
  lemma CanonicalPathIsCanonical(path: string)
    requires CanonicalPath(path).Some?
    ensures Canonical(CanonicalPath(path).value) && NoBackslash(CanonicalPath(path).value)
    ensures Resolve(Split(Normalize(path)), []) == Some(Components(CanonicalPath(path).value))
  {
    FastPathIsSlowPath(path);
    var cs := Split(Normalize(path));
    SplitIsPlain(Normalize(path));
    SplitHasNoBackslash(Normalize(path));
    ResolveKeepsNames(cs, []);
    var resolved := Resolve(cs, []).value;
    ComponentsOfJoin(resolved);
    JoinHasNoBackslash(resolved);
  }

  lemma {:induction false} ForwardSlashesKeeps(s: string)
    requires NoBackslash(s)
    ensures ForwardSlashes(s) == s
  {
    if s != [] {
      assert s[0] in s;
      assert forall x :: x in s[1..] ==> x in s;
      ForwardSlashesKeeps(s[1..]);
    }
  }

  /** A canonical path without a drive letter is its own normal form. */
  lemma CanonicalIsFixed(path: string)
    requires Canonical(path) && NoBackslash(path) && !HasDrive(path)
    ensures CanonicalPath(path) == Some(path)
  {
    if path != [] {
      assert Split(path)[0] in Split(path);
      assert path[0] != '/';
      assert path[0] in path;
      ForwardSlashesKeeps(path);
    }
  }

  /** Canonicalising twice is canonicalising once iff the result does not begin with a letter and a colon. */
  lemma CanonicalPathIsIdempotentIff(path: string)
    requires CanonicalPath(path).Some?
    ensures
      var once := CanonicalPath(path).value;
      CanonicalPath(once) == Some(once) <==> !HasDrive(once)
  {
    var once := CanonicalPath(path).value;
    CanonicalPathIsCanonical(path);
    if HasDrive(once) {
      NormalizeShortens(once);
    } else {
      CanonicalIsFixed(once);
    }
  }

  /** A path with a drive letter never canonicalises to something as long. */
  lemma NormalizeShortens(path: string)
    requires HasDrive(path)
    ensures CanonicalPath(path).Some? ==> |CanonicalPath(path).value| < |path|
  {
    var normalized := Normalize(path);
    FastPathIsSlowPath(path);
    ResolveShortens(Split(normalized), []);
    JoinSplit(normalized);
  }

  function Weight(cs: seq<string>): nat {
    if cs == [] then 0 else |cs[0]| + 1 + Weight(cs[1..])
  }

  lemma {:induction false} WeightAppend(a: seq<string>, b: seq<string>)
    ensures Weight(a + b) == Weight(a) + Weight(b)
  {
    if a == [] {
      assert a + b == b;
    } else {
      assert (a + b)[1..] == a[1..] + b;
      WeightAppend(a[1..], b);
    }
  }

  lemma {:induction false} JoinWeight(cs: seq<string>)
    ensures |Join(cs)| == if cs == [] then 0 else Weight(cs) - 1
  {
    if |cs| > 1 {
      JoinWeight(cs[1..]);
    }
  }

  lemma {:induction false} ResolveWeight(cs: seq<string>, stack: seq<string>)
    ensures Resolve(cs, stack).Some? ==> Weight(Resolve(cs, stack).value) <= Weight(stack) + Weight(cs)
    decreases |cs|
  {
    if cs != [] {
      if cs[0] == [] || cs[0] == "." {
        ResolveWeight(cs[1..], stack);
      } else if cs[0] == ".." {
        if stack != [] {
          var front := stack[..|stack| - 1];
          WeightAppend(front, [stack[|stack| - 1]]);
          assert stack == front + [stack[|stack| - 1]];
          ResolveWeight(cs[1..], front);
        }
      } else {
        WeightAppend(stack, [cs[0]]);
        assert Weight([cs[0]]) == |cs[0]| + 1;
        ResolveWeight(cs[1..], stack + [cs[0]]);
      }
    }
  }

  lemma ResolveShortens(cs: seq<string>, stack: seq<string>)
    requires |cs| >= 1 && stack == []
    ensures Resolve(cs, stack).Some? ==> |Join(Resolve(cs, stack).value)| <= |Join(cs)|
  {
    ResolveWeight(cs, stack);
    JoinWeight(cs);
    if Resolve(cs, stack).Some? {
      JoinWeight(Resolve(cs, stack).value);
    }
  }

  // ------------------------------------------------------------------
  // The string tests for "at or below"
  // ------------------------------------------------------------------

  predicate IsBelow(path: string, parent: string) {
    |parent| < |path| && path[..|parent|] == parent && path[|parent|] == '/'
  }

  predicate IsAtOrBelow(path: string, parent: string) {
    path == parent || IsBelow(path, parent)
  }

  predicate IsPrefix<T(==)>(a: seq<T>, b: seq<T>) {
    |a| <= |b| && b[..|a|] == a
  }

  /** On canonical paths the string test is component-list prefix. */
  lemma BelowIsProperPrefix(path: string, parent: string)
    requires Canonical(path) && Canonical(parent) && parent != []
    ensures IsBelow(path, parent) <==> IsPrefix(Components(parent), Components(path)) && path != parent
  {
    if IsBelow(path, parent) {
      BelowIsPrefix(path, parent);
    }
    if IsPrefix(Components(parent), Components(path)) && path != parent {
      PrefixIsBelow(path, parent);
    }
  }

  lemma BelowIsPrefix(path: string, parent: string)
    requires parent != [] && IsBelow(path, parent)
    ensures IsPrefix(Components(parent), Components(path)) && path != parent
  {
    var tail := path[|parent| + 1..];
    assert path == parent + ['/'] + tail;
    SplitAtSeparator(parent, tail);
  }

  lemma PrefixIsBelow(path: string, parent: string)
    requires parent != [] && IsPrefix(Components(parent), Components(path)) && path != parent
    ensures IsBelow(path, parent)
  {
    var a, cs := Components(parent), Components(path);
    JoinOfComponents(path);
    JoinOfComponents(parent);
    assert cs == a + cs[|a|..];
    assert cs[..|cs|] == cs;
    JoinAppend(a, cs[|a|..]);
  }

  lemma AtOrBelowIsPrefix(path: string, parent: string)
    requires Canonical(path) && Canonical(parent) && parent != []
    ensures IsAtOrBelow(path, parent) <==> IsPrefix(Components(parent), Components(path))
  {
    BelowIsProperPrefix(path, parent);
  }

  /** What is left of a path below a parent, and how the two make the path again. */
  lemma RelativeRebuilds(path: string, parent: string)
    requires Canonical(path) && Canonical(parent) && parent != [] && IsAtOrBelow(path, parent)
    ensures
      var relative := if path == parent then [] else path[|parent| + 1..];
      Canonical(relative) && Components(path) == Components(parent) + Components(relative)
  {
    if path != parent {
      var tail := path[|parent| + 1..];
      assert path == parent + ['/'] + tail;
      SplitAtSeparator(parent, tail);
      assert Split(path) == Split(parent) + Split(tail);
      assert forall c :: c in Split(tail) ==> c in Split(path);
      assert Split(tail)[0] in Split(tail);
    } else {
      assert Components(path) + [] == Components(path);
    }
  }

  /** Canonical paths are told apart by their components. */
  lemma ComponentsInjective(a: string, b: string)
    requires Components(a) == Components(b)
    ensures a == b
  {
    JoinOfComponents(a);
    JoinOfComponents(b);
  }
}

/** The standard library's stable sort by key, as the scanner and the fstab composer use it. */
module StableSort {

  function Insert<T>(x: T, ys: seq<T>, key: T -> nat): seq<T> {
    if ys == [] || key(ys[|ys| - 1]) <= key(x) then ys + [x]
    else Insert(x, ys[..|ys| - 1], key) + [ys[|ys| - 1]]
  }

  function SortBy<T>(xs: seq<T>, key: T -> nat): seq<T> {
    if xs == [] then [] else Insert(xs[|xs| - 1], SortBy(xs[..|xs| - 1], key), key)
  }

  ghost predicate Sorted<T>(xs: seq<T>, key: T -> nat) {
    forall i, j :: 0 <= i < j < |xs| ==> key(xs[i]) <= key(xs[j])
  }

  /** The elements of `xs` whose key is `k`, in order. */
  ghost function WithKey<T>(xs: seq<T>, key: T -> nat, k: nat): seq<T> {
    if xs == [] then []
    else WithKey(xs[..|xs| - 1], key, k) + if key(xs[|xs| - 1]) == k then [xs[|xs| - 1]] else []
  }

  lemma WithKeyPush<T>(xs: seq<T>, x: T, key: T -> nat, k: nat)
    ensures WithKey(xs + [x], key, k) == WithKey(xs, key, k) + if key(x) == k then [x] else []
  {
    assert (xs + [x])[..|xs|] == xs;
  }

  lemma {:induction false} InsertPermutes<T>(x: T, ys: seq<T>, key: T -> nat)
    ensures multiset(Insert(x, ys, key)) == multiset(ys) + multiset{x}
    decreases |ys|
  {
    if ys != [] && key(ys[|ys| - 1]) > key(x) {
      var front := ys[..|ys| - 1];
      assert ys == front + [ys[|ys| - 1]];
      InsertPermutes(x, front, key);
    }
  }

  lemma {:induction false} InsertSorts<T>(x: T, ys: seq<T>, key: T -> nat)
    requires Sorted(ys, key)
    ensures Sorted(Insert(x, ys, key), key)
    ensures forall y :: y in Insert(x, ys, key) ==> y == x || y in ys
    decreases |ys|
  {
    if ys != [] && key(ys[|ys| - 1]) > key(x) {
      var front := ys[..|ys| - 1];
      InsertSorts(x, front, key);
      assert forall y :: y in Insert(x, front, key) ==> key(y) <= key(ys[|ys| - 1]);
    }
  }

  lemma {:induction false} InsertIsStable<T>(x: T, ys: seq<T>, key: T -> nat, k: nat)
    requires Sorted(ys, key)
    ensures WithKey(Insert(x, ys, key), key, k) == WithKey(ys, key, k) + if key(x) == k then [x] else []
    decreases |ys|
  {
    if ys == [] || key(ys[|ys| - 1]) <= key(x) {
      WithKeyPush(ys, x, key, k);
    } else {
      var last := ys[|ys| - 1];
      var front := ys[..|ys| - 1];
      InsertIsStable(x, front, key, k);
      WithKeyPush(Insert(x, front, key), last, key, k);
      var mine, rest := (if key(x) == k then [x] else []), (if key(last) == k then [last] else []);
      assert WithKey(ys, key, k) == WithKey(front, key, k) + rest;
      assert mine + rest == rest + mine;
    }
  }

  /** Sorting orders by key, is a permutation, and keeps elements of equal key in their original order. */
  lemma {:induction false} SortByIsStable<T>(xs: seq<T>, key: T -> nat, k: nat)
    ensures Sorted(SortBy(xs, key), key)
    ensures multiset(SortBy(xs, key)) == multiset(xs)
    ensures WithKey(SortBy(xs, key), key, k) == WithKey(xs, key, k)
    decreases |xs|
  {
    if xs != [] {
      var front := xs[..|xs| - 1];
      assert xs == front + [xs[|xs| - 1]];
      SortByIsStable(front, key, k);
      InsertPermutes(xs[|xs| - 1], SortBy(front, key), key);
      InsertSorts(xs[|xs| - 1], SortBy(front, key), key);
      InsertIsStable(xs[|xs| - 1], SortBy(front, key), key, k);
    }
  }

  lemma SortByKeepsElements<T>(xs: seq<T>, key: T -> nat)
    ensures |SortBy(xs, key)| == |xs|
    ensures forall x :: x in SortBy(xs, key) <==> x in xs
  {
    SortByIsStable(xs, key, 0);
    assert |multiset(SortBy(xs, key))| == |multiset(xs)|;
    forall x
      ensures x in SortBy(xs, key) <==> x in xs
    {
      assert x in multiset(SortBy(xs, key)) <==> x in multiset(xs);
    }
  }
}

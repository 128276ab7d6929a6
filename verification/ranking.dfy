/** Stable descending sort, as Python's `sorted(..., key=..., reverse=True)` and
    `list.sort(key=..., reverse=True)` perform it: items with equal keys keep
    their input order. */
module Ranking {
  import opened Base

  /** Non-increasing by `key`. */
  ghost predicate SortedDesc<T>(xs: seq<T>, key: T -> real) {
    forall i, j :: 0 <= i < j < |xs| ==> key(xs[i]) >= key(xs[j])
  }

  /** A prefix of a sorted list is sorted and draws on the list. */
  lemma TakeSorted<T>(xs: seq<T>, k: int, key: T -> real)
    requires SortedDesc(xs, key)
    ensures SortedDesc(PyTake(xs, k), key)
    ensures forall x :: x in PyTake(xs, k) ==> x in xs
  {
    var r := PyTake(xs, k);
    forall x | x in r ensures x in xs {
      var i :| 0 <= i < |r| && r[i] == x;
      assert xs[i] == x;
    }
  }

  /** A prefix of a sorted list keeps its best items: an item left out scores no
      higher than any item kept. */
  lemma TakeBest<T>(xs: seq<T>, k: int, key: T -> real)
    requires SortedDesc(xs, key)
    ensures forall x, y :: x in xs && x !in PyTake(xs, k) && y in PyTake(xs, k) ==> key(y) >= key(x)
  {
    var r := PyTake(xs, k);
    forall x, y | x in xs && x !in r && y in r ensures key(y) >= key(x) {
      var i :| 0 <= i < |xs| && xs[i] == x;
      var j :| 0 <= j < |r| && r[j] == y;
      assert forall m :: 0 <= m < |r| ==> r[m] == xs[m];
      assert i >= |r|;
      assert xs[j] == y;
    }
  }

  /** Places `x` before the first item whose key does not exceed its own, so that
      `x` precedes every later item with an equal key. */
  function Insert<T(==)>(x: T, ys: seq<T>, key: T -> real): (r: seq<T>)
    ensures |r| == |ys| + 1
    ensures multiset(r) == multiset(ys) + multiset{x}
  {
    if |ys| == 0 || key(ys[0]) <= key(x) then [x] + ys
    else
      assert ys == [ys[0]] + ys[1..];
      [ys[0]] + Insert(x, ys[1..], key)
  }

  lemma {:induction false} InsertSorted<T>(x: T, ys: seq<T>, key: T -> real)
    requires SortedDesc(ys, key)
    ensures SortedDesc(Insert(x, ys, key), key)
  {
    if |ys| == 0 || key(ys[0]) <= key(x) {
    } else {
      var tail := Insert(x, ys[1..], key);
      InsertSorted(x, ys[1..], key);
      forall k | 0 <= k < |tail| ensures key(ys[0]) >= key(tail[k]) {
        assert tail[k] in multiset(tail);
        if tail[k] != x {
          assert tail[k] in multiset(ys[1..]);
          var m :| 0 <= m < |ys[1..]| && ys[1..][m] == tail[k];
          assert ys[m + 1] == tail[k];
        }
      }
    }
  }

  /** Stable sort into non-increasing key order. */
  function SortDesc<T(==)>(xs: seq<T>, key: T -> real): (r: seq<T>)
    ensures |r| == |xs|
    ensures multiset(r) == multiset(xs)
    ensures SortedDesc(r, key)
  {
    if |xs| == 0 then []
    else
      var rest := SortDesc(xs[1..], key);
      InsertSorted(xs[0], rest, key);
      assert xs == [xs[0]] + xs[1..];
      Insert(xs[0], rest, key)
  }

  /** The items whose key equals `v`, in order. */
  function KeyClass<T>(xs: seq<T>, key: T -> real, v: real): seq<T>
  {
    if |xs| == 0 then []
    else (if key(xs[0]) == v then [xs[0]] else []) + KeyClass(xs[1..], key, v)
  }

  lemma {:induction false} InsertKeyClass<T>(x: T, ys: seq<T>, key: T -> real, v: real)
    ensures KeyClass(Insert(x, ys, key), key, v)
         == (if key(x) == v then [x] else []) + KeyClass(ys, key, v)
  {
    if |ys| == 0 || key(ys[0]) <= key(x) {
      assert ([x] + ys)[1..] == ys;
    } else {
      var rest := Insert(x, ys[1..], key);
      InsertKeyClass(x, ys[1..], key, v);
      assert ([ys[0]] + rest)[1..] == rest;
      var head := if key(ys[0]) == v then [ys[0]] else [];
      var mid := if key(x) == v then [x] else [];
      assert KeyClass(Insert(x, ys, key), key, v) == head + (mid + KeyClass(ys[1..], key, v));
      assert KeyClass(ys, key, v) == head + KeyClass(ys[1..], key, v);
      assert head == [] || mid == [];
    }
  }

  /** Stability: sorting leaves the order of every equal-key class unchanged. */
  lemma {:induction false} SortStable<T>(xs: seq<T>, key: T -> real, v: real)
    ensures KeyClass(SortDesc(xs, key), key, v) == KeyClass(xs, key, v)
  {
    if |xs| > 0 {
      SortStable(xs[1..], key, v);
      InsertKeyClass(xs[0], SortDesc(xs[1..], key), key, v);
    }
  }

  /** The class of a prefix is a prefix of the class. */
  lemma {:induction false} KeyClassOfPrefix<T>(xs: seq<T>, n: nat, key: T -> real, v: real)
    requires n <= |xs|
    ensures KeyClass(xs[..n], key, v) <= KeyClass(xs, key, v)
  {
    if n > 0 {
      KeyClassOfPrefix(xs[1..], n - 1, key, v);
      assert xs[..n][1..] == xs[1..][..n - 1];
    }
  }

  /** Sorting then truncating keeps every equal-key class in input order: if a
      class of `xs`, projected, is a subsequence of `order`, so is that class of
      any prefix of the sorted list. */
  lemma SortedPrefixClass<T, U>(xs: seq<T>, n: nat, key: T -> real, v: real, f: T -> U, order: seq<U>)
    requires n <= |xs|
    requires IsSubsequence(Project(KeyClass(xs, key, v), f), order)
    ensures IsSubsequence(Project(KeyClass(SortDesc(xs, key)[..n], key, v), f), order)
  {
    var sorted := SortDesc(xs, key);
    KeyClassOfPrefix(sorted, n, key, v);
    SortStable(xs, key, v);
    var whole := KeyClass(xs, key, v);
    var part := KeyClass(sorted[..n], key, v);
    assert part == whole[..|part|];
    assert Project(part, f) == Project(whole, f)[..|part|];
    SubsequenceOfPrefix(Project(whole, f), order, |part|);
  }

  /** `[f(x) for x in xs]`. */
  function Project<T, U>(xs: seq<T>, f: T -> U): (r: seq<U>)
    ensures |r| == |xs|
    ensures forall i :: 0 <= i < |xs| ==> r[i] == f(xs[i])
  {
    if |xs| == 0 then [] else [f(xs[0])] + Project(xs[1..], f)
  }

  lemma {:induction false} InsertProject<T, U>(x: T, ys: seq<T>, key: T -> real, f: T -> U)
    ensures multiset(Project(Insert(x, ys, key), f)) == multiset(Project(ys, f)) + multiset{f(x)}
  {
    if |ys| == 0 || key(ys[0]) <= key(x) {
      assert Project([x] + ys, f) == [f(x)] + Project(ys, f);
    } else {
      InsertProject(x, ys[1..], key, f);
      assert Project([ys[0]] + Insert(x, ys[1..], key), f)
          == [f(ys[0])] + Project(Insert(x, ys[1..], key), f);
      assert Project(ys, f) == [f(ys[0])] + Project(ys[1..], f);
    }
  }

  /** Sorting permutes any projection of the items, e.g. their ids. */
  lemma {:induction false} SortProject<T, U>(xs: seq<T>, key: T -> real, f: T -> U)
    ensures multiset(Project(SortDesc(xs, key), f)) == multiset(Project(xs, f))
  {
    if |xs| > 0 {
      SortProject(xs[1..], key, f);
      InsertProject(xs[0], SortDesc(xs[1..], key), key, f);
      assert Project(xs, f) == [f(xs[0])] + Project(xs[1..], f);
    }
  }

  /** An equal-key class, projected, is a subsequence of the whole list projected. */
  lemma {:induction false} KeyClassSubsequence<T, U>(xs: seq<T>, key: T -> real, v: real, f: T -> U)
    ensures IsSubsequence(Project(KeyClass(xs, key, v), f), Project(xs, f))
  {
    if |xs| > 0 {
      KeyClassSubsequence(xs[1..], key, v, f);
      var rest := Project(KeyClass(xs[1..], key, v), f);
      var whole := Project(xs, f);
      assert whole[1..] == Project(xs[1..], f);
      if key(xs[0]) == v {
        assert KeyClass(xs, key, v) == [xs[0]] + KeyClass(xs[1..], key, v);
        assert Project(KeyClass(xs, key, v), f)[1..] == rest;
      } else {
        assert KeyClass(xs, key, v) == KeyClass(xs[1..], key, v);
        SubsequenceSkip(rest, whole);
      }
    }
  }
}

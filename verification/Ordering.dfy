/**
 * ORDER BY and sorted(): the ascending enumeration of a finite set under a
 * strict total order, and the fact that such an enumeration is unique.
 */
module Ordering {

  ghost predicate StrictOrder<T(!new)>(less: (T, T) -> bool) {
    && (forall x, y :: !(less(x, y) && less(y, x)))
    && (forall x, y, z :: less(x, y) && less(y, z) ==> less(x, z))
    && (forall x, y :: x == y || less(x, y) || less(y, x))
  }

  ghost predicate Ascending<T>(s: seq<T>, less: (T, T) -> bool) {
    forall i, j :: 0 <= i < j < |s| ==> less(s[i], s[j])
  }

  function Elements<T(==)>(s: seq<T>): set<T> { set x | x in s }

  ghost predicate IsLeast<T>(s: set<T>, less: (T, T) -> bool, m: T) {
    m in s && forall x :: x in s ==> x == m || less(m, x)
  }

  lemma LeastExists<T(!new)>(s: set<T>, less: (T, T) -> bool)
    requires s != {} && StrictOrder(less)
    ensures exists m :: IsLeast(s, less, m)
  {
    var x :| x in s;
    if s == {x} {
      assert IsLeast(s, less, x);
    } else {
      LeastExists(s - {x}, less);
      var m :| IsLeast(s - {x}, less, m);
      assert IsLeast(s, less, if less(x, m) then x else m);
    }
  }

  /** The least element of a non-empty set. */
  function Least<T(!new, ==)>(s: set<T>, less: (T, T) -> bool): (m: T)
    requires s != {} && StrictOrder(less)
    ensures IsLeast(s, less, m)
  {
    LeastExists(s, less);
    assert forall a, b :: IsLeast(s, less, a) && IsLeast(s, less, b) ==> a == b;
    var m :| m in s && forall x :: x in s ==> x == m || less(m, x);
    m
  }

  /** The elements of `s` in ascending order. */
  function Sorted<T(!new, ==)>(s: set<T>, less: (T, T) -> bool): (r: seq<T>)
    requires StrictOrder(less)
    ensures |r| == |s|
    decreases |s|
  {
    if s == {} then [] else var m := Least(s, less); [m] + Sorted(s - {m}, less)
  }

  lemma ElementsCons<T>(m: T, rest: seq<T>)
    ensures Elements([m] + rest) == {m} + Elements(rest)
  {
    forall x ensures x in Elements([m] + rest) <==> x in {m} + Elements(rest) {
      assert x in [m] + rest <==> x == m || x in rest;
    }
  }

  lemma AscendingCons<T>(m: T, rest: seq<T>, less: (T, T) -> bool)
    requires Ascending(rest, less) && forall x :: x in rest ==> less(m, x)
    ensures Ascending([m] + rest, less)
  {}

  lemma {:induction false} SortedEnumerates<T(!new)>(s: set<T>, less: (T, T) -> bool)
    requires StrictOrder(less)
    ensures Ascending(Sorted(s, less), less) && Elements(Sorted(s, less)) == s
    decreases |s|
  {
    if s != {} {
      var m := Least(s, less);
      var rest := Sorted(s - {m}, less);
      SortedEnumerates(s - {m}, less);
      ElementsCons(m, rest);
      forall x | x in rest ensures less(m, x) {
        assert x in Elements(rest);
      }
      AscendingCons(m, rest, less);
    }
  }

  lemma HeadIsLeast<T>(a: seq<T>, less: (T, T) -> bool)
    requires a != [] && Ascending(a, less)
    ensures IsLeast(Elements(a), less, a[0])
  {}

  lemma TailElements<T(!new)>(a: seq<T>, less: (T, T) -> bool)
    requires a != [] && Ascending(a, less) && StrictOrder(less)
    ensures Elements(a[1..]) == Elements(a) - {a[0]}
  {
    ElementsCons(a[0], a[1..]);
    assert a == [a[0]] + a[1..];
    assert a[0] !in a[1..];
  }

  /** A set has only one ascending enumeration. */
  lemma {:induction false} AscendingUnique<T(!new)>(a: seq<T>, b: seq<T>, less: (T, T) -> bool)
    requires StrictOrder(less) && Ascending(a, less) && Ascending(b, less)
    requires Elements(a) == Elements(b)
    ensures a == b
  {
    assert b != [] ==> b[0] in Elements(a);
    assert a != [] ==> a[0] in Elements(b);
    if a != [] {
      HeadIsLeast(a, less);
      HeadIsLeast(b, less);
      TailElements(a, less);
      TailElements(b, less);
      AscendingUnique(a[1..], b[1..], less);
      assert a == [a[0]] + a[1..] && b == [b[0]] + b[1..];
    }
  }

  lemma TakeCons<T>(s: set<T>, m: T, rest: seq<T>, n: nat)
    requires 0 < n <= |rest| + 1
    ensures s - Elements(([m] + rest)[..n]) == (s - {m}) - Elements(rest[..n - 1])
    ensures ([m] + rest)[n..] == rest[n - 1..]
  {
    assert ([m] + rest)[..n] == [m] + rest[..n - 1];
    ElementsCons(m, rest[..n - 1]);
  }

  lemma TakeNone<T>(s: set<T>, a: seq<T>)
    ensures s - Elements(a[..0]) == s && a[0..] == a
  {}

  lemma SortedUnfold<T(!new)>(s: set<T>, less: (T, T) -> bool) returns (m: T)
    requires StrictOrder(less) && s != {}
    ensures m in s && Sorted(s, less) == [m] + Sorted(s - {m}, less)
  {
    m := Least(s, less);
  }

  /** Dropping the first `n` elements of an ascending enumeration enumerates the rest. */
  lemma {:induction false} SortedDrop<T(!new)>(s: set<T>, n: nat, less: (T, T) -> bool)
    requires StrictOrder(less) && n <= |s|
    ensures Sorted(s - Elements(Sorted(s, less)[..n]), less) == Sorted(s, less)[n..]
    decreases |s|
  {
    hide Sorted, Elements;
    if n == 0 {
      TakeNone(s, Sorted(s, less));
    } else {
      var m := SortedUnfold(s, less);
      SortedDrop(s - {m}, n - 1, less);
      TakeCons(s, m, Sorted(s - {m}, less), n);
    }
  }

  lemma SliceElements<T>(a: seq<T>, n: nat)
    requires n <= |a|
    ensures Elements(a[..n]) + Elements(a[n..]) == Elements(a)
  {
    assert a == a[..n] + a[n..];
  }

  lemma SliceAscending<T>(a: seq<T>, n: nat, less: (T, T) -> bool)
    requires n <= |a| && Ascending(a, less)
    ensures Ascending(a[..n], less) && Ascending(a[n..], less)
  {}

  /** The first `n` elements in order, and the rest. */
  lemma SortedSplit<T(!new)>(s: set<T>, n: nat, less: (T, T) -> bool)
    requires StrictOrder(less) && n <= |s|
    ensures
      var all := Sorted(s, less);
      && Ascending(all, less) && Ascending(all[..n], less) && Ascending(all[n..], less)
      && Elements(all[..n]) + Elements(all[n..]) == s && Elements(all[..n]) !! Elements(all[n..])
      && all[n..] == Sorted(s - Elements(all[..n]), less)
  {
    var all := Sorted(s, less);
    SortedEnumerates(s, less);
    SliceElements(all, n);
    SliceAscending(all, n, less);
    SortedDrop(s, n, less);
    SortedEnumerates(s - Elements(all[..n]), less);
  }

  /** The elements of `s` that belong to `w`, in the order of `s`. */
  function Keep<T(==)>(s: seq<T>, w: set<T>): seq<T> {
    if s == [] then [] else (if s[0] in w then [s[0]] else []) + Keep(s[1..], w)
  }

  lemma {:induction false} KeepElements<T>(s: seq<T>, w: set<T>, less: (T, T) -> bool)
    requires Ascending(s, less)
    ensures Elements(Keep(s, w)) == Elements(s) * w && Ascending(Keep(s, w), less)
  {
    if s != [] {
      var rest := Keep(s[1..], w);
      KeepElements(s[1..], w, less);
      assert s == [s[0]] + s[1..];
      ElementsCons(s[0], s[1..]);
      ElementsCons(s[0], rest);
      forall x | x in rest ensures less(s[0], x) {
        assert x in Elements(rest) && x in Elements(s[1..]);
      }
      AscendingCons(s[0], rest, less);
      assert [] + rest == rest;
    }
  }

  /** Filtering the sorted set is sorting the filtered set. */
  lemma KeepSorted<T(!new)>(s: set<T>, w: set<T>, less: (T, T) -> bool)
    requires StrictOrder(less)
    ensures Keep(Sorted(s, less), w) == Sorted(s * w, less)
  {
    SortedEnumerates(s, less);
    SortedEnumerates(s * w, less);
    KeepElements(Sorted(s, less), w, less);
    AscendingUnique(Keep(Sorted(s, less), w), Sorted(s * w, less), less);
  }

  // Orders used by the queries.

  predicate IntLess(a: int, b: int) { a < b }

  /** Code-point order of strings, as `sorted` compares text columns. */
  predicate StrLess(a: string, b: string) {
    if b == [] then false
    else if a == [] then true
    else if a[0] != b[0] then a[0] < b[0]
    else StrLess(a[1..], b[1..])
  }

  lemma StrLessAsymmetric(a: string, b: string)
    ensures !(StrLess(a, b) && StrLess(b, a))
  {}

  lemma StrLessTransitive(a: string, b: string, c: string)
    requires StrLess(a, b) && StrLess(b, c)
    ensures StrLess(a, c)
  {}

  lemma {:induction false} StrLessTotal(a: string, b: string)
    ensures a == b || StrLess(a, b) || StrLess(b, a)
  {
    if a != [] && b != [] && a[0] == b[0] {
      StrLessTotal(a[1..], b[1..]);
      assert a == [a[0]] + a[1..] && b == [b[0]] + b[1..];
    }
  }

  /** An ascending enumeration lists each element once. */
  lemma {:induction false} AscendingSize<T(!new)>(s: seq<T>, less: (T, T) -> bool)
    requires StrictOrder(less) && Ascending(s, less)
    ensures |Elements(s)| == |s|
  {
    if s != [] {
      TailElements(s, less);
      HeadIsLeast(s, less);
      AscendingSize(s[1..], less);
    }
  }

  lemma AscendingDistinct<T(!new)>(s: seq<T>, less: (T, T) -> bool)
    requires StrictOrder(less) && Ascending(s, less)
    ensures forall i, j :: 0 <= i < j < |s| ==> s[i] != s[j]
  {}

  lemma UnionSize<T>(a: set<T>, b: set<T>)
    requires a !! b
    ensures |a + b| == |a| + |b|
  {}

  ghost predicate Distinct<T>(a: seq<T>) {
    forall i, j :: 0 <= i < j < |a| ==> a[i] != a[j]
  }

  lemma {:induction false} DistinctOnce<T>(a: seq<T>, x: T)
    requires Distinct(a)
    ensures multiset(a)[x] == if x in Elements(a) then 1 else 0
  {
    if a != [] {
      DistinctOnce(a[1..], x);
      assert a == [a[0]] + a[1..];
      ElementsCons(a[0], a[1..]);
      assert a[0] !in a[1..];
    }
  }

  /** Two listings of one set without repeats are the same up to order. */
  lemma EnumerationMultiset<T>(a: seq<T>, b: seq<T>)
    requires Elements(a) == Elements(b) && Distinct(a) && Distinct(b)
    ensures multiset(a) == multiset(b)
  {
    forall x ensures multiset(a)[x] == multiset(b)[x] {
      DistinctOnce(a, x);
      DistinctOnce(b, x);
      assert x in Elements(a) <==> x in Elements(b);
    }
  }
}

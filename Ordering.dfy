/**
 * Orderings the viewer relies on: Python's comparison of strings (by code
 * point, shorter prefix first), `sorted(set(...))` of name lists, pandas'
 * `unique()` (first occurrence order) and Python's stable `sorted(key=...)`
 * with an integer key.
 */
module Ordering {

  // ---------------------------------------------------------------------
  // String order

  /** Python's `a < b` for strings: lexicographic by code point. */
  predicate StrLess(a: string, b: string) {
    if a == [] then b != []
    else if b == [] then false
    else if a[0] != b[0] then a[0] < b[0]
    else StrLess(a[1..], b[1..])
  }

  lemma {:induction false} StrLessIrreflexive(a: string)
    ensures !StrLess(a, a)
  {
    if a != [] { StrLessIrreflexive(a[1..]); }
  }

  lemma {:induction false} StrLessTransitive(a: string, b: string, c: string)
    requires StrLess(a, b) && StrLess(b, c)
    ensures StrLess(a, c)
  {
    if a != [] && b != [] && c != [] && a[0] == b[0] == c[0] {
      StrLessTransitive(a[1..], b[1..], c[1..]);
    }
  }

  lemma {:induction false} StrLessTotal(a: string, b: string)
    ensures a == b || StrLess(a, b) || StrLess(b, a)
  {
    if a != [] && b != [] && a[0] == b[0] {
      StrLessTotal(a[1..], b[1..]);
      if a[1..] == b[1..] {
        assert a == [a[0]] + a[1..] && b == [b[0]] + b[1..];
      }
    }
  }

  lemma {:induction false} StrLessAsymmetric(a: string, b: string)
    requires StrLess(a, b)
    ensures !StrLess(b, a)
  {
    if a != [] && b != [] && a[0] == b[0] {
      StrLessAsymmetric(a[1..], b[1..]);
    }
  }

  /** Ascending without repeats: what `sorted(set(...))` returns. */
  predicate StrictlySorted(s: seq<string>) {
    forall i, j :: 0 <= i < j < |s| ==> StrLess(s[i], s[j])
  }

  // ---------------------------------------------------------------------
  // sorted(set(names))

  /** Inserts `x` into an ascending list unless it is already there. */
  function InsertName(x: string, s: seq<string>): (r: seq<string>)
    requires StrictlySorted(s)
    ensures StrictlySorted(r)
    ensures forall n :: n in r <==> n == x || n in s
  {
    if s == [] then [x]
    else if x == s[0] then s
    else if StrLess(x, s[0]) then
      assert forall j :: 0 < j < |s| ==> StrLess(x, s[j]) by {
        forall j | 0 < j < |s| ensures StrLess(x, s[j]) { StrLessTransitive(x, s[0], s[j]); }
      }
      [x] + s
    else
      var rest := InsertName(x, s[1..]);
      StrLessTotal(x, s[0]);
      assert forall n :: n in rest ==> StrLess(s[0], n) by {
        forall n | n in rest ensures StrLess(s[0], n) {
          if n != x { var k :| 1 <= k < |s| && s[k] == n; }
        }
      }
      [s[0]] + rest
  }

  /**
   * `sorted(set(names))`: the distinct names in ascending order, missing none
   * and adding none (app.py:38-39, pages/population_stats.py:36).
   */
  function SortedNames(names: seq<string>): (r: seq<string>)
    ensures StrictlySorted(r)
    ensures forall n :: n in r <==> n in names
  {
    if names == [] then []
    else
      var r := InsertName(names[|names| - 1], SortedNames(names[..|names| - 1]));
      assert names == names[..|names| - 1] + [names[|names| - 1]];
      r
  }

  /**
   * An ascending list without repeats is determined by its elements, so
   * SortedNames is the one such list for the names it is given.
   */
  lemma {:induction false} StrictlySortedUnique(a: seq<string>, b: seq<string>)
    requires StrictlySorted(a) && StrictlySorted(b)
    requires forall n :: n in a <==> n in b
    ensures a == b
  {
    assert a != [] ==> a[0] in b by { if a != [] { assert a[0] in a; } }
    assert b != [] ==> b[0] in a by { if b != [] { assert b[0] in b; } }
    if a != [] && b != [] {
      var i :| 0 <= i < |a| && a[i] == b[0];
      var j :| 0 <= j < |b| && b[j] == a[0];
      if i > 0 && j > 0 {
        StrLessTransitive(a[0], b[0], a[0]);
        StrLessIrreflexive(a[0]);
      }
      assert a[0] == b[0];
      forall n ensures n in a[1..] <==> n in b[1..] {
        if n in a[1..] {
          var k :| 1 <= k < |a| && a[k] == n;
          StrLessIrreflexive(a[0]);
          assert n in a;
        }
        if n in b[1..] {
          var k :| 1 <= k < |b| && b[k] == n;
          StrLessIrreflexive(b[0]);
          assert n in b;
        }
      }
      StrictlySortedUnique(a[1..], b[1..]);
      assert a == [a[0]] + a[1..] && b == [b[0]] + b[1..];
    }
  }

  // ---------------------------------------------------------------------
  // pandas unique()

  predicate NoDuplicates<T(==)>(s: seq<T>) {
    forall i, j :: 0 <= i < j < |s| ==> s[i] != s[j]
  }

  /** The position of the first occurrence of `x` in `s`. */
  function FirstAt<T(==)>(s: seq<T>, x: T): (i: nat)
    requires x in s
    ensures i < |s| && s[i] == x
    ensures forall k :: 0 <= k < i ==> s[k] != x
  {
    if s[0] == x then 0 else 1 + FirstAt(s[1..], x)
  }

  /** Appending an element leaves the first occurrences of the earlier ones in place. */
  lemma FirstAtSnoc<T>(s: seq<T>, x: T, y: T)
    requires y in s + [x]
    ensures y in s ==> FirstAt(s + [x], y) == FirstAt(s, y)
    ensures y !in s ==> FirstAt(s + [x], y) == |s|
  {
    var t := s + [x];
    var i := FirstAt(t, y);
    if y in s {
      var j := FirstAt(s, y);
      assert t[j] == y;
      assert s[i] == y;
    } else {
      assert forall k :: 0 <= k < |s| ==> t[k] != y;
    }
  }

  /**
   * `Series.unique()`: the distinct values, each at its first occurrence, in
   * order: a value comes before another exactly when it first occurs earlier.
   */
  function Unique<T(==,!new)>(s: seq<T>): (r: seq<T>)
    ensures NoDuplicates(r)
    ensures forall x :: x in r <==> x in s
    ensures forall i, j :: 0 <= i < j < |r| ==> r[i] in s && r[j] in s && FirstAt(s, r[i]) < FirstAt(s, r[j])
  {
    if s == [] then []
    else
      var init, x := s[..|s| - 1], s[|s| - 1];
      var u := Unique(init);
      assert s == init + [x];
      var r := if x in u then u else u + [x];
      forall i, j | 0 <= i < j < |r| ensures r[i] in s && r[j] in s && FirstAt(s, r[i]) < FirstAt(s, r[j]) {
        assert r[i] in u;
        FirstAtSnoc(init, x, r[i]);
        FirstAtSnoc(init, x, r[j]);
      }
      r
  }

  // ---------------------------------------------------------------------
  // Filtering

  /** The elements of `s` that satisfy `p`, in their order in `s`. */
  function Filter<T(!new)>(s: seq<T>, p: T -> bool): (r: seq<T>)
    ensures |r| <= |s|
    ensures forall x :: x in r <==> x in s && p(x)
  {
    if s == [] then [] else Filter(s[..|s| - 1], p) + (if p(s[|s| - 1]) then [s[|s| - 1]] else [])
  }

  lemma {:induction false} FilterAppend<T(!new)>(a: seq<T>, b: seq<T>, p: T -> bool)
    ensures Filter(a + b, p) == Filter(a, p) + Filter(b, p)
    decreases |b|
  {
    if b == [] {
      assert a + b == a;
    } else {
      assert (a + b)[..|a + b| - 1] == a + b[..|b| - 1];
      FilterAppend(a, b[..|b| - 1], p);
    }
  }

  /** Splitting by `p` and by its negation `q` loses and adds nothing. */
  lemma {:induction false} FilterPartition<T(!new)>(s: seq<T>, p: T -> bool, q: T -> bool)
    requires forall x :: q(x) == !p(x)
    ensures multiset(Filter(s, q)) + multiset(Filter(s, p)) == multiset(s)
  {
    if s != [] {
      var init, last := s[..|s| - 1], s[|s| - 1];
      assert s == init + [last];
      FilterPartition(init, p, q);
      FilterSnoc(init, last, p);
      FilterSnoc(init, last, q);
      MultisetSnoc(Filter(init, q), if q(last) then [last] else [], Filter(init, p), if p(last) then [last] else [], init, last);
    }
  }

  lemma FilterSnoc<T(!new)>(s: seq<T>, x: T, p: T -> bool)
    ensures Filter(s + [x], p) == Filter(s, p) + (if p(x) then [x] else [])
  {
    assert (s + [x])[..|s + [x]| - 1] == s;
  }

  lemma MultisetSnoc<T>(a: seq<T>, ta: seq<T>, b: seq<T>, tb: seq<T>, s: seq<T>, x: T)
    requires multiset(a) + multiset(b) == multiset(s)
    requires ta + tb == [x] || tb + ta == [x]
    ensures multiset(a + ta) + multiset(b + tb) == multiset(s + [x])
  {
    assert multiset(ta) + multiset(tb) == multiset{x} by {
      if ta + tb == [x] { assert multiset(ta + tb) == multiset(ta) + multiset(tb); }
      else { assert multiset(tb + ta) == multiset(tb) + multiset(ta); }
    }
  }

  /** A filter whose predicate holds of every element keeps the whole sequence. */
  lemma {:induction false} FilterAll<T(!new)>(s: seq<T>, p: T -> bool)
    requires forall x :: x in s ==> p(x)
    ensures Filter(s, p) == s
  {
    if s != [] {
      assert s[|s| - 1] in s;
      FilterAll(s[..|s| - 1], p);
      assert s == s[..|s| - 1] + [s[|s| - 1]];
    }
  }

  /** A filter whose predicate holds of no element keeps nothing. */
  lemma {:induction false} FilterNone<T(!new)>(s: seq<T>, p: T -> bool)
    requires forall x :: x in s ==> !p(x)
    ensures Filter(s, p) == []
  {
    if s != [] {
      assert s[|s| - 1] in s;
      FilterNone(s[..|s| - 1], p);
    }
  }

  // ---------------------------------------------------------------------
  // list.sort(key=...) with a two-valued key

  /**
   * A stable sort on a key that is 0 where `p` fails and 1 where it holds:
   * the elements failing `p`, then those satisfying it, each group in its
   * original order.
   */
  function StablePartition<T(!new)>(s: seq<T>, p: T -> bool): seq<T> {
    Filter(s, Not(p)) + Filter(s, p)
  }

  /** The negation of a predicate. */
  function Not<T>(p: T -> bool): T -> bool {
    (x: T) => !p(x)
  }

  /**
   * The partition is a permutation, puts no element satisfying `p` before
   * one failing it, and keeps the order within each group.
   */
  lemma StablePartitionCorrect<T(!new)>(s: seq<T>, p: T -> bool)
    ensures multiset(StablePartition(s, p)) == multiset(s)
    ensures forall i, j :: 0 <= i < j < |StablePartition(s, p)| && p(StablePartition(s, p)[i]) ==>
      p(StablePartition(s, p)[j])
    ensures Filter(StablePartition(s, p), p) == Filter(s, p)
    ensures Filter(StablePartition(s, p), Not(p)) == Filter(s, Not(p))
  {
    var q := Not(p);
    var a, b := Filter(s, q), Filter(s, p);
    var r := a + b;
    FilterPartition(s, p, q);
    forall k | 0 <= k < |a| ensures !p(r[k]) {
      assert r[k] == a[k] && a[k] in a;
    }
    forall k | |a| <= k < |r| ensures p(r[k]) {
      assert r[k] == b[k - |a|] && b[k - |a|] in b;
    }
    FilterAppend(a, b, p);
    FilterNone(a, p);
    FilterAll(b, p);
    FilterAppend(a, b, q);
    FilterAll(a, q);
    FilterNone(b, q);
  }

  // ---------------------------------------------------------------------
  // sorted(values, key=int) — a stable sort on an integer key

  /** Keys never decrease along `s`. */
  predicate KeySorted<T>(s: seq<(T, int)>) {
    forall i, j :: 0 <= i < j < |s| ==> s[i].1 <= s[j].1
  }

  /** Places `x` after every element whose key is at most its own. */
  function InsertByKey<T>(x: (T, int), s: seq<(T, int)>): (r: seq<(T, int)>)
    requires KeySorted(s)
    ensures KeySorted(r)
    ensures forall y :: y in r ==> y == x || y in s
    ensures multiset(r) == multiset(s) + multiset{x}
  {
    if s == [] then [x]
    else if x.1 < s[0].1 then [x] + s
    else
      assert s == [s[0]] + s[1..];
      var rest := InsertByKey(x, s[1..]);
      assert forall y :: y in s[1..] ==> s[0].1 <= y.1;
      ConsKeySorted(s[0], rest);
      [s[0]] + rest
  }

  lemma ConsKeySorted<T>(h: (T, int), s: seq<(T, int)>)
    requires KeySorted(s)
    requires forall y :: y in s ==> h.1 <= y.1
    ensures KeySorted([h] + s)
  {
    forall i, j | 0 <= i < j < |[h] + s| ensures ([h] + s)[i].1 <= ([h] + s)[j].1 {
      assert ([h] + s)[j] == s[j - 1];
      if i > 0 { assert ([h] + s)[i] == s[i - 1]; }
      else { assert s[j - 1] in s; }
    }
  }

  /** Python's `sorted(s, key=...)` for keys already computed: an insertion sort. */
  function SortByKey<T>(s: seq<(T, int)>): (r: seq<(T, int)>)
    ensures KeySorted(r)
    ensures multiset(r) == multiset(s)
  {
    if s == [] then []
    else
      assert s == s[..|s| - 1] + [s[|s| - 1]];
      InsertByKey(s[|s| - 1], SortByKey(s[..|s| - 1]))
  }

  /** The elements of `s` whose key is `k`, in order. */
  function WithKey<T>(s: seq<(T, int)>, k: int): (r: seq<(T, int)>)
    ensures forall y :: y in r ==> y.1 == k
  {
    if s == [] then [] else WithKey(s[..|s| - 1], k) + (if s[|s| - 1].1 == k then [s[|s| - 1]] else [])
  }

  lemma {:induction false} WithKeyFront<T>(x: (T, int), s: seq<(T, int)>, k: int)
    ensures WithKey([x] + s, k) == (if x.1 == k then [x] else []) + WithKey(s, k)
    decreases |s|
  {
    if s != [] {
      assert ([x] + s)[..|[x] + s| - 1] == [x] + s[..|s| - 1];
      WithKeyFront(x, s[..|s| - 1], k);
    }
  }

  lemma {:induction false} WithKeyNone<T>(s: seq<(T, int)>, k: int)
    requires forall y :: y in s ==> y.1 != k
    ensures WithKey(s, k) == []
  {
    if s != [] { WithKeyNone(s[..|s| - 1], k); }
  }

  /** An inserted element lands after every element that has its key. */
  lemma {:induction false} InsertByKeyStable<T>(x: (T, int), s: seq<(T, int)>, k: int)
    requires KeySorted(s)
    ensures WithKey(InsertByKey(x, s), k) == WithKey(s, k) + (if x.1 == k then [x] else [])
    decreases |s|, 1
  {
    if s == [] {
      assert InsertByKey(x, s) == [x];
      assert WithKey([x], k) == WithKey([], k) + (if x.1 == k then [x] else []);
    } else if x.1 < s[0].1 {
      assert InsertByKey(x, s) == [x] + s;
      InsertFrontStable(x, s, k);
    } else {
      InsertLaterStable(x, s, k);
    }
  }

  lemma {:induction false} InsertLaterStable<T>(x: (T, int), s: seq<(T, int)>, k: int)
    requires KeySorted(s) && s != [] && s[0].1 <= x.1
    ensures WithKey(InsertByKey(x, s), k) == WithKey(s, k) + (if x.1 == k then [x] else [])
    decreases |s|, 0
  {
    var rest := InsertByKey(x, s[1..]);
    assert InsertByKey(x, s) == [s[0]] + rest;
    InsertByKeyStable(x, s[1..], k);
    ConsStable(s[0], s[1..], rest, if x.1 == k then [x] else [], k);
    assert s == [s[0]] + s[1..];
  }

  lemma InsertFrontStable<T>(x: (T, int), s: seq<(T, int)>, k: int)
    requires KeySorted(s) && s != [] && x.1 < s[0].1
    ensures WithKey([x] + s, k) == WithKey(s, k) + (if x.1 == k then [x] else [])
  {
    WithKeyFront(x, s, k);
    if x.1 == k {
      assert forall y :: y in s ==> y.1 != k;
      WithKeyNone(s, k);
    }
  }

  lemma ConsStable<T>(h: (T, int), s: seq<(T, int)>, r: seq<(T, int)>, tail: seq<(T, int)>, k: int)
    requires WithKey(r, k) == WithKey(s, k) + tail
    ensures WithKey([h] + r, k) == WithKey([h] + s, k) + tail
  {
    WithKeyFront(h, r, k);
    WithKeyFront(h, s, k);
  }

  /**
   * Stability: for every key, the elements with that key keep their relative
   * order from the input.
   */
  lemma {:induction false} SortByKeyStable<T>(s: seq<(T, int)>, k: int)
    ensures WithKey(SortByKey(s), k) == WithKey(s, k)
  {
    if s != [] {
      SortByKeyStable(s[..|s| - 1], k);
      InsertByKeyStable(s[|s| - 1], SortByKey(s[..|s| - 1]), k);
    }
  }
}

/**
 * Stable sorting, as JavaScript's `Array.prototype.sort` (stable since
 * ES2019) and Python's `sorted` perform it.  A comparator `cmp` becomes the
 * relation `le(a, b) == (cmp(a, b) <= 0)`: "a may stay before b".  The
 * sort is an insertion sort; its result is the unique stable sorted
 * permutation, which the lemmas below pin down.
 */
module Sorting {

  /** `le` is total and transitive: a comparator that sorting can rely on. */
  ghost predicate TotalPreorder<T(!new)>(le: (T, T) -> bool) {
    && (forall a, b :: le(a, b) || le(b, a))
    && (forall a, b, c :: le(a, b) && le(b, c) ==> le(a, c))
  }

  ghost predicate SortedBy<T>(s: seq<T>, le: (T, T) -> bool) {
    forall i, j :: 0 <= i < j < |s| ==> le(s[i], s[j])
  }

  /** No two elements of `s` share a key. */
  ghost predicate DistinctBy<T, K>(s: seq<T>, key: T -> K) {
    forall i, j :: 0 <= i < j < |s| ==> key(s[i]) != key(s[j])
  }

  /** Places `x` before the first element it may precede. */
  function Insert<T>(x: T, s: seq<T>, le: (T, T) -> bool): (r: seq<T>)
    ensures multiset(r) == multiset(s) + multiset{x}
    ensures |r| == |s| + 1
  {
    if s == [] || le(x, s[0]) then [x] + s
    else
      assert s == [s[0]] + s[1..];
      [s[0]] + Insert(x, s[1..], le)
  }

  function SortBy<T>(s: seq<T>, le: (T, T) -> bool): (r: seq<T>)
    ensures multiset(r) == multiset(s)
    ensures |r| == |s|
  {
    if s == [] then []
    else
      assert s == [s[0]] + s[1..];
      Insert(s[0], SortBy(s[1..], le), le)
  }

  lemma SortByCons<T>(x: T, s: seq<T>, le: (T, T) -> bool)
    ensures SortBy([x] + s, le) == Insert(x, SortBy(s, le), le)
  {
    assert ([x] + s)[1..] == s;
  }

  /** Insertion in front of the first element x may precede, or past one it may not. */
  lemma InsertCons<T>(x: T, y: T, s: seq<T>, le: (T, T) -> bool)
    ensures le(x, y) ==> Insert(x, [y] + s, le) == [x, y] + s
    ensures !le(x, y) ==> Insert(x, [y] + s, le) == [y] + Insert(x, s, le)
  {
    assert ([y] + s)[1..] == s;
  }

  function MapSeq<T, U>(s: seq<T>, f: T -> U): (r: seq<U>)
    ensures |r| == |s|
    ensures forall i :: 0 <= i < |s| ==> r[i] == f(s[i])
  {
    if s == [] then [] else [f(s[0])] + MapSeq(s[1..], f)
  }

  /** The elements of `s` that `le` cannot tell apart from `k`, in order. */
  function EquivalentTo<T>(s: seq<T>, le: (T, T) -> bool, k: T): seq<T> {
    if s == [] then []
    else (if le(s[0], k) && le(k, s[0]) then [s[0]] else []) + EquivalentTo(s[1..], le, k)
  }

  lemma {:induction false} InsertSorted<T(!new)>(x: T, s: seq<T>, le: (T, T) -> bool)
    requires TotalPreorder(le) && SortedBy(s, le)
    ensures SortedBy(Insert(x, s, le), le)
  {
    if s == [] || le(x, s[0]) {
    } else {
      var t := Insert(x, s[1..], le);
      InsertSorted(x, s[1..], le);
      forall y | y in t ensures le(s[0], y) {
        assert y in multiset(t);
        if y != x {
          assert y in s[1..];
        }
      }
    }
  }

  lemma {:induction false} SortBySorted<T(!new)>(s: seq<T>, le: (T, T) -> bool)
    requires TotalPreorder(le)
    ensures SortedBy(SortBy(s, le), le)
  {
    if s != [] {
      SortBySorted(s[1..], le);
      InsertSorted(s[0], SortBy(s[1..], le), le);
    }
  }

  lemma {:induction false} EquivalentToInsert<T(!new)>(x: T, s: seq<T>, le: (T, T) -> bool, k: T)
    requires TotalPreorder(le)
    ensures EquivalentTo(Insert(x, s, le), le, k)
         == (if le(x, k) && le(k, x) then [x] else []) + EquivalentTo(s, le, k)
  {
    if s == [] || le(x, s[0]) {
      assert ([x] + s)[1..] == s;
    } else {
      var t := Insert(x, s[1..], le);
      var ex := if le(x, k) && le(k, x) then [x] else [];
      var e0 := if le(s[0], k) && le(k, s[0]) then [s[0]] else [];
      var rest := EquivalentTo(s[1..], le, k);
      assert Insert(x, s, le) == [s[0]] + t;
      assert ([s[0]] + t)[1..] == t;
      assert EquivalentTo(Insert(x, s, le), le, k) == e0 + EquivalentTo(t, le, k);
      EquivalentToInsert(x, s[1..], le, k);
      assert EquivalentTo(s, le, k) == e0 + rest;
      // x and s[0] are not both equivalent to k: x would then precede s[0]
      NotThrough(le, x, k, s[0]);
      assert e0 == [] || ex == [];
      assert e0 + (ex + rest) == ex + (e0 + rest);
    }
  }

  /** When a may not precede c, no b lies between them. */
  lemma NotThrough<T(!new)>(le: (T, T) -> bool, a: T, b: T, c: T)
    requires TotalPreorder(le) && !le(a, c)
    ensures !(le(a, b) && le(b, c))
  {
  }

  /** Stability: elements that compare equal keep their input order. */
  lemma {:induction false} SortByStable<T(!new)>(s: seq<T>, le: (T, T) -> bool, k: T)
    requires TotalPreorder(le)
    ensures EquivalentTo(SortBy(s, le), le, k) == EquivalentTo(s, le, k)
  {
    if s != [] {
      SortByStable(s[1..], le, k);
      EquivalentToInsert(s[0], SortBy(s[1..], le), le, k);
    }
  }

  lemma {:induction false} InsertMap<T, U>(x: T, s: seq<T>, f: T -> U, le: (T, T) -> bool, leU: (U, U) -> bool)
    requires forall a, b :: leU(f(a), f(b)) == le(a, b)
    ensures Insert(f(x), MapSeq(s, f), leU) == MapSeq(Insert(x, s, le), f)
  {
    if s == [] || le(x, s[0]) {
      assert ([x] + s)[1..] == s;
    } else {
      InsertMap(x, s[1..], f, le, leU);
      assert MapSeq(s, f)[1..] == MapSeq(s[1..], f);
      var t := Insert(x, s[1..], le);
      assert ([s[0]] + t)[1..] == t;
    }
  }

  /** Sorting commutes with a map that keeps the comparison. */
  lemma {:induction false} SortByMap<T, U>(s: seq<T>, f: T -> U, le: (T, T) -> bool, leU: (U, U) -> bool)
    requires forall a, b :: leU(f(a), f(b)) == le(a, b)
    ensures SortBy(MapSeq(s, f), leU) == MapSeq(SortBy(s, le), f)
  {
    if s != [] {
      SortByMap(s[1..], f, le, leU);
      assert MapSeq(s, f)[1..] == MapSeq(s[1..], f);
      InsertMap(s[0], SortBy(s[1..], le), f, le, leU);
    }
  }

  lemma {:induction false} InsertDistinct<T, K>(x: T, s: seq<T>, le: (T, T) -> bool, key: T -> K)
    requires DistinctBy(s, key)
    requires forall i :: 0 <= i < |s| ==> key(s[i]) != key(x)
    ensures DistinctBy(Insert(x, s, le), key)
  {
    if s == [] || le(x, s[0]) {
    } else {
      var t := Insert(x, s[1..], le);
      InsertDistinct(x, s[1..], le, key);
      forall j | 0 <= j < |t| ensures key(s[0]) != key(t[j]) {
        assert t[j] in multiset(t);
        if t[j] != x {
          assert t[j] in s[1..];
        }
      }
    }
  }

  /** Sorting keeps keys distinct (it only reorders). */
  lemma {:induction false} SortByDistinct<T, K>(s: seq<T>, le: (T, T) -> bool, key: T -> K)
    requires DistinctBy(s, key)
    ensures DistinctBy(SortBy(s, le), key)
  {
    if s != [] {
      var t := SortBy(s[1..], le);
      SortByDistinct(s[1..], le, key);
      forall i | 0 <= i < |t| ensures key(t[i]) != key(s[0]) {
        assert t[i] in multiset(t);
        assert t[i] in s[1..];
      }
      InsertDistinct(s[0], t, le, key);
    }
  }
}

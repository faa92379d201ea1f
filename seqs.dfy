/**
 * Array filtering as JavaScript's `Array.prototype.filter` and Python's
 * list comprehensions with a condition do it, and the set of keys of a list.
 */
module Seqs {
  import opened Sorting

  /** The elements of `s` satisfying `p`, in order. */
  function Filter<T(==,!new)>(s: seq<T>, p: T -> bool): (r: seq<T>)
    ensures |r| <= |s|
    ensures forall x :: x in r <==> x in s && p(x)
    decreases |s|
  {
    if s == [] then []
    else
      var rest := Filter(s[..|s| - 1], p);
      if p(s[|s| - 1]) then rest + [s[|s| - 1]] else rest
  }

  /** Filtering by a predicate and by its negation splits the list: every element lands in exactly one half. */
  lemma {:induction false} FilterPartition<T(!new)>(s: seq<T>, p: T -> bool, q: T -> bool)
    requires forall x :: q(x) == !p(x)
    ensures multiset(Filter(s, p)) + multiset(Filter(s, q)) == multiset(s)
    ensures |Filter(s, p)| + |Filter(s, q)| == |s|
    decreases |s|
  {
    if s != [] {
      var init, last := s[..|s| - 1], s[|s| - 1];
      FilterPartition(init, p, q);
      assert s == init + [last];
      assert multiset(s) == multiset(init) + multiset{last};
      var a, b := Filter(init, p), Filter(init, q);
      if p(last) {
        assert Filter(s, p) == a + [last] && Filter(s, q) == b;
        assert multiset(a + [last]) == multiset(a) + multiset{last};
      } else {
        assert Filter(s, p) == a && Filter(s, q) == b + [last];
        assert multiset(b + [last]) == multiset(b) + multiset{last};
      }
    }
  }

  /**
   * The filter keeps the elements at exactly the positions that pass, in their order:
   * `idx` lists those positions in increasing order and the result reads them off.
   */
  lemma {:induction false} FilterPositions<T(!new)>(s: seq<T>, p: T -> bool) returns (idx: seq<int>)
    ensures |idx| == |Filter(s, p)|
    ensures forall k :: 0 <= k < |idx| ==> 0 <= idx[k] < |s| && s[idx[k]] == Filter(s, p)[k]
    ensures forall k, l :: 0 <= k < l < |idx| ==> idx[k] < idx[l]
    ensures forall i :: 0 <= i < |s| ==> (p(s[i]) <==> i in idx)
    decreases |s|
  {
    if s == [] {
      idx := [];
    } else {
      var init, last := s[..|s| - 1], s[|s| - 1];
      var prev := FilterPositions(init, p);
      assert s == init + [last];
      idx := PositionsSnoc(init, last, p, Filter(init, p), prev);
    }
  }

  /** Positions `idx` of `s` pass `p`, exactly, in increasing order, and read off `r`. */
  ghost predicate PositionsOf<T>(s: seq<T>, p: T -> bool, r: seq<T>, idx: seq<int>) {
    && |idx| == |r|
    && (forall k :: 0 <= k < |idx| ==> 0 <= idx[k] < |s| && s[idx[k]] == r[k])
    && (forall k, l :: 0 <= k < l < |idx| ==> idx[k] < idx[l])
    && (forall i :: 0 <= i < |s| ==> (p(s[i]) <==> i in idx))
  }

  lemma PositionsSnoc<T>(init: seq<T>, last: T, p: T -> bool, rest: seq<T>, prev: seq<int>) returns (idx: seq<int>)
    requires PositionsOf(init, p, rest, prev)
    ensures PositionsOf(init + [last], p, rest + (if p(last) then [last] else []), idx)
  {
    var s := init + [last];
    var r := rest + (if p(last) then [last] else []);
    idx := prev + (if p(last) then [|init|] else []);
    forall k | 0 <= k < |idx| ensures 0 <= idx[k] < |s| && s[idx[k]] == r[k] {
      if k < |prev| {
        assert idx[k] == prev[k] && r[k] == rest[k];
        assert s[prev[k]] == init[prev[k]];
      }
    }
    forall k, l | 0 <= k < l < |idx| ensures idx[k] < idx[l] {
      if l < |prev| {
        assert idx[k] == prev[k] && idx[l] == prev[l];
      }
    }
    forall i | 0 <= i < |s| ensures p(s[i]) <==> i in idx {
      if i < |init| {
        assert s[i] == init[i];
        assert i in idx <==> i in prev;
      } else {
        assert i !in prev;
      }
    }
  }

  /** The filter keeps every copy of a passing element and no copy of a failing one. */
  lemma {:induction false} FilterCount<T(!new)>(s: seq<T>, p: T -> bool, x: T)
    ensures multiset(Filter(s, p))[x] == if p(x) then multiset(s)[x] else 0
    decreases |s|
  {
    if s != [] {
      var init, last := s[..|s| - 1], s[|s| - 1];
      FilterCount(init, p, x);
      assert s == init + [last];
      assert multiset(s) == multiset(init) + multiset{last};
      if p(last) {
        assert multiset(Filter(s, p)) == multiset(Filter(init, p)) + multiset{last};
      }
    }
  }

  /** Filtering a list with a new first element. */
  lemma {:induction false} FilterCons<T(!new)>(x: T, s: seq<T>, p: T -> bool)
    ensures Filter([x] + s, p) == (if p(x) then [x] else []) + Filter(s, p)
    decreases |s|
  {
    var xs := [x] + s;
    var pre := if p(x) then [x] else [];
    if s == [] {
      FilterLast(xs, p);
      assert xs[..|xs| - 1] == [];
    } else {
      var init, last := s[..|s| - 1], s[|s| - 1];
      FilterCons(x, init, p);
      FilterLast(xs, p);
      FilterLast(s, p);
      assert xs[..|xs| - 1] == [x] + init;
      AppendAssoc(pre, Filter(init, p), if p(last) then [last] else []);
    }
  }

  /** One unfolding of the filter at the last element. */
  lemma FilterLast<T(!new)>(s: seq<T>, p: T -> bool)
    requires s != []
    ensures Filter(s, p) == Filter(s[..|s| - 1], p) + (if p(s[|s| - 1]) then [s[|s| - 1]] else [])
  {
  }

  lemma AppendAssoc<T>(a: seq<T>, b: seq<T>, c: seq<T>)
    ensures (a + b) + c == a + (b + c)
  {
  }

  /** Filtering keeps keys distinct. */
  lemma {:induction false} FilterDistinct<T(!new), K>(s: seq<T>, p: T -> bool, key: T -> K)
    requires DistinctBy(s, key)
    ensures DistinctBy(Filter(s, p), key)
    decreases |s|
  {
    if s != [] {
      var init := s[..|s| - 1];
      assert DistinctBy(init, key) by {
        forall i, j | 0 <= i < j < |init| ensures key(init[i]) != key(init[j]) {
          assert init[i] == s[i] && init[j] == s[j];
        }
      }
      FilterDistinct(init, p, key);
      var rest := Filter(init, p);
      if p(s[|s| - 1]) {
        var r := rest + [s[|s| - 1]];
        forall i, j | 0 <= i < j < |r| ensures key(r[i]) != key(r[j]) {
          if j == |r| - 1 {
            assert r[i] in init;
            var k :| 0 <= k < |init| && init[k] == r[i];
            assert s[k] == r[i];
          } else {
            assert r[i] == rest[i] && r[j] == rest[j];
          }
        }
      }
    }
  }

  function KeySet<T(==,!new), K(==)>(s: seq<T>, key: T -> K): set<K> {
    set x | x in s :: key(x)
  }

  /** A list with distinct keys has as many keys as elements. */
  lemma {:induction false} DistinctKeyCount<T(!new), K>(s: seq<T>, key: T -> K)
    requires DistinctBy(s, key)
    ensures |KeySet(s, key)| == |s|
    decreases |s|
  {
    if s != [] {
      var init := s[..|s| - 1];
      var last := s[|s| - 1];
      assert DistinctBy(init, key) by {
        forall i, j | 0 <= i < j < |init| ensures key(init[i]) != key(init[j]) {
          assert init[i] == s[i] && init[j] == s[j];
        }
      }
      DistinctKeyCount(init, key);
      assert KeySet(s, key) == KeySet(init, key) + {key(last)} by {
        assert s == init + [last];
      }
      forall x | x in init ensures key(x) != key(last) {
        var k :| 0 <= k < |init| && init[k] == x;
        assert s[k] == x;
      }
    }
  }
}

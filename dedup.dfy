/**
 * Keeping the first row per participant.  Both `load` functions walk the
 * rows (newest date first) and put a row into a `Map` keyed by
 * participant only when the key is not there yet; the Map's values, in
 * insertion order, are the result.  Here the Map's key set is `seen` and
 * its values in insertion order are `kept`.
 */
module Dedup {
  import opened Sorting
  import opened Seqs

  /** The rows whose key does not occur earlier, in input order. */
  function FirstPerKey<T(==,!new), K(==)>(rows: seq<T>, key: T -> K): (r: seq<T>)
    ensures |r| <= |rows|
    ensures forall x :: x in r ==> x in rows
    decreases |rows|
  {
    if rows == [] then []
    else
      var init := rows[..|rows| - 1];
      var last := rows[|rows| - 1];
      if key(last) in KeySet(init, key) then FirstPerKey(init, key)
      else FirstPerKey(init, key) + [last]
  }

  /** The `forEach` loop filling the Map. */
  method KeepFirst<T(==,!new), K(==)>(rows: seq<T>, key: T -> K) returns (kept: seq<T>)
    ensures kept == FirstPerKey(rows, key)
  {
    var seen: set<K> := {};
    kept := [];
    for i := 0 to |rows|
      invariant seen == KeySet(rows[..i], key)
      invariant kept == FirstPerKey(rows[..i], key)
    {
      assert rows[..i + 1][..i] == rows[..i];
      assert KeySet(rows[..i + 1], key) == KeySet(rows[..i], key) + {key(rows[i])} by {
        assert rows[..i + 1] == rows[..i] + [rows[i]];
      }
      if key(rows[i]) !in seen {
        seen := seen + {key(rows[i])};
        kept := kept + [rows[i]];
      }
    }
    assert rows[..|rows|] == rows;
  }

  lemma KeySetSnoc<T(!new), K>(init: seq<T>, last: T, key: T -> K)
    ensures KeySet(init + [last], key) == KeySet(init, key) + {key(last)}
  {
    var s := init + [last];
    forall x | x in s ensures x in init || x == last {
      var k :| 0 <= k < |s| && s[k] == x;
      if k < |init| {
        assert init[k] == x;
      }
    }
  }

  /** The kept rows have the same keys as the input. */
  lemma {:induction false} FirstPerKeyKeys<T(!new), K>(rows: seq<T>, key: T -> K)
    ensures KeySet(FirstPerKey(rows, key), key) == KeySet(rows, key)
    decreases |rows|
  {
    if rows != [] {
      var init := rows[..|rows| - 1];
      var last := rows[|rows| - 1];
      assert rows == init + [last];
      FirstPerKeyKeys(init, key);
      KeySetSnoc(init, last, key);
      if key(last) !in KeySet(init, key) {
        KeySetSnoc(FirstPerKey(init, key), last, key);
      }
    }
  }

  /** No key is kept twice. */
  lemma {:induction false} FirstPerKeyDistinct<T(!new), K>(rows: seq<T>, key: T -> K)
    ensures DistinctBy(FirstPerKey(rows, key), key)
    decreases |rows|
  {
    if rows != [] {
      var init := rows[..|rows| - 1];
      var last := rows[|rows| - 1];
      FirstPerKeyDistinct(init, key);
      if key(last) !in KeySet(init, key) {
        var prev := FirstPerKey(init, key);
        var r := prev + [last];
        FirstPerKeyKeys(init, key);
        forall i, j | 0 <= i < j < |r| ensures key(r[i]) != key(r[j]) {
          if j == |r| - 1 {
            assert r[i] in prev;
          } else {
            assert r[i] == prev[i] && r[j] == prev[j];
          }
        }
      }
    }
  }

  /** Each kept row is the first row with its key. */
  lemma {:induction false} KeptIsFirst<T(!new), K>(rows: seq<T>, key: T -> K, x: T) returns (i: int)
    requires x in FirstPerKey(rows, key)
    ensures 0 <= i < |rows| && rows[i] == x
    ensures forall j :: 0 <= j < i ==> key(rows[j]) != key(x)
    decreases |rows|
  {
    var init := rows[..|rows| - 1];
    var last := rows[|rows| - 1];
    if x in FirstPerKey(init, key) {
      i := KeptIsFirst(init, key, x);
      assert rows[i] == init[i];
      forall j | 0 <= j < i ensures key(rows[j]) != key(x) {
        assert rows[j] == init[j];
      }
    } else {
      assert x == last && key(last) !in KeySet(init, key);
      i := |rows| - 1;
      forall j | 0 <= j < i ensures key(rows[j]) != key(x) {
        assert rows[j] == init[j] && init[j] in init;
      }
    }
  }

  /** The first row with each key is kept. */
  lemma {:induction false} FirstIsKept<T(!new), K>(rows: seq<T>, key: T -> K, i: int)
    requires 0 <= i < |rows|
    requires forall j :: 0 <= j < i ==> key(rows[j]) != key(rows[i])
    ensures rows[i] in FirstPerKey(rows, key)
    decreases |rows|
  {
    var init := rows[..|rows| - 1];
    var last := rows[|rows| - 1];
    if i < |rows| - 1 {
      assert init[i] == rows[i];
      forall j | 0 <= j < i ensures key(init[j]) != key(init[i]) {
        assert init[j] == rows[j];
      }
      FirstIsKept(init, key, i);
    } else {
      forall x | x in init ensures key(x) != key(last) {
        var j :| 0 <= j < |init| && init[j] == x;
        assert rows[j] == x;
      }
    }
  }

  /** The rows kept from a prefix of the input are a prefix of the rows kept from all of it. */
  lemma {:induction false} FirstPerKeyPrefix<T(!new), K>(rows: seq<T>, key: T -> K, n: int)
    requires 0 <= n <= |rows|
    ensures FirstPerKey(rows[..n], key) <= FirstPerKey(rows, key)
    decreases |rows|
  {
    if n == |rows| {
      assert rows[..n] == rows;
    } else {
      var init := rows[..|rows| - 1];
      FirstPerKeyPrefix(init, key, n);
      assert init[..n] == rows[..n];
    }
  }

  /** One row per distinct key. */
  lemma FirstPerKeyCount<T(!new), K>(rows: seq<T>, key: T -> K)
    ensures |FirstPerKey(rows, key)| == |KeySet(rows, key)|
  {
    FirstPerKeyDistinct(rows, key);
    FirstPerKeyKeys(rows, key);
    DistinctKeyCount(FirstPerKey(rows, key), key);
  }
}

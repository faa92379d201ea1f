/**
 * The ranking pipeline of `processLeaderboardData` (src/routes/+page.server.ts
 * and its simplified copy in verify_logic.ts), after each source has mapped
 * its rows to entries: split active from disqualified entries, rank the
 * active ones by profit and by points, order the active ones by points and
 * append the disqualified ones with the sentinel rank 999.
 *
 * Entries are generic in the data they carry along (`info`), so that both
 * callers share one definition.
 */
module Ranking {
  import opened Sorting
  import opened Seqs

  datatype Entry<T> = Entry(id: string, points: real, profit: real, isDisqualified: bool, info: T)

  datatype Ranked<T> = Ranked(entry: Entry<T>, rankProfit: int, rankPoints: int)

  /** The rank both rankings give a disqualified entry. */
  const DisqualifiedRank := 999

  function IdOf<T>(e: Entry<T>): string { e.id }

  function EntryOf<T>(r: Ranked<T>): Entry<T> { r.entry }

  predicate Active<T>(e: Entry<T>) { !e.isDisqualified }

  predicate Disqualified<T>(e: Entry<T>) { e.isDisqualified }

  /** Comparator `(a, b) => b.profit - a.profit`: a may stay before b when its profit is not smaller. */
  predicate ProfitFirst<T>(a: Entry<T>, b: Entry<T>) { a.profit >= b.profit }

  /** Comparator `(a, b) => b.points - a.points`. */
  predicate PointsFirst<T>(a: Entry<T>, b: Entry<T>) { a.points >= b.points }

  predicate RankedPointsFirst<T>(a: Ranked<T>, b: Ranked<T>) { a.entry.points >= b.entry.points }

  /**
   * `new Map(sorted.map((e, i) => [e.id, i + 1]))`: later pairs overwrite earlier ones,
   * so an id gets the position of its last occurrence.
   */
  function RankMap<T>(sorted: seq<Entry<T>>): (r: map<string, int>)
    ensures forall i :: 0 <= i < |sorted| ==> sorted[i].id in r
    ensures forall k :: k in r ==> 1 <= r[k] <= |sorted|
    decreases |sorted|
  {
    if sorted == [] then map[]
    else RankMap(sorted[..|sorted| - 1])[sorted[|sorted| - 1].id := |sorted|]
  }

  /** With distinct ids, the rank of the entry at position i is i + 1. */
  lemma {:induction false} RankMapPosition<T>(sorted: seq<Entry<T>>, i: int)
    requires DistinctBy(sorted, IdOf) && 0 <= i < |sorted|
    ensures RankMap(sorted)[sorted[i].id] == i + 1
    decreases |sorted|
  {
    var n := |sorted| - 1;
    if i < n {
      var init := sorted[..n];
      assert DistinctBy(init, IdOf) by {
        forall a, b | 0 <= a < b < |init| ensures IdOf(init[a]) != IdOf(init[b]) {
          assert init[a] == sorted[a] && init[b] == sorted[b];
        }
      }
      assert init[i] == sorted[i];
      assert IdOf(sorted[i]) != IdOf(sorted[n]);
      RankMapPosition(init, i);
    }
  }

  lemma RankMapCovers<T(!new)>(sorted: seq<Entry<T>>, s: seq<Entry<T>>)
    requires multiset(sorted) == multiset(s)
    ensures forall i :: 0 <= i < |s| ==> s[i].id in RankMap(sorted)
  {
    forall i | 0 <= i < |s| ensures s[i].id in RankMap(sorted) {
      assert s[i] in multiset(sorted);
      var j :| 0 <= j < |sorted| && sorted[j] == s[i];
    }
  }

  function ActiveOf<T(==,!new)>(mapped: seq<Entry<T>>): seq<Entry<T>> { Filter(mapped, Active) }

  function DisqualifiedOf<T(==,!new)>(mapped: seq<Entry<T>>): seq<Entry<T>> { Filter(mapped, Disqualified) }

  /** Steps 3: the rank of each id in the active entries sorted by `le`. */
  function Ranks<T(==,!new)>(active: seq<Entry<T>>, le: (Entry<T>, Entry<T>) -> bool): (r: map<string, int>)
    ensures forall i :: 0 <= i < |active| ==> active[i].id in r
  {
    RankMapCovers(SortBy(active, le), active);
    RankMap(SortBy(active, le))
  }

  function ProfitRanks<T(==,!new)>(active: seq<Entry<T>>): (r: map<string, int>)
    ensures forall i :: 0 <= i < |active| ==> active[i].id in r
  {
    Ranks(active, ProfitFirst)
  }

  function PointsRanks<T(==,!new)>(active: seq<Entry<T>>): (r: map<string, int>)
    ensures forall i :: 0 <= i < |active| ==> active[i].id in r
  {
    Ranks(active, PointsFirst)
  }

  /** Step 4: each active entry with its two ranks looked up by id. */
  function WithRanks<T(==,!new)>(active: seq<Entry<T>>): (r: seq<Ranked<T>>)
    ensures |r| == |active|
    ensures forall i :: 0 <= i < |r| ==>
      r[i] == Ranked(active[i], ProfitRanks(active)[active[i].id], PointsRanks(active)[active[i].id])
  {
    seq(|active|, i requires 0 <= i < |active| =>
      Ranked(active[i], ProfitRanks(active)[active[i].id], PointsRanks(active)[active[i].id]))
  }

  function WithSentinelRank<T>(e: Entry<T>): Ranked<T> {
    Ranked(e, DisqualifiedRank, DisqualifiedRank)
  }

  /** processLeaderboardData after the mapping step. */
  function Process<T(==,!new)>(mapped: seq<Entry<T>>): seq<Ranked<T>> {
    SortBy(WithRanks(ActiveOf(mapped)), RankedPointsFirst)
      + MapSeq(DisqualifiedOf(mapped), WithSentinelRank)
  }

  // ---------------------------------------------------------------------
  // Shape of the result
  // ---------------------------------------------------------------------

  lemma RankedOrderIsPreorder<T(!new)>()
    ensures TotalPreorder(RankedPointsFirst<T>)
    ensures TotalPreorder(ProfitFirst<T>) && TotalPreorder(PointsFirst<T>)
  {
  }

  lemma MapSeqAppend<T, U>(a: seq<T>, b: seq<T>, f: T -> U)
    ensures MapSeq(a + b, f) == MapSeq(a, f) + MapSeq(b, f)
  {
  }

  lemma SortedEntries<T(!new)>(active: seq<Entry<T>>)
    ensures MapSeq(SortBy(WithRanks(active), RankedPointsFirst), EntryOf) == SortBy(active, PointsFirst)
  {
    var w := WithRanks(active);
    assert MapSeq(w, EntryOf) == active;
    SortByMap(w, EntryOf, RankedPointsFirst, PointsFirst);
  }

  /** The result has the input's entries, each once: active entries first, then the disqualified ones in input order. */
  lemma ProcessIsPermutation<T(!new)>(mapped: seq<Entry<T>>)
    ensures var r := Process(mapped);
      |r| == |mapped| &&
      multiset(MapSeq(r, EntryOf)) == multiset(mapped) &&
      MapSeq(r[..|ActiveOf(mapped)|], EntryOf) == SortBy(ActiveOf(mapped), PointsFirst) &&
      MapSeq(r[|ActiveOf(mapped)|..], EntryOf) == DisqualifiedOf(mapped)
  {
    var active, disq := ActiveOf(mapped), DisqualifiedOf(mapped);
    var sorted := SortBy(WithRanks(active), RankedPointsFirst);
    var tail := MapSeq(disq, WithSentinelRank);
    var r := Process(mapped);
    assert r == sorted + tail;
    FilterPartition(mapped, Active, Disqualified);
    assert r[..|active|] == sorted && r[|active|..] == tail;
    assert MapSeq(tail, EntryOf) == disq;
    SortedEntries(active);
    MapSeqAppend(sorted, tail, EntryOf);
    assert multiset(SortBy(active, PointsFirst)) == multiset(active);
  }

  /** The active prefix of the result lists the active entries sorted by points. */
  lemma ProcessPrefix<T(!new)>(mapped: seq<Entry<T>>, i: int)
    requires 0 <= i < |ActiveOf(mapped)|
    ensures i < |Process(mapped)| && Process(mapped)[i].entry == SortBy(ActiveOf(mapped), PointsFirst)[i]
  {
    var n := |ActiveOf(mapped)|;
    ProcessIsPermutation(mapped);
    assert Process(mapped)[..n][i] == Process(mapped)[i];
  }

  /** Behind the prefix come the disqualified entries, in input order, with the sentinel rank. */
  lemma ProcessTail<T(!new)>(mapped: seq<Entry<T>>, i: int)
    requires |ActiveOf(mapped)| <= i < |Process(mapped)|
    ensures Process(mapped)[i] == WithSentinelRank(DisqualifiedOf(mapped)[i - |ActiveOf(mapped)|])
  {
    var sorted := SortBy(WithRanks(ActiveOf(mapped)), RankedPointsFirst);
    assert |sorted| == |ActiveOf(mapped)|;
  }

  lemma SortedByPoints<T(!new)>(s: seq<Entry<T>>)
    ensures forall i, j :: 0 <= i < j < |s| ==> SortBy(s, PointsFirst)[i].points >= SortBy(s, PointsFirst)[j].points
  {
    RankedOrderIsPreorder<T>();
    SortBySorted(s, PointsFirst);
  }

  /**
   * Active entries come first and are ordered by points, non-increasing; every entry
   * after them is disqualified and carries rank 999 in both rankings.
   */
  lemma ProcessOrder<T(!new)>(mapped: seq<Entry<T>>)
    ensures var r := Process(mapped);
      var n := |ActiveOf(mapped)|;
      n <= |r| &&
      (forall i :: 0 <= i < n ==> !r[i].entry.isDisqualified) &&
      (forall i, j :: 0 <= i < j < n ==> r[i].entry.points >= r[j].entry.points) &&
      (forall i :: n <= i < |r| ==>
        r[i].entry.isDisqualified && r[i].rankProfit == DisqualifiedRank && r[i].rankPoints == DisqualifiedRank)
  {
    var r := Process(mapped);
    var n := |ActiveOf(mapped)|;
    assert n <= |r| by {
      assert |SortBy(WithRanks(ActiveOf(mapped)), RankedPointsFirst)| == n;
    }
    forall i | 0 <= i < n ensures !r[i].entry.isDisqualified {
      PrefixIsActive(mapped, i);
    }
    PrefixByPoints(mapped);
    forall i | n <= i < |r|
      ensures r[i].entry.isDisqualified && r[i].rankProfit == DisqualifiedRank && r[i].rankPoints == DisqualifiedRank
    {
      TailIsDisqualified(mapped, i);
    }
  }

  lemma PrefixByPoints<T(!new)>(mapped: seq<Entry<T>>)
    ensures var r := Process(mapped);
      var n := |ActiveOf(mapped)|;
      n <= |r| && forall i, j :: 0 <= i < j < n ==> r[i].entry.points >= r[j].entry.points
  {
    var n := |ActiveOf(mapped)|;
    var sorted := SortBy(ActiveOf(mapped), PointsFirst);
    SortedByPoints(ActiveOf(mapped));
    forall i, j | 0 <= i < j < n ensures Process(mapped)[i].entry.points >= Process(mapped)[j].entry.points {
      ProcessPrefix(mapped, i);
      ProcessPrefix(mapped, j);
      assert sorted[i].points >= sorted[j].points;
    }
  }

  lemma TailIsDisqualified<T(!new)>(mapped: seq<Entry<T>>, i: int)
    requires |ActiveOf(mapped)| <= i < |Process(mapped)|
    ensures var e := Process(mapped)[i];
      e.entry.isDisqualified && e.rankProfit == DisqualifiedRank && e.rankPoints == DisqualifiedRank
  {
    var disq := DisqualifiedOf(mapped);
    ProcessTail(mapped, i);
    assert disq[i - |ActiveOf(mapped)|] in disq;
  }

  lemma PrefixIsActive<T(!new)>(mapped: seq<Entry<T>>, i: int)
    requires 0 <= i < |ActiveOf(mapped)|
    ensures i < |Process(mapped)| && !Process(mapped)[i].entry.isDisqualified
  {
    var active := ActiveOf(mapped);
    var prefix := SortBy(active, PointsFirst);
    ProcessPrefix(mapped, i);
    assert prefix[i] in multiset(active);
    assert prefix[i] in active;
  }

  // ---------------------------------------------------------------------
  // Ranks of the active entries
  // ---------------------------------------------------------------------

  /** With distinct ids, an entry's rank is one more than its position in the sorted list. */
  lemma RankIsPosition<T(!new)>(active: seq<Entry<T>>, le: (Entry<T>, Entry<T>) -> bool, i: int) returns (a: int)
    requires TotalPreorder(le) && DistinctBy(active, IdOf) && 0 <= i < |active|
    ensures 0 <= a < |active| && SortBy(active, le)[a] == active[i] && Ranks(active, le)[active[i].id] == a + 1
  {
    var p := SortBy(active, le);
    SortByDistinct(active, le, IdOf);
    assert active[i] in multiset(p);
    a :| 0 <= a < |p| && p[a] == active[i];
    RankMapPosition(p, a);
  }

  /** Ranks lie in 1..n. */
  lemma RanksInRange<T(!new)>(active: seq<Entry<T>>, le: (Entry<T>, Entry<T>) -> bool, i: int)
    requires TotalPreorder(le) && DistinctBy(active, IdOf) && 0 <= i < |active|
    ensures 1 <= Ranks(active, le)[active[i].id] <= |active|
  {
    var a := RankIsPosition(active, le, i);
  }

  /** Distinct entries get distinct ranks. */
  lemma RanksDistinct<T(!new)>(active: seq<Entry<T>>, le: (Entry<T>, Entry<T>) -> bool, i: int, j: int)
    requires TotalPreorder(le) && DistinctBy(active, IdOf)
    requires 0 <= i < |active| && 0 <= j < |active| && i != j
    ensures Ranks(active, le)[active[i].id] != Ranks(active, le)[active[j].id]
  {
    var a := RankIsPosition(active, le, i);
    var b := RankIsPosition(active, le, j);
    assert IdOf(active[i]) != IdOf(active[j]);
  }

  /** Every rank in 1..n is taken. */
  lemma RanksCovered<T(!new)>(active: seq<Entry<T>>, le: (Entry<T>, Entry<T>) -> bool, k: int) returns (i: int)
    requires TotalPreorder(le) && DistinctBy(active, IdOf) && 1 <= k <= |active|
    ensures 0 <= i < |active| && Ranks(active, le)[active[i].id] == k
  {
    var p := SortBy(active, le);
    SortByDistinct(active, le, IdOf);
    assert p[k - 1] in multiset(active);
    i :| 0 <= i < |active| && active[i] == p[k - 1];
    RankMapPosition(p, k - 1);
  }

  /** An entry that must come before another (the other may not precede it) has the smaller rank. */
  lemma RanksFollowOrder<T(!new)>(active: seq<Entry<T>>, le: (Entry<T>, Entry<T>) -> bool, i: int, j: int)
    requires TotalPreorder(le) && DistinctBy(active, IdOf)
    requires 0 <= i < |active| && 0 <= j < |active| && !le(active[j], active[i])
    ensures Ranks(active, le)[active[i].id] < Ranks(active, le)[active[j].id]
  {
    var p := SortBy(active, le);
    SortBySorted(active, le);
    var a := RankIsPosition(active, le, i);
    var b := RankIsPosition(active, le, j);
    SortedIndexOrder(p, le, a, b);
  }

  /** In a sorted list, an element that the other may not precede sits strictly before it. */
  lemma SortedIndexOrder<T(!new)>(p: seq<T>, le: (T, T) -> bool, a: int, b: int)
    requires TotalPreorder(le) && SortedBy(p, le)
    requires 0 <= a < |p| && 0 <= b < |p| && !le(p[b], p[a])
    ensures a < b
  {
    assert le(p[a], p[a]);
  }

  // ---------------------------------------------------------------------
  // Ranks in the result
  // ---------------------------------------------------------------------

  lemma ActiveDistinct<T(!new)>(mapped: seq<Entry<T>>)
    requires DistinctBy(mapped, IdOf)
    ensures DistinctBy(ActiveOf(mapped), IdOf)
  {
    FilterDistinct(mapped, Active, IdOf);
  }

  /** Each row of the active prefix is some active entry with its two looked-up ranks. */
  lemma PrefixElement<T(!new)>(mapped: seq<Entry<T>>, i: int) returns (k: int)
    requires 0 <= i < |ActiveOf(mapped)|
    ensures var active := ActiveOf(mapped);
      0 <= k < |active| && i < |Process(mapped)| &&
      Process(mapped)[i] == Ranked(active[k], ProfitRanks(active)[active[k].id], PointsRanks(active)[active[k].id])
  {
    var active := ActiveOf(mapped);
    var w := WithRanks(active);
    var sorted := SortBy(w, RankedPointsFirst);
    assert Process(mapped)[i] == sorted[i];
    assert sorted[i] in multiset(w);
    k :| 0 <= k < |w| && w[k] == sorted[i];
  }

  /** Every active entry appears in the prefix. */
  lemma PrefixCovers<T(!new)>(mapped: seq<Entry<T>>, k: int) returns (i: int)
    requires 0 <= k < |ActiveOf(mapped)|
    ensures var active := ActiveOf(mapped);
      0 <= i < |active| && i < |Process(mapped)| &&
      Process(mapped)[i] == Ranked(active[k], ProfitRanks(active)[active[k].id], PointsRanks(active)[active[k].id])
  {
    var active := ActiveOf(mapped);
    var w := WithRanks(active);
    var sorted := SortBy(w, RankedPointsFirst);
    assert w[k] in multiset(sorted);
    i :| 0 <= i < |sorted| && sorted[i] == w[k];
    assert Process(mapped)[i] == sorted[i];
  }

  function RankedId<T>(r: Ranked<T>): string { r.entry.id }

  /** Distinct positions of the prefix hold distinct participants. */
  lemma PrefixIdsDistinct<T(!new)>(mapped: seq<Entry<T>>, i: int, j: int)
    requires DistinctBy(mapped, IdOf)
    requires 0 <= i < |ActiveOf(mapped)| && 0 <= j < |ActiveOf(mapped)| && i != j
    ensures Process(mapped)[i].entry.id != Process(mapped)[j].entry.id
  {
    var active := ActiveOf(mapped);
    var w := WithRanks(active);
    ActiveDistinct(mapped);
    assert DistinctBy(w, RankedId) by {
      forall a, b | 0 <= a < b < |w| ensures RankedId(w[a]) != RankedId(w[b]) {
        assert IdOf(active[a]) != IdOf(active[b]);
      }
    }
    SortByDistinct(w, RankedPointsFirst, RankedId);
    var sorted := SortBy(w, RankedPointsFirst);
    assert Process(mapped)[i] == sorted[i] && Process(mapped)[j] == sorted[j];
    assert RankedId(sorted[i]) != RankedId(sorted[j]);
  }

  /** The profit or the points ranking, with its sort order and its key. */
  function RankOf<T>(x: Ranked<T>, byProfit: bool): int {
    if byProfit then x.rankProfit else x.rankPoints
  }

  function KeyOf<T>(e: Entry<T>, byProfit: bool): real {
    if byProfit then e.profit else e.points
  }

  function OrderOf<T>(byProfit: bool): (Entry<T>, Entry<T>) -> bool {
    if byProfit then ProfitFirst else PointsFirst
  }

  /** The ranks the first n rows carry in one ranking. */
  function RankSet<T>(r: seq<Ranked<T>>, n: int, byProfit: bool): (ks: set<int>)
    requires 0 <= n <= |r|
    ensures forall i :: 0 <= i < n ==> RankOf(r[i], byProfit) in ks
  {
    set i | 0 <= i < n :: RankOf(r[i], byProfit)
  }

  lemma PrefixRank<T(!new)>(mapped: seq<Entry<T>>, i: int, byProfit: bool) returns (k: int)
    requires 0 <= i < |ActiveOf(mapped)|
    ensures var active := ActiveOf(mapped);
      0 <= k < |active| && i < |Process(mapped)| && Process(mapped)[i].entry == active[k] &&
      RankOf(Process(mapped)[i], byProfit) == Ranks(active, OrderOf(byProfit))[active[k].id]
  {
    k := PrefixElement(mapped, i);
  }

  lemma RankInRange<T(!new)>(mapped: seq<Entry<T>>, i: int, byProfit: bool)
    requires DistinctBy(mapped, IdOf) && 0 <= i < |ActiveOf(mapped)|
    ensures 1 <= RankOf(Process(mapped)[i], byProfit) <= |ActiveOf(mapped)|
  {
    ActiveDistinct(mapped);
    RankedOrderIsPreorder<T>();
    var k := PrefixRank(mapped, i, byProfit);
    RanksInRange(ActiveOf(mapped), OrderOf(byProfit), k);
  }

  lemma RankDistinct<T(!new)>(mapped: seq<Entry<T>>, i: int, j: int, byProfit: bool)
    requires DistinctBy(mapped, IdOf)
    requires 0 <= i < |ActiveOf(mapped)| && 0 <= j < |ActiveOf(mapped)| && i != j
    ensures RankOf(Process(mapped)[i], byProfit) != RankOf(Process(mapped)[j], byProfit)
  {
    ActiveDistinct(mapped);
    RankedOrderIsPreorder<T>();
    var a := PrefixRank(mapped, i, byProfit);
    var b := PrefixRank(mapped, j, byProfit);
    PrefixIdsDistinct(mapped, i, j);
    RanksDistinct(ActiveOf(mapped), OrderOf(byProfit), a, b);
  }

  lemma RankTaken<T(!new)>(mapped: seq<Entry<T>>, k: int, byProfit: bool) returns (i: int)
    requires DistinctBy(mapped, IdOf) && 1 <= k <= |ActiveOf(mapped)|
    ensures 0 <= i < |ActiveOf(mapped)| && i < |Process(mapped)| && RankOf(Process(mapped)[i], byProfit) == k
  {
    ActiveDistinct(mapped);
    RankedOrderIsPreorder<T>();
    var a := RanksCovered(ActiveOf(mapped), OrderOf(byProfit), k);
    i := PrefixCovers(mapped, a);
  }

  lemma RankFollowsKey<T(!new)>(mapped: seq<Entry<T>>, i: int, j: int, byProfit: bool)
    requires DistinctBy(mapped, IdOf)
    requires 0 <= i < |ActiveOf(mapped)| && 0 <= j < |ActiveOf(mapped)|
    requires KeyOf(Process(mapped)[i].entry, byProfit) > KeyOf(Process(mapped)[j].entry, byProfit)
    ensures RankOf(Process(mapped)[i], byProfit) < RankOf(Process(mapped)[j], byProfit)
  {
    ActiveDistinct(mapped);
    RankedOrderIsPreorder<T>();
    var a := PrefixRank(mapped, i, byProfit);
    var b := PrefixRank(mapped, j, byProfit);
    RanksFollowOrder(ActiveOf(mapped), OrderOf(byProfit), a, b);
  }

  /**
   * With distinct ids, the active entries' ranks in either ranking are exactly 1..n,
   * one each, and a strictly larger key (profit, or points) means a strictly smaller rank.
   */
  lemma RanksExact<T(!new)>(mapped: seq<Entry<T>>, byProfit: bool)
    requires DistinctBy(mapped, IdOf)
    ensures var r := Process(mapped);
      var n := |ActiveOf(mapped)|;
      n <= |r| &&
      (forall i :: 0 <= i < n ==> 1 <= RankOf(r[i], byProfit) <= n) &&
      (forall i, j :: 0 <= i < n && 0 <= j < n && i != j ==> RankOf(r[i], byProfit) != RankOf(r[j], byProfit)) &&
      (forall k :: 1 <= k <= n ==> k in RankSet(r, n, byProfit)) &&
      (forall i, j :: 0 <= i < n && 0 <= j < n && KeyOf(r[i].entry, byProfit) > KeyOf(r[j].entry, byProfit) ==>
        RankOf(r[i], byProfit) < RankOf(r[j], byProfit))
  {
    var r := Process(mapped);
    var n := |ActiveOf(mapped)|;
    ProcessOrder(mapped);
    forall i | 0 <= i < n ensures 1 <= RankOf(r[i], byProfit) <= n {
      RankInRange(mapped, i, byProfit);
    }
    forall i, j | 0 <= i < n && 0 <= j < n && i != j ensures RankOf(r[i], byProfit) != RankOf(r[j], byProfit) {
      RankDistinct(mapped, i, j, byProfit);
    }
    forall k | 1 <= k <= n ensures k in RankSet(r, n, byProfit) {
      var i := RankTaken(mapped, k, byProfit);
    }
    forall i, j | 0 <= i < n && 0 <= j < n && KeyOf(r[i].entry, byProfit) > KeyOf(r[j].entry, byProfit)
      ensures RankOf(r[i], byProfit) < RankOf(r[j], byProfit)
    {
      RankFollowsKey(mapped, i, j, byProfit);
    }
  }

  // ---------------------------------------------------------------------
  // Where each entry ends up
  // ---------------------------------------------------------------------

  /** Every entry lands in exactly one of the active and the disqualified lists. */
  lemma PartitionExact<T(!new)>(mapped: seq<Entry<T>>, e: Entry<T>)
    requires e in mapped
    ensures (e in ActiveOf(mapped)) != (e in DisqualifiedOf(mapped))
    ensures e in ActiveOf(mapped) <==> !e.isDisqualified
  {
  }

  /**
   * Each entry of the input appears in the result with its own data; it sits in the
   * active prefix exactly when it is not disqualified, and a disqualified entry carries
   * rank 999 in both rankings.
   */
  lemma Placement<T(!new)>(mapped: seq<Entry<T>>, e: Entry<T>) returns (k: int)
    requires e in mapped
    ensures 0 <= k < |Process(mapped)| && Process(mapped)[k].entry == e
    ensures k < |ActiveOf(mapped)| <==> !e.isDisqualified
    ensures e.isDisqualified ==>
      Process(mapped)[k].rankProfit == DisqualifiedRank && Process(mapped)[k].rankPoints == DisqualifiedRank
  {
    var r := Process(mapped);
    ProcessIsPermutation(mapped);
    var entries := MapSeq(r, EntryOf);
    assert e in multiset(entries);
    k :| 0 <= k < |entries| && entries[k] == e;
    ProcessOrder(mapped);
  }
}

/**
 * The simplified ranking pipeline of verify_logic.ts: a row is disqualified
 * when its equity is at or below zero, and the equity travels with the entry.
 * Its worked example (traders A, B, C, D) is checked here as a lemma.
 */
module VerifyLogic {
  import opened Sorting
  import opened Seqs
  import opened Ranking

  datatype TestRow = TestRow(id: string, points: real, profit: real, equity: real)

  /** Step 1: the equity rule ("port blown"). */
  function FromTestRow(row: TestRow): (e: Entry<real>)
    ensures e.id == row.id && e.points == row.points && e.profit == row.profit && e.info == row.equity
  {
    Entry(row.id, row.points, row.profit, row.equity <= 0.0, row.equity)
  }

  function ProcessRows(data: seq<TestRow>): seq<Ranked<real>> {
    Process(MapSeq(data, FromTestRow))
  }

  /**
   * Every row appears in the result, in the ranked part exactly when its equity is positive;
   * a row whose equity is at or below zero has rank 999 in both rankings.
   */
  lemma EquityRule(data: seq<TestRow>, i: int) returns (k: int)
    requires 0 <= i < |data|
    ensures var r := ProcessRows(data);
      0 <= k < |r| && r[k].entry == FromTestRow(data[i]) &&
      (k < |ActiveOf(MapSeq(data, FromTestRow))| <==> data[i].equity > 0.0) &&
      r[k].entry.isDisqualified == (data[i].equity <= 0.0) &&
      (data[i].equity <= 0.0 ==> r[k].rankProfit == DisqualifiedRank && r[k].rankPoints == DisqualifiedRank)
  {
    var mapped := MapSeq(data, FromTestRow);
    assert mapped[i] == FromTestRow(data[i]);
    k := Placement(mapped, FromTestRow(data[i]));
  }

  const TestData := [
    TestRow("A", 50.0, 100.0, 1000.0),
    TestRow("B", 40.0, 200.0, 1000.0),
    TestRow("C", 500.0, 500.0, -10.0),
    TestRow("D", 60.0, 300.0, 1000.0)
  ]

  const EA: Entry<real> := Entry("A", 50.0, 100.0, false, 1000.0)
  const EB: Entry<real> := Entry("B", 40.0, 200.0, false, 1000.0)
  const EC: Entry<real> := Entry("C", 500.0, 500.0, true, -10.0)
  const ED: Entry<real> := Entry("D", 60.0, 300.0, false, 1000.0)

  lemma ExampleMapped()
    ensures MapSeq(TestData, FromTestRow) == [EA, EB, EC, ED]
  {
  }

  lemma ExampleSplit()
    ensures ActiveOf([EA, EB, EC, ED]) == [EA, EB, ED] && DisqualifiedOf([EA, EB, EC, ED]) == [EC]
  {
    var mapped := [EA, EB, EC, ED];
    assert mapped[..3] == [EA, EB, EC] && [EA, EB, EC][..2] == [EA, EB] && [EA, EB][..1] == [EA];
    assert !Active(EC) && Active(EA) && Active(EB) && Active(ED);
    assert Filter([], Active<real>) == [];
    assert Filter([EA], Active) == [EA];
    assert Filter([EA, EB], Active) == [EA, EB];
    assert Filter([EA, EB, EC], Active) == [EA, EB];
    assert Filter([], Disqualified<real>) == [];
    assert Filter([EA], Disqualified) == [];
    assert Filter([EA, EB], Disqualified) == [];
    assert Filter([EA, EB, EC], Disqualified) == [EC];
  }

  lemma ExampleProfitSort()
    ensures SortBy([EA, EB, ED], ProfitFirst) == [ED, EB, EA]
  {
    assert [EA, EB, ED][1..] == [EB, ED] && [EB, ED][1..] == [ED];
    assert SortBy([ED], ProfitFirst) == [ED];
    assert SortBy([EB, ED], ProfitFirst) == [ED, EB];
    ExampleProfitInsert();
  }

  lemma ExampleProfitInsert()
    ensures Insert(EA, [ED, EB], ProfitFirst) == [ED, EB, EA]
  {
    assert [ED, EB][1..] == [EB] && [EB][1..] == [];
    assert Insert(EA, [EB], ProfitFirst) == [EB, EA];
  }

  lemma ExamplePointsSort()
    ensures SortBy([EA, EB, ED], PointsFirst) == [ED, EA, EB]
  {
    assert !PointsFirst(EB, ED) && !PointsFirst(EA, ED) && PointsFirst(EA, EB);
    SortThree(EA, EB, ED, PointsFirst);
  }

  lemma ExampleRankMaps()
    ensures RankMap([ED, EB, EA]) == map["D" := 1, "B" := 2, "A" := 3]
    ensures RankMap([ED, EA, EB]) == map["D" := 1, "A" := 2, "B" := 3]
  {
    assert RankMap([ED]) == map["D" := 1];
    assert [ED, EB][..1] == [ED] && [ED, EA][..1] == [ED];
    assert RankMap([ED, EB]) == map["D" := 1, "B" := 2];
    assert RankMap([ED, EA]) == map["D" := 1, "A" := 2];
    assert [ED, EB, EA][..2] == [ED, EB] && [ED, EA, EB][..2] == [ED, EA];
  }

  lemma ExampleProfitRanks()
    ensures ProfitRanks([EA, EB, ED]) == map["D" := 1, "B" := 2, "A" := 3]
  {
    ExampleProfitSort();
    ExampleRankMaps();
  }

  lemma ExamplePointsRanks()
    ensures PointsRanks([EA, EB, ED]) == map["D" := 1, "A" := 2, "B" := 3]
  {
    ExamplePointsSort();
    ExampleRankMaps();
  }

  lemma ExampleOrder()
    ensures SortBy([Ranked(EA, 3, 2), Ranked(EB, 2, 3), Ranked(ED, 1, 1)], RankedPointsFirst)
      == [Ranked(ED, 1, 1), Ranked(EA, 3, 2), Ranked(EB, 2, 3)]
  {
    var ra, rb, rd := Ranked(EA, 3, 2), Ranked(EB, 2, 3), Ranked(ED, 1, 1);
    assert !RankedPointsFirst(rb, rd) && !RankedPointsFirst(ra, rd) && RankedPointsFirst(ra, rb);
    SortThree(ra, rb, rd, RankedPointsFirst);
  }

  /** Sorting three elements when the last leads and the first may precede the second. */
  lemma SortThree<T>(a: T, b: T, d: T, le: (T, T) -> bool)
    requires !le(b, d) && !le(a, d) && le(a, b)
    ensures SortBy([a, b, d], le) == [d, a, b]
  {
    SortTwo(b, d, le);
    SortByCons(a, [b, d], le);
    assert [a] + [b, d] == [a, b, d];
    InsertSecond(a, d, b, le);
  }

  lemma SortTwo<T>(b: T, d: T, le: (T, T) -> bool)
    requires !le(b, d)
    ensures SortBy([b, d], le) == [d, b]
  {
    SortByCons(d, [], le);
    assert [d] == [d] + [];
    SortByCons(b, [d], le);
    assert [b] + [d] == [b, d];
    InsertCons(b, d, [], le);
  }

  lemma InsertSecond<T>(a: T, d: T, b: T, le: (T, T) -> bool)
    requires !le(a, d) && le(a, b)
    ensures Insert(a, [d, b], le) == [d, a, b]
  {
    assert [d, b][0] == d && [d, b][1..] == [b];
    assert Insert(a, [b], le) == [a] + [b];
  }

  lemma ExampleWithRanks()
    ensures WithRanks([EA, EB, ED]) == [Ranked(EA, 3, 2), Ranked(EB, 2, 3), Ranked(ED, 1, 1)]
  {
    ExampleProfitRanks();
    ExamplePointsRanks();
  }

  lemma ExampleProcess()
    ensures Process([EA, EB, EC, ED]) == [Ranked(ED, 1, 1), Ranked(EA, 3, 2), Ranked(EB, 2, 3), Ranked(EC, 999, 999)]
  {
    ExampleSplit();
    ExampleWithRanks();
    ExampleOrder();
    ExampleTail();
    ProcessFrom([EA, EB, EC, ED], [EA, EB, ED], [EC],
                [Ranked(EA, 3, 2), Ranked(EB, 2, 3), Ranked(ED, 1, 1)],
                [Ranked(ED, 1, 1), Ranked(EA, 3, 2), Ranked(EB, 2, 3)], [Ranked(EC, 999, 999)]);
  }

  lemma ExampleTail()
    ensures MapSeq([EC], WithSentinelRank) == [Ranked(EC, 999, 999)]
  {
  }

  /** Process assembled from its stages. */
  lemma ProcessFrom<T(!new)>(m: seq<Entry<T>>, active: seq<Entry<T>>, disq: seq<Entry<T>>,
                                ranked: seq<Ranked<T>>, sorted: seq<Ranked<T>>, tail: seq<Ranked<T>>)
    requires ActiveOf(m) == active && DisqualifiedOf(m) == disq
    requires WithRanks(active) == ranked && SortBy(ranked, RankedPointsFirst) == sorted
    requires MapSeq(disq, WithSentinelRank) == tail
    ensures Process(m) == sorted + tail
  {
  }

  /**
   * The worked example: points order D, A, B with points ranks 1, 2, 3, profit ranks
   * D = 1, B = 2, A = 3, and C (negative equity) last with rank 999; so D leads both
   * rankings and C is disqualified.
   */
  lemma TestDataResult()
    ensures ProcessRows(TestData) == [Ranked(ED, 1, 1), Ranked(EA, 3, 2), Ranked(EB, 2, 3), Ranked(EC, 999, 999)]
    ensures ProcessRows(TestData)[0].entry.id == "D" && ProcessRows(TestData)[3].entry.isDisqualified
  {
    ExampleMapped();
    ExampleProcess();
  }
}

/**
 * The `/leaderboard` page's `load` (src/routes/leaderboard/+page.server.ts).
 * Database rows are deduplicated per participant, sorted with participants
 * whose maximum drawdown exceeds 30% at the bottom and by points otherwise,
 * and mapped to list rows.  Without database rows, the mock entries are
 * flagged by the same 30% rule and sorted by flag, points and profit.
 */
module LeaderboardRoute {
  import opened Wrappers
  import opened Sorting
  import opened Seqs
  import opened Dedup
  import opened DailyStats
  import opened HomePage

  /** The drawdown limit of this page, in percent. */
  const DrawdownLimit := 30.0

  /** `(entry.max_drawdown || 0) > 30`. */
  predicate OverDrawdown(row: StatsRow) { OrZero(row.maxDrawdown) > DrawdownLimit }

  /**
   * The database comparator: rows over the limit go after rows within it; otherwise
   * `b.points - a.points`.  As a relation: a may stay before b.
   */
  predicate RowFirst(a: StatsRow, b: StatsRow) {
    if OverDrawdown(a) != OverDrawdown(b) then !OverDrawdown(a) else a.points >= b.points
  }

  datatype ListStats = ListStats(
    winRate: real,
    profitFactor: real,
    maxDrawdown: real,
    totalTrades: int,
    avgWin: real,
    avgLoss: real)

  /** A row of the list view (its empty `history` and `equityCurve` are not carried). */
  datatype ListRow = ListRow(
    id: string,
    nickname: string,
    points: real,
    profit: real,
    balance: real,
    equity: Option<real>,
    isDisqualified: bool,
    stats: ListStats)

  function ToListRow(row: StatsRow): (r: ListRow)
    ensures r.id == row.participantId && r.points == row.points && r.profit == row.profit
    ensures r.isDisqualified == (r.stats.maxDrawdown > DrawdownLimit)
  {
    ListRow(row.participantId, Nickname(row), row.points, row.profit, row.balance, row.equity,
            OverDrawdown(row),
            ListStats(row.winRate, row.profitFactor, OrZero(row.maxDrawdown), row.totalTrades, row.avgWin, row.avgLoss))
  }

  /** The mock entry with its flag recomputed by the 30% rule. */
  function Flag(e: MockEntry): (r: MockEntry)
    ensures r.isDisqualified == Some(e.stats.maxDrawdown > DrawdownLimit)
    ensures r == e.(isDisqualified := r.isDisqualified)
  {
    e.(isDisqualified := Some(e.stats.maxDrawdown > DrawdownLimit))
  }

  predicate Flagged(e: MockEntry) { e.isDisqualified == Some(true) }

  /** The mock comparator: flag, then points descending, then profit descending. */
  predicate MockFirst(a: MockEntry, b: MockEntry) {
    if Flagged(a) != Flagged(b) then !Flagged(a)
    else if a.points != b.points then a.points > b.points
    else a.profit >= b.profit
  }

  datatype Board = DatabaseBoard(rows: seq<ListRow>) | MockBoard(entries: seq<MockEntry>)

  function DatabaseRows(rows: seq<StatsRow>): seq<ListRow> {
    MapSeq(SortBy(FirstPerKey(rows, ParticipantOf), RowFirst), ToListRow)
  }

  function MockRows(mock: seq<MockEntry>): seq<MockEntry> {
    SortBy(MapSeq(mock, Flag), MockFirst)
  }

  /** What the page shows, given the query's rows (`None` when it failed) and the mock data. */
  function Leaderboard(fetched: Option<seq<StatsRow>>, mock: seq<MockEntry>): Board {
    if fetched.Some? && |fetched.value| > 0 then DatabaseBoard(DatabaseRows(fetched.value))
    else MockBoard(MockRows(mock))
  }

  method Load(fetched: Option<seq<StatsRow>>, mock: seq<MockEntry>) returns (board: Board)
    ensures board == Leaderboard(fetched, mock)
  {
    if fetched.Some? && |fetched.value| > 0 {
      var latest := KeepFirst(fetched.value, ParticipantOf);
      board := DatabaseBoard(MapSeq(SortBy(latest, RowFirst), ToListRow));
    } else {
      board := MockBoard(SortBy(MapSeq(mock, Flag), MockFirst));
    }
  }

  // ---------------------------------------------------------------------
  // Properties
  // ---------------------------------------------------------------------

  lemma ComparatorsArePreorders()
    ensures TotalPreorder(RowFirst) && TotalPreorder(MockFirst)
  {
  }

  function ListRowId(r: ListRow): string { r.id }

  /** One list row per participant, no participant twice. */
  lemma DatabaseRowsDistinct(rows: seq<StatsRow>)
    ensures |DatabaseRows(rows)| == |KeySet(rows, ParticipantOf)|
    ensures DistinctBy(DatabaseRows(rows), ListRowId)
  {
    var latest := FirstPerKey(rows, ParticipantOf);
    var sorted := SortBy(latest, RowFirst);
    var out := DatabaseRows(rows);
    FirstPerKeyCount(rows, ParticipantOf);
    FirstPerKeyDistinct(rows, ParticipantOf);
    SortByDistinct(latest, RowFirst, ParticipantOf);
    forall i, j | 0 <= i < j < |out| ensures ListRowId(out[i]) != ListRowId(out[j]) {
      assert ParticipantOf(sorted[i]) != ParticipantOf(sorted[j]);
    }
  }

  /** Each participant's first row is shown. */
  lemma DatabaseRowShown(rows: seq<StatsRow>, r: StatsRow) returns (k: int)
    requires r in FirstPerKey(rows, ParticipantOf)
    ensures 0 <= k < |DatabaseRows(rows)| && DatabaseRows(rows)[k] == ToListRow(r)
  {
    var sorted := SortBy(FirstPerKey(rows, ParticipantOf), RowFirst);
    assert r in multiset(sorted);
    k :| 0 <= k < |sorted| && sorted[k] == r;
  }

  /** Every row shown is the list row of some participant's first row. */
  lemma DatabaseRowSource(rows: seq<StatsRow>, k: int) returns (r: StatsRow)
    requires 0 <= k < |DatabaseRows(rows)|
    ensures r in FirstPerKey(rows, ParticipantOf) && DatabaseRows(rows)[k] == ToListRow(r)
  {
    var latest := FirstPerKey(rows, ParticipantOf);
    var sorted := SortBy(latest, RowFirst);
    r := sorted[k];
    assert r in multiset(latest);
  }

  /**
   * The list is sorted by the flag it shows: a disqualified row is followed only by
   * disqualified rows, and rows with the same flag come in non-increasing points.
   */
  lemma DatabaseRowsOrder(rows: seq<StatsRow>)
    ensures var out := DatabaseRows(rows);
      (forall i, j :: 0 <= i < j < |out| && out[i].isDisqualified ==> out[j].isDisqualified) &&
      (forall i, j :: 0 <= i < j < |out| && out[i].isDisqualified == out[j].isDisqualified ==>
        out[i].points >= out[j].points)
  {
    var sorted := SortBy(FirstPerKey(rows, ParticipantOf), RowFirst);
    ComparatorsArePreorders();
    SortBySorted(FirstPerKey(rows, ParticipantOf), RowFirst);
    var out := DatabaseRows(rows);
    forall i, j | 0 <= i < j < |out| ensures RowFirst(sorted[i], sorted[j]) {
    }
  }

  /** The mock list keeps every entry once, with its flag recomputed. */
  lemma MockRowsArePermutation(mock: seq<MockEntry>)
    ensures |MockRows(mock)| == |mock|
    ensures multiset(MockRows(mock)) == multiset(MapSeq(mock, Flag))
    ensures forall i :: 0 <= i < |mock| ==> MockRows(mock)[i].isDisqualified.Some?
  {
    var flagged := MapSeq(mock, Flag);
    forall i | 0 <= i < |mock| ensures MockRows(mock)[i].isDisqualified.Some? {
      assert MockRows(mock)[i] in multiset(flagged);
    }
  }

  /**
   * The mock list: flagged entries last, non-increasing points within a group, and
   * equal points within a group in non-increasing profit.
   */
  lemma MockRowsOrder(mock: seq<MockEntry>)
    ensures var out := MockRows(mock);
      (forall i, j :: 0 <= i < j < |out| && Flagged(out[i]) ==> Flagged(out[j])) &&
      (forall i, j :: 0 <= i < j < |out| && Flagged(out[i]) == Flagged(out[j]) ==> out[i].points >= out[j].points) &&
      (forall i, j :: 0 <= i < j < |out| && Flagged(out[i]) == Flagged(out[j]) && out[i].points == out[j].points ==>
        out[i].profit >= out[j].profit)
  {
    ComparatorsArePreorders();
    SortBySorted(MapSeq(mock, Flag), MockFirst);
  }
}

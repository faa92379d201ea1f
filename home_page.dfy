/**
 * The home page's `load` and the mapping step of its `processLeaderboardData`
 * (src/routes/+page.server.ts).  Database rows are deduplicated per
 * participant, mapped to entries under the database disqualification rule and
 * ranked; when the query fails or returns nothing, the mock entries are
 * mapped under the mock rule and ranked instead.
 */
module HomePage {
  import opened Wrappers
  import opened Sorting
  import opened Seqs
  import opened Dedup
  import opened Ranking
  import opened DailyStats

  datatype Stats = Stats(
    winRate: real,
    profitFactor: real,
    maxDrawdown: real,
    totalTrades: int,
    avgWin: real,
    avgLoss: real,
    rrRatio: Option<real>)

  datatype Trade = Trade(symbol: string, isBuy: bool, lot: real, profit: real, openTime: string, closeTime: string)

  /** A mock leaderboard entry (the fields the page reads). */
  datatype MockEntry = MockEntry(
    id: string,
    nickname: string,
    points: real,
    profit: real,
    isDisqualified: Option<bool>,
    stats: Stats,
    equityCurve: seq<real>,
    history: seq<Trade>)

  /** What an entry carries besides id, points, profit and the disqualification flag. */
  datatype Info = Info(nickname: string, stats: Stats, history: seq<Trade>, equityCurve: seq<real>)

  /**
   * The database rule: equity at or below zero (a null equity counts as 0), a recorded
   * maximum drawdown of 99% or more, or a participant flagged as disqualified.
   */
  predicate RowDisqualified(row: StatsRow) {
    || OrZero(row.equity) <= 0.0
    || (row.maxDrawdown.Some? && row.maxDrawdown.value >= 99.0)
    || (row.participant.Some? && row.participant.value.isDisqualified == Some(true))
  }

  /**
   * The mock rule: flagged, a drawdown above 99%, or an equity curve whose last point is
   * at or below zero (an empty curve has no last point and does not disqualify).
   */
  predicate MockDisqualified(e: MockEntry) {
    || e.isDisqualified == Some(true)
    || e.stats.maxDrawdown > 99.0
    || (|e.equityCurve| > 0 && e.equityCurve[|e.equityCurve| - 1] <= 0.0)
  }

  function RowStats(row: StatsRow): Stats {
    Stats(row.winRate, row.profitFactor, OrZero(row.maxDrawdown), row.totalTrades,
          row.avgWin, row.avgLoss, row.rrRatio)
  }

  /** Step 1 for a database row. */
  function FromRow(row: StatsRow): (e: Entry<Info>)
    ensures e.id == row.participantId && e.points == row.points && e.profit == row.profit
    ensures e.isDisqualified <==> RowDisqualified(row)
    ensures e.info.history == [] && e.info.equityCurve == []
  {
    Entry(row.participantId, row.points, row.profit, RowDisqualified(row),
          Info(Nickname(row), RowStats(row), [], []))
  }

  /** Step 1 for a mock entry. */
  function FromMock(m: MockEntry): (e: Entry<Info>)
    ensures e.id == m.id && e.points == m.points && e.profit == m.profit
    ensures e.isDisqualified <==> MockDisqualified(m)
    ensures e.info == Info(m.nickname, m.stats, m.history, m.equityCurve)
  {
    Entry(m.id, m.points, m.profit, MockDisqualified(m), Info(m.nickname, m.stats, m.history, m.equityCurve))
  }

  /** The entries of the first row of each participant. */
  function RowEntries(rows: seq<StatsRow>): seq<Entry<Info>> {
    MapSeq(FirstPerKey(rows, ParticipantOf), FromRow)
  }

  /** The leaderboard the page shows, given the query's rows (`None` when it failed) and the mock data. */
  function Leaderboard(fetched: Option<seq<StatsRow>>, mock: seq<MockEntry>): seq<Ranked<Info>> {
    if fetched.Some? && |fetched.value| > 0 then Process(RowEntries(fetched.value))
    else Process(MapSeq(mock, FromMock))
  }

  /** `load`: the deduplicating loop, then the ranking pipeline. */
  method Load(fetched: Option<seq<StatsRow>>, mock: seq<MockEntry>) returns (leaderboard: seq<Ranked<Info>>)
    ensures leaderboard == Leaderboard(fetched, mock)
  {
    if fetched.Some? && |fetched.value| > 0 {
      var unique := KeepFirst(fetched.value, ParticipantOf);
      leaderboard := Process(MapSeq(unique, FromRow));
    } else {
      leaderboard := Process(MapSeq(mock, FromMock));
    }
  }

  // ---------------------------------------------------------------------
  // Properties
  // ---------------------------------------------------------------------

  /** Database entries have distinct ids: one entry per participant. */
  lemma RowEntriesDistinct(rows: seq<StatsRow>)
    ensures var mapped := RowEntries(rows);
      DistinctBy(mapped, IdOf) && |mapped| == |KeySet(rows, ParticipantOf)|
  {
    var unique := FirstPerKey(rows, ParticipantOf);
    var mapped := MapSeq(unique, FromRow);
    FirstPerKeyDistinct(rows, ParticipantOf);
    FirstPerKeyCount(rows, ParticipantOf);
    forall i, j | 0 <= i < j < |mapped| ensures IdOf(mapped[i]) != IdOf(mapped[j]) {
      assert ParticipantOf(unique[i]) != ParticipantOf(unique[j]);
    }
  }

  /** With rows from the database, the board has one line per participant. */
  lemma DatabaseBoardSize(rows: seq<StatsRow>, mock: seq<MockEntry>)
    requires |rows| > 0
    ensures |Leaderboard(Some(rows), mock)| == |KeySet(rows, ParticipantOf)|
  {
    RowEntriesDistinct(rows);
    ProcessIsPermutation(RowEntries(rows));
  }

  /**
   * With rows from the database, each ranking (profit, or points) of the n active
   * participants is exactly 1..n, and a larger profit (points) means a smaller rank.
   */
  lemma DatabaseRanks(rows: seq<StatsRow>, mock: seq<MockEntry>, byProfit: bool)
    requires |rows| > 0
    ensures var board := Leaderboard(Some(rows), mock);
      var n := |ActiveOf(RowEntries(rows))|;
      n <= |board| &&
      (forall k :: 1 <= k <= n ==> k in RankSet(board, n, byProfit)) &&
      (forall i, j :: 0 <= i < n && 0 <= j < n && KeyOf(board[i].entry, byProfit) > KeyOf(board[j].entry, byProfit) ==>
        RankOf(board[i], byProfit) < RankOf(board[j], byProfit))
  {
    RowEntriesDistinct(rows);
    RanksExact(RowEntries(rows), byProfit);
  }

  /**
   * The first row of each participant is on the board; it is in the ranked part exactly
   * when the database rule does not disqualify it, and otherwise has rank 999 twice.
   */
  lemma RowPlacement(rows: seq<StatsRow>, mock: seq<MockEntry>, row: StatsRow) returns (k: int)
    requires row in FirstPerKey(rows, ParticipantOf) && |rows| > 0
    ensures var board := Leaderboard(Some(rows), mock);
      var n := |ActiveOf(RowEntries(rows))|;
      0 <= k < |board| && board[k].entry == FromRow(row) &&
      (k >= n <==> RowDisqualified(row)) &&
      (RowDisqualified(row) ==> board[k].rankProfit == DisqualifiedRank && board[k].rankPoints == DisqualifiedRank)
  {
    var unique := FirstPerKey(rows, ParticipantOf);
    var mapped := RowEntries(rows);
    var i :| 0 <= i < |unique| && unique[i] == row;
    assert mapped[i] == FromRow(row);
    k := Placement(mapped, FromRow(row));
  }

  /** A mock entry is in the ranked part exactly when the mock rule does not disqualify it. */
  lemma MockPlacement(mock: seq<MockEntry>, i: int) returns (k: int)
    requires 0 <= i < |mock|
    ensures var board := Leaderboard(None, mock);
      var n := |ActiveOf(MapSeq(mock, FromMock))|;
      0 <= k < |board| && board[k].entry == FromMock(mock[i]) &&
      (k >= n <==> MockDisqualified(mock[i])) &&
      (MockDisqualified(mock[i]) ==> board[k].rankProfit == DisqualifiedRank && board[k].rankPoints == DisqualifiedRank)
  {
    var mapped := MapSeq(mock, FromMock);
    assert mapped[i] == FromMock(mock[i]);
    k := Placement(mapped, FromMock(mock[i]));
  }
}

/**
 * Rows of the `daily_stats` table as both leaderboard pages receive them,
 * joined with the participant's row, and the JavaScript coercions the pages
 * apply to them.  Nullable columns are `Option`s; `None` is SQL null.
 */
module DailyStats {
  import opened Wrappers

  /** The joined `participants` row (`nickname`, `is_disqualified`). */
  datatype Participant = Participant(nickname: Option<string>, isDisqualified: Option<bool>)

  datatype StatsRow = StatsRow(
    participantId: string,
    points: real,
    profit: real,
    balance: real,
    equity: Option<real>,
    maxDrawdown: Option<real>,
    winRate: real,
    profitFactor: real,
    totalTrades: int,
    avgWin: real,
    avgLoss: real,
    rrRatio: Option<real>,
    participant: Option<Participant>)

  function ParticipantOf(row: StatsRow): string { row.participantId }

  /**
   * `x || 0` on a nullable number: null (and 0 itself) become 0.  `Number(x)` agrees
   * with it here, since `Number(null)` is 0.
   */
  function OrZero(x: Option<real>): (r: real)
    ensures x.None? ==> r == 0.0
    ensures x.Some? ==> r == x.value
  {
    match x
    case None => 0.0
    case Some(v) => v
  }

  /** `entry.participants?.nickname || 'Unknown'`: a missing or empty nickname reads "Unknown". */
  function Nickname(row: StatsRow): (name: string)
    ensures name != ""
    ensures name == "Unknown" || (row.participant.Some? && row.participant.value.nickname == Some(name))
  {
    match row.participant
    case Some(Participant(Some(nick), _)) => if nick != "" then nick else "Unknown"
    case _ => "Unknown"
  }
}

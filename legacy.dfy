/**
 * The statistics core of `sync_participant` in bridge/main.py, the older
 * bridge.  Unlike the newer script it counts trades per closing deal in the
 * same loop that builds the position records, overwrites a position's lot
 * with each opening deal, and takes holding times, sessions and trade rows
 * from every position with both an open and a close time.
 */
module LegacyStats {
  import opened Wrappers
  import opened Text
  import opened Sorting
  import opened Seqs
  import opened Dedup
  import opened Trading
  import opened Accumulators
  import opened EquityService

  datatype Position = Position(
    openTime: int,
    closeTime: int,
    profit: real,
    symbol: string,
    side: Side,
    lot: real,
    openPrice: real,
    closePrice: real,
    sl: real,
    tp: real)

  function Fresh(d: Deal): Position {
    Position(0, 0, 0.0, d.symbol, UnknownSide, 0.0, 0.0, 0.0, 0.0, 0.0)
  }

  /**
   * An opening deal sets the open time and price, replaces the lot by its volume, sets
   * the side, and takes both stops from its order when the lookup yields one.
   */
  function ApplyIn(p: Position, d: Deal): Position {
    var p1 := p.(openTime := d.time, openPrice := d.price, lot := d.volume, side := SideOf(d));
    match d.orderStops
    case Some(stops) => p1.(sl := stops.sl, tp := stops.tp)
    case None => p1
  }

  function ApplyOut(p: Position, d: Deal): Position {
    p.(closeTime := d.time, closePrice := d.price, profit := p.profit + d.profit)
  }

  /**
   * The deal loop's state: the `positions` dictionary (keys in insertion order) and the
   * counted closing deals, each with the side its position had when it was counted.
   */
  datatype Ledger = Ledger(positions: map<int, Position>, order: seq<int>, outcomes: seq<Outcome>)

  const EmptyLedger := Ledger(map[], [], [])

  function Record(l: Ledger, d: Deal): Ledger {
    var pid := d.positionId;
    var pos := if pid in l.positions then l.positions[pid] else Fresh(d);
    var order := if pid in l.positions then l.order else l.order + [pid];
    match d.entry
    case EntryIn => Ledger(l.positions[pid := ApplyIn(pos, d)], order, l.outcomes)
    case EntryOut => Ledger(l.positions[pid := ApplyOut(pos, d)], order, l.outcomes + [Outcome(d.profit, pos.side)])
    case EntryOther => Ledger(l.positions[pid := pos], order, l.outcomes)
  }

  function LedgerOf(deals: seq<Deal>): Ledger
    decreases |deals|
  {
    if deals == [] then EmptyLedger else Record(LedgerOf(deals[..|deals| - 1]), deals[|deals| - 1])
  }

  /**
   * The deal loop: it builds the position records and, for every closing deal, updates
   * the counters and the drawdown with that deal's profit.
   */
  method DealPass(deals: seq<Deal>) returns (positions: map<int, Position>, order: seq<int>, counters: Counters, drawdown: Drawdown)
    ensures positions == LedgerOf(deals).positions && order == LedgerOf(deals).order
    ensures counters == CountersOf(LedgerOf(deals).outcomes)
    ensures drawdown == DrawdownOf(Profits(LedgerOf(deals).outcomes))
  {
    positions, order, counters, drawdown := map[], [], NoCounters, NoTrades;
    ghost var outcomes: seq<Outcome> := [];
    for i := 0 to |deals|
      invariant Ledger(positions, order, outcomes) == LedgerOf(deals[..i])
      invariant counters == CountersOf(outcomes)
      invariant drawdown == DrawdownOf(Profits(outcomes))
    {
      LedgerSnoc(deals, i);
      var deal := deals[i];
      var pid := deal.positionId;
      ghost var before := Ledger(positions, order, outcomes);
      var pos := if pid in positions then positions[pid] else Fresh(deal);
      if pid !in positions {
        order := order + [pid];
      }
      match deal.entry {
        case EntryIn =>
          positions := positions[pid := ApplyIn(pos, deal)];
        case EntryOut =>
          var o := Outcome(deal.profit, pos.side);
          OutcomeSnoc(outcomes, o);
          positions := positions[pid := ApplyOut(pos, deal)];
          counters := CountTrade(counters, o);
          drawdown := DrawdownStep(drawdown, deal.profit);
          outcomes := outcomes + [o];
        case EntryOther =>
          positions := positions[pid := pos];
      }
      assert Ledger(positions, order, outcomes) == Record(before, deal);
    }
    assert deals[..|deals|] == deals;
  }

  lemma LedgerSnoc(deals: seq<Deal>, i: int)
    requires 0 <= i < |deals|
    ensures LedgerOf(deals[..i + 1]) == Record(LedgerOf(deals[..i]), deals[i])
  {
    assert deals[..i + 1][..i] == deals[..i];
  }

  /** One more counted trade steps the counters and the drawdown by it. */
  lemma OutcomeSnoc(outcomes: seq<Outcome>, o: Outcome)
    ensures CountersOf(outcomes + [o]) == CountTrade(CountersOf(outcomes), o)
    ensures DrawdownOf(Profits(outcomes + [o])) == DrawdownStep(DrawdownOf(Profits(outcomes)), o.profit)
  {
    CountersSnoc(outcomes, o);
    ProfitsSnoc(outcomes, o);
    DrawdownSnoc(Profits(outcomes), o.profit);
  }

  // ---------------------------------------------------------------------
  // Properties of the deal loop
  // ---------------------------------------------------------------------

  predicate IsOutDeal(d: Deal) { d.entry == EntryOut }
  function DealProfit(d: Deal): real { d.profit }

  /**
   * One counted trade per closing deal, in order, with that deal's profit: `total_trades`
   * is the number of closing deals and the drawdown runs over their profits.
   */
  lemma {:induction false} OutcomesAreOutDeals(deals: seq<Deal>)
    ensures Profits(LedgerOf(deals).outcomes) == MapSeq(Filter(deals, IsOutDeal), DealProfit)
    ensures |LedgerOf(deals).outcomes| == Count(deals, IsOutDeal)
    decreases |deals|
  {
    if deals != [] {
      var init := deals[..|deals| - 1];
      var last := deals[|deals| - 1];
      OutcomesAreOutDeals(init);
      if last.entry == EntryOut {
        var o := Outcome(last.profit, if last.positionId in LedgerOf(init).positions then LedgerOf(init).positions[last.positionId].side else UnknownSide);
        ProfitsSnoc(LedgerOf(init).outcomes, o);
        MapSeqSnoc(Filter(init, IsOutDeal), last, DealProfit);
      }
    }
  }

  /** The volume of the position's last opening deal, 0 without one. */
  function LastInVolume(deals: seq<Deal>, pid: int): real
    decreases |deals|
  {
    if deals == [] then 0.0
    else
      var last := deals[|deals| - 1];
      if last.positionId == pid && last.entry == EntryIn then last.volume else LastInVolume(deals[..|deals| - 1], pid)
  }

  /**
   * A position's lot is the volume of its last opening deal (earlier ones are overwritten),
   * and its profit is the sum over its closing deals.
   */
  lemma {:induction false} LedgerLots(deals: seq<Deal>, pid: int)
    requires pid in LedgerOf(deals).positions
    ensures LedgerOf(deals).positions[pid].lot == LastInVolume(deals, pid)
    ensures LedgerOf(deals).positions[pid].profit == Sum(deals, OutProfitOf(pid))
    decreases |deals|
  {
    var init := deals[..|deals| - 1];
    if pid in LedgerOf(init).positions {
      LedgerLots(init, pid);
    } else {
      NoDealsOf(init, pid);
    }
  }

  function OutProfitOf(pid: int): Deal -> real {
    (d: Deal) => if d.positionId == pid && d.entry == EntryOut then d.profit else 0.0
  }

  lemma {:induction false} NoDealsOf(deals: seq<Deal>, pid: int)
    requires pid !in LedgerOf(deals).positions
    ensures LastInVolume(deals, pid) == 0.0 && Sum(deals, OutProfitOf(pid)) == 0.0
    decreases |deals|
  {
    if deals != [] {
      NoDealsOf(deals[..|deals| - 1], pid);
    }
  }

  /** There is a position for exactly the ids of the deals, keyed in order of first occurrence. */
  lemma {:induction false} LedgerKeys(deals: seq<Deal>)
    ensures LedgerOf(deals).positions.Keys == KeySet(deals, PositionIdOf)
    ensures LedgerOf(deals).order == MapSeq(FirstPerKey(deals, PositionIdOf), PositionIdOf)
    decreases |deals|
  {
    if deals != [] {
      var init := deals[..|deals| - 1];
      var last := deals[|deals| - 1];
      assert deals == init + [last];
      LedgerKeys(init);
      KeySetSnoc(init, last, PositionIdOf);
      RecordKeys(LedgerOf(init), last);
      if last.positionId !in KeySet(init, PositionIdOf) {
        MapSeqSnoc(FirstPerKey(init, PositionIdOf), last, PositionIdOf);
      }
    }
  }

  /** A deal adds its position id to the keys, and to the order when it is new. */
  lemma RecordKeys(l: Ledger, d: Deal)
    ensures Record(l, d).positions.Keys == l.positions.Keys + {d.positionId}
    ensures Record(l, d).order == if d.positionId in l.positions then l.order else l.order + [d.positionId]
  {
  }

  function PositionIdOf(d: Deal): int { d.positionId }

  // ---------------------------------------------------------------------
  // Holding times, sessions and trade rows
  // ---------------------------------------------------------------------

  datatype Item = Item(pid: int, pos: Position)

  /** `positions.items()`: the ids of `order` that have a record, with their records. */
  function ItemsOf(order: seq<int>, positions: map<int, Position>): seq<Item>
    decreases |order|
  {
    if order == [] then []
    else
      var last := order[|order| - 1];
      ItemsOf(order[..|order| - 1], positions) + (if last in positions then [Item(last, positions[last])] else [])
  }

  /** Both an open and a close time were recorded. */
  predicate Timed(it: Item) { it.pos.openTime > 0 && it.pos.closeTime > 0 }

  function HoldingOf(it: Item): Holding { Holding(it.pos.openTime, it.pos.closeTime, it.pos.profit) }

  /** The holdings of the timed positions, in dictionary order. */
  function TimedHoldings(items: seq<Item>): seq<Holding> { MapSeq(Filter(items, Timed), HoldingOf) }

  lemma TimedHoldingsSnoc(items: seq<Item>, it: Item)
    ensures TimedHoldings(items + [it]) == TimedHoldings(items) + (if Timed(it) then [HoldingOf(it)] else [])
  {
    assert (items + [it])[..|items|] == items;
    if Timed(it) {
      MapSeqSnoc(Filter(items, Timed), it, HoldingOf);
    }
  }

  /** The holding-time loop over the positions: only timed positions count. */
  method DurationPass(items: seq<Item>) returns (durations: Durations)
    ensures durations == DurationsOf(TimedHoldings(items))
  {
    durations := NoDurations;
    for i := 0 to |items|
      invariant durations == DurationsOf(TimedHoldings(items[..i]))
    {
      assert items[..i + 1] == items[..i] + [items[i]];
      TimedHoldingsSnoc(items[..i], items[i]);
      var pos := items[i].pos;
      if pos.openTime > 0 && pos.closeTime > 0 {
        DurationsSnoc(TimedHoldings(items[..i]), HoldingOf(items[i]));
        durations := TimeTrade(durations, HoldingOf(items[i]));
      }
    }
    assert items[..|items|] == items;
  }

  /** The session loop over the positions: only timed positions count. */
  method SessionPass(items: seq<Item>) returns (asian: SessionTally, london: SessionTally, newYork: SessionTally)
    ensures asian == SessionOf(TimedHoldings(items), Asian)
    ensures london == SessionOf(TimedHoldings(items), London)
    ensures newYork == SessionOf(TimedHoldings(items), NewYork)
  {
    asian, london, newYork := EmptyTally, EmptyTally, EmptyTally;
    for i := 0 to |items|
      invariant asian == SessionOf(TimedHoldings(items[..i]), Asian)
      invariant london == SessionOf(TimedHoldings(items[..i]), London)
      invariant newYork == SessionOf(TimedHoldings(items[..i]), NewYork)
    {
      assert items[..i + 1] == items[..i] + [items[i]];
      TimedHoldingsSnoc(items[..i], items[i]);
      var pos := items[i].pos;
      if pos.openTime > 0 && pos.closeTime > 0 {
        var h := HoldingOf(items[i]);
        SessionSnoc(TimedHoldings(items[..i]), h, Asian);
        SessionSnoc(TimedHoldings(items[..i]), h, London);
        SessionSnoc(TimedHoldings(items[..i]), h, NewYork);
        var hr := OpenHour(pos.openTime);
        asian := TallyTrade(asian, Asian, hr, pos.profit);
        london := TallyTrade(london, London, hr, pos.profit);
        newYork := TallyTrade(newYork, NewYork, hr, pos.profit);
      }
    }
    assert items[..|items|] == items;
  }

  function TradeRowOf(participantId: string, it: Item): (r: TradeRow)
    ensures r.positionId == it.pid && r.profit == it.pos.profit && r.lotSize == it.pos.lot
    ensures r.openTime + ServerOffset == it.pos.openTime && r.closeTime + ServerOffset == it.pos.closeTime
  {
    var p := it.pos;
    TradeRow(participantId, p.symbol, p.side, p.lot, p.openPrice, p.closePrice, p.sl, p.tp,
             p.openTime - ServerOffset, p.closeTime - ServerOffset, p.profit, it.pid)
  }

  function RowsFor(participantId: string): Item -> TradeRow {
    (it: Item) => TradeRowOf(participantId, it)
  }

  /** `trades_data`: the rows of the timed positions. */
  function TradesData(participantId: string, items: seq<Item>): seq<TradeRow> {
    MapSeq(Filter(items, Timed), RowsFor(participantId))
  }

  lemma {:induction false} ItemsMembership(order: seq<int>, positions: map<int, Position>, it: Item)
    ensures it in ItemsOf(order, positions) <==> it.pid in order && it.pid in positions && it.pos == positions[it.pid]
    decreases |order|
  {
    if order != [] {
      var init := order[..|order| - 1];
      ItemsMembership(init, positions, it);
      assert order == init + [order[|order| - 1]];
    }
  }

  /**
   * The trade rows are those of exactly the positions with both an open and a close time:
   * each row is some such position's, and each such position has a row.
   */
  lemma TradesExactly(deals: seq<Deal>, participantId: string)
    ensures var l := LedgerOf(deals);
      var rows := TradesData(participantId, ItemsOf(l.order, l.positions));
      forall k :: 0 <= k < |rows| ==> IsTimedRow(l.positions, participantId, rows[k])
    ensures var l := LedgerOf(deals);
      var rows := TradesData(participantId, ItemsOf(l.order, l.positions));
      forall pid :: pid in l.positions && Timed(Item(pid, l.positions[pid])) ==>
        TradeRowOf(participantId, Item(pid, l.positions[pid])) in rows
  {
    var l := LedgerOf(deals);
    RowsAreTimed(l.order, l.positions, participantId);
    forall pid | pid in l.positions && Timed(Item(pid, l.positions[pid]))
      ensures TradeRowOf(participantId, Item(pid, l.positions[pid])) in TradesData(participantId, ItemsOf(l.order, l.positions))
    {
      KeyInOrder(deals, pid);
      RowOfListed(l.order, l.positions, participantId, pid);
    }
  }

  lemma RowsAreTimed(order: seq<int>, positions: map<int, Position>, participantId: string)
    ensures var rows := TradesData(participantId, ItemsOf(order, positions));
      forall k :: 0 <= k < |rows| ==> IsTimedRow(positions, participantId, rows[k])
  {
    var timed := Filter(ItemsOf(order, positions), Timed);
    var rows := TradesData(participantId, ItemsOf(order, positions));
    forall k | 0 <= k < |rows| ensures IsTimedRow(positions, participantId, rows[k]) {
      var it := timed[k];
      assert it in timed;
      ItemsMembership(order, positions, it);
      assert it == Item(it.pid, positions[it.pid]);
    }
  }

  lemma RowOfListed(order: seq<int>, positions: map<int, Position>, participantId: string, pid: int)
    requires pid in order && pid in positions && Timed(Item(pid, positions[pid]))
    ensures TradeRowOf(participantId, Item(pid, positions[pid])) in TradesData(participantId, ItemsOf(order, positions))
  {
    var timed := Filter(ItemsOf(order, positions), Timed);
    var it := Item(pid, positions[pid]);
    ItemsMembership(order, positions, it);
    var k :| 0 <= k < |timed| && timed[k] == it;
    assert TradesData(participantId, ItemsOf(order, positions))[k] == TradeRowOf(participantId, it);
  }

  /** The row is that of some position with both an open and a close time. */
  ghost predicate IsTimedRow(positions: map<int, Position>, participantId: string, row: TradeRow) {
    exists pid :: pid in positions && Timed(Item(pid, positions[pid])) && row == TradeRowOf(participantId, Item(pid, positions[pid]))
  }

  lemma KeyInOrder(deals: seq<Deal>, pid: int)
    requires pid in LedgerOf(deals).positions
    ensures pid in LedgerOf(deals).order
  {
    LedgerKeys(deals);
    FirstPerKeyKeys(deals, PositionIdOf);
    var first := FirstPerKey(deals, PositionIdOf);
    var d :| d in first && PositionIdOf(d) == pid;
    var k :| 0 <= k < |first| && first[k] == d;
    assert LedgerOf(deals).order[k] == pid;
  }

  // ---------------------------------------------------------------------
  // Style, holding time and favourite pair
  // ---------------------------------------------------------------------

  /** `avg_hold`: the mean measured duration, 0 without one. */
  function AverageHold(d: Durations): real {
    if d.count > 0 then d.total / d.count as real else 0.0
  }

  /** The style from the thresholds, overridden by "Unknown" when no duration was measured. */
  function LegacyStyle(d: Durations): string {
    var style := StyleOf(AverageHold(d) / 60.0);
    if d.count == 0 then "Unknown" else style
  }

  /** The override makes the older style agree with the newer script's. */
  lemma LegacyStyleAgrees(d: Durations)
    ensures LegacyStyle(d) == TradingStyle(d.total, d.count)
  {
  }

  /**
   * The older average holding time formats the mean even when nothing was measured, so it
   * reads "0m 0s" where the newer script shows "0m".
   */
  lemma LegacyHoldingWithoutTrades(d: Durations)
    requires d.count == 0
    ensures FormatDuration(AverageHold(d)) == "0m 0s"
    ensures AverageHolding(d.total, d.count) == "0m"
  {
    var p := Split(0.0);
    assert p == Parts(0, 0, 0, 0.0);
    assert (0.0).Floor == 0;
    assert IntToString(0) == "0" by {
      assert NatToString(0) == "0";
    }
  }

  function SymbolOf(it: Item): string { it.pos.symbol }
  predicate NonEmpty(s: string) { s != "" }

  /** The non-empty symbols of the positions, one per position. */
  function PositionSymbols(items: seq<Item>): seq<string> {
    Filter(MapSeq(items, SymbolOf), NonEmpty)
  }

  /**
   * `fav` as written: the guard tests for positions but the index needs a symbol, so
   * positions without any symbol make `most_common(1)` empty and indexing it fails
   * (`None` here).
   */
  function FavoriteAsWritten(items: seq<Item>): (r: Option<string>)
    ensures items == [] ==> r == Some("-")
  {
    if items == [] then Some("-")
    else
      var symbols := PositionSymbols(items);
      if symbols == [] then None else Some(MostCommon(symbols))
  }

  /** A lone deposit: MT5 books it as an opening deal without a symbol. */
  const Deposit := Deal(0, EntryIn, 1700000000, 0.0, 0.0, 1000.0, "", 2, 0.0, 0.0, None)

  /** After only a deposit there is one position and no symbol, so the favourite pair fails. */
  lemma FavoriteFailsOnDeposit()
    ensures var l := LedgerOf([Deposit]);
      |ItemsOf(l.order, l.positions)| == 1 && FavoriteAsWritten(ItemsOf(l.order, l.positions)) == None
  {
    var l := LedgerOf([Deposit]);
    assert [Deposit][..0] == [];
    assert l == Record(LedgerOf([]), Deposit);
    assert l.order == [0] && 0 in l.positions;
    var items := ItemsOf(l.order, l.positions);
    assert l.order[..0] == [];
    assert items == ItemsOf([], l.positions) + [Item(0, l.positions[0])];
    assert l.positions[0].symbol == "";
    MapSeqSnoc([], Item(0, l.positions[0]), SymbolOf);
    assert MapSeq(items, SymbolOf) == [""];
    assert [""][..0] == [];
    assert PositionSymbols(items) == [];
  }

  /** The corrected favourite pair: guarded by the symbols themselves. */
  function Favorite(items: seq<Item>): (r: string)
    ensures PositionSymbols(items) == [] ==> r == "-"
    ensures PositionSymbols(items) != [] ==> r != "" && r in PositionSymbols(items)
    ensures var symbols := PositionSymbols(items);
      forall x :: x in symbols ==> Occurrences(symbols, x) <= Occurrences(symbols, r)
    ensures var symbols := PositionSymbols(items);
      forall i :: 0 <= i < |symbols| && Occurrences(symbols, symbols[i]) == Occurrences(symbols, r) ==> r in symbols[..i + 1]
  {
    FavoritePair(PositionSymbols(items))
  }

  /**
   * The correction never fails, agrees with the original whenever the original does not
   * fail, and names a symbol held by the most positions.
   */
  lemma FavoriteCorrected(items: seq<Item>)
    ensures FavoriteAsWritten(items).Some? ==> FavoriteAsWritten(items).value == Favorite(items)
    ensures var symbols := PositionSymbols(items);
      symbols != [] ==> forall x :: x in symbols ==> Occurrences(symbols, x) <= Occurrences(symbols, Favorite(items))
  {
  }

  // ---------------------------------------------------------------------
  // The daily statistics row
  // ---------------------------------------------------------------------

  /** The older `daily_stats` row before rounding (`points` is not part of this model). */
  datatype Summary = Summary(
    balance: real,
    equity: real,
    profit: real,
    winRate: real,
    totalTrades: nat,
    profitFactor: real,
    rrRatio: real,
    maxDrawdown: real,
    avgWin: real,
    avgLoss: real,
    tradingStyle: string,
    favoritePair: string,
    avgHoldingTime: string,
    bestTrade: real,
    worstTrade: real,
    winRateBuy: real,
    winRateSell: real,
    avgHoldingTimeWin: string,
    avgHoldingTimeLoss: string,
    sessionAsianProfit: real,
    sessionLondonProfit: real,
    sessionNewYorkProfit: real,
    sessionAsianWinRate: real,
    sessionLondonWinRate: real,
    sessionNewYorkWinRate: real,
    floatingPl: real,
    totalLots: real,
    equityGrowthPercent: real)

  function LotOf(it: Item): Option<real> { Some(it.pos.lot) }

  /**
   * The older `sync_participant` statistics with the corrected favourite pair: the deal
   * loop, the aggregates, the holding-time and session loops, then the trade rows.
   */
  method Sync(deals: seq<Deal>, account: Account, participantId: string, previousEquity: real)
    returns (stats: Summary, trades: seq<TradeRow>)
    ensures var l := LedgerOf(deals);
      var items := ItemsOf(l.order, l.positions);
      trades == TradesData(participantId, items) &&
      stats.totalTrades == Count(deals, IsOutDeal) &&
      0.0 <= stats.winRate <= 100.0 &&
      stats.tradingStyle == TradingStyle(Sum(TimedHoldings(items), MeasuredSeconds), Count(TimedHoldings(items), Measured)) &&
      stats.favoritePair == Favorite(items) &&
      stats.totalLots == Sum(MapSeq(items, LotOf), CountedLot) &&
      stats.floatingPl == account.equity - account.balance
  {
    var positions, order, c, dd := DealPass(deals);
    OutcomesAreOutDeals(deals);
    CountersBounds(LedgerOf(deals).outcomes);
    DrawdownMax(Profits(LedgerOf(deals).outcomes));
    var winRate := Percent(c.wins, c.total);
    var avgWin := AverageWin(c.grossProfit, c.wins);
    var avgLoss := AverageLoss(c.grossLoss, c.losses);
    var items := ItemsOf(order, positions);
    var d := DurationPass(items);
    var asian, london, newYork := SessionPass(items);
    var totalLots := TotalLots(MapSeq(items, LotOf));
    stats := Summary(
      account.balance, account.equity, c.totalProfit, winRate, c.total,
      ProfitFactor(c.grossProfit, c.grossLoss),
      RewardRisk(avgWin, avgLoss),
      DrawdownPercent(dd.maxDrawdown, account.balance, c.totalProfit, dd.peak),
      avgWin, avgLoss,
      LegacyStyle(d),
      Favorite(items),
      FormatDuration(AverageHold(d)),
      c.best.GetOr(0.0), c.worst.GetOr(0.0),
      Percent(c.buyWins, c.buyTrades), Percent(c.sellWins, c.sellTrades),
      AverageHolding(d.winTotal, d.winCount), AverageHolding(d.lossTotal, d.lossCount),
      asian.profit, london.profit, newYork.profit,
      Percent(asian.wins, asian.total), Percent(london.wins, london.total), Percent(newYork.wins, newYork.total),
      account.equity - account.balance,
      totalLots,
      EquityGrowth(previousEquity, account.equity));
    LegacyStyleAgrees(d);
    trades := TradesData(participantId, items);
  }
}

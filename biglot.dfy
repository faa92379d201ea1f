/**
 * The statistics core of `sync_participant` in bridge-biglot/main.py.  The
 * first pass folds the account's deals into one record per position id; the
 * positions not open any more and with some closed volume are then taken in
 * order of closing time, and a second pass accumulates the counters,
 * drawdown, session tallies, holding times and trade rows over them; a third
 * loop measures the longest winning and losing streaks.  The MT5 and
 * Supabase calls are parameters: the deals, the open position ids, the
 * account figures and the previous day's equity.
 */
module BiglotStats {
  import opened Wrappers
  import opened Sorting
  import opened Seqs
  import opened Dedup
  import opened Trading
  import opened Accumulators
  import opened EquityService

  datatype Position = Position(
    openTime: int,
    closeTime: int,
    profit: real,
    symbol: string,
    side: Side,
    lot: real,
    volumeOut: real,
    openPrice: real,
    closePrice: real,
    sl: real,
    tp: real,
    dealsOut: seq<Deal>)

  /** The record a position id starts with when its first deal is seen. */
  function Fresh(d: Deal): Position {
    Position(0, 0, 0.0, d.symbol, UnknownSide, 0.0, 0.0, 0.0, 0.0, 0.0, 0.0, [])
  }

  /**
   * The stops recorded for an opening deal: the deal's own, with a stop that is 0 taken
   * from the deal's order when that lookup yields one.
   */
  function InStops(d: Deal): (s: Stops)
    ensures d.sl != 0.0 ==> s.sl == d.sl
    ensures d.tp != 0.0 ==> s.tp == d.tp
  {
    if (d.sl == 0.0 || d.tp == 0.0) && d.orderStops.Some? then
      Stops(if d.sl == 0.0 then d.orderStops.value.sl else d.sl,
            if d.tp == 0.0 then d.orderStops.value.tp else d.tp)
    else Stops(d.sl, d.tp)
  }

  /**
   * One deal applied to its position: an opening deal sets the open time, price, stops
   * and side and adds its volume to the lot; a closing deal sets the close time and
   * price and adds its profit and volume.
   */
  function ApplyDeal(p: Position, d: Deal): Position {
    match d.entry
    case EntryIn =>
      var stops := InStops(d);
      p.(openTime := d.time, openPrice := d.price, lot := p.lot + d.volume,
         sl := stops.sl, tp := stops.tp, side := SideOf(d))
    case EntryOut =>
      p.(closeTime := d.time, closePrice := d.price, profit := p.profit + d.profit,
         volumeOut := p.volumeOut + d.volume, dealsOut := p.dealsOut + [d])
    case EntryOther => p
  }

  /** The `positions` dictionary (its keys in insertion order) and the `symbols` list. */
  datatype Book = Book(positions: map<int, Position>, order: seq<int>, symbols: seq<string>)

  const EmptyBook := Book(map[], [], [])

  function Record(b: Book, d: Deal): Book {
    var pid := d.positionId;
    var symbols := if d.symbol != "" then b.symbols + [d.symbol] else b.symbols;
    if pid in b.positions then Book(b.positions[pid := ApplyDeal(b.positions[pid], d)], b.order, symbols)
    else Book(b.positions[pid := ApplyDeal(Fresh(d), d)], b.order + [pid], symbols)
  }

  /** The book after the deals, in order. */
  function Aggregate(deals: seq<Deal>): Book
    decreases |deals|
  {
    if deals == [] then EmptyBook else Record(Aggregate(deals[..|deals| - 1]), deals[|deals| - 1])
  }

  /** The first pass over the history deals. */
  method AggregateDeals(deals: seq<Deal>) returns (positions: map<int, Position>, order: seq<int>, symbols: seq<string>)
    ensures Book(positions, order, symbols) == Aggregate(deals)
  {
    positions, order, symbols := map[], [], [];
    for i := 0 to |deals|
      invariant Book(positions, order, symbols) == Aggregate(deals[..i])
    {
      assert deals[..i + 1][..i] == deals[..i];
      var deal := deals[i];
      if deal.symbol != "" {
        symbols := symbols + [deal.symbol];
      }
      var pid := deal.positionId;
      if pid !in positions {
        positions := positions[pid := Fresh(deal)];
        order := order + [pid];
      }
      positions := positions[pid := ApplyDeal(positions[pid], deal)];
    }
    assert deals[..|deals|] == deals;
  }

  // ---------------------------------------------------------------------
  // Properties of the first pass
  // ---------------------------------------------------------------------

  function PositionIdOf(d: Deal): int { d.positionId }

  /**
   * There is a position for exactly the ids of the deals, and the dictionary's keys come
   * in the order in which the ids first occur.
   */
  lemma {:induction false} AggregateKeys(deals: seq<Deal>)
    ensures Aggregate(deals).positions.Keys == KeySet(deals, PositionIdOf)
    ensures Aggregate(deals).order == MapSeq(FirstPerKey(deals, PositionIdOf), PositionIdOf)
    decreases |deals|
  {
    if deals != [] {
      var init := deals[..|deals| - 1];
      var last := deals[|deals| - 1];
      assert deals == init + [last];
      AggregateKeys(init);
      KeySetSnoc(init, last, PositionIdOf);
      if last.positionId !in KeySet(init, PositionIdOf) {
        MapSeqSnoc(FirstPerKey(init, PositionIdOf), last, PositionIdOf);
      }
    }
  }

  /** Every position id occurs once in the key order, and the order lists exactly the keys. */
  lemma OrderIsKeys(deals: seq<Deal>)
    ensures var b := Aggregate(deals);
      (forall i, j :: 0 <= i < j < |b.order| ==> b.order[i] != b.order[j]) &&
      (forall pid :: pid in b.order <==> pid in b.positions)
  {
    AggregateKeys(deals);
    FirstPerKeyDistinct(deals, PositionIdOf);
    FirstPerKeyKeys(deals, PositionIdOf);
    KeysListed(FirstPerKey(deals, PositionIdOf), PositionIdOf);
  }

  /** Mapping rows with distinct keys to their keys lists each key once. */
  lemma KeysListed<T(!new), K>(rows: seq<T>, key: T -> K)
    requires DistinctBy(rows, key)
    ensures var ks := MapSeq(rows, key);
      (forall i, j :: 0 <= i < j < |ks| ==> ks[i] != ks[j]) &&
      (forall k :: k in ks <==> k in KeySet(rows, key))
  {
    var ks := MapSeq(rows, key);
    forall k | k in KeySet(rows, key) ensures k in ks {
      var r :| r in rows && key(r) == k;
      var i :| 0 <= i < |rows| && rows[i] == r;
      assert ks[i] == k;
    }
  }

  /** The volume of the position's opening deals. */
  function InVolume(pid: int): Deal -> real {
    (d: Deal) => if d.positionId == pid && d.entry == EntryIn then d.volume else 0.0
  }

  /** The volume of the position's closing deals. */
  function OutVolume(pid: int): Deal -> real {
    (d: Deal) => if d.positionId == pid && d.entry == EntryOut then d.volume else 0.0
  }

  /** The profit of the position's closing deals. */
  function OutProfit(pid: int): Deal -> real {
    (d: Deal) => if d.positionId == pid && d.entry == EntryOut then d.profit else 0.0
  }

  function IsOutOf(pid: int): Deal -> bool {
    (d: Deal) => d.positionId == pid && d.entry == EntryOut
  }

  /**
   * A position's lot is the sum of its opening volumes, its profit and closed volume the
   * sums over its closing deals, and it keeps its closing deals in order.
   */
  lemma {:induction false} AggregateSums(deals: seq<Deal>, pid: int)
    ensures pid in Aggregate(deals).positions ==>
      var p := Aggregate(deals).positions[pid];
      p.lot == Sum(deals, InVolume(pid)) &&
      p.volumeOut == Sum(deals, OutVolume(pid)) &&
      p.profit == Sum(deals, OutProfit(pid)) &&
      p.dealsOut == Filter(deals, IsOutOf(pid))
    ensures pid !in Aggregate(deals).positions ==>
      Sum(deals, InVolume(pid)) == 0.0 && Sum(deals, OutVolume(pid)) == 0.0 &&
      Sum(deals, OutProfit(pid)) == 0.0 && Filter(deals, IsOutOf(pid)) == []
    decreases |deals|
  {
    if deals != [] {
      AggregateSums(deals[..|deals| - 1], pid);
    }
  }

  function SymbolIs(x: string): Deal -> bool { (d: Deal) => d.symbol == x }

  /** `symbols` holds each non-empty deal symbol once per deal, so counting it counts deals. */
  lemma {:induction false} AggregateSymbols(deals: seq<Deal>)
    ensures "" !in Aggregate(deals).symbols
    ensures forall x :: x != "" ==> Occurrences(Aggregate(deals).symbols, x) == Count(deals, SymbolIs(x))
    decreases |deals|
  {
    if deals != [] {
      var init := deals[..|deals| - 1];
      AggregateSymbols(init);
      var last := deals[|deals| - 1];
      forall x | x != "" ensures Occurrences(Aggregate(deals).symbols, x) == Count(deals, SymbolIs(x)) {
        assert Count(deals, SymbolIs(x)) == Count(init, SymbolIs(x)) + (if last.symbol == x then 1 else 0);
      }
    }
  }

  function DealSymbol(d: Deal): string { d.symbol }

  predicate HasSymbol(x: string) { x != "" }

  /** `symbols` lists the non-empty deal symbols in the order of the deals. */
  lemma {:induction false} AggregateSymbolsOrder(deals: seq<Deal>)
    ensures Aggregate(deals).symbols == Filter(MapSeq(deals, DealSymbol), HasSymbol)
    decreases |deals|
  {
    if deals != [] {
      var init, last := deals[..|deals| - 1], deals[|deals| - 1];
      AggregateSymbolsOrder(init);
      assert deals == init + [last];
      SymbolsStep(Aggregate(init), init, last);
    }
  }

  lemma SymbolsStep(b: Book, init: seq<Deal>, last: Deal)
    requires b.symbols == Filter(MapSeq(init, DealSymbol), HasSymbol)
    ensures Record(b, last).symbols == Filter(MapSeq(init + [last], DealSymbol), HasSymbol)
  {
    SymbolsSnoc(init, last);
  }

  lemma SymbolsSnoc(init: seq<Deal>, last: Deal)
    ensures Filter(MapSeq(init + [last], DealSymbol), HasSymbol)
         == Filter(MapSeq(init, DealSymbol), HasSymbol) + (if HasSymbol(last.symbol) then [last.symbol] else [])
  {
    var all := MapSeq(init + [last], DealSymbol);
    MapSeqSnoc(init, last, DealSymbol);
    assert all[..|all| - 1] == MapSeq(init, DealSymbol);
    FilterLast(all, HasSymbol);
  }

  // ---------------------------------------------------------------------
  // Closed positions
  // ---------------------------------------------------------------------

  /** A dictionary item: a position id and its record. */
  datatype Item = Item(pid: int, pos: Position)

  /** `positions.items()`: the ids of `order` that have a record, with their records. */
  function ItemsOf(order: seq<int>, positions: map<int, Position>): seq<Item>
    decreases |order|
  {
    if order == [] then []
    else
      var last := order[|order| - 1];
      ItemsOf(order[..|order| - 1], positions) + (if last in positions then [Item(last, positions[last])] else [])
  }

  lemma {:induction false} ItemsMembership(order: seq<int>, positions: map<int, Position>, it: Item)
    ensures it in ItemsOf(order, positions) <==> it.pid in order && it.pid in positions && it.pos == positions[it.pid]
    decreases |order|
  {
    if order != [] {
      var init := order[..|order| - 1];
      ItemsMembership(init, positions, it);
      assert order == init + [order[|order| - 1]];
    }
  }

  function ItemPid(it: Item): int { it.pid }

  lemma {:induction false} ItemsDistinct(order: seq<int>, positions: map<int, Position>)
    requires forall i, j :: 0 <= i < j < |order| ==> order[i] != order[j]
    ensures DistinctBy(ItemsOf(order, positions), ItemPid)
    decreases |order|
  {
    if order != [] {
      var init := order[..|order| - 1];
      var last := order[|order| - 1];
      ItemsDistinct(init, positions);
      var prev := ItemsOf(init, positions);
      if last in positions {
        var r := prev + [Item(last, positions[last])];
        forall i, j | 0 <= i < j < |r| ensures ItemPid(r[i]) != ItemPid(r[j]) {
          if j == |r| - 1 {
            assert r[i] in prev;
            ItemsMembership(init, positions, r[i]);
            var k :| 0 <= k < |init| && init[k] == r[i].pid;
            assert order[k] == init[k];
          } else {
            assert r[i] == prev[i] && r[j] == prev[j];
          }
        }
      }
    }
  }

  /** Not among the open positions, and some volume closed. */
  function IsClosedBy(openPids: set<int>): Item -> bool {
    (it: Item) => it.pid !in openPids && it.pos.volumeOut > 0.0
  }

  predicate CloseTimeFirst(a: Item, b: Item) { a.pos.closeTime <= b.pos.closeTime }

  /** `closed_pids` with their records: the closed positions by closing time, ties in key order. */
  function ClosedPositions(b: Book, openPids: set<int>): seq<Item> {
    SortBy(Filter(ItemsOf(b.order, b.positions), IsClosedBy(openPids)), CloseTimeFirst)
  }

  /** The closed positions are exactly the positions not open and with closed volume. */
  lemma ClosedExactly(deals: seq<Deal>, openPids: set<int>, it: Item)
    ensures var b := Aggregate(deals);
      it in ClosedPositions(b, openPids) <==>
        it.pid in b.positions && it.pos == b.positions[it.pid] && it.pid !in openPids && it.pos.volumeOut > 0.0
  {
    var b := Aggregate(deals);
    var items := ItemsOf(b.order, b.positions);
    OrderIsKeys(deals);
    ItemsMembership(b.order, b.positions, it);
    var closed := ClosedPositions(b, openPids);
    assert it in closed <==> it in multiset(closed);
    assert it in Filter(items, IsClosedBy(openPids)) <==> it in multiset(Filter(items, IsClosedBy(openPids)));
  }

  /** They come in non-decreasing closing time, each position at most once. */
  lemma ClosedOrder(deals: seq<Deal>, openPids: set<int>)
    ensures var closed := ClosedPositions(Aggregate(deals), openPids);
      (forall i, j :: 0 <= i < j < |closed| ==> closed[i].pos.closeTime <= closed[j].pos.closeTime) &&
      DistinctBy(closed, ItemPid)
  {
    OrderIsKeys(deals);
    assert forall i, j :: 0 <= i < j < |Aggregate(deals).order| ==> Aggregate(deals).order[i] != Aggregate(deals).order[j];
    var b := Aggregate(deals);
    ItemsDistinct(b.order, b.positions);
    var filtered := Filter(ItemsOf(b.order, b.positions), IsClosedBy(openPids));
    assert TotalPreorder(CloseTimeFirst);
    SortBySorted(filtered, CloseTimeFirst);
    FilterDistinct(ItemsOf(b.order, b.positions), IsClosedBy(openPids), ItemPid);
    SortByDistinct(filtered, CloseTimeFirst, ItemPid);
  }

  // ---------------------------------------------------------------------
  // Second pass
  // ---------------------------------------------------------------------

  function OutcomeOf(it: Item): Outcome { Outcome(it.pos.profit, it.pos.side) }
  function HoldingOf(it: Item): Holding { Holding(it.pos.openTime, it.pos.closeTime, it.pos.profit) }

  function Outcomes(closed: seq<Item>): seq<Outcome> { MapSeq(closed, OutcomeOf) }
  function Holdings(closed: seq<Item>): seq<Holding> { MapSeq(closed, HoldingOf) }

  /** The trade row of a closed position; server times are shifted back to UTC. */
  function TradeRowOf(participantId: string, it: Item): (r: TradeRow)
    ensures r.positionId == it.pid && r.profit == it.pos.profit && r.lotSize == it.pos.lot
    ensures r.openTime + ServerOffset == it.pos.openTime && r.closeTime + ServerOffset == it.pos.closeTime
  {
    var p := it.pos;
    TradeRow(participantId, p.symbol, p.side, p.lot, p.openPrice, p.closePrice, p.sl, p.tp,
             p.openTime - ServerOffset, p.closeTime - ServerOffset, p.profit, it.pid)
  }

  function RowsFor(participantId: string): Item -> TradeRow {
    (it: Item) => TradeRowOf(participantId, it)
  }

  /** The per-session tallies. */
  datatype Sessions = Sessions(asian: SessionTally, london: SessionTally, newYork: SessionTally)

  function SessionsOf(hs: seq<Holding>): Sessions {
    Sessions(SessionOf(hs, Asian), SessionOf(hs, London), SessionOf(hs, NewYork))
  }

  /**
   * The loop over the closed positions: it counts each trade, runs the drawdown over the
   * profits in closing order, tallies the sessions of the opening hour, measures the
   * holding time and collects the trade rows.
   */
  method SecondPass(closed: seq<Item>, participantId: string)
    returns (counters: Counters, drawdown: Drawdown, sessions: Sessions, durations: Durations, trades: seq<TradeRow>)
    ensures counters == CountersOf(Outcomes(closed))
    ensures drawdown == DrawdownOf(Profits(Outcomes(closed)))
    ensures sessions == SessionsOf(Holdings(closed))
    ensures durations == DurationsOf(Holdings(closed))
    ensures trades == MapSeq(closed, RowsFor(participantId))
  {
    counters, drawdown, durations, trades := NoCounters, NoTrades, NoDurations, [];
    sessions := Sessions(EmptyTally, EmptyTally, EmptyTally);
    for i := 0 to |closed|
      invariant Passed(closed[..i], participantId, counters, drawdown, sessions, durations, trades)
    {
      var it := closed[i];
      PassStep(closed, i, participantId, counters, drawdown, sessions, durations, trades);
      counters := CountTrade(counters, OutcomeOf(it));
      drawdown := DrawdownStep(drawdown, it.pos.profit);
      var hour := OpenHour(it.pos.openTime);
      sessions := Sessions(TallyTrade(sessions.asian, Asian, hour, it.pos.profit),
                           TallyTrade(sessions.london, London, hour, it.pos.profit),
                           TallyTrade(sessions.newYork, NewYork, hour, it.pos.profit));
      durations := TimeTrade(durations, HoldingOf(it));
      trades := trades + [TradeRowOf(participantId, it)];
    }
    assert closed[..|closed|] == closed;
  }

  /** The second pass's results over the positions `done` so far. */
  ghost predicate Passed(done: seq<Item>, participantId: string, counters: Counters, drawdown: Drawdown,
                         sessions: Sessions, durations: Durations, trades: seq<TradeRow>)
  {
    && counters == CountersOf(Outcomes(done))
    && drawdown == DrawdownOf(Profits(Outcomes(done)))
    && sessions == SessionsOf(Holdings(done))
    && durations == DurationsOf(Holdings(done))
    && trades == MapSeq(done, RowsFor(participantId))
  }

  lemma PassStep(closed: seq<Item>, i: nat, participantId: string, counters: Counters, drawdown: Drawdown,
                 sessions: Sessions, durations: Durations, trades: seq<TradeRow>)
    requires i < |closed|
    requires Passed(closed[..i], participantId, counters, drawdown, sessions, durations, trades)
    ensures var it := closed[i];
      var hour := OpenHour(it.pos.openTime);
      Passed(closed[..i + 1], participantId, CountTrade(counters, OutcomeOf(it)),
             DrawdownStep(drawdown, it.pos.profit),
             Sessions(TallyTrade(sessions.asian, Asian, hour, it.pos.profit),
                      TallyTrade(sessions.london, London, hour, it.pos.profit),
                      TallyTrade(sessions.newYork, NewYork, hour, it.pos.profit)),
             TimeTrade(durations, HoldingOf(it)),
             trades + [TradeRowOf(participantId, it)])
  {
    var done, it := closed[..i], closed[i];
    assert closed[..i + 1] == done + [it];
    var o, h := OutcomeOf(it), HoldingOf(it);
    MapSeqSnoc(done, it, OutcomeOf);
    MapSeqSnoc(done, it, HoldingOf);
    MapSeqSnoc(done, it, RowsFor(participantId));
    CountersSnoc(Outcomes(done), o);
    ProfitsSnoc(Outcomes(done), o);
    DrawdownSnoc(Profits(Outcomes(done)), o.profit);
    SessionSnoc(Holdings(done), h, Asian);
    SessionSnoc(Holdings(done), h, London);
    SessionSnoc(Holdings(done), h, NewYork);
    DurationsSnoc(Holdings(done), h);
  }

  // ---------------------------------------------------------------------
  // The daily statistics row
  // ---------------------------------------------------------------------

  /** The `daily_stats` row before rounding (`points` is not part of this model). */
  datatype Summary = Summary(
    balance: real,
    equity: real,
    profit: real,
    winRate: real,
    totalTrades: nat,
    profitFactor: real,
    rrRatio: real,
    maxDrawdown: real,
    avgWin: real,
    avgLoss: real,
    tradingStyle: string,
    favoritePair: string,
    avgHoldingTime: string,
    bestTrade: real,
    worstTrade: real,
    winRateBuy: real,
    winRateSell: real,
    avgHoldingTimeWin: string,
    avgHoldingTimeLoss: string,
    maxConsecutiveWins: nat,
    maxConsecutiveLosses: nat,
    sessionAsianProfit: real,
    sessionLondonProfit: real,
    sessionNewYorkProfit: real,
    sessionAsianWinRate: real,
    sessionLondonWinRate: real,
    sessionNewYorkWinRate: real,
    floatingPl: real,
    totalLots: real,
    equityGrowthPercent: real)

  function LotOf(it: Item): Option<real> { Some(it.pos.lot) }

  /** The aggregates of the statistics row, from the accumulated values. */
  function Summarize(account: Account, c: Counters, dd: Drawdown, sessions: Sessions, d: Durations,
                     maxWins: nat, maxLosses: nat, symbols: seq<string>, totalLots: real, previousEquity: real): Summary
  {
    var avgWin := AverageWin(c.grossProfit, c.wins);
    var avgLoss := AverageLoss(c.grossLoss, c.losses);
    Summary(
      account.balance, account.equity, c.totalProfit,
      Percent(c.wins, c.total), c.total,
      ProfitFactor(c.grossProfit, c.grossLoss),
      RewardRisk(avgWin, avgLoss),
      DrawdownPercent(dd.maxDrawdown, account.balance, c.totalProfit, dd.peak),
      avgWin, avgLoss,
      TradingStyle(d.total, d.count),
      FavoritePair(symbols),
      AverageHolding(d.total, d.count),
      c.best.GetOr(0.0), c.worst.GetOr(0.0),
      Percent(c.buyWins, c.buyTrades), Percent(c.sellWins, c.sellTrades),
      AverageHolding(d.winTotal, d.winCount), AverageHolding(d.lossTotal, d.lossCount),
      maxWins, maxLosses,
      sessions.asian.profit, sessions.london.profit, sessions.newYork.profit,
      Percent(sessions.asian.wins, sessions.asian.total),
      Percent(sessions.london.wins, sessions.london.total),
      Percent(sessions.newYork.wins, sessions.newYork.total),
      account.equity - account.balance,
      totalLots,
      EquityGrowth(previousEquity, account.equity))
  }

  /**
   * The statistics of `sync_participant`: the first pass, the closed positions, the second
   * pass and the streak loop, then the aggregates.  Returns the statistics row and the
   * trade rows.
   */
  method Sync(deals: seq<Deal>, openPids: set<int>, account: Account, participantId: string, previousEquity: real)
    returns (stats: Summary, trades: seq<TradeRow>)
    ensures var b := Aggregate(deals);
      var closed := ClosedPositions(b, openPids);
      trades == MapSeq(closed, RowsFor(participantId)) &&
      stats.totalTrades == |closed| &&
      stats.profit == Sum(Outcomes(closed), ProfitOf) &&
      0.0 <= stats.winRate <= 100.0 &&
      stats.favoritePair == FavoritePair(b.symbols) &&
      stats.tradingStyle == TradingStyle(Sum(Holdings(closed), MeasuredSeconds), Count(Holdings(closed), Measured)) &&
      LongestRun(Outcomes(closed), stats.maxConsecutiveWins, IsWin, IsLoss) &&
      LongestRun(Outcomes(closed), stats.maxConsecutiveLosses, IsLoss, IsWin) &&
      stats.totalLots == Sum(MapSeq(ItemsOf(b.order, b.positions), LotOf), CountedLot) &&
      stats.floatingPl == account.equity - account.balance
  {
    var positions, order, symbols := AggregateDeals(deals);
    var book := Book(positions, order, symbols);
    var closed := SortBy(Filter(ItemsOf(order, positions), IsClosedBy(openPids)), CloseTimeFirst);
    assert closed == ClosedPositions(book, openPids);
    var counters, drawdown, sessions, durations;
    counters, drawdown, sessions, durations, trades := SecondPass(closed, participantId);
    var maxWins, maxLosses := Streaks(Outcomes(closed));
    var totalLots := TotalLots(MapSeq(ItemsOf(order, positions), LotOf));
    CountersBounds(Outcomes(closed));
    DrawdownMax(Profits(Outcomes(closed)));
    stats := Summarize(account, counters, drawdown, sessions, durations, maxWins, maxLosses, symbols, totalLots, previousEquity);
  }

  // ---------------------------------------------------------------------
  // Properties of the statistics row
  // ---------------------------------------------------------------------

  /**
   * The favourite pair is "-" when no deal has a symbol, and otherwise a symbol carried by
   * the most deals.
   */
  lemma FavoriteIsMostTraded(deals: seq<Deal>)
    ensures var fav := FavoritePair(Aggregate(deals).symbols);
      ((forall d :: d in deals ==> d.symbol == "") ==> fav == "-") &&
      ((exists d :: d in deals && d.symbol != "") ==>
        fav != "" && (exists d :: d in deals && d.symbol == fav) &&
        forall x :: x != "" ==> Count(deals, SymbolIs(x)) <= Count(deals, SymbolIs(fav)))
    ensures var symbols := Aggregate(deals).symbols;
      var fav := FavoritePair(symbols);
      forall i :: 0 <= i < |symbols| && Occurrences(symbols, symbols[i]) == Occurrences(symbols, fav) ==> fav in symbols[..i + 1]
  {
    var symbols := Aggregate(deals).symbols;
    AggregateSymbols(deals);
    if symbols == [] {
      forall d | d in deals ensures d.symbol == "" {
        var k :| 0 <= k < |deals| && deals[k] == d;
        CountPositive(deals, SymbolIs(d.symbol), k);
        assert Occurrences(symbols, d.symbol) == 0;
      }
    } else {
      var fav := FavoritePair(symbols);
      assert symbols[0] in symbols && symbols[0] != "";
      var d := SymbolWitness(deals, fav);
      forall x | x != "" ensures Count(deals, SymbolIs(x)) <= Count(deals, SymbolIs(fav)) {
        if x !in symbols {
          assert Occurrences(symbols, x) == 0;
        }
      }
    }
  }

  lemma {:induction false} CountPositive<T>(s: seq<T>, p: T -> bool, k: int)
    requires 0 <= k < |s| && p(s[k])
    ensures Count(s, p) > 0
    decreases |s|
  {
    if k < |s| - 1 {
      assert s[..|s| - 1][k] == s[k];
      CountPositive(s[..|s| - 1], p, k);
    }
  }

  lemma SymbolWitness(deals: seq<Deal>, x: string) returns (d: Deal)
    requires x != "" && x in Aggregate(deals).symbols
    ensures d in deals && d.symbol == x
  {
    AggregateSymbols(deals);
    assert Occurrences(Aggregate(deals).symbols, x) > 0;
    var k := SomeSatisfying(deals, SymbolIs(x));
    d := deals[k];
  }

  /**
   * The row's counts agree with each other: wins and losses among the trades, side win
   * rates within 0-100, the best trade at least the worst, the longest streaks within the
   * wins and losses, and a maximum drawdown that is never negative.
   */
  lemma SummaryBounds(deals: seq<Deal>, openPids: set<int>, maxWins: nat, maxLosses: nat)
    requires var closed := ClosedPositions(Aggregate(deals), openPids);
      LongestRun(Outcomes(closed), maxWins, IsWin, IsLoss) &&
      LongestRun(Outcomes(closed), maxLosses, IsLoss, IsWin)
    ensures var closed := ClosedPositions(Aggregate(deals), openPids);
      var c := CountersOf(Outcomes(closed));
      c.wins + c.losses <= |closed| &&
      maxWins <= c.wins && maxLosses <= c.losses &&
      c.best.GetOr(0.0) >= c.worst.GetOr(0.0) &&
      DrawdownOf(Profits(Outcomes(closed))).maxDrawdown >= 0.0 &&
      0.0 <= Percent(c.buyWins, c.buyTrades) <= 100.0 && 0.0 <= Percent(c.sellWins, c.sellTrades) <= 100.0
  {
    var closed := ClosedPositions(Aggregate(deals), openPids);
    var os := Outcomes(closed);
    CountersBounds(os);
    LongestRunBounds(os, maxWins, IsWin, IsLoss);
    LongestRunBounds(os, maxLosses, IsLoss, IsWin);
    DrawdownMax(Profits(os));
    if os != [] {
      assert os[0].profit <= Best(os).value && os[0].profit >= Worst(os).value;
    }
  }
}

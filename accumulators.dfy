/**
 * The per-trade accumulators of the bridge scripts, each given twice: as the
 * update the scripts apply to one trade, and as a declarative definition over
 * the whole list of trades (counts and sums).  The `...Snoc` lemmas connect the
 * two, so a loop applying the update computes the declarative value.
 */
module Accumulators {
  import opened Wrappers
  import opened Sorting
  import opened Trading

  lemma MapSeqSnoc<T, U>(s: seq<T>, x: T, f: T -> U)
    ensures MapSeq(s + [x], f) == MapSeq(s, f) + [f(x)]
  {
    assert forall i :: 0 <= i < |s| ==> (s + [x])[i] == s[i];
  }

  // ---------------------------------------------------------------------
  // Win / loss counters
  // ---------------------------------------------------------------------

  /** One counted trade: its profit and the side of its position. */
  datatype Outcome = Outcome(profit: real, side: Side)

  predicate IsWin(o: Outcome) { o.profit > 0.0 }
  predicate IsLoss(o: Outcome) { o.profit < 0.0 }
  predicate IsBuy(o: Outcome) { o.side == Buy }
  predicate IsSell(o: Outcome) { o.side == Sell }
  predicate IsBuyWin(o: Outcome) { IsBuy(o) && IsWin(o) }
  predicate IsSellWin(o: Outcome) { IsSell(o) && IsWin(o) }

  function ProfitOf(o: Outcome): real { o.profit }
  function GainOf(o: Outcome): real { if o.profit > 0.0 then o.profit else 0.0 }
  function LossOf(o: Outcome): real { if o.profit < 0.0 then -o.profit else 0.0 }

  /** The largest profit; `None` (the scripts' `-inf`) for no trades. */
  function Best(s: seq<Outcome>): (b: Option<real>)
    ensures b.None? <==> s == []
    ensures b.Some? ==> forall i :: 0 <= i < |s| ==> s[i].profit <= b.value
    ensures b.Some? ==> exists i :: 0 <= i < |s| && s[i].profit == b.value
    decreases |s|
  {
    if s == [] then None
    else
      var b := Best(s[..|s| - 1]);
      var p := s[|s| - 1].profit;
      assert forall i :: 0 <= i < |s| - 1 ==> s[..|s| - 1][i] == s[i];
      if b.None? || p > b.value then Some(p) else b
  }

  /** The smallest profit; `None` (the scripts' `inf`) for no trades. */
  function Worst(s: seq<Outcome>): (w: Option<real>)
    ensures w.None? <==> s == []
    ensures w.Some? ==> forall i :: 0 <= i < |s| ==> s[i].profit >= w.value
    ensures w.Some? ==> exists i :: 0 <= i < |s| && s[i].profit == w.value
    decreases |s|
  {
    if s == [] then None
    else
      var w := Worst(s[..|s| - 1]);
      var p := s[|s| - 1].profit;
      assert forall i :: 0 <= i < |s| - 1 ==> s[..|s| - 1][i] == s[i];
      if w.None? || p < w.value then Some(p) else w
  }

  datatype Counters = Counters(
    total: nat,
    totalProfit: real,
    wins: nat,
    losses: nat,
    grossProfit: real,
    grossLoss: real,
    best: Option<real>,
    worst: Option<real>,
    buyTrades: nat,
    buyWins: nat,
    sellTrades: nat,
    sellWins: nat)

  const NoCounters := Counters(0, 0.0, 0, 0, 0.0, 0.0, None, None, 0, 0, 0, 0)

  /** What the counters are after the trades `s`: counts and sums over them. */
  function CountersOf(s: seq<Outcome>): Counters {
    Counters(|s|, Sum(s, ProfitOf), Count(s, IsWin), Count(s, IsLoss), Sum(s, GainOf), Sum(s, LossOf),
             Best(s), Worst(s), Count(s, IsBuy), Count(s, IsBuyWin), Count(s, IsSell), Count(s, IsSellWin))
  }

  /**
   * The scripts' update for one trade: count it, add its profit, count a win (profit
   * above 0) or a loss (below 0) with its gross amount, raise the best and lower the
   * worst trade, and count it on its side with its win.
   */
  function CountTrade(c: Counters, o: Outcome): Counters {
    var p := o.profit;
    Counters(
      c.total + 1,
      c.totalProfit + p,
      if p > 0.0 then c.wins + 1 else c.wins,
      if p < 0.0 then c.losses + 1 else c.losses,
      if p > 0.0 then c.grossProfit + p else c.grossProfit,
      if p < 0.0 then c.grossLoss + -p else c.grossLoss,
      if c.best.None? || p > c.best.value then Some(p) else c.best,
      if c.worst.None? || p < c.worst.value then Some(p) else c.worst,
      if o.side == Buy then c.buyTrades + 1 else c.buyTrades,
      if o.side == Buy && p > 0.0 then c.buyWins + 1 else c.buyWins,
      if o.side == Sell then c.sellTrades + 1 else c.sellTrades,
      if o.side == Sell && p > 0.0 then c.sellWins + 1 else c.sellWins)
  }

  lemma CountersEmpty()
    ensures CountersOf([]) == NoCounters
  {
  }

  /** Updating the counters of `s` with one more trade gives the counters of the longer list. */
  lemma CountersSnoc(s: seq<Outcome>, o: Outcome)
    ensures CountersOf(s + [o]) == CountTrade(CountersOf(s), o)
  {
    var t := s + [o];
    assert t[..|s|] == s;
    CountSnoc(s, o, IsWin);
    CountSnoc(s, o, IsLoss);
    CountSnoc(s, o, IsBuy);
    CountSnoc(s, o, IsBuyWin);
    CountSnoc(s, o, IsSell);
    CountSnoc(s, o, IsSellWin);
    SumSnoc(s, o, ProfitOf);
    SumSnoc(s, o, GainOf);
    SumSnoc(s, o, LossOf);
  }

  /** The total profit is the gross profit minus the gross loss. */
  lemma {:induction false} ProfitSplit(s: seq<Outcome>)
    ensures Sum(s, ProfitOf) == Sum(s, GainOf) - Sum(s, LossOf)
    decreases |s|
  {
    if s != [] {
      ProfitSplit(s[..|s| - 1]);
    }
  }

  /**
   * Wins and losses never overlap (a trade with zero profit is neither), wins and
   * trades split by side, and the gross amounts are non-negative.
   */
  lemma CountersBounds(s: seq<Outcome>)
    ensures var c := CountersOf(s);
      c.wins + c.losses <= c.total &&
      c.buyTrades + c.sellTrades <= c.total &&
      c.buyWins <= c.buyTrades && c.sellWins <= c.sellTrades &&
      c.buyWins + c.sellWins <= c.wins &&
      c.grossProfit >= 0.0 && c.grossLoss >= 0.0 &&
      c.totalProfit == c.grossProfit - c.grossLoss &&
      (c.best.None? <==> c.total == 0)
  {
    CountDisjoint(s, IsWin, IsLoss);
    CountDisjoint(s, IsBuy, IsSell);
    CountMonotone(s, IsBuyWin, IsBuy);
    CountMonotone(s, IsSellWin, IsSell);
    CountDisjointWithin(s, IsBuyWin, IsSellWin, IsWin);
    SumNonNegative(s, GainOf);
    SumNonNegative(s, LossOf);
    ProfitSplit(s);
  }

  /** Two conditions that never hold together and both imply a third count at most as often as it. */
  lemma {:induction false} CountDisjointWithin<T(!new)>(s: seq<T>, p: T -> bool, q: T -> bool, r: T -> bool)
    requires forall x :: p(x) ==> !q(x)
    requires forall x :: p(x) ==> r(x)
    requires forall x :: q(x) ==> r(x)
    ensures Count(s, p) + Count(s, q) <= Count(s, r)
    decreases |s|
  {
    if s != [] {
      CountDisjointWithin(s[..|s| - 1], p, q, r);
    }
  }

  // ---------------------------------------------------------------------
  // Holding times
  // ---------------------------------------------------------------------

  /** A trade's open and close times (broker server seconds) and profit. */
  datatype Holding = Holding(openTime: int, closeTime: int, profit: real)

  function Seconds(h: Holding): int { h.closeTime - h.openTime }

  /** Only non-negative durations are counted. */
  predicate Measured(h: Holding) { Seconds(h) >= 0 }
  predicate MeasuredWin(h: Holding) { Measured(h) && h.profit > 0.0 }
  predicate MeasuredLoss(h: Holding) { Measured(h) && h.profit < 0.0 }

  function MeasuredSeconds(h: Holding): real { if Measured(h) then Seconds(h) as real else 0.0 }
  function WinSeconds(h: Holding): real { if MeasuredWin(h) then Seconds(h) as real else 0.0 }
  function LossSeconds(h: Holding): real { if MeasuredLoss(h) then Seconds(h) as real else 0.0 }

  datatype Durations = Durations(total: real, count: nat, winTotal: real, winCount: nat, lossTotal: real, lossCount: nat)

  const NoDurations := Durations(0.0, 0, 0.0, 0, 0.0, 0)

  /** The measured durations of `s`, of its winning and of its losing trades. */
  function DurationsOf(s: seq<Holding>): Durations {
    Durations(Sum(s, MeasuredSeconds), Count(s, Measured), Sum(s, WinSeconds), Count(s, MeasuredWin),
              Sum(s, LossSeconds), Count(s, MeasuredLoss))
  }

  /** The scripts' update for one trade: a non-negative duration is added and counted. */
  function TimeTrade(d: Durations, h: Holding): Durations {
    var dur := h.closeTime - h.openTime;
    if dur >= 0 then
      if h.profit > 0.0 then Durations(d.total + dur as real, d.count + 1, d.winTotal + dur as real, d.winCount + 1, d.lossTotal, d.lossCount)
      else if h.profit < 0.0 then Durations(d.total + dur as real, d.count + 1, d.winTotal, d.winCount, d.lossTotal + dur as real, d.lossCount + 1)
      else d.(total := d.total + dur as real, count := d.count + 1)
    else d
  }

  lemma DurationsEmpty()
    ensures DurationsOf([]) == NoDurations
  {
  }

  lemma DurationsSnoc(s: seq<Holding>, h: Holding)
    ensures DurationsOf(s + [h]) == TimeTrade(DurationsOf(s), h)
  {
    CountSnoc(s, h, Measured);
    CountSnoc(s, h, MeasuredWin);
    CountSnoc(s, h, MeasuredLoss);
    SumSnoc(s, h, MeasuredSeconds);
    SumSnoc(s, h, WinSeconds);
    SumSnoc(s, h, LossSeconds);
  }

  /** Totals are non-negative, and measured wins and losses are among the measured trades. */
  lemma DurationsBounds(s: seq<Holding>)
    ensures var d := DurationsOf(s);
      d.total >= 0.0 && d.winTotal >= 0.0 && d.lossTotal >= 0.0 &&
      d.winCount + d.lossCount <= d.count <= |s|
  {
    SumNonNegative(s, MeasuredSeconds);
    SumNonNegative(s, WinSeconds);
    SumNonNegative(s, LossSeconds);
    CountDisjointWithin(s, MeasuredWin, MeasuredLoss, Measured);
  }

  // ---------------------------------------------------------------------
  // Sessions
  // ---------------------------------------------------------------------

  function HourOf(h: Holding): int { OpenHour(h.openTime) }

  predicate InSessionOf(s: Session, h: Holding) { InSession(s, HourOf(h)) }

  function InSessionBy(s: Session): Holding -> bool { h => InSessionOf(s, h) }
  function SessionWinBy(s: Session): Holding -> bool { h => InSessionOf(s, h) && h.profit > 0.0 }
  function SessionProfitBy(s: Session): Holding -> real { h => if InSessionOf(s, h) then h.profit else 0.0 }

  /** Profit, wins and number of the trades of `hs` opened in session `s`. */
  function SessionOf(hs: seq<Holding>, s: Session): SessionTally {
    SessionTally(Sum(hs, SessionProfitBy(s)), Count(hs, SessionWinBy(s)), Count(hs, InSessionBy(s)))
  }

  lemma SessionEmpty(s: Session)
    ensures SessionOf([], s) == EmptyTally
  {
  }

  lemma SessionSnoc(hs: seq<Holding>, h: Holding, s: Session)
    ensures SessionOf(hs + [h], s) == TallyTrade(SessionOf(hs, s), s, HourOf(h), h.profit)
  {
    CountSnoc(hs, h, SessionWinBy(s));
    CountSnoc(hs, h, InSessionBy(s));
    SumSnoc(hs, h, SessionProfitBy(s));
  }

  /** A session counts its wins among its trades; a trade opened at hours 21-23 is in none. */
  lemma SessionBounds(hs: seq<Holding>, s: Session)
    ensures SessionOf(hs, s).wins <= SessionOf(hs, s).total <= |hs|
    ensures (forall h :: h in hs ==> 21 <= HourOf(h)) ==> SessionOf(hs, s).total == 0
  {
    CountMonotone(hs, SessionWinBy(s), InSessionBy(s));
    if forall h :: h in hs ==> 21 <= HourOf(h) {
      CountNone(hs, InSessionBy(s));
    }
  }

  lemma {:induction false} CountNone<T>(s: seq<T>, p: T -> bool)
    requires forall x :: x in s ==> !p(x)
    ensures Count(s, p) == 0
    decreases |s|
  {
    if s != [] {
      assert forall x :: x in s[..|s| - 1] ==> x in s;
      CountNone(s[..|s| - 1], p);
    }
  }

  // ---------------------------------------------------------------------
  // Drawdown
  // ---------------------------------------------------------------------

  function Profits(s: seq<Outcome>): seq<real> { MapSeq(s, ProfitOf) }

  lemma ProfitsSnoc(s: seq<Outcome>, o: Outcome)
    ensures Profits(s + [o]) == Profits(s) + [o.profit]
  {
    MapSeqSnoc(s, o, ProfitOf);
  }

  // ---------------------------------------------------------------------
  // Streaks
  // ---------------------------------------------------------------------

  /** No trade of `s[a..b]` satisfies `brk`. */
  ghost predicate Unbroken(s: seq<Outcome>, a: int, b: int, brk: Outcome -> bool)
    requires 0 <= a <= b <= |s|
  {
    forall k :: a <= k < b ==> !brk(s[k])
  }

  /**
   * `n` is the largest number of trades satisfying `p` in a stretch of `s` that no trade
   * satisfying `brk` interrupts (trades satisfying neither leave a streak running).
   */
  ghost predicate LongestRun(s: seq<Outcome>, n: nat, p: Outcome -> bool, brk: Outcome -> bool) {
    && (forall a, b :: 0 <= a <= b <= |s| && Unbroken(s, a, b, brk) ==> Count(s[a..b], p) <= n)
    && (exists a, b :: 0 <= a <= b <= |s| && Unbroken(s, a, b, brk) && Count(s[a..b], p) == n)
  }

  /** The running streak `cur`, which started at `start`, is the longest one ending at `i`. */
  ghost predicate CurrentRun(s: seq<Outcome>, i: int, start: int, cur: nat, p: Outcome -> bool, brk: Outcome -> bool) {
    && 0 <= start <= i <= |s|
    && Unbroken(s, start, i, brk)
    && cur == Count(s[start..i], p)
    && forall a :: 0 <= a <= i && Unbroken(s, a, i, brk) ==> Count(s[a..i], p) <= cur
  }

  /** `m`, the streak `s[a..b]`, is the longest one within `s[..i]`. */
  ghost predicate LongestSoFar(s: seq<Outcome>, i: int, a: int, b: int, m: nat, p: Outcome -> bool, brk: Outcome -> bool) {
    && 0 <= a <= b <= i <= |s|
    && Unbroken(s, a, b, brk)
    && m == Count(s[a..b], p)
    && forall x, y :: 0 <= x <= y <= i && Unbroken(s, x, y, brk) ==> Count(s[x..y], p) <= m
  }

  lemma CountSliceSnoc(s: seq<Outcome>, a: int, i: int, p: Outcome -> bool)
    requires 0 <= a <= i < |s|
    ensures Count(s[a..i + 1], p) == Count(s[a..i], p) + (if p(s[i]) then 1 else 0)
  {
    assert s[a..i + 1] == s[a..i] + [s[i]];
    CountSnoc(s[a..i], s[i], p);
  }

  /**
   * A breaking trade ends the running streak (it restarts empty after it); any other trade
   * extends it, by one when it satisfies `p`.
   */
  lemma CurrentRunStep(s: seq<Outcome>, i: int, start: int, cur: nat, p: Outcome -> bool, brk: Outcome -> bool)
    requires i < |s| && CurrentRun(s, i, start, cur, p, brk)
    ensures brk(s[i]) ==> CurrentRun(s, i + 1, i + 1, 0, p, brk)
    ensures !brk(s[i]) ==> CurrentRun(s, i + 1, start, cur + (if p(s[i]) then 1 else 0), p, brk)
  {
    var j := i + 1;
    if brk(s[i]) {
      forall a | 0 <= a <= j && Unbroken(s, a, j, brk) ensures Count(s[a..j], p) <= 0 {
      }
    } else {
      CountSliceSnoc(s, start, i, p);
      forall a | 0 <= a <= j && Unbroken(s, a, j, brk)
        ensures Count(s[a..j], p) <= cur + (if p(s[i]) then 1 else 0)
      {
        if a <= i {
          CountSliceSnoc(s, a, i, p);
          assert Unbroken(s, a, i, brk);
        }
      }
    }
  }

  /** Every streak within `s[..i + 1]` ends before `i` or is the running one. */
  lemma LongestSoFarStep(s: seq<Outcome>, i: int, a: int, b: int, m: nat, start: int, cur: nat,
                         p: Outcome -> bool, brk: Outcome -> bool)
    requires i < |s| && LongestSoFar(s, i, a, b, m, p, brk) && CurrentRun(s, i + 1, start, cur, p, brk)
    ensures cur <= m ==> LongestSoFar(s, i + 1, a, b, m, p, brk)
    ensures cur > m ==> LongestSoFar(s, i + 1, start, i + 1, cur, p, brk)
  {
    forall x, y | 0 <= x <= y <= i + 1 && Unbroken(s, x, y, brk)
      ensures Count(s[x..y], p) <= m || Count(s[x..y], p) <= cur
    {
      if y <= i {
        assert Count(s[x..y], p) <= m;
      }
    }
  }

  /** The loop's knowledge of one kind of streak after `s[..i]`. */
  ghost predicate Tracking(s: seq<Outcome>, i: int, start: int, cur: nat, a: int, b: int, m: nat,
                           p: Outcome -> bool, brk: Outcome -> bool) {
    CurrentRun(s, i, start, cur, p, brk) && LongestSoFar(s, i, a, b, m, p, brk) && cur <= m
  }

  /**
   * One trade: a breaking one resets the running streak, a counted one extends it, and the
   * maximum moves to the running streak when that passes it.
   */
  lemma TrackStep(s: seq<Outcome>, i: int, start: int, cur: nat, a: int, b: int, m: nat,
                  start': int, cur': nat, a': int, b': int, m': nat,
                  p: Outcome -> bool, brk: Outcome -> bool)
    requires i < |s| && Tracking(s, i, start, cur, a, b, m, p, brk)
    requires start' == (if brk(s[i]) then i + 1 else start)
    requires cur' == (if brk(s[i]) then 0 else if p(s[i]) then cur + 1 else cur)
    requires cur' > m ==> a' == start' && b' == i + 1 && m' == cur'
    requires cur' <= m ==> a' == a && b' == b && m' == m
    ensures Tracking(s, i + 1, start', cur', a', b', m', p, brk)
  {
    CurrentRunStep(s, i, start, cur, p, brk);
    LongestSoFarStep(s, i, a, b, m, start', cur', p, brk);
  }

  /** Before any trade, both the running and the longest streak are empty. */
  lemma TrackingStart(s: seq<Outcome>, p: Outcome -> bool, brk: Outcome -> bool)
    ensures Tracking(s, 0, 0, 0, 0, 0, 0, p, brk)
  {
    assert s[0..0] == [];
  }

  /** The running streak and the longest one, after a list of trades. */
  datatype Streak = Streak(current: nat, longest: nat)

  /**
   * The streak after `s`: a trade satisfying `brk` resets the running streak, one
   * satisfying `p` extends it, and the longest one follows it when it passes.
   */
  function StreakAfter(s: seq<Outcome>, p: Outcome -> bool, brk: Outcome -> bool): (t: Streak)
    ensures t.current <= t.longest
    decreases |s|
  {
    if s == [] then Streak(0, 0)
    else
      var prev := StreakAfter(s[..|s| - 1], p, brk);
      var o := s[|s| - 1];
      var cur := if brk(o) then 0 else if p(o) then prev.current + 1 else prev.current;
      Streak(cur, if cur > prev.longest then cur else prev.longest)
  }

  /** The running streak is the longest ending at the last trade, and where it starts. */
  lemma {:induction false} StreakAfterTracks(s: seq<Outcome>, p: Outcome -> bool, brk: Outcome -> bool)
    returns (start: int, a: int, b: int)
    ensures Tracking(s, |s|, start, StreakAfter(s, p, brk).current, a, b, StreakAfter(s, p, brk).longest, p, brk)
    decreases |s|
  {
    if s == [] {
      TrackingStart(s, p, brk);
      start, a, b := 0, 0, 0;
    } else {
      var init := s[..|s| - 1];
      var i := |s| - 1;
      var start0, a0, b0 := StreakAfterTracks(init, p, brk);
      var prev := StreakAfter(init, p, brk);
      var t := StreakAfter(s, p, brk);
      TrackingPrefix(s, init, start0, prev.current, a0, b0, prev.longest, p, brk);
      start := if brk(s[i]) then i + 1 else start0;
      if t.current > prev.longest {
        a, b := start, i + 1;
      } else {
        a, b := a0, b0;
      }
      TrackStep(s, i, start0, prev.current, a0, b0, prev.longest, start, t.current, a, b, t.longest, p, brk);
    }
  }

  /** What the loop knows about a prefix carries over to the whole list, up to the prefix's end. */
  lemma TrackingPrefix(s: seq<Outcome>, init: seq<Outcome>, start: int, cur: nat, a: int, b: int, m: nat,
                       p: Outcome -> bool, brk: Outcome -> bool)
    requires |init| <= |s| && init == s[..|init|] && Tracking(init, |init|, start, cur, a, b, m, p, brk)
    ensures Tracking(s, |init|, start, cur, a, b, m, p, brk)
  {
    var i := |init|;
    forall x, y | 0 <= x <= y <= i ensures s[x..y] == init[x..y] && (Unbroken(s, x, y, brk) <==> Unbroken(init, x, y, brk)) {
      assert forall k :: x <= k < y ==> s[k] == init[k];
    }
  }

  /** The longest streak that StreakAfter reports is the longest streak of the list. */
  lemma StreakAfterIsLongest(s: seq<Outcome>, p: Outcome -> bool, brk: Outcome -> bool)
    ensures LongestRun(s, StreakAfter(s, p, brk).longest, p, brk)
  {
    var start, a, b := StreakAfterTracks(s, p, brk);
  }

  /**
   * The streak loop: a win extends the winning streak and ends the losing one, a loss the
   * other way round, a trade with zero profit changes neither; each maximum is raised when
   * its streak passes it.
   */
  method Streaks(s: seq<Outcome>) returns (maxWins: nat, maxLosses: nat)
    ensures LongestRun(s, maxWins, IsWin, IsLoss)
    ensures LongestRun(s, maxLosses, IsLoss, IsWin)
  {
    maxWins, maxLosses := 0, 0;
    var curWins: nat, curLosses: nat := 0, 0;
    for i := 0 to |s|
      invariant StreakAfter(s[..i], IsWin, IsLoss) == Streak(curWins, maxWins)
      invariant StreakAfter(s[..i], IsLoss, IsWin) == Streak(curLosses, maxLosses)
    {
      assert s[..i + 1][..i] == s[..i];
      if s[i].profit > 0.0 {
        curWins := curWins + 1;
        curLosses := 0;
        if curWins > maxWins {
          maxWins := curWins;
        }
      } else if s[i].profit < 0.0 {
        curLosses := curLosses + 1;
        curWins := 0;
        if curLosses > maxLosses {
          maxLosses := curLosses;
        }
      }
    }
    assert s[..|s|] == s;
    StreakAfterIsLongest(s, IsWin, IsLoss);
    StreakAfterIsLongest(s, IsLoss, IsWin);
  }

  /** A streak is never longer than the list's wins (losses), and is positive when there is one. */
  lemma LongestRunBounds(s: seq<Outcome>, n: nat, p: Outcome -> bool, brk: Outcome -> bool)
    requires LongestRun(s, n, p, brk)
    requires forall o :: p(o) ==> !brk(o)
    ensures n <= Count(s, p)
    ensures n == 0 <==> Count(s, p) == 0
  {
    var a, b :| 0 <= a <= b <= |s| && Unbroken(s, a, b, brk) && Count(s[a..b], p) == n;
    CountSliceBound(s, a, b, p);
    if Count(s, p) > 0 {
      var k := SomeSatisfying(s, p);
      CountSliceSnoc(s, k, k, p);
      assert s[k..k] == [];
      assert Unbroken(s, k, k + 1, brk);
    }
  }

  lemma {:induction false} CountSliceBound<T>(s: seq<T>, a: int, b: int, p: T -> bool)
    requires 0 <= a <= b <= |s|
    ensures Count(s[a..b], p) <= Count(s, p)
    decreases |s|
  {
    if s != [] {
      var init := s[..|s| - 1];
      if b == |s| {
        if a < b {
          assert s[a..b][..b - a - 1] == init[a..b - 1];
          CountSliceBound(init, a, b - 1, p);
        }
      } else {
        assert s[a..b] == init[a..b];
        CountSliceBound(init, a, b, p);
      }
    }
  }

  lemma {:induction false} SomeSatisfying<T>(s: seq<T>, p: T -> bool) returns (k: int)
    requires Count(s, p) > 0
    ensures 0 <= k < |s| && p(s[k])
    decreases |s|
  {
    if p(s[|s| - 1]) {
      k := |s| - 1;
    } else {
      k := SomeSatisfying(s[..|s| - 1], p);
    }
  }
}

/**
 * Statistics shared by both bridge scripts (bridge-biglot/main.py and
 * bridge/main.py): counting and summing over trades, the running maximum
 * drawdown, the trading-session hours, holding-time formatting, the
 * trading-style thresholds, the most frequent symbol and the ratio formulas.
 * Money and prices are reals, timestamps are integer seconds.
 */
module Trading {
  import opened Wrappers
  import opened Text
  import opened Seqs
  import opened Dedup

  // ---------------------------------------------------------------------
  // Deals
  // ---------------------------------------------------------------------

  /** `deal.entry`: opening, closing, or any other kind (reversal, close-by). */
  datatype DealEntry = EntryIn | EntryOut | EntryOther

  /** Stop loss and take profit; 0 means not set. */
  datatype Stops = Stops(sl: real, tp: real)

  /**
   * The fields of an MT5 history deal that the statistics read.  `orderStops` is what
   * looking up the deal's order in the order history yields: `None` when the deal has no
   * order (`deal.order` is 0), the lookup finds nothing, or it fails.
   */
  datatype Deal = Deal(
    positionId: int,
    entry: DealEntry,
    time: int,
    price: real,
    volume: real,
    profit: real,
    symbol: string,
    dealType: int,
    sl: real,
    tp: real,
    orderStops: Option<Stops>)

  /** `DEAL_TYPE_BUY` and `ORDER_TYPE_BUY` are both 0 in MT5. */
  const BuyType := 0

  datatype Side = UnknownSide | Buy | Sell

  /** The side an opening deal gives its position. */
  function SideOf(d: Deal): Side {
    if d.dealType == BuyType then Buy else Sell
  }

  /** A row of the `trades` table; times are UTC seconds. */
  datatype TradeRow = TradeRow(
    participantId: string,
    symbol: string,
    side: Side,
    lotSize: real,
    openPrice: real,
    closePrice: real,
    sl: real,
    tp: real,
    openTime: int,
    closeTime: int,
    profit: real,
    positionId: int)

  // ---------------------------------------------------------------------
  // Counting and summing
  // ---------------------------------------------------------------------

  /** How many elements of `s` satisfy `p`. */
  function Count<T>(s: seq<T>, p: T -> bool): (n: nat)
    ensures n <= |s|
    decreases |s|
  {
    if s == [] then 0 else Count(s[..|s| - 1], p) + (if p(s[|s| - 1]) then 1 else 0)
  }

  /** The sum of `f` over `s`. */
  function Sum<T>(s: seq<T>, f: T -> real): real
    decreases |s|
  {
    if s == [] then 0.0 else Sum(s[..|s| - 1], f) + f(s[|s| - 1])
  }

  lemma CountSnoc<T>(s: seq<T>, x: T, p: T -> bool)
    ensures Count(s + [x], p) == Count(s, p) + (if p(x) then 1 else 0)
  {
    assert (s + [x])[..|s|] == s;
  }

  lemma SumSnoc<T>(s: seq<T>, x: T, f: T -> real)
    ensures Sum(s + [x], f) == Sum(s, f) + f(x)
  {
    assert (s + [x])[..|s|] == s;
  }

  /** Two conditions that never hold together count at most the whole list. */
  lemma {:induction false} CountDisjoint<T(!new)>(s: seq<T>, p: T -> bool, q: T -> bool)
    requires forall x :: p(x) ==> !q(x)
    ensures Count(s, p) + Count(s, q) <= |s|
    decreases |s|
  {
    if s != [] {
      CountDisjoint(s[..|s| - 1], p, q);
    }
  }

  /** A stronger condition counts no more. */
  lemma {:induction false} CountMonotone<T(!new)>(s: seq<T>, p: T -> bool, q: T -> bool)
    requires forall x :: p(x) ==> q(x)
    ensures Count(s, p) <= Count(s, q)
    decreases |s|
  {
    if s != [] {
      CountMonotone(s[..|s| - 1], p, q);
    }
  }

  /** A sum of non-negative terms is non-negative. */
  lemma {:induction false} SumNonNegative<T(!new)>(s: seq<T>, f: T -> real)
    requires forall x :: f(x) >= 0.0
    ensures Sum(s, f) >= 0.0
    decreases |s|
  {
    if s != [] {
      SumNonNegative(s[..|s| - 1], f);
    }
  }

  // ---------------------------------------------------------------------
  // Running maximum drawdown
  // ---------------------------------------------------------------------

  /**
   * The drawdown accumulators: the running profit curve, its peak so far (`None`
   * stands for the initial `-inf`) and the largest fall from a peak.
   */
  datatype Drawdown = Drawdown(curve: real, peak: Option<real>, maxDrawdown: real)

  const NoTrades := Drawdown(0.0, None, 0.0)

  /** One trade: extend the curve, raise the peak, widen the maximum fall. */
  function DrawdownStep(d: Drawdown, profit: real): Drawdown {
    var curve := d.curve + profit;
    var peak := if d.peak.None? || curve > d.peak.value then curve else d.peak.value;
    var dd := peak - curve;
    Drawdown(curve, Some(peak), if dd > d.maxDrawdown then dd else d.maxDrawdown)
  }

  /** The accumulators after the trades with profits `profits`, in order. */
  function DrawdownOf(profits: seq<real>): Drawdown
    decreases |profits|
  {
    if profits == [] then NoTrades
    else DrawdownStep(DrawdownOf(profits[..|profits| - 1]), profits[|profits| - 1])
  }

  function Total(s: seq<real>): real
    decreases |s|
  {
    if s == [] then 0.0 else Total(s[..|s| - 1]) + s[|s| - 1]
  }

  lemma DrawdownSnoc(profits: seq<real>, p: real)
    ensures DrawdownOf(profits + [p]) == DrawdownStep(DrawdownOf(profits), p)
    ensures Total(profits + [p]) == Total(profits) + p
  {
    assert (profits + [p])[..|profits|] == profits;
  }

  /** The curve is the cumulative profit. */
  lemma {:induction false} DrawdownCurve(profits: seq<real>)
    ensures DrawdownOf(profits).curve == Total(profits)
    decreases |profits|
  {
    if profits != [] {
      DrawdownCurve(profits[..|profits| - 1]);
    }
  }

  /** After at least one trade the peak is the highest cumulative profit reached. */
  lemma {:induction false} DrawdownPeak(profits: seq<real>) returns (k: int)
    requires |profits| > 0
    ensures var d := DrawdownOf(profits);
      d.peak.Some? && d.peak.value >= d.curve &&
      1 <= k <= |profits| && d.peak.value == Total(profits[..k]) &&
      (forall i :: 1 <= i <= |profits| ==> d.peak.value >= Total(profits[..i]))
    decreases |profits|
  {
    var n := |profits|;
    var init := profits[..n - 1];
    DrawdownCurve(profits);
    assert profits[..n] == profits;
    if n == 1 {
      k := 1;
      assert init == [];
    } else {
      var j := DrawdownPeak(init);
      var d := DrawdownOf(profits);
      forall i | 1 <= i < n ensures Total(profits[..i]) == Total(init[..i]) {
        assert profits[..i] == init[..i];
      }
      if d.peak.value == d.curve {
        k := n;
      } else {
        k := j;
      }
    }
  }

  /**
   * The maximum drawdown is never negative, is at least every fall from an earlier
   * cumulative profit to a later one, and is either 0 or one of those falls.
   */
  lemma {:induction false} DrawdownMax(profits: seq<real>)
    ensures var d := DrawdownOf(profits);
      d.maxDrawdown >= 0.0 &&
      (forall i, j :: 1 <= i <= j <= |profits| ==> d.maxDrawdown >= Total(profits[..i]) - Total(profits[..j])) &&
      (d.maxDrawdown == 0.0 || exists i, j :: 1 <= i <= j <= |profits| && d.maxDrawdown == Total(profits[..i]) - Total(profits[..j]))
    decreases |profits|
  {
    var n := |profits|;
    if n > 0 {
      var init := profits[..n - 1];
      DrawdownMax(init);
      var k := DrawdownPeak(profits);
      DrawdownCurve(profits);
      assert profits[..n] == profits;
      var d := DrawdownOf(profits);
      forall i | 1 <= i < n ensures Total(profits[..i]) == Total(init[..i]) {
        assert profits[..i] == init[..i];
      }
      forall i, j | 1 <= i <= j <= n ensures d.maxDrawdown >= Total(profits[..i]) - Total(profits[..j]) {
        if j == n {
          assert d.peak.value >= Total(profits[..i]);
        } else {
          assert Total(profits[..i]) - Total(profits[..j]) == Total(init[..i]) - Total(init[..j]);
        }
      }
      if d.maxDrawdown != DrawdownOf(init).maxDrawdown {
        assert d.maxDrawdown == Total(profits[..k]) - Total(profits[..n]);
      } else if d.maxDrawdown != 0.0 {
        var i, j :| 1 <= i <= j <= n - 1 && d.maxDrawdown == Total(init[..i]) - Total(init[..j]);
        assert d.maxDrawdown == Total(profits[..i]) - Total(profits[..j]);
      }
    }
  }

  // ---------------------------------------------------------------------
  // Trading sessions
  // ---------------------------------------------------------------------

  /** Broker server time is GMT+3; the scripts subtract three hours to get UTC. */
  const ServerOffset := 10800

  /** `datetime.utcfromtimestamp(t - 10800).hour`. */
  function OpenHour(openTime: int): (h: int)
    ensures 0 <= h < 24
  {
    ((openTime - ServerOffset) % 86400) / 3600
  }

  datatype Session = Asian | London | NewYork

  /** The session windows by UTC hour: Asian 0-8, London 7-16, New York 12-21 (end excluded). */
  predicate InSession(s: Session, h: int) {
    match s
    case Asian => 0 <= h < 8
    case London => 7 <= h < 16
    case NewYork => 12 <= h < 21
  }

  /** The windows overlap at hour 7 and at hours 12 to 15; hours 21 to 23 are in none. */
  lemma SessionOverlaps(h: int)
    requires 0 <= h < 24
    ensures (InSession(Asian, h) && InSession(London, h)) <==> h == 7
    ensures (InSession(London, h) && InSession(NewYork, h)) <==> 12 <= h <= 15
    ensures !(InSession(Asian, h) && InSession(NewYork, h))
    ensures (!InSession(Asian, h) && !InSession(London, h) && !InSession(NewYork, h)) <==> 21 <= h
  {
  }

  /** Profit, wins and trades of one session. */
  datatype SessionTally = SessionTally(profit: real, wins: nat, total: nat)

  const EmptyTally := SessionTally(0.0, 0, 0)

  /** A trade opened at UTC hour `h` counts in session `s` when the hour is in its window. */
  function TallyTrade(t: SessionTally, s: Session, h: int, profit: real): SessionTally {
    if InSession(s, h) then SessionTally(t.profit + profit, t.wins + (if profit > 0.0 then 1 else 0), t.total + 1)
    else t
  }

  // ---------------------------------------------------------------------
  // Holding time
  // ---------------------------------------------------------------------

  datatype Parts = Parts(days: int, hours: int, minutes: int, seconds: real)

  /** The chain `divmod(x, 60)`, `divmod(m, 60)`, `divmod(h, 24)` (floor division). */
  function Split(x: real): (p: Parts)
    ensures 0 <= p.hours < 24 && 0 <= p.minutes < 60 && 0.0 <= p.seconds < 60.0
    ensures x == (p.days * 86400 + p.hours * 3600 + p.minutes * 60) as real + p.seconds
  {
    var m := (x / 60.0).Floor;
    var s := x - (m * 60) as real;
    var h := m / 60;
    Parts(h / 24, h % 24, m % 60, s)
  }

  /** `format_duration` / `fmt_dur`: the two largest units, each truncated to an integer. */
  function FormatDuration(x: real): string {
    var p := Split(x);
    if p.days > 0 then IntToString(p.days) + "d " + IntToString(p.hours) + "h"
    else if p.hours > 0 then IntToString(p.hours) + "h " + IntToString(p.minutes) + "m"
    else IntToString(p.minutes) + "m " + IntToString(p.seconds.Floor) + "s"
  }

  /**
   * For a non-negative number of seconds: at least a day gives "Xd Yh", at least an hour
   * "Xh Ym", anything shorter "Xm Ys".
   */
  lemma DurationForms(x: real)
    requires x >= 0.0
    ensures var p := Split(x);
      p.days >= 0 && p.seconds.Floor >= 0 &&
      (x >= 86400.0 ==> FormatDuration(x) == NatToString(p.days) + "d " + NatToString(p.hours) + "h") &&
      (3600.0 <= x < 86400.0 ==>
        p.days == 0 && FormatDuration(x) == NatToString(p.hours) + "h " + NatToString(p.minutes) + "m") &&
      (x < 3600.0 ==>
        p.days == 0 && p.hours == 0 && FormatDuration(x) == NatToString(p.minutes) + "m " + NatToString(p.seconds.Floor) + "s")
  {
    var p := Split(x);
    assert p.days >= 0;
    if x >= 86400.0 {
      assert p.days > 0;
    } else if x >= 3600.0 {
      assert p.days == 0 && p.hours > 0;
    } else {
      assert p.days == 0 && p.hours == 0;
    }
  }

  /** Average holding time as shown: "0m" when nothing was counted. */
  function AverageHolding(total: real, count: nat): string {
    if count > 0 then FormatDuration(total / count as real) else "0m"
  }

  // ---------------------------------------------------------------------
  // Trading style
  // ---------------------------------------------------------------------

  /** Thresholds on the average holding time in minutes. */
  function StyleOf(avgMinutes: real): (style: string)
    ensures style == "Scalping" <==> avgMinutes < 30.0
    ensures style == "Intraday" <==> 30.0 <= avgMinutes < 1440.0
    ensures style == "Swing" <==> avgMinutes >= 1440.0
  {
    if avgMinutes < 30.0 then "Scalping" else if avgMinutes < 1440.0 then "Intraday" else "Swing"
  }

  /** The style of a trader whose `count` measured trades lasted `total` seconds together. */
  function TradingStyle(total: real, count: nat): (style: string)
    ensures style == "Unknown" <==> count == 0
    ensures count > 0 ==> style == StyleOf(total / count as real / 60.0)
  {
    if count == 0 then "Unknown" else StyleOf(total / count as real / 60.0)
  }

  // ---------------------------------------------------------------------
  // Most frequent symbol
  // ---------------------------------------------------------------------

  function Occurrences(s: seq<string>, x: string): nat {
    multiset(s)[x]
  }

  function Itself(x: string): string { x }

  /** The distinct symbols in order of first occurrence: a `Counter`'s key order. */
  function Keys(s: seq<string>): seq<string> {
    FirstPerKey(s, Itself)
  }

  /** The position of the first of `keys` with the most occurrences in `s`. */
  function FirstMost(keys: seq<string>, s: seq<string>): (j: nat)
    requires |keys| > 0
    ensures j < |keys|
    ensures forall k :: 0 <= k < |keys| ==> Occurrences(s, keys[k]) <= Occurrences(s, keys[j])
    ensures forall k :: 0 <= k < j ==> Occurrences(s, keys[k]) < Occurrences(s, keys[j])
    decreases |keys|
  {
    if |keys| == 1 then 0
    else
      var init := keys[..|keys| - 1];
      var best := FirstMost(init, s);
      assert forall k :: 0 <= k < |init| ==> init[k] == keys[k];
      if Occurrences(s, keys[|keys| - 1]) > Occurrences(s, keys[best]) then |keys| - 1 else best
  }

  /**
   * `Counter(s).most_common(1)[0][0]`: a symbol of `s` with the highest count; among
   * equally frequent symbols the one seen first, since a `Counter` keeps its keys in order
   * of first occurrence and `most_common` sorts stably.
   */
  function MostCommon(s: seq<string>): (r: string)
    requires |s| > 0
    ensures r in s
    ensures forall x :: x in s ==> Occurrences(s, x) <= Occurrences(s, r)
    ensures forall i :: 0 <= i < |s| && Occurrences(s, s[i]) == Occurrences(s, r) ==> r in s[..i + 1]
  {
    var keys := Keys(s);
    FirstIsKept(s, Itself, 0);
    assert s[0] in keys;
    forall x | x in s ensures x in keys {
      KeysCover(s, x);
    }
    var j := FirstMost(keys, s);
    forall x | x in s ensures Occurrences(s, x) <= Occurrences(s, keys[j]) {
      var k :| 0 <= k < |keys| && keys[k] == x;
    }
    forall i | 0 <= i < |s| && Occurrences(s, s[i]) == Occurrences(s, keys[j]) ensures keys[j] in s[..i + 1] {
      SeenFirst(s, keys, j, i);
    }
    keys[j]
  }

  /** A key listed no later than the symbol at position `i` occurs at or before `i`. */
  lemma SeenFirst(s: seq<string>, keys: seq<string>, j: int, i: int)
    requires keys == Keys(s) && 0 <= j < |keys| && 0 <= i < |s|
    requires forall k :: 0 <= k < j ==> Occurrences(s, keys[k]) < Occurrences(s, keys[j])
    requires Occurrences(s, s[i]) == Occurrences(s, keys[j])
    ensures keys[j] in s[..i + 1]
  {
    var front := s[..i + 1];
    FirstPerKeyPrefix(s, Itself, i + 1);
    var early := Keys(front);
    assert early <= keys;
    KeysCover(front, s[i]);
    var k :| 0 <= k < |early| && early[k] == s[i];
    assert keys[k] == s[i];
    assert j <= k;
    assert keys[j] == early[j];
  }

  lemma KeysCover(s: seq<string>, x: string)
    requires x in s
    ensures x in Keys(s)
  {
    FirstPerKeyKeys(s, Itself);
    assert Itself(x) in KeySet(s, Itself);
  }

  /** `Counter(symbols).most_common(1)[0][0] if symbols else "-"`. */
  function FavoritePair(symbols: seq<string>): (r: string)
    ensures symbols == [] <==> r == "-" && "-" !in symbols
    ensures symbols != [] ==> r in symbols && forall x :: x in symbols ==> Occurrences(symbols, x) <= Occurrences(symbols, r)
    ensures symbols != [] ==>
      forall i :: 0 <= i < |symbols| && Occurrences(symbols, symbols[i]) == Occurrences(symbols, r) ==> r in symbols[..i + 1]
  {
    if symbols != [] then MostCommon(symbols) else "-"
  }

  // ---------------------------------------------------------------------
  // Ratios
  // ---------------------------------------------------------------------

  /** `part / whole * 100 if whole > 0 else 0`. */
  function Percent(part: nat, whole: nat): (r: real)
    ensures whole == 0 ==> r == 0.0
    ensures part <= whole ==> 0.0 <= r <= 100.0
  {
    if whole > 0 then part as real / whole as real * 100.0 else 0.0
  }

  /** Gross profit over gross loss; with no loss, the gross profit itself (or 0). */
  function ProfitFactor(grossProfit: real, grossLoss: real): (r: real)
    ensures grossProfit >= 0.0 && grossLoss >= 0.0 ==> r >= 0.0
    ensures grossLoss > 0.0 ==> (r > 1.0 <==> grossProfit > grossLoss)
    ensures grossProfit >= 0.0 ==> (r == 0.0 <==> grossProfit == 0.0)
  {
    if grossLoss > 0.0 then
      QuotientAboveOne(grossProfit, grossLoss);
      grossProfit / grossLoss
    else if grossProfit > 0.0 then grossProfit else 0.0
  }

  lemma QuotientAboveOne(a: real, b: real)
    requires b > 0.0
    ensures a / b > 1.0 <==> a > b
  {
    var q := a / b;
    assert a == q * b;
    assert a - b == (q - 1.0) * b;
    if q > 1.0 {
      ProductSign(q - 1.0, b);
    } else {
      ProductSign(1.0 - q, b);
    }
  }

  lemma ProductSign(u: real, v: real)
    requires u >= 0.0 && v > 0.0
    ensures u * v >= 0.0 && (u > 0.0 ==> u * v > 0.0)
  {
  }

  /** `-(gross_loss / losses)`: the average losing trade, as a non-positive number. */
  function AverageLoss(grossLoss: real, losses: nat): (r: real)
    ensures grossLoss >= 0.0 ==> r <= 0.0
    ensures losses == 0 ==> r == 0.0
  {
    if losses > 0 then -(grossLoss / losses as real) else 0.0
  }

  function AverageWin(grossProfit: real, wins: nat): (r: real)
    ensures grossProfit >= 0.0 ==> r >= 0.0
    ensures wins == 0 ==> r == 0.0
  {
    if wins > 0 then grossProfit / wins as real else 0.0
  }

  /** `abs(avg_win / avg_loss)`, 0 without losses. */
  function RewardRisk(avgWin: real, avgLoss: real): (r: real)
    ensures r >= 0.0
    ensures avgLoss == 0.0 ==> r == 0.0
  {
    if avgLoss != 0.0 then (if avgWin / avgLoss < 0.0 then -(avgWin / avgLoss) else avgWin / avgLoss) else 0.0
  }

  /**
   * The maximum drawdown as a percentage of the balance at the profit peak; the start
   * balance is the current balance minus the total profit.  Without trades the peak is
   * `-inf`, so the peak balance is not positive and the result is 0.
   */
  function DrawdownPercent(maxDrawdown: real, balance: real, totalProfit: real, peak: Option<real>): (r: real)
    ensures maxDrawdown >= 0.0 ==> r >= 0.0
    ensures peak.None? ==> r == 0.0
  {
    match peak
    case None => 0.0
    case Some(pk) =>
      var peakBalance := balance - totalProfit + pk;
      if peakBalance > 0.0 then maxDrawdown / peakBalance * 100.0 else 0.0
  }
}

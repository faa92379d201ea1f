/**
 * The arithmetic of the equity service (bridge/equity_service.py): equity
 * snapshots on a five-minute grid, the day-over-day equity growth and the
 * total traded lots.  The database reads and writes around them are
 * parameters: the time of the last snapshot and the previous day's equity.
 * Timestamps are Unix seconds (UTC).
 */
module EquityService {
  import opened Wrappers
  import opened Trading

  /** The MT5 account figures the service reads. */
  datatype Account = Account(balance: real, equity: real, marginLevel: real)

  /** `SNAPSHOT_INTERVAL_MINUTES`. */
  const SnapshotInterval := 5

  // ---------------------------------------------------------------------
  // Snapshots
  // ---------------------------------------------------------------------

  /**
   * `should_record_snapshot`: record when there is no earlier snapshot (a failed query
   * counts as none) or at least five minutes have passed since the last one.
   */
  predicate ShouldRecord(last: Option<int>, now: int) {
    last.None? || now - last.value >= SnapshotInterval * 60
  }

  /** The minute of the hour, rounded down to the five-minute grid. */
  function RoundedMinute(minute: nat): (r: nat)
    ensures r % SnapshotInterval == 0
    ensures r <= minute < r + SnapshotInterval
  {
    (minute / SnapshotInterval) * SnapshotInterval
  }

  /** The largest multiple of five not above the minute, so rounding twice changes nothing. */
  lemma RoundedMinuteGreatest(minute: nat, k: nat)
    requires k % SnapshotInterval == 0 && k <= minute
    ensures k <= RoundedMinute(minute)
    ensures RoundedMinute(RoundedMinute(minute)) == RoundedMinute(minute)
  {
  }

  function MinuteOf(t: int): nat { (t % 3600) / 60 }

  /**
   * The snapshot time: the current time with its minute rounded down to the grid and its
   * seconds cleared.  An hour holds a whole number of five-minute slots, so this is the
   * time rounded down to a multiple of 300 seconds.
   */
  function SnapshotTime(now: int): (t: int)
    ensures t <= now < t + SnapshotInterval * 60
    ensures t % (SnapshotInterval * 60) == 0
    ensures MinuteOf(t) == RoundedMinute(MinuteOf(now)) && t % 60 == 0
  {
    var q := now / 300;
    var t := q * 300;
    assert now == t + now % 300;
    SnapshotMinute(now, t);
    t
  }

  lemma SnapshotMinute(now: int, t: int)
    requires t % 300 == 0 && t <= now < t + 300
    ensures MinuteOf(t) == RoundedMinute(MinuteOf(now)) && t % 60 == 0
  {
    var q := t / 300;
    var h, slot := q / 12, q % 12;
    var e := now - t;
    assert t == h * 3600 + slot * 300;
    DivModUnique(t, 3600, h, slot * 300);
    DivModUnique(slot * 300, 60, slot * 5, 0);
    assert MinuteOf(t) == slot * 5;
    DivModUnique(now, 3600, h, slot * 300 + e);
    DivModUnique(slot * 300 + e, 60, slot * 5 + e / 60, e % 60);
    assert MinuteOf(now) == slot * 5 + e / 60;
    DivModUnique(slot * 5 + e / 60, SnapshotInterval, slot, e / 60);
    DivModUnique(t, 60, h * 60 + slot * 5, 0);
  }

  /** Euclidean division has one quotient and one remainder. */
  lemma DivModUnique(a: int, d: int, q: int, r: int)
    requires 0 < d && a == q * d + r && 0 <= r < d
    ensures a / d == q && a % d == r
  {
    var q', r' := a / d, a % d;
    assert a == q' * d + r';
    if q' > q {
      assert (q' - q) * d == q' * d - q * d;
      AtLeastOneStep(q' - q, d);
    } else if q' < q {
      assert (q - q') * d == q * d - q' * d;
      AtLeastOneStep(q - q', d);
    }
  }

  lemma {:induction false} AtLeastOneStep(k: int, d: int)
    requires k >= 1 && d > 0
    ensures k * d >= d
    decreases k
  {
    if k > 1 {
      AtLeastOneStep(k - 1, d);
      assert k * d == (k - 1) * d + d;
    }
  }

  datatype Snapshot = Snapshot(
    participantId: string,
    timestamp: int,
    balance: real,
    equity: real,
    floatingPl: real,
    marginLevel: Option<real>)

  /** `record_equity_snapshot`'s row; a margin level of 0 is stored as null. */
  function SnapshotOf(participantId: string, account: Account, now: int): (s: Snapshot)
    ensures s.floatingPl == s.equity - s.balance
    ensures s.balance == account.balance && s.equity == account.equity
    ensures s.timestamp == SnapshotTime(now)
    ensures s.marginLevel.None? <==> account.marginLevel == 0.0
  {
    Snapshot(participantId, SnapshotTime(now), account.balance, account.equity,
             account.equity - account.balance,
             if account.marginLevel != 0.0 then Some(account.marginLevel) else None)
  }

  /**
   * After a snapshot taken at `now`, whose stored timestamp is the rounded time, the next
   * one is due exactly when the following five-minute slot begins; until then the time
   * still rounds to the stored slot.
   */
  lemma SnapshotSpacing(now: int, later: int)
    requires now <= later
    ensures ShouldRecord(Some(SnapshotTime(now)), later) <==> later >= SnapshotTime(now) + SnapshotInterval * 60
    ensures later < SnapshotTime(now) + SnapshotInterval * 60 ==> SnapshotTime(later) == SnapshotTime(now)
  {
    var t := SnapshotTime(now);
    if later < t + SnapshotInterval * 60 {
      var u := SnapshotTime(later);
      assert u % 300 == 0 && t % 300 == 0;
      assert t <= later;
      SlotUnique(later, t, u);
    }
  }

  lemma SlotUnique(x: int, t: int, u: int)
    requires t % 300 == 0 && u % 300 == 0
    requires t <= x < t + 300 && u <= x < u + 300
    ensures t == u
  {
    var a := t / 300;
    var b := u / 300;
    assert t == a * 300 && u == b * 300;
  }

  // ---------------------------------------------------------------------
  // Equity growth
  // ---------------------------------------------------------------------

  /**
   * `calculate_equity_growth` before rounding: the change against the previous day's
   * equity in percent, 0 when there is no positive previous equity.
   */
  function EquityGrowth(previous: real, current: real): (r: real)
    ensures previous <= 0.0 ==> r == 0.0
    ensures previous > 0.0 ==> (r > 0.0 <==> current > previous)
    ensures previous > 0.0 ==> (r < 0.0 <==> current < previous)
    ensures previous > 0.0 ==> previous + previous * r / 100.0 == current
  {
    if previous <= 0.0 then 0.0
    else
      var g := (current - previous) / previous;
      assert previous * g == current - previous;
      assert g > 0.0 <==> current > previous by {
        SignOfQuotient(current - previous, previous);
      }
      assert g < 0.0 <==> current < previous by {
        SignOfQuotient(previous - current, previous);
      }
      g * 100.0
  }

  lemma SignOfQuotient(a: real, b: real)
    requires b > 0.0
    ensures a / b > 0.0 <==> a > 0.0
    ensures a / b < 0.0 <==> a < 0.0
    ensures (-a) / b == -(a / b)
  {
    var q := a / b;
    assert a == q * b;
    if q > 0.0 {
      ProductSign(q, b);
    } else if q < 0.0 {
      ProductSign(-q, b);
    }
  }

  // ---------------------------------------------------------------------
  // Total lots
  // ---------------------------------------------------------------------

  /** A position's `lot` entry counts only when present and positive. */
  function CountedLot(lot: Option<real>): real {
    if lot.Some? && lot.value > 0.0 then lot.value else 0.0
  }

  /**
   * `calculate_total_lots` before rounding, over the `lot` entries of the positions in
   * iteration order (`None` where a position has none).
   */
  method TotalLots(lots: seq<Option<real>>) returns (total: real)
    ensures total == Sum(lots, CountedLot)
  {
    total := 0.0;
    for i := 0 to |lots|
      invariant total == Sum(lots[..i], CountedLot)
    {
      SumSnoc(lots[..i], lots[i], CountedLot);
      assert lots[..i + 1] == lots[..i] + [lots[i]];
      if lots[i].Some? && lots[i].value > 0.0 {
        total := total + lots[i].value;
      }
    }
    assert lots[..|lots|] == lots;
  }

  /**
   * The total is never negative, and it is 0 exactly when no position has a positive lot
   * (in particular for no positions at all).
   */
  lemma {:induction false} TotalLotsZero(lots: seq<Option<real>>)
    ensures Sum(lots, CountedLot) >= 0.0
    ensures Sum(lots, CountedLot) == 0.0 <==> forall l :: l in lots ==> l.None? || l.value <= 0.0
    decreases |lots|
  {
    if lots != [] {
      var init := lots[..|lots| - 1];
      TotalLotsZero(init);
      assert lots == init + [lots[|lots| - 1]];
      assert forall l :: l in lots <==> l in init || l == lots[|lots| - 1];
    }
  }
}

/** The two calculators of a digital option's expiry, for durations of two minutes and more. */
module DigitalExpiry {
  import opened Common
  import opened Expiration

  /** A whole minute whose minute of the hour is divisible by the duration. */
  ghost predicate Boundary(t: int, d: int)
    requires d >= 2
  {
    t % 60 == 0 && Minute(t) % d == 0
  }

  /** The first boundary at or after `from`. */
  ghost predicate LeastBoundary(t: int, from: int, d: int)
    requires d >= 2
  {
    from <= t && Boundary(t, d) && forall b :: from <= b < t ==> !Boundary(b, d)
  }

  /** The minute test of the search, which is made at half past. */
  predicate Hits(date: int, d: int)
    requires d >= 2
  {
    Minute(date) % d == 0
  }

  /** The search of `buy_digital_spot_v2`: minute by minute, from half past the next minute. */
  method BuyDigitalExpiry(ts: int, d: int) returns (exp: int)
    requires d >= 2
    ensures LeastBoundary(exp, ts + 1, d)
  {
    var floor := FloorToMinute(ts);
    var date := floor + 90;
    ghost var hour := floor + 60 * (60 - Minute(ts));
    HourIsBoundary(ts, d);
    assert floor <= ts < floor + 60;
    hide Boundary, Minute, FloorToMinute, Hits;
    var turns := 0;
    while turns < 100
      invariant 0 <= turns <= 100 && date == floor + 90 + 60 * turns && date - 30 <= hour
      invariant forall b :: ts < b < date - 30 ==> !Boundary(b, d)
      invariant turns < 100
    {
      HalfPast(ts, date, turns, d);
      if Hits(date, d) && date - ts > 30 {
        break;
      }
      date := date + 60;
      turns := turns + 1;
    }
    HalfPast(ts, date, turns, d);
    exp := FloorToMinute(date);
  }

  /** What the search sees at half past a minute is whether the minute itself is a boundary. */
  lemma HalfPast(ts: int, date: int, turns: nat, d: int)
    requires d >= 2 && date == FloorToMinute(ts) + 90 + 60 * turns
    ensures FloorToMinute(date) == date - 30 && date - 30 > ts
    ensures Boundary(date - 30, d) <==> Hits(date, d)
    ensures forall b :: date - 30 < b < date + 30 ==> !Boundary(b, d)
  {
    assert date / 60 == (date - 30) / 60;
    assert Minute(date) == Minute(date - 30);
    assert (date - 30) % 60 == 0;
    forall b | date - 30 < b < date + 30 ensures !Boundary(b, d) {
      assert b % 60 != 0;
    }
  }

  /** The full hour is a boundary of every duration, at most sixty minutes away. */
  lemma HourIsBoundary(ts: int, d: int)
    requires d >= 2
    ensures
      var hour := FloorToMinute(ts) + 60 * (60 - Minute(ts));
      Boundary(hour, d) && ts < hour <= ts + 3600
  {
    var hour := FloorToMinute(ts) + 60 * (60 - Minute(ts));
    assert hour / 60 == ts / 60 + 60 - Minute(ts);
    assert (hour / 60) % 60 == 0;
    assert 0 % d == 0;
  }

  /** `get_digital_expiration_time` of the strike list. */
  function StrikeExpiry(ts: int, d: int): int
    requires d >= 2
  {
    var ans := ts - ts % 60 + (d - Minute(ts) % d) * 60;
    if ts > ans - 10 then ans + d * 60 else ans
  }

  // ----- where the two agree

  /** `x % d`, kept apart from the linear reasoning around it. */
  function Remainder(x: int, d: int): (r: int)
    requires d >= 2
    ensures 0 <= r < d
  {
    x % d
  }

  /** The end of the current period, counted in minutes from the full hour before `ts`; it may lie beyond the hour. */
  function PeriodEnd(ts: int, d: int): int
    requires d >= 2
  {
    Minute(ts) - Remainder(Minute(ts), d) + d
  }

  function HourStart(ts: int): int {
    FloorToMinute(ts) - 60 * Minute(ts)
  }

  function MinOf(a: int, b: int): int {
    if a <= b then a else b
  }

  lemma MinuteInHour(ts: int, n: int)
    requires 0 <= n < 60
    ensures (HourStart(ts) + 60 * n) % 60 == 0 && Minute(HourStart(ts) + 60 * n) == n
  {
    assert HourStart(ts) == 3600 * (ts / 3600);
    assert (HourStart(ts) + 60 * n) / 60 == 60 * (ts / 3600) + n;
  }

  /** Within the hour of `ts` the boundaries are the multiples of the duration. */
  lemma BoundaryInHour(ts: int, n: int, d: int)
    requires d >= 2 && 0 <= n < 60
    ensures Boundary(HourStart(ts) + 60 * n, d) <==> n % d == 0
  {
    MinuteInHour(ts, n);
    hide Minute, HourStart;
  }

  lemma MinuteOfBoundary(ts: int, b: int, d: int) returns (n: int)
    requires d >= 2 && ts < b && Boundary(b, d)
    ensures b == HourStart(ts) + 60 * n && Minute(ts) < n
  {
    n := (b - HourStart(ts)) / 60;
  }

  lemma PeriodEndIsMultiple(ts: int, d: int)
    requires d >= 2
    ensures PeriodEnd(ts, d) % d == 0 && Minute(ts) < PeriodEnd(ts, d) <= Minute(ts) + d
    ensures forall n :: Minute(ts) < n < PeriodEnd(ts, d) ==> n % d != 0
  {
    var m := Minute(ts);
    var q := m / d;
    assert m == q * d + m % d && (q + 1) * d == q * d + d;
    ModuloOf(PeriodEnd(ts, d), q + 1, 0, d);
    forall n | m < n < PeriodEnd(ts, d) ensures n % d != 0 {
      ModuloOf(n, q, n - q * d, d);
    }
  }

  /** The first boundary after `ts`: the end of the period, but the full hour at the latest. */
  lemma FirstBoundaryAfter(ts: int, d: int)
    requires d >= 2
    ensures LeastBoundary(HourStart(ts) + 60 * MinOf(PeriodEnd(ts, d), 60), ts + 1, d)
  {
    var n := MinOf(PeriodEnd(ts, d), 60);
    PeriodEndIsMultiple(ts, d);
    HourIsBoundary(ts, d);
    if n < 60 {
      BoundaryInHour(ts, n, d);
    }
    assert ts < HourStart(ts) + 60 * n && Boundary(HourStart(ts) + 60 * n, d);
    hide Boundary, HourStart, Minute, PeriodEnd;
    forall b | ts < b < HourStart(ts) + 60 * n ensures !Boundary(b, d) {
      if Boundary(b, d) {
        var j := MinuteOfBoundary(ts, b, d);
        BoundaryInHour(ts, j, d);
      }
    }
  }

  lemma LeastBoundaryIsUnique(t: int, u: int, from: int, d: int)
    requires d >= 2 && LeastBoundary(t, from, d) && LeastBoundary(u, from, d)
    ensures t == u
  {
  }

  /**
   For every duration the strike list agrees with the search exactly when the
   current period ends within the hour and the first boundary is at least ten
   seconds away. A boundary that is closer costs one period, and a period that
   runs past the hour keeps the strike list from stopping there.
   */
  lemma CalculatorsAgreeExactly(ts: int, d: int, exp: int)
    requires d >= 2 && LeastBoundary(exp, ts + 1, d)
    ensures StrikeExpiry(ts, d) == exp <==> PeriodEnd(ts, d) <= 60 && exp - ts >= 10
    ensures StrikeExpiry(ts, d) ==
            if PeriodEnd(ts, d) > 60 then exp + 60 * (PeriodEnd(ts, d) - 60)
            else if exp - ts >= 10 then exp else exp + 60 * d
  {
    FirstBoundaryAfter(ts, d);
    LeastBoundaryIsUnique(exp, HourStart(ts) + 60 * MinOf(PeriodEnd(ts, d), 60), ts + 1, d);
    assert ts - HourStart(ts) == 60 * Minute(ts) + ts % 60;
  }

  /** A duration that divides the hour has no period that runs past it. */
  lemma DivisorEndsWithinHour(ts: int, d: int)
    requires d >= 2 && 60 % d == 0
    ensures PeriodEnd(ts, d) <= 60
  {
    PeriodEndIsMultiple(ts, d);
  }

  /** So for such a duration only the ten seconds count. */
  lemma CalculatorsAgree(ts: int, d: int, exp: int)
    requires d >= 2 && 60 % d == 0 && LeastBoundary(exp, ts + 1, d)
    ensures StrikeExpiry(ts, d) == if exp - ts >= 10 then exp else exp + 60 * d
    ensures StrikeExpiry(ts, d) == exp <==> exp - ts >= 10
  {
    DivisorEndsWithinHour(ts, d);
    CalculatorsAgreeExactly(ts, d, exp);
  }

  /** Less than ten seconds are left in the hour. */
  predicate HourIsEnding(ts: int) {
    Minute(ts) == 59 && ts % 60 > 50
  }

  /** The strike list's choice in minutes from the full hour. */
  function StrikeMinute(ts: int, d: int): int
    requires d >= 2
  {
    if ts % 60 > 50 && Remainder(Minute(ts), d) == d - 1 then PeriodEnd(ts, d) + d else PeriodEnd(ts, d)
  }

  lemma StrikeByMinute(ts: int, d: int)
    requires d >= 2
    ensures StrikeExpiry(ts, d) == HourStart(ts) + 60 * StrikeMinute(ts, d)
  {
  }

  lemma NextRemainder(m: int, d: int)
    requires d >= 2
    ensures Remainder(m + 1, d) == if Remainder(m, d) == d - 1 then 0 else Remainder(m, d) + 1
  {
    var q := m / d;
    assert m == q * d + m % d && (q + 1) * d == q * d + d;
    if m % d == d - 1 {
      ModuloOf(m + 1, q + 1, 0, d);
    } else {
      ModuloOf(m + 1, q, m % d + 1, d);
    }
  }

  lemma NextMinute(ts: int)
    requires ts % 60 > 50 && Minute(ts) < 59
    ensures HourStart(ts + 9) == HourStart(ts) && Minute(ts + 9) == Minute(ts) + 1
  {
    assert (ts + 9) / 60 == ts / 60 + 1;
  }

  /** The minute that follows belongs to the same period, or starts the next one. */
  lemma PeriodEndNextMinute(ts: int, d: int)
    requires d >= 2 && ts % 60 > 50 && Minute(ts) < 59
    ensures HourStart(ts + 9) == HourStart(ts) && PeriodEnd(ts + 9, d) == StrikeMinute(ts, d)
  {
    hide Minute, HourStart, Remainder;
    NextMinute(ts);
    NextRemainder(Minute(ts), d);
  }

  lemma PeriodEndNextHour(ts: int, d: int)
    requires d >= 2 && HourIsEnding(ts)
    ensures HourStart(ts + 9) == HourStart(ts) + 3600 && PeriodEnd(ts + 9, d) == d
  {
    assert (ts + 9) / 60 == ts / 60 + 1 && Minute(ts + 9) == 0;
    assert 0 % d == 0;
  }

  lemma PeriodEndSameMinute(ts: int, d: int)
    requires d >= 2 && ts % 60 <= 50
    ensures HourStart(ts + 9) == HourStart(ts) && PeriodEnd(ts + 9, d) == PeriodEnd(ts, d)
  {
    assert (ts + 9) / 60 == ts / 60;
  }

  /** In the last minute of the hour the strike list is right for divisors of the hour, and for two hours by chance. */
  lemma EndingHour(ts: int, d: int)
    requires d >= 2 && HourIsEnding(ts)
    ensures StrikeMinute(ts, d) == 60 + MinOf(d, 60) <==> 60 % d == 0 || d == 120
  {
    NextRemainder(59, d);
    assert 60 % d == Remainder(60, d);
    hide Remainder;
  }

  /**
   The strike list is meant to pick the first boundary at least ten seconds
   away. It does so exactly when the period that is running nine seconds from
   now ends within the hour, or, in the last ten seconds of an hour, for
   durations that divide sixty and for 120.
   */
  lemma StrikeIsLeastTenSecondsAway(ts: int, d: int)
    requires d >= 2
    ensures LeastBoundary(StrikeExpiry(ts, d), ts + 10, d) <==>
            if HourIsEnding(ts) then 60 % d == 0 || d == 120 else PeriodEnd(ts + 9, d) <= 60
  {
    var right := HourStart(ts + 9) + 60 * MinOf(PeriodEnd(ts + 9, d), 60);
    FirstBoundaryAfter(ts + 9, d);
    StrikeByMinute(ts, d);
    if HourIsEnding(ts) {
      PeriodEndNextHour(ts, d);
      EndingHour(ts, d);
    } else if ts % 60 > 50 {
      PeriodEndNextMinute(ts, d);
    } else {
      PeriodEndSameMinute(ts, d);
    }
    hide *;
    if LeastBoundary(StrikeExpiry(ts, d), ts + 10, d) {
      LeastBoundaryIsUnique(StrikeExpiry(ts, d), right, ts + 10, d);
    }
  }

  /** So for a duration that divides the hour it always does. */
  lemma DivisorIsLeastTenSecondsAway(ts: int, d: int)
    requires d >= 2 && 60 % d == 0
    ensures LeastBoundary(StrikeExpiry(ts, d), ts + 10, d)
  {
    StrikeIsLeastTenSecondsAway(ts, d);
    DivisorEndsWithinHour(ts + 9, d);
  }

  /** A duration that does not divide the hour: at minute 56 seven-minute options differ by three minutes. */
  lemma SevenMinutesDisagree(exp: int)
    requires LeastBoundary(exp, 56 * 60 + 1, 7)
    ensures exp == 60 * 60 && StrikeExpiry(56 * 60, 7) == 63 * 60
  {
    CalculatorsAgreeExactly(56 * 60, 7, exp);
    assert Boundary(3600, 7);
  }
}

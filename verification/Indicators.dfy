/** The simpler indicators: moving averages, the strength index, and the two range oscillators. */
module Indicators {
  import opened Common
  import Wilder

  // ----- exponential moving average

  function SmoothingFactor(period: nat): real {
    2.0 / (period as real + 1.0)
  }

  function EmaStep(price: real, previous: real, period: nat): real {
    var k := SmoothingFactor(period);
    price * k + previous * (1.0 - k)
  }

  /** The average after all of `prices`: the mean of the first `period`, then one step a price. */
  function EmaOf(prices: seq<real>, period: nat): real
    requires 1 <= period <= |prices|
  {
    if |prices| == period then Mean(prices)
    else EmaStep(prices[|prices| - 1], EmaOf(prices[..|prices| - 1], period), period)
  }

  method Ema(prices: seq<real>, period: nat) returns (r: Option<real>)
    requires 1 <= period
    ensures r == if |prices| < period then None else Some(EmaOf(prices, period))
  {
    if |prices| < period {
      return None;
    }
    var current := Mean(prices[..period]);
    for i := period to |prices|
      invariant current == EmaOf(prices[..i], period)
    {
      assert prices[..i + 1][..i] == prices[..i];
      current := EmaStep(prices[i], current, period);
    }
    assert prices[..|prices|] == prices;
    r := Some(current);
  }

  /** The array form holds, at every index, the average of the prefix that ends there. */
  method EmaArray(prices: seq<real>, period: nat) returns (emas: seq<Option<real>>)
    requires 1 <= period
    ensures |emas| == |prices|
    ensures forall i :: 0 <= i < |prices| ==>
      emas[i] == if i + 1 < period then None else Some(EmaOf(prices[..i + 1], period))
  {
    emas := seq(|prices|, _ => None);
    if |prices| < period {
      return;
    }
    emas := emas[period - 1 := Some(Mean(prices[..period]))];
    for i := period to |prices|
      invariant |emas| == |prices|
      invariant forall k :: 0 <= k < period - 1 ==> emas[k] == None
      invariant forall k :: period - 1 <= k < i ==> emas[k] == Some(EmaOf(prices[..k + 1], period))
    {
      assert prices[..i + 1][..i] == prices[..i];
      emas := emas[i := Some(EmaStep(prices[i], emas[i - 1].value, period))];
    }
  }

  lemma {:induction false} SumBetween(s: seq<real>, low: real, high: real)
    requires forall i :: 0 <= i < |s| ==> low <= s[i] <= high
    ensures low * |s| as real <= Sum(s) <= high * |s| as real
    decreases s
  {
    if s != [] {
      SumBetween(s[..|s| - 1], low, high);
    }
  }

  lemma MeanBetween(s: seq<real>, low: real, high: real)
    requires s != [] && forall i :: 0 <= i < |s| ==> low <= s[i] <= high
    ensures low <= Mean(s) <= high
  {
    SumBetween(s, low, high);
    QuotientBetween(Sum(s), |s| as real, low, high);
  }

  lemma MixBetween(a: real, b: real, k: real, low: real, high: real)
    requires 0.0 <= k <= 1.0 && low <= a <= high && low <= b <= high
    ensures low <= a * k + b * (1.0 - k) <= high
  {
    var above, below := (a - low) * k + (b - low) * (1.0 - k), (high - a) * k + (high - b) * (1.0 - k);
    assert 0.0 <= above by {
      ProductNonnegative(a - low, k);
      ProductNonnegative(b - low, 1.0 - k);
    }
    assert 0.0 <= below by {
      ProductNonnegative(high - a, k);
      ProductNonnegative(high - b, 1.0 - k);
    }
    assert a * k + b * (1.0 - k) == low + above == high - below;
  }

  function RampAt(start: real, slope: real, i: int): real {
    start + slope * i as real
  }

  /** Prices that rise by the same amount each time. */
  function Ramp(start: real, slope: real, n: nat): (s: seq<real>)
    ensures |s| == n && forall i :: 0 <= i < n ==> s[i] == RampAt(start, slope, i)
  {
    seq(n, i requires 0 <= i < n => RampAt(start, slope, i))
  }

  lemma {:induction false} SumOfRamp(start: real, slope: real, n: nat)
    ensures Sum(Ramp(start, slope, n)) == n as real * start + slope * (n as real * (n as real - 1.0) / 2.0)
    decreases n
  {
    if n > 0 {
      SumOfRamp(start, slope, n - 1);
      assert Ramp(start, slope, n)[..n - 1] == Ramp(start, slope, n - 1);
      RampStep(start, slope, n as real);
    }
  }

  lemma RampStep(start: real, slope: real, n: real)
    ensures (n - 1.0) * start + slope * ((n - 1.0) * (n - 2.0) / 2.0) + (start + slope * (n - 1.0))
         == n * start + slope * (n * (n - 1.0) / 2.0)
  {
    assert (n - 1.0) * (n - 2.0) / 2.0 + (n - 1.0) == n * (n - 1.0) / 2.0;
    assert slope * ((n - 1.0) * (n - 2.0) / 2.0) + slope * (n - 1.0) == slope * (n * (n - 1.0) / 2.0);
  }

  lemma MeanOfRamp(start: real, slope: real, n: nat)
    requires n > 0
    ensures Mean(Ramp(start, slope, n)) == start + slope * ((n as real - 1.0) / 2.0)
  {
    SumOfRamp(start, slope, n);
    var r := n as real;
    var mid := (r - 1.0) / 2.0;
    assert r * (r - 1.0) / 2.0 == r * mid;
    assert slope * (r * mid) == r * (slope * mid);
    assert r * start + r * (slope * mid) == r * (start + slope * mid);
    assert r * (start + slope * mid) / r == start + slope * mid;
  }

  /** The rise of a ramp over half of the period less one. */
  function Lag(slope: real, period: nat): real {
    slope * ((period as real - 1.0) / 2.0)
  }

  /** One step keeps the lag behind a ramp: the factor is just the one for which it does. */
  lemma LagIsKept(price: real, slope: real, period: nat)
    requires period >= 1
    ensures EmaStep(price, price - slope - Lag(slope, period), period) == price - Lag(slope, period)
  {
    var n, k := period as real, SmoothingFactor(period);
    assert k * (n + 1.0) == 2.0;
    var half := (n - 1.0) / 2.0;
    assert (1.0 + half) * (1.0 - k) == half by {
      assert 1.0 + half == (n + 1.0) / 2.0;
      assert (n + 1.0) / 2.0 * k == 1.0;
      assert (n + 1.0) / 2.0 * (1.0 - k) == (n + 1.0) / 2.0 - 1.0;
    }
    var back := slope + slope * half;
    assert back == slope * (1.0 + half);
    assert back * (1.0 - k) == slope * half by {
      Reassociate(slope, 1.0 + half, 1.0 - k);
    }
    assert (price - back) * (1.0 - k) == price * (1.0 - k) - back * (1.0 - k);
    assert price * k + price * (1.0 - k) == price;
  }

  lemma Reassociate(x: real, y: real, z: real)
    ensures x * y * z == x * (y * z)
  {
  }

  lemma EmaOfRampStart(start: real, slope: real, period: nat)
    requires 1 <= period
    ensures EmaOf(Ramp(start, slope, period), period) == RampAt(start, slope, period - 1) - Lag(slope, period)
  {
    MeanOfRamp(start, slope, period);
    HalfWay(slope, period as real - 1.0);
    hide Ramp, Mean;
  }

  lemma EmaOfMore(prices: seq<real>, period: nat)
    requires 1 <= period < |prices|
    ensures EmaOf(prices, period) == EmaStep(prices[|prices| - 1], EmaOf(prices[..|prices| - 1], period), period)
  {
  }

  /** On steadily rising prices the average stays behind the last one by half of its period less one, exactly. */
  lemma {:induction false} EmaLagsBehindARamp(start: real, slope: real, n: nat, period: nat)
    requires 1 <= period <= n
    ensures EmaOf(Ramp(start, slope, n), period) == RampAt(start, slope, n - 1) - Lag(slope, period)
    decreases n
  {
    hide EmaStep, EmaOf, Ramp, RampAt, Lag, Mean;
    if n == period {
      EmaOfRampStart(start, slope, n);
    } else {
      var prices := Ramp(start, slope, n);
      EmaLagsBehindARamp(start, slope, n - 1, period);
      RampFront(start, slope, n);
      EmaOfMore(prices, period);
      LagIsKept(prices[n - 1], slope, period);
    }
  }

  lemma RampFront(start: real, slope: real, n: nat)
    requires n >= 2
    ensures
      var prices := Ramp(start, slope, n);
      && prices[..n - 1] == Ramp(start, slope, n - 1)
      && prices[n - 1] == RampAt(start, slope, n - 1)
      && RampAt(start, slope, n - 1 - 1) == prices[n - 1] - slope
  {
  }

  lemma HalfWay(slope: real, x: real)
    ensures slope * (x / 2.0) == slope * x - slope * (x / 2.0)
  {
  }

  /** The average never leaves the range of its prices. */
  lemma {:induction false} EmaWithinPrices(prices: seq<real>, period: nat, low: real, high: real)
    requires 1 <= period <= |prices| && forall i :: 0 <= i < |prices| ==> low <= prices[i] <= high
    ensures low <= EmaOf(prices, period) <= high
    decreases prices
  {
    if |prices| == period {
      MeanBetween(prices, low, high);
    } else {
      EmaWithinPrices(prices[..|prices| - 1], period, low, high);
      var k := SmoothingFactor(period);
      assert 0.0 <= k <= 1.0 by {
        QuotientBetween(2.0, period as real + 1.0, 0.0, 1.0);
      }
      MixBetween(prices[|prices| - 1], EmaOf(prices[..|prices| - 1], period), k, low, high);
    }
  }

  // ----- relative strength index

  function Gain(delta: real): real {
    if delta > 0.0 then delta else 0.0
  }

  function Deltas(prices: seq<real>): (d: seq<real>)
    requires prices != []
    ensures |d| == |prices| - 1
  {
    seq(|prices| - 1, i requires 0 <= i < |prices| - 1 => prices[i + 1] - prices[i])
  }

  function Gains(deltas: seq<real>): (g: seq<real>)
    ensures |g| == |deltas|
  {
    seq(|deltas|, i requires 0 <= i < |deltas| => Gain(deltas[i]))
  }

  function Losses(deltas: seq<real>): (g: seq<real>)
    ensures |g| == |deltas|
  {
    seq(|deltas|, i requires 0 <= i < |deltas| => Gain(-deltas[i]))
  }

  /** Wilder's average of all of `s`. */
  function Average(s: seq<real>, period: nat): real
    requires 1 <= period <= |s|
  {
    if |s| == period then Mean(s) else WilderMean(Average(s[..|s| - 1], period), s[|s| - 1], period as real)
  }

  function RsiOf(gain: real, loss: real): real
    requires loss != 0.0 ==> 1.0 + gain / loss != 0.0
  {
    if loss == 0.0 then 100.0 else 100.0 - 100.0 / (1.0 + gain / loss)
  }

  lemma WilderMeanNonnegative(average: real, x: real, period: nat)
    requires 1 <= period && 0.0 <= average && 0.0 <= x
    ensures 0.0 <= WilderMean(average, x, period as real)
  {
    var total := average * (period as real - 1.0) + x;
    assert 0.0 <= total by {
      ProductNonnegative(average, period as real - 1.0);
    }
    ShareNonnegative(total, period as real);
  }

  lemma ShareNonnegative(x: real, y: real)
    requires 0.0 <= x && 0.0 < y
    ensures 0.0 <= x / y
  {
  }

  lemma {:induction false} AverageNonnegative(s: seq<real>, period: nat)
    requires 1 <= period <= |s| && forall i :: 0 <= i < |s| ==> 0.0 <= s[i]
    ensures 0.0 <= Average(s, period)
    decreases s
  {
    if |s| == period {
      var total := Sum(s);
      SumNonnegative(s);
      ShareNonnegative(total, |s| as real);
    } else {
      AverageNonnegative(s[..|s| - 1], period);
      WilderMeanNonnegative(Average(s[..|s| - 1], period), s[|s| - 1], period);
    }
  }

  lemma {:induction false} SumNonnegative(s: seq<real>)
    requires forall i :: 0 <= i < |s| ==> 0.0 <= s[i]
    ensures 0.0 <= Sum(s)
    decreases s
  {
    if s != [] {
      SumNonnegative(s[..|s| - 1]);
    }
  }

  /** 100 - 100 / (1 + gain / loss) is the share of the gain, in percent. */
  lemma RsiIsGainShare(gain: real, loss: real)
    requires 0.0 <= gain && 0.0 < loss
    ensures 1.0 + gain / loss > 0.0
    ensures RsiOf(gain, loss) == 100.0 * (gain / (gain + loss))
    ensures 0.0 <= RsiOf(gain, loss) <= 100.0
  {
    var rs := gain / loss;
    ShareNonnegative(gain, loss);
    assert rs * loss == gain;
    var total := gain + loss;
    assert (1.0 + rs) * loss == total;
    assert 1.0 / (1.0 + rs) == loss / total;
    assert gain / total + loss / total == 1.0;
    QuotientBetween(gain, total, 0.0, 1.0);
  }

  method Averages(gains: seq<real>, losses: seq<real>, period: nat) returns (gain: real, loss: real)
    requires 1 <= period <= |gains| == |losses|
    ensures gain == Average(gains, period) && loss == Average(losses, period)
  {
    gain, loss := Mean(gains[..period]), Mean(losses[..period]);
    for i := period to |gains|
      invariant gain == Average(gains[..i], period) && loss == Average(losses[..i], period)
    {
      assert gains[..i + 1][..i] == gains[..i] && losses[..i + 1][..i] == losses[..i];
      gain := WilderMean(gain, gains[i], period as real);
      loss := WilderMean(loss, losses[i], period as real);
    }
    assert gains[..|gains|] == gains && losses[..|losses|] == losses;
  }

  method Rsi(prices: seq<real>, period: nat) returns (r: Option<real>)
    requires 1 <= period
    ensures |prices| < period + 1 ==> r == None
    ensures |prices| >= period + 1 ==>
      var gain, loss := Average(Gains(Deltas(prices)), period), Average(Losses(Deltas(prices)), period);
      && 0.0 <= gain && 0.0 <= loss
      && r == Some(RsiValue(prices, period))
      && 0.0 <= r.value <= 100.0
  {
    if |prices| < period + 1 {
      return None;
    }
    var gains, losses := Gains(Deltas(prices)), Losses(Deltas(prices));
    var gain, loss := Averages(gains, losses, period);
    AverageNonnegative(gains, period);
    AverageNonnegative(losses, period);
    if loss != 0.0 {
      RsiIsGainShare(gain, loss);
    }
    r := Some(RsiOf(gain, loss));
  }

  function GainShare(gain: real, loss: real): real {
    if loss == 0.0 || gain + loss == 0.0 then 100.0 else 100.0 * (gain / (gain + loss))
  }

  lemma SharesAddUp(gain: real, loss: real)
    requires 0.0 <= gain && 0.0 <= loss
    ensures GainShare(gain, loss) + GainShare(loss, gain) == 100.0 <==> gain != 0.0 || loss != 0.0
  {
    if gain + loss != 0.0 {
      assert gain / (gain + loss) + loss / (gain + loss) == 1.0;
    }
  }

  /** The index as `Rsi` returns it. */
  function RsiValue(prices: seq<real>, period: nat): real
    requires 1 <= period && period + 1 <= |prices|
  {
    GainShare(Average(Gains(Deltas(prices)), period), Average(Losses(Deltas(prices)), period))
  }

  lemma MirroredMoves(prices: seq<real>)
    requires prices != []
    ensures Gains(Deltas(Negated(prices))) == Losses(Deltas(prices))
    ensures Losses(Deltas(Negated(prices))) == Gains(Deltas(prices))
  {
    var d, m := Deltas(prices), Deltas(Negated(prices));
    assert forall i :: 0 <= i < |d| ==> m[i] == -d[i];
  }

  lemma {:induction false} SumIsZero(s: seq<real>)
    requires forall i :: 0 <= i < |s| ==> 0.0 <= s[i]
    ensures Sum(s) == 0.0 <==> forall i :: 0 <= i < |s| ==> s[i] == 0.0
    decreases s
  {
    if s != [] {
      SumNonnegative(s[..|s| - 1]);
      SumIsZero(s[..|s| - 1]);
      assert s == s[..|s| - 1] + [s[|s| - 1]];
    }
  }

  lemma QuotientIsZero(x: real, y: real)
    requires y > 0.0
    ensures x / y == 0.0 <==> x == 0.0
  {
    assert x / y * y == x;
  }

  lemma WilderMeanIsZero(average: real, x: real, period: nat)
    requires 1 <= period && 0.0 <= average && 0.0 <= x
    ensures WilderMean(average, x, period as real) == 0.0 <==> x == 0.0 && (period == 1 || average == 0.0)
  {
    var rest := period as real - 1.0;
    ProductNonnegative(average, rest);
    if average > 0.0 && rest > 0.0 {
      ProductPositive(average, rest);
    }
    QuotientIsZero(average * rest + x, period as real);
  }

  /** A smoothed average forgets nothing, unless the period is one: then only the last value counts. */
  lemma {:induction false} AverageIsZero(s: seq<real>, period: nat)
    requires 1 <= period <= |s| && forall i :: 0 <= i < |s| ==> 0.0 <= s[i]
    ensures Average(s, period) == 0.0 <==>
            if period == 1 then s[|s| - 1] == 0.0 else forall i :: 0 <= i < |s| ==> s[i] == 0.0
    decreases s
  {
    if |s| == period {
      SumIsZero(s);
      QuotientIsZero(Sum(s), |s| as real);
    } else {
      var front := s[..|s| - 1];
      AverageIsZero(front, period);
      AverageNonnegative(front, period);
      WilderMeanIsZero(Average(front, period), s[|s| - 1], period);
      assert s == front + [s[|s| - 1]];
    }
  }

  /** The prices that the index still sees are not all the same. */
  predicate Moves(prices: seq<real>, period: nat)
    requires |prices| >= 2
  {
    if period == 1 then prices[|prices| - 1] != prices[|prices| - 2]
    else exists i :: 0 <= i < |prices| && prices[i] != prices[0]
  }

  lemma {:induction false} FlatPrices(prices: seq<real>, i: nat)
    requires i < |prices| && forall j :: 0 <= j < |prices| - 1 ==> Deltas(prices)[j] == 0.0
    ensures prices[i] == prices[0]
    decreases i
  {
    if i > 0 {
      FlatPrices(prices, i - 1);
      assert Deltas(prices)[i - 1] == 0.0;
    }
  }

  lemma MovesMeansAverage(prices: seq<real>, period: nat)
    requires 1 <= period && period + 1 <= |prices|
    ensures Moves(prices, period) <==>
            Average(Gains(Deltas(prices)), period) != 0.0 || Average(Losses(Deltas(prices)), period) != 0.0
  {
    var d := Deltas(prices);
    AverageIsZero(Gains(d), period);
    AverageIsZero(Losses(d), period);
    hide Average;
    assert forall i :: 0 <= i < |d| ==> (d[i] == 0.0 <==> Gains(d)[i] == 0.0 && Losses(d)[i] == 0.0);
    if forall i :: 0 <= i < |d| ==> d[i] == 0.0 {
      forall i | 0 <= i < |prices| ensures prices[i] == prices[0] {
        FlatPrices(prices, i);
      }
    } else {
      var i :| 0 <= i < |d| && d[i] != 0.0;
      assert prices[i] != prices[0] || prices[i + 1] != prices[0];
    }
  }

  /**
   Turning the price chart upside down turns the index around fifty, except
   when the prices are all the same, or with period one the last two.
   */
  lemma RsiMirrors(prices: seq<real>, period: nat)
    requires 1 <= period && period + 1 <= |prices|
    ensures RsiValue(prices, period) + RsiValue(Negated(prices), period) == 100.0 <==> Moves(prices, period)
  {
    MirroredMoves(prices);
    AverageNonnegative(Gains(Deltas(prices)), period);
    AverageNonnegative(Losses(Deltas(prices)), period);
    MovesMeansAverage(prices, period);
    hide Average;
    SharesAddUp(Average(Gains(Deltas(prices)), period), Average(Losses(Deltas(prices)), period));
  }

  /** Without a falling step the index is one hundred. */
  lemma RisingMarket(prices: seq<real>, period: nat)
    requires 1 <= period && period + 1 <= |prices|
    requires forall i :: 0 <= i < |prices| - 1 ==> prices[i] <= prices[i + 1]
    ensures RsiValue(prices, period) == 100.0
  {
    var losses := Losses(Deltas(prices));
    assert forall i :: 0 <= i < |losses| ==> losses[i] == 0.0;
    AverageIsZero(losses, period);
    hide Average, Gains, Losses, Deltas;
  }

  /** Without a rising step it is zero, if the prices it still sees are not all the same. */
  lemma FallingMarket(prices: seq<real>, period: nat)
    requires 1 <= period && period + 1 <= |prices| && Moves(prices, period)
    requires forall i :: 0 <= i < |prices| - 1 ==> prices[i] >= prices[i + 1]
    ensures RsiValue(prices, period) == 0.0
  {
    MovesMeansAverage(prices, period);
    hide Average, Moves;
    var gains := Gains(Deltas(prices));
    assert forall i :: 0 <= i < |gains| ==> gains[i] == 0.0;
    AverageIsZero(gains, period);
    hide Gains, Losses, Deltas;
  }

  function Scaled(n: nat, x: real): real {
    n as real * x
  }

  lemma ScaledStep(previous: real, x: real, n: nat)
    requires n >= 1
    ensures Scaled(n, WilderMean(previous, x, n as real)) == Wilder.Decay(Scaled(n, previous), n) + x
  {
    var r := n as real;
    assert r * previous / r == previous;
    assert r * ((previous * (r - 1.0) + x) / r) == previous * (r - 1.0) + x;
    assert previous * (r - 1.0) == r * previous - previous;
  }

  /** The averages of the strength index are the smoothed sums of the directional index, divided by the period. */
  lemma {:induction false} AverageIsSmoothedSum(s: seq<real>, period: nat, first: real)
    requires 1 <= period <= |s|
    ensures Scaled(period, Average(s, period)) == Wilder.SmoothAt([first] + s, period, |s|)
    decreases s
  {
    var all := [first] + s;
    if |s| == period {
      assert all[1..period + 1] == s;
      assert period as real * (Sum(s) / period as real) == Sum(s);
    } else {
      var front := s[..|s| - 1];
      AverageIsSmoothedSum(front, period, first);
      assert all[..|s|] == [first] + front;
      SmoothingLooksBack([first] + front, s[|s| - 1], period, |s| - 1);
      assert [first] + front + [s[|s| - 1]] == all;
      ScaledStep(Average(front, period), s[|s| - 1], period);
      hide WilderMean, Scaled, Wilder.Decay;
    }
  }

  lemma {:induction false} SmoothingLooksBack(s: seq<real>, x: real, n: nat, i: nat)
    requires 1 <= n <= i < |s|
    ensures Wilder.SmoothAt(s + [x], n, i) == Wilder.SmoothAt(s, n, i)
    decreases i
  {
    if i == n {
      assert (s + [x])[1..n + 1] == s[1..n + 1];
    } else {
      SmoothingLooksBack(s, x, n, i - 1);
    }
  }

  // ----- stochastic %K and Williams %R

  /**
   %K of the window of `k` candles that ends before index `end` of the highs.
   The three series need not have one length: a slice of the lows stops at their end.
   */
  function PercentK(h: seq<real>, l: seq<real>, c: seq<real>, k: nat, end: nat): real
    requires 1 <= k <= end <= |h| && end <= |c| && end - k < |l|
  {
    var high, low := Highest(h[end - k..end]), Lowest(l[end - k..if end <= |l| then end else |l|]);
    if high == low then 50.0 else (c[end - 1] - low) / (high - low) * 100.0
  }

  /** %K of the last `d` windows, newest first. */
  function PercentKs(h: seq<real>, l: seq<real>, c: seq<real>, k: nat, d: nat): (r: seq<real>)
    requires 1 <= k && k + d <= |h| + 1 && |h| <= |c| && |h| < k + |l|
    ensures |r| == d
  {
    if d == 0 then [] else PercentKs(h, l, c, k, d - 1) + [PercentK(h, l, c, k, |h| - (d - 1))]
  }

  /** The `j`-th of them is that of the window that ends `j` candles before the end. */
  lemma {:induction false} NthPercentK(h: seq<real>, l: seq<real>, c: seq<real>, k: nat, d: nat, j: nat)
    requires 1 <= k && k + d <= |h| + 1 && |h| <= |c| && |h| < k + |l| && j < d
    ensures PercentKs(h, l, c, k, d)[j] == PercentK(h, l, c, k, |h| - j)
    decreases d
  {
    hide PercentK;
    if j < d - 1 {
      NthPercentK(h, l, c, k, d - 1, j);
    }
  }

  method LatestPercentKs(h: seq<real>, l: seq<real>, c: seq<real>, kPeriod: nat, dPeriod: nat)
    returns (values: seq<real>)
    requires 1 <= kPeriod && 1 <= dPeriod && kPeriod + dPeriod <= |h| && |h| <= |c| && |h| < kPeriod + |l|
    ensures values == PercentKs(h, l, c, kPeriod, dPeriod)
    ensures values[0] == PercentK(h, l, c, kPeriod, |h|)
  {
    hide PercentK;
    values := [];
    for i := 0 to dPeriod
      invariant values == PercentKs(h, l, c, kPeriod, i)
      invariant i > 0 ==> values[0] == PercentK(h, l, c, kPeriod, |h|)
    {
      values := values + [PercentK(h, l, c, kPeriod, |h| - i)];
    }
  }

  /** How `stochastic` ends: both values undefined, an index or an empty window that raises, or the two values. */
  datatype Reading = TooShort | Raises | Reading(k: real, d: real)

  method Stochastic(h: seq<real>, l: seq<real>, c: seq<real>, kPeriod: nat, dPeriod: nat) returns (r: Reading)
    ensures r.TooShort? <==> |h| < kPeriod + dPeriod
    ensures r.Raises? <==>
      |h| >= kPeriod + dPeriod && (kPeriod == 0 || dPeriod == 0 || |c| < |h| || |l| <= |h| - kPeriod)
    ensures r.Reading? ==>
      r.k == PercentK(h, l, c, kPeriod, |h|) && r.d == Mean(PercentKs(h, l, c, kPeriod, dPeriod))
  {
    if |h| < kPeriod + dPeriod {
      return TooShort;
    }
    if kPeriod == 0 || dPeriod == 0 || |c| < |h| || |l| <= |h| - kPeriod {
      return Raises;
    }
    var values := LatestPercentKs(h, l, c, kPeriod, dPeriod);
    r := Reading(values[0], Mean(values));
  }

  method WilliamsR(h: seq<real>, l: seq<real>, c: seq<real>, period: nat) returns (res: seq<Option<real>>)
    requires 1 <= period
    ensures |res| == |c|
    ensures forall i :: 0 <= i < |c| ==>
      res[i] == if |h| == |l| == |c| && period <= i + 1 then PercentR(h, l, c, period, i + 1) else None
  {
    hide PercentR;
    res := seq(|c|, _ => None);
    if |c| < period {
      return;
    }
    if !(|h| == |l| == |c|) {
      return;
    }
    for i := period - 1 to |c|
      invariant |res| == |c|
      invariant forall k :: 0 <= k < period - 1 || i <= k < |c| ==> res[k] == None
      invariant forall k :: period - 1 <= k < i ==> res[k] == PercentR(h, l, c, period, k + 1)
    {
      res := res[i := PercentR(h, l, c, period, i + 1)];
    }
  }

  function PercentR(h: seq<real>, l: seq<real>, c: seq<real>, k: nat, end: nat): Option<real>
    requires |h| == |l| == |c| && 1 <= k <= end <= |c|
  {
    var high, low := Highest(h[end - k..end]), Lowest(l[end - k..end]);
    if high == low then None else Some((high - c[end - 1]) / (high - low) * -100.0)
  }

  /** On the same window %R is %K minus one hundred; on sane candles it lies in [-100, 0]. */
  lemma PercentRIsShiftedPercentK(h: seq<real>, l: seq<real>, c: seq<real>, k: nat, end: nat)
    requires |h| == |l| == |c| && 1 <= k <= end <= |c| && PercentR(h, l, c, k, end).Some?
    ensures PercentR(h, l, c, k, end).value == PercentK(h, l, c, k, end) - 100.0
    ensures (forall i :: 0 <= i < |c| ==> l[i] <= c[i] <= h[i]) ==> -100.0 <= PercentR(h, l, c, k, end).value <= 0.0
  {
    var high, low, close := Highest(h[end - k..end]), Lowest(l[end - k..end]), c[end - 1];
    assert h[end - k..end][k - 1] == h[end - 1] && l[end - k..end][k - 1] == l[end - 1];
    ShiftedRatio(high, low, close);
    if forall i :: 0 <= i < |c| ==> l[i] <= c[i] <= h[i] {
      RatioInRange(high, low, close);
    }
  }

  /** %K is fifty for a flat window, one hundred for a close at the highest high and zero for one at the lowest low. */
  lemma PercentKExtremes(h: seq<real>, l: seq<real>, c: seq<real>, k: nat, end: nat)
    requires |h| == |l| == |c| && 1 <= k <= end <= |c|
    ensures
      var high, low, close := Highest(h[end - k..end]), Lowest(l[end - k..end]), c[end - 1];
      && (high == low ==> PercentK(h, l, c, k, end) == 50.0)
      && (high != low && close == high ==> PercentK(h, l, c, k, end) == 100.0)
      && (high != low && close == low ==> PercentK(h, l, c, k, end) == 0.0)
  {
    hide Highest, Lowest;
    var high, low := Highest(h[end - k..end]), Lowest(l[end - k..end]);
    if high != low {
      WholeRatio(high, low);
    }
  }

  lemma WholeRatio(high: real, low: real)
    requires high != low
    ensures (high - low) / (high - low) * 100.0 == 100.0 && (low - low) / (high - low) * 100.0 == 0.0
  {
  }

  lemma ShiftedRatio(high: real, low: real, close: real)
    requires high != low
    ensures (high - close) / (high - low) * -100.0 == (close - low) / (high - low) * 100.0 - 100.0
  {
    var x, y, d := high - close, close - low, high - low;
    QuotientsAdd(x, y, d);
    assert x + y == d;
    var r, k := x / d, y / d;
    assert r + k == 1.0;
    assert r * -100.0 == k * 100.0 - 100.0;
  }

  lemma RatioInRange(high: real, low: real, close: real)
    requires low <= close <= high && low != high
    ensures -100.0 <= (high - close) / (high - low) * -100.0 <= 0.0
  {
    QuotientBetween(high - close, high - low, 0.0, 1.0);
  }
}

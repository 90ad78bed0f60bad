/**
 The regime detector's own directional index, which smooths sums instead of
 means, and its relation to `indicators.adx` on the same series.
 */
module MarketRegime {
  import opened Common
  import opened Wilder

  /** A cached candle whose three fields convert to numbers. */
  datatype Candle = Candle(max: real, min: real, close: real)

  // ----- the sum-form smoother

  function WsAt(data: seq<real>, p: nat, k: nat): real
    requires 1 <= p && p + k <= |data|
  {
    if k == 0 then Sum(data[..p]) else Decay(WsAt(data, p, k - 1), p) + data[p + k - 1]
  }

  /** The whole smoothed list; empty when the data is too short. */
  function WsList(data: seq<real>, p: nat): (s: seq<real>)
    requires 1 <= p
    ensures |s| == if |data| < p then 0 else |data| - p + 1
  {
    if |data| < p then [] else seq(|data| - p + 1, k requires 0 <= k <= |data| - p => WsAt(data, p, k))
  }

  method Ws(data: seq<real>, p: nat) returns (s: seq<real>)
    requires 1 <= p
    ensures s == WsList(data, p)
  {
    if |data| < p {
      return [];
    }
    s := [Sum(data[..p])];
    for i := p to |data|
      invariant |s| == i - p + 1
      invariant forall k :: 0 <= k < |s| ==> s[k] == WsAt(data, p, k)
    {
      var k := |s|;
      var next := Decay(s[k - 1], p) + data[i];
      assert next == WsAt(data, p, k);
      s := s + [next];
    }
  }

  /** On the same series both smoothers agree, entry for entry. */
  lemma {:induction false} WsIsWilder(vals: seq<real>, n: nat, k: nat)
    requires 1 <= n && n + k < |vals|
    ensures WsAt(vals[1..], n, k) == SmoothAt(vals, n, n + k)
    decreases k
  {
    if k == 0 {
      assert vals[1..][..n] == vals[1..n + 1];
    } else {
      WsIsWilder(vals, n, k - 1);
    }
  }

  // ----- DX with its skips

  function DxValue(range: real, plus: real, minus: real): real
    requires range != 0.0
  {
    var pdi, mdi := (plus / range) * 100.0, (minus / range) * 100.0;
    if pdi + mdi != 0.0 then Abs(pdi - mdi) / (pdi + mdi) * 100.0 else 0.0
  }

  /** Entries whose smoothed range is zero are left out. */
  function DxList(range: seq<real>, plus: seq<real>, minus: seq<real>): seq<real>
    requires |range| == |plus| == |minus|
  {
    if range == [] then []
    else
      var k := |range| - 1;
      DxList(range[..k], plus[..k], minus[..k])
      + if range[k] == 0.0 then [] else [DxValue(range[k], plus[k], minus[k])]
  }

  method DxValues(range: seq<real>, plus: seq<real>, minus: seq<real>) returns (dx: seq<real>)
    requires |range| == |plus| == |minus|
    ensures dx == DxList(range, plus, minus)
  {
    dx := [];
    for i := 0 to |range|
      invariant dx == DxList(range[..i], plus[..i], minus[..i])
    {
      assert range[..i + 1][..i] == range[..i] && plus[..i + 1][..i] == plus[..i] && minus[..i + 1][..i] == minus[..i];
      if range[i] != 0.0 {
        dx := dx + [DxValue(range[i], plus[i], minus[i])];
      }
    }
    assert range[..|range|] == range && plus[..|range|] == plus && minus[..|range|] == minus;
  }

  // ----- get_adx

  /** The DX values of a chronological series; the first candle only starts the differences. */
  function DxOfSeries(h: Prices, l: Prices, c: Prices, period: nat): seq<real>
    requires SameLength(h, l, c) && 1 <= period && c != []
  {
    DxList(WsList(Ranges(h, l, c)[1..], period),
           WsList(PlusMoves(h, l)[1..], period),
           WsList(MinusMoves(h, l)[1..], period))
  }

  /** The smoothed DX as it is read off: divided by the period only when there is a single value. */
  function Finish(dx: seq<real>, period: nat): Option<real>
    requires 1 <= period
  {
    if |dx| < period then None
    else
      var s := WsList(dx, period);
      Some(if |s| > 1 then s[|s| - 1] else s[0] / period as real)
  }

  /** The value before clamping; None where `get_adx` reports insufficient data. */
  function RawAdx(h: Prices, l: Prices, c: Prices, period: nat): Option<real>
    requires SameLength(h, l, c) && 1 <= period
  {
    if |c| < 2 * period then None else Finish(DxOfSeries(h, l, c, period), period)
  }

  function Clamp(v: real): real {
    Max(0.0, Min(100.0, v))
  }

  /** The clamped value, still with all its digits. */
  function Unrounded(raw: Option<real>): real {
    if raw.None? then -1.0 else Clamp(raw.value)
  }

  function Reported(raw: Option<real>): real {
    if raw.None? then -1.0 else Rounded(Clamp(raw.value), 100)
  }

  method Movements(h: Prices, l: Prices, c: Prices) returns (ranges: seq<real>, plus: seq<real>, minus: seq<real>)
    requires SameLength(h, l, c) && c != []
    ensures ranges == Ranges(h, l, c)[1..] && plus == PlusMoves(h, l)[1..] && minus == MinusMoves(h, l)[1..]
  {
    ranges, plus, minus := [], [], [];
    for i := 1 to |c|
      invariant ranges == Ranges(h, l, c)[1..i]
      invariant plus == PlusMoves(h, l)[1..i] && minus == MinusMoves(h, l)[1..i]
    {
      var up, down := h[i] - h[i - 1], l[i - 1] - l[i];
      ranges := ranges + [TrueRange(h[i], l[i], c[i - 1])];
      plus, minus := plus + [PlusMove(up, down)], minus + [PlusMove(down, up)];
    }
  }

  method GetAdxOf(h: Prices, l: Prices, c: Prices, period: nat) returns (adx: real)
    requires SameLength(h, l, c) && 1 <= period
    ensures adx == Reported(RawAdx(h, l, c, period))
  {
    if |c| < 2 * period {
      return -1.0;
    }
    var ranges, plus, minus := Movements(h, l, c);
    var sRange := Ws(ranges, period);
    var sPlus := Ws(plus, period);
    var sMinus := Ws(minus, period);
    var dx := DxValues(sRange, sPlus, sMinus);
    if |dx| < period {
      return -1.0;
    }
    var s := Ws(dx, period);
    var val := if |s| > 1 then s[|s| - 1] else s[|s| - 1] / period as real;
    adx := Rounded(Clamp(val), 100);
  }

  function Maxima(candles: seq<Candle>): (s: Prices)
    ensures |s| == |candles|
  {
    seq(|candles|, i requires 0 <= i < |candles| => candles[i].max)
  }

  function Minima(candles: seq<Candle>): (s: Prices)
    ensures |s| == |candles|
  {
    seq(|candles|, i requires 0 <= i < |candles| => candles[i].min)
  }

  function Closes(candles: seq<Candle>): (s: Prices)
    ensures |s| == |candles|
  {
    seq(|candles|, i requires 0 <= i < |candles| => candles[i].close)
  }

  /** A None is a candle whose fields do not convert; it spoils the whole list. */
  function Converted(candles: seq<Option<Candle>>): (r: Option<seq<Candle>>)
    ensures r.Some? ==> |r.value| == |candles|
  {
    if candles == [] then Some([])
    else
      var front, last := Converted(candles[..|candles| - 1]), candles[|candles| - 1];
      if front.None? || last.None? then None else Some(front.value + [last.value])
  }

  lemma {:induction false} OneBadCandleSpoils(candles: seq<Option<Candle>>, i: nat)
    requires i < |candles| && candles[i].None?
    ensures Converted(candles).None?
    decreases candles
  {
    if i < |candles| - 1 {
      OneBadCandleSpoils(candles[..|candles| - 1], i);
    }
  }

  function AdxOfCandles(candles: seq<Candle>, period: nat): real
    requires 1 <= period
  {
    Reported(RawAdx(Maxima(candles), Minima(candles), Closes(candles), period))
  }

  /** `candles` is what the cache returned. */
  method GetAdx(candles: seq<Option<Candle>>, period: nat) returns (adx: real)
    requires 1 <= period
    ensures adx == if Converted(candles).None? then -1.0 else AdxOfCandles(Converted(candles).value, period)
  {
    if |candles| < period * 2 {
      return -1.0;
    }
    var highs, lows, closes: Prices := [], [], [];
    for i := 0 to |candles|
      invariant Converted(candles[..i]).Some? && |highs| == i
      invariant
        var good := Converted(candles[..i]).value;
        highs == Maxima(good) && lows == Minima(good) && closes == Closes(good)
    {
      if candles[i].None? {
        OneBadCandleSpoils(candles, i);
        return -1.0;
      }
      assert candles[..i + 1][..i] == candles[..i];
      var candle := candles[i].value;
      highs, lows, closes := highs + [candle.max], lows + [candle.min], closes + [candle.close];
    }
    assert candles[..|candles|] == candles;
    adx := GetAdxOf(highs, lows, closes, period);
  }

  /** The candles that record these highs, lows and closes. */
  function Recorded(h: Prices, l: Prices, c: Prices): (candles: seq<Option<Candle>>)
    requires SameLength(h, l, c)
  {
    seq(|c|, i requires 0 <= i < |c| => Some(Candle(max := h[i], min := l[i], close := c[i])))
  }

  lemma {:induction false} RecordedConverts(candles: seq<Option<Candle>>)
    requires forall i :: 0 <= i < |candles| ==> candles[i].Some?
    ensures Converted(candles).Some?
    ensures forall i :: 0 <= i < |candles| ==> Converted(candles).value[i] == candles[i].value
    decreases candles
  {
    if candles != [] {
      RecordedConverts(candles[..|candles| - 1]);
    }
  }

  /** From cached candles the index is that of the highs, lows and closes they hold. */
  lemma CandlesGiveTheirSeries(h: Prices, l: Prices, c: Prices, period: nat)
    requires SameLength(h, l, c) && 1 <= period
    ensures Converted(Recorded(h, l, c)).Some?
    ensures AdxOfCandles(Converted(Recorded(h, l, c)).value, period) == Reported(RawAdx(h, l, c, period))
  {
    RecordedConverts(Recorded(h, l, c));
    var candles := Converted(Recorded(h, l, c)).value;
    hide RawAdx, Reported;
    assert Maxima(candles) == h && Minima(candles) == l && Closes(candles) == c;
  }

  // ----- against indicators.adx

  /** Every bar has a defined DX: no division by zero anywhere. */
  ghost predicate NoZeroDenominators(h: Prices, l: Prices, c: Prices, n: nat)
    requires SameLength(h, l, c) && 1 <= n
  {
    forall i :: n <= i < |c| ==> DxAt(h, l, c, n, i).Some?
  }

  lemma DxForms(range: real, plus: real, minus: real)
    requires Dx(range, plus, minus).Some?
    ensures DxValue(range, plus, minus) == Dx(range, plus, minus).value
  {
    assert (plus / range) * 100.0 == 100.0 * plus / range;
    assert (minus / range) * 100.0 == 100.0 * minus / range;
    var pdi, mdi := 100.0 * plus / range, 100.0 * minus / range;
    var a, b := Abs(pdi - mdi), pdi + mdi;
    assert a / b * 100.0 == 100.0 * a / b;
  }

  lemma {:induction false} DxListWithoutSkips(range: seq<real>, plus: seq<real>, minus: seq<real>)
    requires |range| == |plus| == |minus|
    requires forall k :: 0 <= k < |range| ==> range[k] != 0.0
    ensures |DxList(range, plus, minus)| == |range|
    ensures forall k :: 0 <= k < |range| ==> DxList(range, plus, minus)[k] == DxValue(range[k], plus[k], minus[k])
    decreases |range|
  {
    if range != [] {
      var k := |range| - 1;
      DxListWithoutSkips(range[..k], plus[..k], minus[..k]);
    }
  }

  lemma DxOfBoth(h: Prices, l: Prices, c: Prices, n: nat, k: nat)
    requires SameLength(h, l, c) && 1 <= n && n + k < |c| && DxAt(h, l, c, n, n + k).Some?
    ensures
      var range := WsList(Ranges(h, l, c)[1..], n)[k];
      var plus, minus := WsList(PlusMoves(h, l)[1..], n)[k], WsList(MinusMoves(h, l)[1..], n)[k];
      range != 0.0 && Some(DxValue(range, plus, minus)) == DxSeries(h, l, c, n)[n + k]
  {
    hide Ranges, PlusMoves, MinusMoves, WsAt, SmoothAt, Dx, DxValue;
    WsIsWilder(Ranges(h, l, c), n, k);
    WsIsWilder(PlusMoves(h, l), n, k);
    WsIsWilder(MinusMoves(h, l), n, k);
    var range := WsAt(Ranges(h, l, c)[1..], n, k);
    var plus, minus := WsAt(PlusMoves(h, l)[1..], n, k), WsAt(MinusMoves(h, l)[1..], n, k);
    DxNeedsRange(range, plus, minus);
    DxForms(range, plus, minus);
  }

  lemma DxNeedsRange(range: real, plus: real, minus: real)
    requires Dx(range, plus, minus).Some?
    ensures range != 0.0
  {
  }

  /** The DX values of `get_adx` are those of `adx` from index `n` on. */
  lemma SameDx(h: Prices, l: Prices, c: Prices, n: nat) returns (series: seq<Option<real>>, dx: seq<real>)
    requires SameLength(h, l, c) && 1 <= n < |c| && NoZeroDenominators(h, l, c, n)
    ensures series == DxSeries(h, l, c, n) && dx == DxOfSeries(h, l, c, n)
    ensures |dx| == |c| - n && |series| == |c|
    ensures forall k :: 0 <= k < |dx| ==> series[n + k] == Some(dx[k])
  {
    series, dx := DxSeries(h, l, c, n), DxOfSeries(h, l, c, n);
    var range := WsList(Ranges(h, l, c)[1..], n);
    var plus, minus := WsList(PlusMoves(h, l)[1..], n), WsList(MinusMoves(h, l)[1..], n);
    forall k | 0 <= k < |c| - n
      ensures range[k] != 0.0 && Some(DxValue(range[k], plus[k], minus[k])) == series[n + k]
    {
      DxOfBoth(h, l, c, n, k);
    }
    hide DxSeries, DxAt, DxValue, WsList, DxOfSeries;
    DxListWithoutSkips(range, plus, minus);
  }

  lemma {:induction false} SumDefinedIsSum(s: seq<Option<real>>, v: seq<real>)
    requires |s| == |v| && forall k :: 0 <= k < |s| ==> s[k] == Some(v[k])
    ensures SumDefined(s) == Some(Sum(v))
    decreases s
  {
    if s != [] {
      SumDefinedIsSum(s[..|s| - 1], v[..|v| - 1]);
    }
  }

  function Times(n: nat, x: real): real {
    n as real * x
  }

  /** One smoothing step in sum form is `n` times the step in mean form. */
  lemma SumFormStep(mean: real, x: real, n: nat)
    requires n >= 1
    ensures Decay(Times(n, mean), n) + x == Times(n, WilderMean(mean, x, n as real))
    ensures Times(n, mean) / n as real == mean
    ensures Times(n, x / n as real) == x
  {
    var r := n as real;
    var carried := mean * (r - 1.0);
    assert (r * mean) / r == mean;
    assert r * ((carried + x) / r) == carried + x;
  }

  lemma {:induction false} SumFormIsScaledMean(series: seq<Option<real>>, dx: seq<real>, n: nat, k: nat)
    requires 1 <= n && |series| == n + |dx| && n + k <= |dx|
    requires forall j :: 0 <= j < |dx| ==> series[n + j] == Some(dx[j])
    ensures AdxAt(series, n, 2 * n - 1 + k).Some?
    ensures WsAt(dx, n, k) == Times(n, AdxAt(series, n, 2 * n - 1 + k).value)
    decreases k
  {
    var i := 2 * n - 1 + k;
    if k == 0 {
      SumDefinedIsSum(series[n..2 * n], dx[..n]);
      SumFormStep(0.0, Sum(dx[..n]), n);
    } else {
      SumFormIsScaledMean(series, dx, n, k - 1);
      var mean, x := AdxAt(series, n, i - 1).value, dx[n + k - 1];
      assert series[n + (n + k - 1)] == Some(x);
      assert AdxAt(series, n, i) == Some(WilderMean(mean, x, n as real));
      assert WsAt(dx, n, k) == Decay(WsAt(dx, n, k - 1), n) + x;
      SumFormStep(mean, x, n);
    }
  }

  /** The last value of `indicators.adx`. */
  function LastAdx(h: Prices, l: Prices, c: Prices, n: nat): Option<real>
    requires SameLength(h, l, c) && 1 <= n && 2 * n <= |c|
  {
    AdxAt(DxSeries(h, l, c, n), n, |c| - 1)
  }

  lemma ScaledLast(series: seq<Option<real>>, dx: seq<real>, n: nat) returns (last: real)
    requires 1 <= n && |series| == n + |dx| && n <= |dx|
    requires forall j :: 0 <= j < |dx| ==> series[n + j] == Some(dx[j])
    ensures AdxAt(series, n, |series| - 1) == Some(last)
    ensures Finish(dx, n) == Some(if |dx| == n then last else Times(n, last))
  {
    SumFormIsScaledMean(series, dx, n, |dx| - n);
    last := AdxAt(series, n, |series| - 1).value;
    SumFormStep(last, 0.0, n);
  }

  lemma Unfolded(h: Prices, l: Prices, c: Prices, n: nat)
    requires SameLength(h, l, c) && 1 <= n && 2 * n <= |c|
    ensures LastAdx(h, l, c, n) == AdxAt(DxSeries(h, l, c, n), n, |c| - 1)
    ensures RawAdx(h, l, c, n) == Finish(DxOfSeries(h, l, c, n), n)
  {
    hide DxSeries, DxOfSeries, AdxAt, Finish, WsList, DxList;
  }

  /** Both computations finish from the same DX values. */
  lemma SameStart(h: Prices, l: Prices, c: Prices, n: nat) returns (series: seq<Option<real>>, dx: seq<real>)
    requires SameLength(h, l, c) && 1 <= n && 2 * n <= |c| && NoZeroDenominators(h, l, c, n)
    ensures |dx| == |c| - n && |series| == |c|
    ensures forall k :: 0 <= k < |dx| ==> series[n + k] == Some(dx[k])
    ensures LastAdx(h, l, c, n) == AdxAt(series, n, |series| - 1) && RawAdx(h, l, c, n) == Finish(dx, n)
  {
    hide *;
    Unfolded(h, l, c, n);
    series, dx := SameDx(h, l, c, n);
  }

  /**
   Before clamping, `get_adx` is the last ADX value at exactly twice the period,
   and `period` times that value on any longer series.
   */
  lemma RawAdxAgainstAdx(h: Prices, l: Prices, c: Prices, n: nat)
    requires SameLength(h, l, c) && 1 <= n && 2 * n <= |c| && NoZeroDenominators(h, l, c, n)
    ensures LastAdx(h, l, c, n).Some?
    ensures
      var last := LastAdx(h, l, c, n).value;
      RawAdx(h, l, c, n) == Some(if |c| == 2 * n then last else Times(n, last))
  {
    var series, dx := SameStart(h, l, c, n);
    var last := ScaledLast(series, dx, n);
  }

  lemma ClampedMultiple(adx: real, n: nat)
    requires 0.0 <= adx <= 100.0 && n >= 1
    ensures Clamp(adx) == adx && 0.0 <= Clamp(Times(n, adx)) == Min(100.0, Times(n, adx))
    ensures Clamp(Times(n, adx)) == adx <==> n == 1 || adx == 0.0 || adx == 100.0
  {
    ProductMonotone(adx, 1.0, n as real);
    if n > 1 && adx > 0.0 {
      ProductPositive(adx, n as real - 1.0);
      assert Times(n, adx) - adx == adx * (n as real - 1.0);
    }
  }

  lemma {:induction false} SumDefinedExactly(s: seq<Option<real>>)
    ensures SumDefined(s).Some? <==> forall k :: 0 <= k < |s| ==> s[k].Some?
    decreases s
  {
    if s != [] {
      SumDefinedExactly(s[..|s| - 1]);
      assert s == s[..|s| - 1] + [s[|s| - 1]];
    }
  }

  /** One undefined DX spoils every average from there on. */
  lemma {:induction false} AdxDefinedExactly(series: seq<Option<real>>, n: nat, i: nat)
    requires 1 <= n && 2 * n - 1 <= i < |series|
    ensures AdxAt(series, n, i).Some? <==> forall k :: n <= k <= i ==> series[k].Some?
    decreases i
  {
    if i == 2 * n - 1 {
      SumDefinedExactly(series[n..2 * n]);
      assert forall k :: n <= k < 2 * n ==> series[k] == series[n..2 * n][k - n];
    } else {
      AdxDefinedExactly(series, n, i - 1);
    }
  }

  /** The last ADX value is defined if and only if no denominator was zero. */
  lemma LastAdxDefined(h: Prices, l: Prices, c: Prices, n: nat)
    requires SameLength(h, l, c) && 1 <= n && 2 * n <= |c|
    ensures LastAdx(h, l, c, n).Some? <==> NoZeroDenominators(h, l, c, n)
  {
    var series := DxSeries(h, l, c, n);
    assert forall k :: 0 <= k < |c| ==> series[k] == DxAt(h, l, c, n, k);
    hide DxSeries, DxAt;
    AdxDefinedExactly(series, n, |c| - 1);
  }

  lemma LastAdxInRange(h: Prices, l: Prices, c: Prices, n: nat)
    requires SameLength(h, l, c) && Sane(h, l, c) && 1 <= n && 2 * n <= |c| && LastAdx(h, l, c, n).Some?
    ensures 0.0 <= LastAdx(h, l, c, n).value <= 100.0
  {
    hide DxSeries, AdxAt;
    AdxInRange(h, l, c, n, |c| - 1);
  }

  /**
   So on sane candles the index is the ADX if and only if the ADX is defined,
   and there are 2 * period candles, the period is one, or the ADX is 0 or 100.
   */
  lemma ReportedIsAdxExactly(h: Prices, l: Prices, c: Prices, n: nat)
    requires SameLength(h, l, c) && Sane(h, l, c) && 1 <= n && 2 * n <= |c|
    ensures
      var adx, unrounded := LastAdx(h, l, c, n), Unrounded(RawAdx(h, l, c, n));
      && (adx == Some(unrounded) <==>
            NoZeroDenominators(h, l, c, n) && (|c| == 2 * n || n == 1 || adx == Some(0.0) || adx == Some(100.0)))
      && (adx.Some? && |c| > 2 * n ==> unrounded == Min(100.0, Times(n, adx.value)))
  {
    hide LastAdx, RawAdx, NoZeroDenominators, Clamp, Times, Sane;
    LastAdxDefined(h, l, c, n);
    if LastAdx(h, l, c, n).Some? {
      RawAdxAgainstAdx(h, l, c, n);
      LastAdxInRange(h, l, c, n);
      ClampedMultiple(LastAdx(h, l, c, n).value, n);
    }
  }

  datatype Regime = Trending | Ranging | Transitioning

  function RegimeOf(adx: real): Regime {
    if adx < 0.0 then Transitioning
    else if adx > 25.0 then Trending
    else if adx < 20.0 then Ranging
    else Transitioning
  }

  /** What is reported is off by half a hundredth at most. */
  lemma ReportedIsClose(raw: Option<real>)
    ensures -0.005 <= Reported(raw) - Unrounded(raw) <= 0.005
  {
    if raw.Some? {
      var v := Clamp(raw.value);
      var x := v * 100.0;
      var r := RoundHalfEven(x);
      assert -0.5 <= r as real - x <= 0.5;
      assert Rounded(v, 100) == r as real / 100.0;
    }
  }

  lemma RoundsAboveTwentyFive(v: real)
    ensures Rounded(v, 100) > 25.0 <==> v > 25.005
  {
    var x := v * 100.0;
    var r := RoundHalfEven(x);
    assert r > 2500 <==> x > 2500.5;
    assert r as real / 100.0 > 25.0 <==> r as real > 2500.0;
  }

  /** On longer series a market counts as trending from an ADX of about 25 / period on, not from 25. */
  lemma TrendingThresholdShrinks(h: Prices, l: Prices, c: Prices, n: nat)
    requires SameLength(h, l, c) && Sane(h, l, c) && 1 <= n && 2 * n < |c| && LastAdx(h, l, c, n).Some?
    ensures RegimeOf(Reported(RawAdx(h, l, c, n))).Trending? <==> Times(n, LastAdx(h, l, c, n).value) > 25.005
  {
    hide LastAdx, RawAdx, NoZeroDenominators, Times, Sane, Rounded;
    LastAdxDefined(h, l, c, n);
    ReportedIsAdxExactly(h, l, c, n);
    RawAdxAgainstAdx(h, l, c, n);
    RoundsAboveTwentyFive(Unrounded(RawAdx(h, l, c, n)));
  }

  lemma RoundsBelowTwenty(v: real)
    ensures Rounded(v, 100) < 20.0 <==> v < 19.995
  {
    var x := v * 100.0;
    var r := RoundHalfEven(x);
    assert r < 2000 <==> x < 1999.5;
    assert r as real / 100.0 < 20.0 <==> r as real < 2000.0;
  }

  /** Likewise it counts as ranging only if the period times the ADX is small, and as neither without enough data. */
  lemma RangingThresholdShrinks(h: Prices, l: Prices, c: Prices, n: nat)
    requires SameLength(h, l, c) && Sane(h, l, c) && 1 <= n && 2 * n < |c| && LastAdx(h, l, c, n).Some?
    ensures RegimeOf(Reported(RawAdx(h, l, c, n))).Ranging? <==> Times(n, LastAdx(h, l, c, n).value) < 19.995
    ensures RegimeOf(Reported(None)).Transitioning?
  {
    hide LastAdx, RawAdx, NoZeroDenominators, Times, Sane, Rounded;
    LastAdxDefined(h, l, c, n);
    ReportedIsAdxExactly(h, l, c, n);
    RawAdxAgainstAdx(h, l, c, n);
    RoundsBelowTwenty(Unrounded(RawAdx(h, l, c, n)));
    RoundsAboveTwentyFive(Unrounded(RawAdx(h, l, c, n)));
    NeverNegative(Unrounded(RawAdx(h, l, c, n)));
  }

  lemma NeverNegative(v: real)
    ensures v >= 0.0 ==> Rounded(v, 100) >= 0.0
  {
  }

  // ----- bars without a range

  /** Bars whose smoothed range is zero give no DX value, and equal moves give the value zero. */
  lemma {:induction false} FlatBarsAreSkipped(range: seq<real>, plus: seq<real>, minus: seq<real>)
    requires |range| == |plus| == |minus|
    ensures (forall i :: 0 <= i < |range| ==> range[i] == 0.0) ==> DxList(range, plus, minus) == []
    ensures (forall i :: 0 <= i < |range| ==> range[i] != 0.0) ==> |DxList(range, plus, minus)| == |range|
    ensures forall x :: x in DxList(range, plus, minus) ==>
      exists i :: 0 <= i < |range| && range[i] != 0.0 && x == DxValue(range[i], plus[i], minus[i])
    decreases range
  {
    if range != [] {
      var k := |range| - 1;
      FlatBarsAreSkipped(range[..k], plus[..k], minus[..k]);
    }
  }

  lemma {:induction false} SkippingOneBar(
      a: seq<real>, p: seq<real>, m: seq<real>, range: seq<real>, plus: seq<real>, minus: seq<real>, x: real, y: real)
    requires |a| == |p| == |m| && |range| == |plus| == |minus|
    ensures DxList(a + [0.0] + range, p + [x] + plus, m + [y] + minus) == DxList(a + range, p + plus, m + minus)
    decreases range
  {
    var one, two := a + [0.0] + range, a + range;
    if range == [] {
      assert one[..|a|] == a && (p + [x] + plus)[..|a|] == p && (m + [y] + minus)[..|a|] == m;
      assert two == a && p + plus == p && m + minus == m && DxList(a, p, m) + [] == DxList(a, p, m);
    } else {
      var k := |range| - 1;
      SkippingOneBar(a, p, m, range[..k], plus[..k], minus[..k], x, y);
      assert one[..|one| - 1] == a + [0.0] + range[..k] && two[..|two| - 1] == a + range[..k];
      assert (p + [x] + plus)[..|one| - 1] == p + [x] + plus[..k] && (p + plus)[..|two| - 1] == p + plus[..k];
      assert (m + [y] + minus)[..|one| - 1] == m + [y] + minus[..k] && (m + minus)[..|two| - 1] == m + minus[..k];
    }
  }

  /** Equal moves have no direction, be they zero or not. */
  lemma EqualMovesAreNeutral(range: real, move: real)
    requires range != 0.0
    ensures DxValue(range, move, move) == 0.0
  {
  }

  // ----- a series on which the two differ

  const HIGHS: Prices := [10.0, 13.0, 13.0, 13.0, 13.0]
  const LOWS: Prices := [5.0, 5.0, 3.0, 3.0, 3.0]
  const CLOSES: Prices := [8.0, 8.0, 8.0, 8.0, 8.0]

  predicate From(v: seq<real>, a: real, b: real, c: real) {
    |v| == 5 && v[1] == a && v[2] == b && v[3] == c && v[4] == c
  }

  lemma ExampleRanges()
    ensures Sane(HIGHS, LOWS, CLOSES) && From(Ranges(HIGHS, LOWS, CLOSES), 8.0, 10.0, 10.0)
  {
    assert TrueRange(13.0, 5.0, 8.0) == 8.0 && TrueRange(13.0, 3.0, 8.0) == 10.0;
    hide TrueRange;
  }

  /** Up by three, down by two, and then nothing: the two moves stay in the proportion three to two. */
  lemma ExampleMoves()
    ensures From(PlusMoves(HIGHS, LOWS), 3.0, 0.0, 0.0) && From(MinusMoves(HIGHS, LOWS), 0.0, 2.0, 0.0)
  {
  }

  lemma SumOfPair(x: real, y: real)
    ensures Sum([x, y]) == x + y
  {
    assert [x, y][..1] == [x] && [x][..0] == [];
    assert Sum([x]) == x;
  }

  lemma SmoothedByTwo(v: seq<real>, a: real, b: real, c: real)
    requires From(v, a, b, c)
    ensures SmoothAt(v, 2, 2) == a + b
    ensures SmoothAt(v, 2, 3) == (a + b) / 2.0 + c
    ensures SmoothAt(v, 2, 4) == ((a + b) / 2.0 + c) / 2.0 + c
  {
    assert v[1..3] == [a, b];
    SumOfPair(a, b);
    hide Sum;
    assert SmoothAt(v, 2, 3) == Decay(SmoothAt(v, 2, 2), 2) + v[3];
    assert SmoothAt(v, 2, 4) == Decay(SmoothAt(v, 2, 3), 2) + v[4];
  }

  lemma DxOfThreeToTwo(range: real, plus: real, minus: real)
    requires range > 0.0 && plus > 0.0 && 2.0 * plus == 3.0 * minus
    ensures Dx(range, plus, minus) == Some(20.0)
  {
    var e := 50.0 * minus / range;
    assert e * range == 50.0 * minus;
    assert 100.0 * plus / range == 3.0 * e && 100.0 * minus / range == 2.0 * e;
    assert e > 0.0;
    assert 100.0 * e / (5.0 * e) == 20.0;
  }

  lemma ExampleDx(i: nat)
    requires 2 <= i <= 4
    ensures DxAt(HIGHS, LOWS, CLOSES, 2, i) == Some(20.0)
  {
    var range, plus, minus := Ranges(HIGHS, LOWS, CLOSES), PlusMoves(HIGHS, LOWS), MinusMoves(HIGHS, LOWS);
    ExampleRanges();
    ExampleMoves();
    SmoothedByTwo(range, 8.0, 10.0, 10.0);
    SmoothedByTwo(plus, 3.0, 0.0, 0.0);
    SmoothedByTwo(minus, 0.0, 2.0, 0.0);
    hide Ranges, PlusMoves, MinusMoves, SmoothAt, Dx;
    DxOfThreeToTwo(SmoothAt(range, 2, i), SmoothAt(plus, 2, i), SmoothAt(minus, 2, i));
  }

  lemma AdxOfTwenties(dx: seq<Option<real>>)
    requires |dx| == 5 && forall i :: 2 <= i < 5 ==> dx[i] == Some(20.0)
    ensures AdxAt(dx, 2, 4) == Some(20.0)
  {
    assert dx[2..4] == [Some(20.0), Some(20.0)];
    SumDefinedIsSum(dx[2..4], [20.0, 20.0]);
    SumOfPair(20.0, 20.0);
    hide Sum, SumDefined;
    assert AdxAt(dx, 2, 3) == Some(20.0);
    assert AdxAt(dx, 2, 4) == Blend(AdxAt(dx, 2, 3), dx[4], 2);
  }

  /** Five sane candles with period two: the ADX is 20, and 40 is reported, which turns the regime to trending. */
  lemma TwiceTheIndex()
    ensures Sane(HIGHS, LOWS, CLOSES) && NoZeroDenominators(HIGHS, LOWS, CLOSES, 2)
    ensures LastAdx(HIGHS, LOWS, CLOSES, 2) == Some(20.0)
    ensures Reported(RawAdx(HIGHS, LOWS, CLOSES, 2)) == 40.0
    ensures RegimeOf(20.0).Transitioning? && RegimeOf(40.0).Trending?
  {
    ExampleRanges();
    forall i | 2 <= i < 5 ensures DxAt(HIGHS, LOWS, CLOSES, 2, i) == Some(20.0) {
      ExampleDx(i);
    }
    hide DxAt, AdxAt, RawAdx;
    AdxOfTwenties(DxSeries(HIGHS, LOWS, CLOSES, 2));
    RawAdxAgainstAdx(HIGHS, LOWS, CLOSES, 2);
    assert 40.0 * 100.0 == 4000.0 && 4000.0.Floor == 4000;
  }
}

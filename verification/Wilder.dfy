/** Wilder's directional index on chronological highs, lows and closes. A NaN is None. */
module Wilder {
  import opened Common

  type Prices = seq<real>

  ghost predicate SameLength(h: Prices, l: Prices, c: Prices) {
    |h| == |l| == |c|
  }

  /** Every close lies within its candle. */
  ghost predicate Sane(h: Prices, l: Prices, c: Prices)
    requires SameLength(h, l, c)
  {
    forall i :: 0 <= i < |c| ==> l[i] <= c[i] <= h[i]
  }

  // ----- one candle against the one before it

  function TrueRange(high: real, low: real, previousClose: real): real {
    Max(high - low, Max(Abs(high - previousClose), Abs(low - previousClose)))
  }

  function PlusMove(up: real, down: real): real {
    if up > down && up > 0.0 then up else 0.0
  }

  function Ranges(h: Prices, l: Prices, c: Prices): (r: seq<real>)
    requires SameLength(h, l, c)
    ensures |r| == |c|
  {
    seq(|c|, i requires 0 <= i < |c| => if i == 0 then h[0] - l[0] else TrueRange(h[i], l[i], c[i - 1]))
  }

  function PlusMoves(h: Prices, l: Prices): (r: seq<real>)
    requires |h| == |l|
    ensures |r| == |h|
  {
    seq(|h|, i requires 0 <= i < |h| => if i == 0 then 0.0 else PlusMove(h[i] - h[i - 1], l[i - 1] - l[i]))
  }

  function MinusMoves(h: Prices, l: Prices): (r: seq<real>)
    requires |h| == |l|
    ensures |r| == |h|
  {
    seq(|h|, i requires 0 <= i < |h| => if i == 0 then 0.0 else PlusMove(l[i - 1] - l[i], h[i] - h[i - 1]))
  }

  // ----- smoothing

  function Decay(x: real, n: nat): real
    requires n >= 1
  {
    x - x / n as real
  }

  /** The smoothed value at index `i`, first defined at index `n`. */
  function SmoothAt(vals: seq<real>, n: nat, i: nat): real
    requires 1 <= n <= i < |vals|
  {
    if i == n then Sum(vals[1..n + 1]) else Decay(SmoothAt(vals, n, i - 1), n) + vals[i]
  }

  method Smooth(vals: seq<real>, n: nat) returns (res: seq<Option<real>>)
    requires 1 <= n < |vals|
    ensures |res| == |vals|
    ensures forall i :: 0 <= i < |vals| ==> res[i] == if i < n then None else Some(SmoothAt(vals, n, i))
  {
    res := seq(|vals|, _ => None);
    res := res[n := Some(Sum(vals[1..n + 1]))];
    for i := n + 1 to |vals|
      invariant |res| == |vals|
      invariant forall k :: 0 <= k < |vals| ==> res[k] == if n <= k < i then Some(SmoothAt(vals, n, k)) else None
    {
      var previous := res[i - 1].value;
      var next := Decay(previous, n) + vals[i];
      assert next == SmoothAt(vals, n, i);
      hide SmoothAt, Decay;
      res := res[i := Some(next)];
    }
  }

  // ----- the directional index

  /** 0 / 0 and x / 0 are both undefined here. */
  function Dx(range: real, plus: real, minus: real): Option<real> {
    if range == 0.0 then None
    else
      var plusDi, minusDi := 100.0 * plus / range, 100.0 * minus / range;
      if plusDi + minusDi == 0.0 then None else Some(100.0 * Abs(plusDi - minusDi) / (plusDi + minusDi))
  }

  function DxAt(h: Prices, l: Prices, c: Prices, n: nat, i: nat): Option<real>
    requires SameLength(h, l, c) && 1 <= n && i < |c|
  {
    if i < n then None
    else Dx(SmoothAt(Ranges(h, l, c), n, i), SmoothAt(PlusMoves(h, l), n, i), SmoothAt(MinusMoves(h, l), n, i))
  }

  function DxSeries(h: Prices, l: Prices, c: Prices, n: nat): (r: seq<Option<real>>)
    requires SameLength(h, l, c) && 1 <= n
    ensures |r| == |c|
  {
    seq(|c|, i requires 0 <= i < |c| => DxAt(h, l, c, n, i))
  }

  /** A sum with an undefined term is undefined. */
  function SumDefined(s: seq<Option<real>>): Option<real> {
    if s == [] then Some(0.0)
    else
      var front, last := SumDefined(s[..|s| - 1]), s[|s| - 1];
      if front.None? || last.None? then None else Some(front.value + last.value)
  }

  function Blend(previous: Option<real>, dx: Option<real>, n: nat): Option<real>
    requires n >= 1
  {
    if previous.None? || dx.None? then None
    else Some(WilderMean(previous.value, dx.value, n as real))
  }

  function AdxAt(dx: seq<Option<real>>, n: nat, i: nat): Option<real>
    requires 1 <= n && 2 * n - 1 <= i < |dx|
  {
    if i == 2 * n - 1 then
      var total := SumDefined(dx[n..2 * n]);
      if total.None? then None else Some(total.value / n as real)
    else Blend(AdxAt(dx, n, i - 1), dx[i], n)
  }

  /** Dividing undefined values gives undefined ones. */
  function DxOf(range: Option<real>, plus: Option<real>, minus: Option<real>): Option<real> {
    if range.None? || plus.None? || minus.None? then None else Dx(range.value, plus.value, minus.value)
  }

  method DirectionalIndex(h: Prices, l: Prices, c: Prices, period: nat) returns (dx: seq<Option<real>>)
    requires SameLength(h, l, c) && 1 <= period < |c|
    ensures dx == DxSeries(h, l, c, period)
  {
    var range := Smooth(Ranges(h, l, c), period);
    var plus := Smooth(PlusMoves(h, l), period);
    var minus := Smooth(MinusMoves(h, l), period);
    dx := seq(|c|, i requires 0 <= i < |c| && |range| == |plus| == |minus| == |c| => DxOf(range[i], plus[i], minus[i]));
  }

  method AverageDx(dx: seq<Option<real>>, period: nat) returns (res: seq<Option<real>>)
    requires 1 <= period && 2 * period <= |dx|
    ensures |res| == |dx|
    ensures forall i :: 0 <= i < 2 * period - 1 ==> res[i] == None
    ensures forall i :: 2 * period - 1 <= i < |dx| ==> res[i] == AdxAt(dx, period, i)
  {
    res := seq(|dx|, _ => None);
    var start := period * 2 - 1;
    var total := SumDefined(dx[period..start + 1]);
    res := res[start := if total.None? then None else Some(total.value / period as real)];
    for i := start + 1 to |dx|
      invariant |res| == |dx|
      invariant forall k :: 0 <= k < start ==> res[k] == None
      invariant forall k :: start <= k < i ==> res[k] == AdxAt(dx, period, k)
    {
      res := res[i := Blend(res[i - 1], dx[i], period)];
    }
  }

  method Adx(h: Prices, l: Prices, c: Prices, period: nat) returns (res: seq<Option<real>>)
    requires period >= 1
    ensures |res| == |c|
    ensures forall i :: 0 <= i < |c| ==>
      res[i] == if SameLength(h, l, c) && 2 * period - 1 <= i then AdxAt(DxSeries(h, l, c, period), period, i) else None
  {
    if |c| < period * 2 {
      return seq(|c|, _ => None);
    }
    if !(|h| == |l| == |c|) {
      return seq(|c|, _ => None);
    }
    var dx := DirectionalIndex(h, l, c, period);
    res := AverageDx(dx, period);
  }

  // ----- the bounds

  /** In one step the two directional moves together never exceed the true range. */
  lemma MovesWithinRange(h: Prices, l: Prices, c: Prices, i: nat)
    requires SameLength(h, l, c) && Sane(h, l, c) && i < |c|
    ensures 0.0 <= PlusMoves(h, l)[i] && 0.0 <= MinusMoves(h, l)[i]
    ensures PlusMoves(h, l)[i] + MinusMoves(h, l)[i] <= Ranges(h, l, c)[i]
  {
    if i > 0 {
      assert l[i - 1] <= c[i - 1] <= h[i - 1] && l[i] <= c[i] <= h[i];
    } else {
      assert l[0] <= c[0] <= h[0];
    }
  }

  /** Only the larger of the two directional moves counts, and only if it goes beyond the candle before. */
  lemma LargerMoveCounts(h: Prices, l: Prices, i: nat)
    requires |h| == |l| && 0 < i < |h|
    ensures PlusMoves(h, l)[i] == 0.0 || MinusMoves(h, l)[i] == 0.0
    ensures PlusMoves(h, l)[i] != 0.0 <==> h[i] > h[i - 1] && h[i] - h[i - 1] > l[i - 1] - l[i]
    ensures PlusMoves(h, l)[i] != 0.0 ==> PlusMoves(h, l)[i] == h[i] - h[i - 1]
    ensures MinusMoves(h, l)[i] != 0.0 <==> l[i] < l[i - 1] && l[i - 1] - l[i] > h[i] - h[i - 1]
    ensures MinusMoves(h, l)[i] != 0.0 ==> MinusMoves(h, l)[i] == l[i - 1] - l[i]
    ensures PlusMoves(h, l)[0] == 0.0 && MinusMoves(h, l)[0] == 0.0
  {
  }

  /** The true range is the width of the smallest interval that holds high, low and the previous close. */
  lemma RangeIsSpan(h: Prices, l: Prices, c: Prices, i: nat)
    requires SameLength(h, l, c) && i < |c| && l[i] <= h[i]
    ensures Ranges(h, l, c)[i] ==
            if i == 0 then h[0] - l[0] else Max(h[i], c[i - 1]) - Min(l[i], c[i - 1])
  {
  }

  /** The range cancels: DX is the difference of the two moves relative to their sum, in percent. */
  lemma DxIgnoresTheRange(range: real, plus: real, minus: real)
    requires range > 0.0 && plus >= 0.0 && minus >= 0.0
    ensures Dx(range, plus, minus).Some? <==> plus + minus > 0.0
    ensures plus + minus > 0.0 ==> Dx(range, plus, minus).value * (plus + minus) == 100.0 * Abs(plus - minus)
  {
    var p, m := 100.0 * plus / range, 100.0 * minus / range;
    var unit := 100.0 / range;
    ProductPositive(unit, range);
    assert p == unit * plus && m == unit * minus by {
      MovedFactor(plus, range);
      MovedFactor(minus, range);
    }
    assert unit > 0.0 by {
      assert unit * range == 100.0;
    }
    ScaledShare(unit, plus, minus);
  }

  lemma MovedFactor(x: real, y: real)
    requires y != 0.0
    ensures 100.0 * x / y == 100.0 / y * x
  {
    var q := 100.0 / y;
    assert q * y == 100.0;
    assert q * x * y == 100.0 * x;
  }

  lemma ScaledShare(unit: real, x: real, y: real)
    requires unit > 0.0 && x >= 0.0 && y >= 0.0
    ensures unit * x + unit * y == 0.0 <==> x + y == 0.0
    ensures x + y > 0.0 ==>
      unit * x + unit * y != 0.0 &&
      100.0 * Abs(unit * x - unit * y) / (unit * x + unit * y) * (x + y) == 100.0 * Abs(x - y)
  {
    var total, gap := x + y, Abs(x - y);
    assert unit * x + unit * y == unit * total && Abs(unit * x - unit * y) == unit * gap by {
      ScaledGap(unit, x, y);
    }
    if total > 0.0 {
      ProductPositive(unit, total);
      ScaledQuotient(unit, gap, total);
    }
  }

  lemma ScaledGap(unit: real, x: real, y: real)
    requires unit > 0.0
    ensures unit * x + unit * y == unit * (x + y) && Abs(unit * x - unit * y) == unit * Abs(x - y)
  {
    assert unit * x - unit * y == unit * (x - y);
    if x >= y {
      ProductNonnegative(unit, x - y);
    } else {
      ProductPositive(unit, y - x);
    }
  }

  lemma ScaledQuotient(unit: real, gap: real, total: real)
    requires unit > 0.0 && total > 0.0 && unit * total > 0.0
    ensures 100.0 * (unit * gap) / (unit * total) * total == 100.0 * gap
  {
    var q := 100.0 * gap / total;
    assert q * total == 100.0 * gap;
    assert q * (unit * total) == 100.0 * (unit * gap);
  }

  // ----- prices upside down

  lemma MirroredRange(high: real, low: real, previousClose: real)
    ensures TrueRange(-low, -high, -previousClose) == TrueRange(high, low, previousClose)
  {
  }

  lemma MovesAt(h: Prices, l: Prices, i: nat)
    requires |h| == |l| && i < |h|
    ensures PlusMoves(h, l)[i] == if i == 0 then 0.0 else PlusMove(h[i] - h[i - 1], l[i - 1] - l[i])
    ensures MinusMoves(h, l)[i] == if i == 0 then 0.0 else PlusMove(l[i - 1] - l[i], h[i] - h[i - 1])
  {
  }

  lemma NegatedStep(s: Prices, i: nat)
    requires 0 < i < |s|
    ensures Negated(s)[i] - Negated(s)[i - 1] == s[i - 1] - s[i]
  {
  }

  lemma MirroredMove(h: Prices, l: Prices, i: nat)
    requires |h| == |l| && i < |h|
    ensures PlusMoves(Negated(l), Negated(h))[i] == MinusMoves(h, l)[i]
    ensures MinusMoves(Negated(l), Negated(h))[i] == PlusMoves(h, l)[i]
  {
    hide PlusMove, PlusMoves, MinusMoves, Negated;
    MovesAt(h, l, i);
    MovesAt(Negated(l), Negated(h), i);
    if i > 0 {
      NegatedStep(h, i);
      NegatedStep(l, i);
    }
  }

  lemma MirroredMoves(h: Prices, l: Prices)
    requires |h| == |l|
    ensures PlusMoves(Negated(l), Negated(h)) == MinusMoves(h, l)
    ensures MinusMoves(Negated(l), Negated(h)) == PlusMoves(h, l)
  {
    hide PlusMoves, MinusMoves, Negated;
    forall i: nat | i < |h|
      ensures PlusMoves(Negated(l), Negated(h))[i] == MinusMoves(h, l)[i]
      ensures MinusMoves(Negated(l), Negated(h))[i] == PlusMoves(h, l)[i]
    {
      MirroredMove(h, l, i);
    }
  }

  lemma MirroredRanges(h: Prices, l: Prices, c: Prices)
    requires SameLength(h, l, c)
    ensures Ranges(Negated(l), Negated(h), Negated(c)) == Ranges(h, l, c)
  {
    hide TrueRange;
    forall i | 0 < i < |c| ensures Ranges(Negated(l), Negated(h), Negated(c))[i] == Ranges(h, l, c)[i] {
      MirroredRange(h[i], l[i], c[i - 1]);
    }
  }

  /** Turning the prices upside down exchanges the two directional moves and keeps the ranges. */
  lemma MirrorExchangesMoves(h: Prices, l: Prices, c: Prices)
    requires SameLength(h, l, c)
    ensures PlusMoves(Negated(l), Negated(h)) == MinusMoves(h, l)
    ensures MinusMoves(Negated(l), Negated(h)) == PlusMoves(h, l)
    ensures Ranges(Negated(l), Negated(h), Negated(c)) == Ranges(h, l, c)
  {
    MirroredMoves(h, l);
    MirroredRanges(h, l, c);
    hide *;
  }

  lemma DxIsSymmetric(range: real, plus: real, minus: real)
    ensures Dx(range, minus, plus) == Dx(range, plus, minus)
  {
    if range != 0.0 {
      var p, m := 100.0 * plus / range, 100.0 * minus / range;
      assert p + m == m + p && Abs(p - m) == Abs(m - p);
    }
  }

  lemma DxMirrors(h: Prices, l: Prices, c: Prices, n: nat, k: nat)
    requires SameLength(h, l, c) && 1 <= n && k < |c|
    ensures DxAt(Negated(l), Negated(h), Negated(c), n, k) == DxAt(h, l, c, n, k)
  {
    hide PlusMoves, MinusMoves, Ranges, SmoothAt, Dx, Negated;
    MirrorExchangesMoves(h, l, c);
    if k >= n {
      DxIsSymmetric(SmoothAt(Ranges(h, l, c), n, k), SmoothAt(PlusMoves(h, l), n, k),
                    SmoothAt(MinusMoves(h, l), n, k));
    }
  }

  /** So the index does not tell a rise from the fall that mirrors it. */
  lemma AdxMirrors(h: Prices, l: Prices, c: Prices, n: nat, i: nat)
    requires SameLength(h, l, c) && 1 <= n && 2 * n - 1 <= i < |c|
    ensures AdxAt(DxSeries(Negated(l), Negated(h), Negated(c), n), n, i) == AdxAt(DxSeries(h, l, c, n), n, i)
  {
    hide DxAt, AdxAt;
    forall k: nat | k < |c| ensures DxAt(Negated(l), Negated(h), Negated(c), n, k) == DxAt(h, l, c, n, k) {
      DxMirrors(h, l, c, n, k);
    }
    assert DxSeries(Negated(l), Negated(h), Negated(c), n) == DxSeries(h, l, c, n);
  }

  /** An outside bar whose lower move is the larger one: the whole index is downward movement. */
  lemma AnOutsideBar()
    ensures
      var h, l, c := [10.0, 12.0], [5.0, 2.0], [8.0, 8.0];
      && PlusMoves(h, l)[1] == 0.0 && MinusMoves(h, l)[1] == 3.0
      && AdxAt(DxSeries(h, l, c, 1), 1, 1) == Some(100.0)
  {
    var h, l, c := [10.0, 12.0], [5.0, 2.0], [8.0, 8.0];
    SumOfOne(Ranges(h, l, c));
    SumOfOne(PlusMoves(h, l));
    SumOfOne(MinusMoves(h, l));
    LargerMoveCounts(h, l, 1);
    RangeIsSpan(h, l, c, 1);
    DxIgnoresTheRange(10.0, 0.0, 3.0);
    hide PlusMoves, MinusMoves, Ranges, SmoothAt, Dx;
    AdxOfTwo(DxSeries(h, l, c, 1));
    assert DxSeries(h, l, c, 1)[1] == DxAt(h, l, c, 1, 1);
  }

  lemma AdxOfTwo(dx: seq<Option<real>>)
    requires |dx| == 2 && dx[1].Some?
    ensures AdxAt(dx, 1, 1) == dx[1]
  {
    assert dx[1..2 * 1] == [dx[1]] && [dx[1]][..0] == [];
    assert SumDefined([]) == Some(0.0);
    assert SumDefined([dx[1]]) == dx[1];
  }

  lemma SumOfOne(s: seq<real>)
    requires |s| == 2
    ensures SmoothAt(s, 1, 1) == s[1]
  {
    assert s[1..1 + 1] == [s[1]] && [s[1]][..0] == [];
    assert Sum([s[1]]) == s[1];
  }

  lemma DecayIsMonotone(x: real, y: real, n: nat)
    requires n >= 1 && x <= y
    ensures Decay(x, n) <= Decay(y, n)
  {
    var d := (y - x) / n as real;
    assert d * n as real == y - x;
    ProductMonotone(d, 1.0, n as real);
    assert Decay(y, n) - Decay(x, n) == (y - x) - d;
  }

  lemma DecayAdds(x: real, y: real, n: nat)
    requires n >= 1
    ensures Decay(x, n) + Decay(y, n) == Decay(x + y, n)
  {
    assert x / n as real + y / n as real == (x + y) / n as real;
  }

  lemma {:induction false} SumsOrdered(a: seq<real>, b: seq<real>, t: seq<real>)
    requires |a| == |b| == |t|
    requires forall i :: 0 <= i < |t| ==> 0.0 <= a[i] && 0.0 <= b[i] && a[i] + b[i] <= t[i]
    ensures 0.0 <= Sum(a) && 0.0 <= Sum(b) && Sum(a) + Sum(b) <= Sum(t)
    decreases t
  {
    if t != [] {
      var k := |t| - 1;
      SumsOrdered(a[..k], b[..k], t[..k]);
    }
  }

  /** Wilder smoothing keeps nonnegative series nonnegative, and keeps a sum below its bound. */
  lemma {:induction false} SmoothingKeepsOrder(a: seq<real>, b: seq<real>, t: seq<real>, n: nat, i: nat)
    requires |a| == |b| == |t| && 1 <= n <= i < |t|
    requires forall k :: 0 <= k < |t| ==> 0.0 <= a[k] && 0.0 <= b[k] && a[k] + b[k] <= t[k]
    ensures 0.0 <= SmoothAt(a, n, i) && 0.0 <= SmoothAt(b, n, i)
    ensures SmoothAt(a, n, i) + SmoothAt(b, n, i) <= SmoothAt(t, n, i)
    decreases i
  {
    if i == n {
      SumsOrdered(a[1..n + 1], b[1..n + 1], t[1..n + 1]);
    } else {
      SmoothingKeepsOrder(a, b, t, n, i - 1);
      var x, y, z := SmoothAt(a, n, i - 1), SmoothAt(b, n, i - 1), SmoothAt(t, n, i - 1);
      DecayIsMonotone(0.0, x, n);
      DecayIsMonotone(0.0, y, n);
      DecayAdds(x, y, n);
      DecayIsMonotone(x + y, z, n);
    }
  }

  lemma SmoothedMovesWithinRange(h: Prices, l: Prices, c: Prices, n: nat, i: nat)
    requires SameLength(h, l, c) && Sane(h, l, c) && 1 <= n <= i < |c|
    ensures 0.0 <= SmoothAt(PlusMoves(h, l), n, i) && 0.0 <= SmoothAt(MinusMoves(h, l), n, i)
    ensures SmoothAt(PlusMoves(h, l), n, i) + SmoothAt(MinusMoves(h, l), n, i) <= SmoothAt(Ranges(h, l, c), n, i)
  {
    forall k | 0 <= k < |c|
      ensures 0.0 <= PlusMoves(h, l)[k] && 0.0 <= MinusMoves(h, l)[k]
      ensures PlusMoves(h, l)[k] + MinusMoves(h, l)[k] <= Ranges(h, l, c)[k]
    {
      MovesWithinRange(h, l, c, k);
    }
    SmoothingKeepsOrder(PlusMoves(h, l), MinusMoves(h, l), Ranges(h, l, c), n, i);
  }

  lemma DxInRange(range: real, plus: real, minus: real)
    requires 0.0 <= plus && 0.0 <= minus && plus + minus <= range && range > 0.0
    ensures
      var plusDi, minusDi := 100.0 * plus / range, 100.0 * minus / range;
      && 0.0 <= plusDi && 0.0 <= minusDi && plusDi + minusDi <= 100.0
      && (Dx(range, plus, minus).Some? ==> 0.0 <= Dx(range, plus, minus).value <= 100.0)
  {
    var x, y := 100.0 * plus, 100.0 * minus;
    QuotientBetween(x, range, 0.0, 100.0);
    QuotientBetween(y, range, 0.0, 100.0);
    QuotientBetween(x + y, range, 0.0, 100.0);
    QuotientsAdd(x, y, range);
    var p, m := x / range, y / range;
    if p + m != 0.0 {
      QuotientBetween(100.0 * Abs(p - m), p + m, 0.0, 100.0);
    }
  }

  /** On sane candles the two directional indicators share at most one hundred percent, and DX is a percentage. */
  lemma DirectionalIndicatorsShareHundred(h: Prices, l: Prices, c: Prices, n: nat, i: nat)
    requires SameLength(h, l, c) && Sane(h, l, c) && 1 <= n <= i < |c|
    ensures
      var t, p, m := SmoothAt(Ranges(h, l, c), n, i), SmoothAt(PlusMoves(h, l), n, i), SmoothAt(MinusMoves(h, l), n, i);
      t != 0.0 ==> 0.0 <= 100.0 * p / t && 0.0 <= 100.0 * m / t && 100.0 * p / t + 100.0 * m / t <= 100.0
    ensures DxAt(h, l, c, n, i).Some? ==> 0.0 <= DxAt(h, l, c, n, i).value <= 100.0
  {
    hide SmoothAt, Sane;
    var t, p, m := SmoothAt(Ranges(h, l, c), n, i), SmoothAt(PlusMoves(h, l), n, i), SmoothAt(MinusMoves(h, l), n, i);
    SmoothedMovesWithinRange(h, l, c, n, i);
    if t != 0.0 {
      DxInRange(t, p, m);
    }
  }

  ghost predicate Percentages(s: seq<Option<real>>) {
    forall i :: 0 <= i < |s| && s[i].Some? ==> 0.0 <= s[i].value <= 100.0
  }

  lemma {:induction false} SumOfPercentages(s: seq<Option<real>>)
    requires Percentages(s) && SumDefined(s).Some?
    ensures 0.0 <= SumDefined(s).value <= 100.0 * |s| as real
    decreases s
  {
    if s != [] {
      SumOfPercentages(s[..|s| - 1]);
    }
  }

  lemma MixOfPercentages(previous: real, dx: real, n: real)
    requires n >= 1.0 && 0.0 <= previous <= 100.0 && 0.0 <= dx <= 100.0
    ensures 0.0 <= WilderMean(previous, dx, n) <= 100.0
  {
    var carried := previous * (n - 1.0);
    ProductNonnegative(previous, n - 1.0);
    ProductMonotone(n - 1.0, previous, 100.0);
    assert carried <= 100.0 * (n - 1.0) == 100.0 * n - 100.0;
    QuotientBetween(carried + dx, n, 0.0, 100.0);
  }

  lemma {:induction false} AdxOfPercentages(dx: seq<Option<real>>, n: nat, i: nat)
    requires Percentages(dx) && 1 <= n && 2 * n - 1 <= i < |dx|
    ensures AdxAt(dx, n, i).Some? ==> 0.0 <= AdxAt(dx, n, i).value <= 100.0
    decreases i
  {
    if AdxAt(dx, n, i).Some? {
      if i == 2 * n - 1 {
        SumOfPercentages(dx[n..2 * n]);
        QuotientBetween(SumDefined(dx[n..2 * n]).value, n as real, 0.0, 100.0);
      } else {
        AdxOfPercentages(dx, n, i - 1);
        MixOfPercentages(AdxAt(dx, n, i - 1).value, dx[i].value, n as real);
      }
    }
  }

  /** Every defined ADX value of sane candles lies in [0, 100]. */
  lemma AdxInRange(h: Prices, l: Prices, c: Prices, n: nat, i: nat)
    requires SameLength(h, l, c) && Sane(h, l, c) && 1 <= n && 2 * n - 1 <= i < |c|
    ensures
      var a := AdxAt(DxSeries(h, l, c, n), n, i);
      a.Some? ==> 0.0 <= a.value <= 100.0
  {
    var dx := DxSeries(h, l, c, n);
    forall k | 0 <= k < |dx| && dx[k].Some? ensures 0.0 <= dx[k].value <= 100.0 {
      DirectionalIndicatorsShareHundred(h, l, c, n, k);
    }
    AdxOfPercentages(dx, n, i);
  }
}

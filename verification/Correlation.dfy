/** Pearson correlation of the closing prices of two assets, and the matrix over many. */
module Correlation {
  import opened Common

  /** The non-negative square root, which the model takes from outside. */
  ghost predicate IsSquareRoot(sqrt: real -> real) {
    forall x :: x >= 0.0 ==> sqrt(x) >= 0.0 && sqrt(x) * sqrt(x) == x
  }

  function Centred(s: seq<real>): (c: seq<real>)
    requires s != []
    ensures |c| == |s| && forall i :: 0 <= i < |s| ==> c[i] == s[i] - Mean(s)
  {
    seq(|s|, i requires 0 <= i < |s| => s[i] - Mean(s))
  }

  function Dot(u: seq<real>, v: seq<real>): real
    requires |u| == |v|
  {
    if u == [] then 0.0 else Dot(u[..|u| - 1], v[..|v| - 1]) + u[|u| - 1] * v[|v| - 1]
  }

  /** `_pearson`: zero for fewer than five points or a constant series. */
  function Pearson(xs: seq<real>, ys: seq<real>, sqrt: real -> real): real
    requires |xs| == |ys|
  {
    if |xs| < 5 then 0.0
    else
      var u, v := Centred(xs), Centred(ys);
      var rootX, rootY := sqrt(Dot(u, u)), sqrt(Dot(v, v));
      if rootX == 0.0 || rootY == 0.0 then 0.0 else Quotient(Dot(u, v), rootX, rootY)
  }

  function Quotient(num: real, rootX: real, rootY: real): real
    requires rootX != 0.0 && rootY != 0.0
  {
    ProductIsZero(rootX, rootY);
    num / (rootX * rootY)
  }

  // ----- Cauchy and Schwarz

  /** The squares of `u - t * v`, summed. */
  function Residual(u: seq<real>, v: seq<real>, t: real): real
    requires |u| == |v|
  {
    if u == [] then 0.0
    else Residual(u[..|u| - 1], v[..|v| - 1], t) + Square(u[|u| - 1] - t * v[|v| - 1])
  }

  function Square(x: real): (r: real)
    ensures r >= 0.0 && (r == 0.0 <==> x == 0.0)
  {
    SquareIsZero(x);
    x * x
  }

  lemma ProductIsZero(x: real, y: real)
    ensures x * y == 0.0 <==> x == 0.0 || y == 0.0
  {
  }

  lemma SquareIsZero(x: real)
    ensures x * x == 0.0 <==> x == 0.0
  {
    ProductIsZero(x, x);
  }

  function Quadratic(uu: real, uv: real, vv: real, t: real): real {
    uu - 2.0 * t * uv + t * t * vv
  }

  lemma QuadraticGrows(uu: real, uv: real, vv: real, t: real, a: real, b: real)
    ensures Quadratic(uu + a * a, uv + a * b, vv + b * b, t) == Quadratic(uu, uv, vv, t) + Square(a - t * b)
  {
    assert (a - t * b) * (a - t * b) == a * a - 2.0 * t * (a * b) + t * t * (b * b);
    assert 2.0 * t * (uv + a * b) == 2.0 * t * uv + 2.0 * t * (a * b);
    assert t * t * (vv + b * b) == t * t * vv + t * t * (b * b);
  }

  lemma {:induction false} ResidualExpands(u: seq<real>, v: seq<real>, t: real)
    requires |u| == |v|
    ensures Residual(u, v, t) == Quadratic(Dot(u, u), Dot(u, v), Dot(v, v), t)
    decreases u
  {
    if u != [] {
      hide Quadratic, Square;
      var k := |u| - 1;
      ResidualExpands(u[..k], v[..k], t);
      QuadraticGrows(Dot(u[..k], u[..k]), Dot(u[..k], v[..k]), Dot(v[..k], v[..k]), t, u[k], v[k]);
    } else {
      assert Quadratic(0.0, 0.0, 0.0, t) == 0.0;
    }
  }

  predicate Multiple(u: seq<real>, v: seq<real>, t: real) {
    |u| == |v| && forall i :: 0 <= i < |u| ==> u[i] == t * v[i]
  }

  lemma MultipleSplits(u: seq<real>, v: seq<real>, t: real)
    requires |u| == |v| && u != []
    ensures var k := |u| - 1;
      Multiple(u, v, t) <==> Multiple(u[..k], v[..k], t) && u[k] - t * v[k] == 0.0
  {
    var k := |u| - 1;
    if Multiple(u[..k], v[..k], t) {
      assert forall i :: 0 <= i < k ==> u[..k][i] == t * v[..k][i];
    }
  }

  lemma {:induction false} ResidualNonnegative(u: seq<real>, v: seq<real>, t: real)
    requires |u| == |v|
    ensures Residual(u, v, t) >= 0.0
    ensures Residual(u, v, t) == 0.0 <==> Multiple(u, v, t)
    decreases u
  {
    if u != [] {
      hide Multiple, Square;
      var k := |u| - 1;
      ResidualNonnegative(u[..k], v[..k], t);
      MultipleSplits(u, v, t);
    }
  }

  lemma {:induction false} SquaresNonnegative(u: seq<real>)
    ensures Dot(u, u) >= 0.0
    decreases u
  {
    if u != [] {
      SquaresNonnegative(u[..|u| - 1]);
      assert Square(u[|u| - 1]) >= 0.0;
    }
  }

  /** At its minimum the quadratic is what Cauchy and Schwarz compare. */
  lemma QuadraticMinimum(uu: real, uv: real, vv: real)
    requires vv > 0.0
    ensures Quadratic(uu, uv, vv, uv / vv) * vv == uu * vv - uv * uv
  {
    var t := uv / vv;
    assert t * vv == uv;
    assert t * t * vv * vv == uv * uv;
    assert 2.0 * t * uv * vv == 2.0 * uv * uv;
  }

  lemma QuadraticWithoutSquare(uu: real, uv: real, t: real)
    requires t * (2.0 * uv) == uu + 1.0
    ensures Quadratic(uu, uv, 0.0, t) == -1.0
  {
    assert 2.0 * t * uv == t * (2.0 * uv);
    assert t * t * 0.0 == 0.0;
  }

  lemma CauchySchwarz(u: seq<real>, v: seq<real>)
    requires |u| == |v|
    ensures Dot(u, v) * Dot(u, v) <= Dot(u, u) * Dot(v, v)
  {
    hide Quadratic, Dot, Residual, Multiple;
    var uu, uv, vv := Dot(u, u), Dot(u, v), Dot(v, v);
    SquaresNonnegative(v);
    if vv > 0.0 {
      ResidualExpands(u, v, uv / vv);
      ResidualNonnegative(u, v, uv / vv);
      QuadraticMinimum(uu, uv, vv);
      ProductNonnegative(Quadratic(uu, uv, vv, uv / vv), vv);
    } else if uv != 0.0 {
      var t := (uu + 1.0) / (2.0 * uv);
      ResidualExpands(u, v, t);
      ResidualNonnegative(u, v, t);
      assert t * (2.0 * uv) == uu + 1.0;
      QuadraticWithoutSquare(uu, uv, t);
    }
  }

  // ----- the coefficient

  lemma SquareBound(n: real, p: real)
    requires p > 0.0 && n * n <= p * p
    ensures -p <= n <= p
  {
    assert (n - p) * (n + p) == n * n - p * p;
    assert (-n - p) * (p - n) == n * n - p * p;
    if n > p {
      ProductPositive(n - p, n + p);
    } else if -n > p {
      ProductPositive(-n - p, p - n);
    }
  }

  lemma SquareOfProduct(x: real, y: real)
    ensures (x * y) * (x * y) == (x * x) * (y * y)
  {
  }

  lemma SameSquare(x: real, y: real)
    requires x >= 0.0 && y >= 0.0 && x * x == y * y
    ensures x == y
  {
    SquareIsZero(x);
    SquareIsZero(y);
    if x > 0.0 {
      SquareBound(y, x);
      SquareBound(x, y);
    }
  }

  /** A coefficient is reported: enough points, and neither series constant. */
  predicate Varied(xs: seq<real>, ys: seq<real>) {
    |xs| == |ys| >= 5 && Dot(Centred(xs), Centred(xs)) > 0.0 && Dot(Centred(ys), Centred(ys)) > 0.0
  }

  /** In that case the two roots are positive and their product squared is that of the sums of squares. */
  lemma Roots(xs: seq<real>, ys: seq<real>, sqrt: real -> real)
    requires IsSquareRoot(sqrt) && |xs| == |ys| >= 5
    ensures var rootX, rootY := sqrt(Dot(Centred(xs), Centred(xs))), sqrt(Dot(Centred(ys), Centred(ys)));
      && rootX >= 0.0 && rootY >= 0.0
      && (Varied(xs, ys) <==> rootX != 0.0 && rootY != 0.0)
      && (rootX * rootY) * (rootX * rootY) == Dot(Centred(xs), Centred(xs)) * Dot(Centred(ys), Centred(ys))
  {
    var uu, vv := Dot(Centred(xs), Centred(xs)), Dot(Centred(ys), Centred(ys));
    SquaresNonnegative(Centred(xs));
    SquaresNonnegative(Centred(ys));
    SquareIsZero(sqrt(uu));
    SquareIsZero(sqrt(vv));
    SquareOfProduct(sqrt(uu), sqrt(vv));
  }

  /** The product of the two roots. */
  function Scale(xs: seq<real>, ys: seq<real>, sqrt: real -> real): real
    requires xs != [] && ys != []
  {
    sqrt(Dot(Centred(xs), Centred(xs))) * sqrt(Dot(Centred(ys), Centred(ys)))
  }

  lemma PearsonIsQuotient(xs: seq<real>, ys: seq<real>, sqrt: real -> real)
    requires IsSquareRoot(sqrt) && Varied(xs, ys)
    ensures |xs| == |ys| >= 5 && Dot(Centred(xs), Centred(xs)) > 0.0 && Dot(Centred(ys), Centred(ys)) > 0.0
    ensures var u, v, p := Centred(xs), Centred(ys), Scale(xs, ys, sqrt);
      p > 0.0 && p * p == Dot(u, u) * Dot(v, v) && Pearson(xs, ys, sqrt) == Dot(u, v) / p
  {
    hide Dot, IsSquareRoot;
    Roots(xs, ys, sqrt);
    ProductPositive(sqrt(Dot(Centred(xs), Centred(xs))), sqrt(Dot(Centred(ys), Centred(ys))));
  }

  lemma PearsonOtherwise(xs: seq<real>, ys: seq<real>, sqrt: real -> real)
    requires IsSquareRoot(sqrt) && |xs| == |ys| && !Varied(xs, ys)
    ensures Pearson(xs, ys, sqrt) == 0.0
  {
    if |xs| >= 5 {
      hide Dot, IsSquareRoot;
      Roots(xs, ys, sqrt);
    }
  }

  /** Every coefficient lies between minus one and one. */
  lemma PearsonIsBounded(xs: seq<real>, ys: seq<real>, sqrt: real -> real)
    requires IsSquareRoot(sqrt) && |xs| == |ys|
    ensures -1.0 <= Pearson(xs, ys, sqrt) <= 1.0
  {
    hide *;
    if Varied(xs, ys) {
      PearsonIsQuotient(xs, ys, sqrt);
      var u, v, p := Centred(xs), Centred(ys), Scale(xs, ys, sqrt);
      CauchySchwarz(u, v);
      SquareBound(Dot(u, v), p);
      QuotientBetween(Dot(u, v), p, -1.0, 1.0);
    } else {
      PearsonOtherwise(xs, ys, sqrt);
    }
  }

  lemma {:induction false} DotCommutes(u: seq<real>, v: seq<real>)
    requires |u| == |v|
    ensures Dot(u, v) == Dot(v, u)
    decreases u
  {
    if u != [] {
      DotCommutes(u[..|u| - 1], v[..|v| - 1]);
    }
  }

  lemma PearsonIsSymmetric(xs: seq<real>, ys: seq<real>, sqrt: real -> real)
    requires |xs| == |ys|
    ensures Pearson(xs, ys, sqrt) == Pearson(ys, xs, sqrt)
  {
    if |xs| >= 5 {
      var u, v := Centred(xs), Centred(ys);
      DotCommutes(u, v);
      var rootX, rootY := sqrt(Dot(u, u)), sqrt(Dot(v, v));
      assert rootX * rootY == rootY * rootX;
    }
  }

  // ----- straight lines

  /** Every point lies on the line with slope `a` and intercept `b`. */
  predicate OnLine(xs: seq<real>, ys: seq<real>, a: real, b: real) {
    |xs| == |ys| && forall i :: 0 <= i < |xs| ==> xs[i] == a * ys[i] + b
  }

  lemma {:induction false} SumOfLine(xs: seq<real>, ys: seq<real>, a: real, b: real)
    requires OnLine(xs, ys, a, b)
    ensures Sum(xs) == a * Sum(ys) + |ys| as real * b
    decreases xs
  {
    if xs != [] {
      var k := |xs| - 1;
      SumOfLine(xs[..k], ys[..k], a, b);
      assert a * (Sum(ys[..k]) + ys[k]) == a * Sum(ys[..k]) + a * ys[k];
      assert (k as real + 1.0) * b == k as real * b + b;
    }
  }

  lemma MeanScales(x: real, y: real, n: real, a: real, b: real)
    requires n > 0.0 && x == a * y + n * b
    ensures x / n == a * (y / n) + b
  {
    var q := y / n;
    assert q * n == y;
    assert (a * q + b) * n == a * (q * n) + b * n;
  }

  /** Centring takes the intercept away. */
  lemma CentredOnLine(xs: seq<real>, ys: seq<real>, a: real, b: real)
    requires OnLine(xs, ys, a, b) && xs != []
    ensures OnLine(Centred(xs), Centred(ys), a, 0.0)
  {
    SumOfLine(xs, ys, a, b);
    MeanScales(Sum(xs), Sum(ys), |xs| as real, a, b);
    forall i | 0 <= i < |xs| ensures Centred(xs)[i] == a * Centred(ys)[i] + 0.0 {
      assert a * (ys[i] - Mean(ys)) == a * ys[i] - a * Mean(ys);
    }
  }

  lemma {:induction false} DotOfMultiple(u: seq<real>, v: seq<real>, w: seq<real>, a: real)
    requires |u| == |v| == |w| && OnLine(u, v, a, 0.0)
    ensures Dot(u, w) == a * Dot(v, w)
    decreases u
  {
    if u != [] {
      var k := |u| - 1;
      DotOfMultiple(u[..k], v[..k], w[..k], a);
      assert u[k] * w[k] == a * (v[k] * w[k]);
      assert a * (Dot(v[..k], w[..k]) + v[k] * w[k]) == a * Dot(v[..k], w[..k]) + a * (v[k] * w[k]);
    }
  }

  lemma DotsOfMultiple(u: seq<real>, v: seq<real>, a: real)
    requires OnLine(u, v, a, 0.0)
    ensures Dot(u, v) == a * Dot(v, v) && Dot(u, u) == a * Dot(u, v)
  {
    DotOfMultiple(u, v, v, a);
    DotOfMultiple(u, v, u, a);
    DotCommutes(u, v);
    hide *;
  }

  lemma SignedQuotient(a: real, uu: real, uv: real, vv: real, p: real)
    requires uu > 0.0 && vv > 0.0 && p > 0.0 && p * p == uu * vv && uv == a * vv && uu == a * uv
    ensures a != 0.0 && uv / p == if a > 0.0 then 1.0 else -1.0
  {
    assert uu * vv == uv * uv by {
      assert (a * uv) * vv == uv * (a * vv);
    }
    if a > 0.0 {
      ProductPositive(a, vv);
      SameSquare(uv, p);
    } else if a < 0.0 {
      ProductPositive(-a, vv);
      SameSquare(-uv, p);
    }
  }

  /** On a line the coefficient is the sign of the slope, which cannot be zero. */
  lemma LineIsPerfect(xs: seq<real>, ys: seq<real>, a: real, b: real, sqrt: real -> real)
    requires IsSquareRoot(sqrt) && Varied(xs, ys) && OnLine(xs, ys, a, b)
    ensures a != 0.0 && Pearson(xs, ys, sqrt) == if a > 0.0 then 1.0 else -1.0
  {
    hide *;
    PearsonIsQuotient(xs, ys, sqrt);
    var u, v := Centred(xs), Centred(ys);
    CentredOnLine(xs, ys, a, b);
    DotsOfMultiple(u, v, a);
    SignedQuotient(a, Dot(u, u), Dot(u, v), Dot(v, v), Scale(xs, ys, sqrt));
  }

  lemma UnitQuotient(n: real, p: real)
    requires p > 0.0 && (n / p == 1.0 || n / p == -1.0)
    ensures n * n == p * p
  {
    assert n / p * p == n;
  }

  lemma ZeroFactor(x: real, y: real)
    requires y > 0.0 && x * y == 0.0
    ensures x == 0.0
  {
    if x > 0.0 {
      ProductPositive(x, y);
    } else if x < 0.0 {
      ProductPositive(-x, y);
    }
  }

  lemma EqualityMeansMultiple(u: seq<real>, v: seq<real>)
    requires |u| == |v| && Dot(v, v) > 0.0 && Dot(u, v) * Dot(u, v) == Dot(u, u) * Dot(v, v)
    ensures Multiple(u, v, Dot(u, v) / Dot(v, v))
  {
    hide Dot, Quadratic, Residual, Multiple;
    var a := Dot(u, v) / Dot(v, v);
    ResidualExpands(u, v, a);
    QuadraticMinimum(Dot(u, u), Dot(u, v), Dot(v, v));
    ZeroFactor(Residual(u, v, a), Dot(v, v));
    ResidualNonnegative(u, v, a);
  }

  /** A coefficient of one or minus one puts every point on the line through the means. */
  lemma PerfectIsALine(xs: seq<real>, ys: seq<real>, sqrt: real -> real)
    requires IsSquareRoot(sqrt) && Varied(xs, ys) && Abs(Pearson(xs, ys, sqrt)) == 1.0
    ensures exists a, b :: OnLine(xs, ys, a, b)
  {
    hide Dot, Varied, IsSquareRoot, Pearson, Scale, OnLine, Multiple;
    PearsonIsQuotient(xs, ys, sqrt);
    var u, v, p := Centred(xs), Centred(ys), Scale(xs, ys, sqrt);
    UnitQuotient(Dot(u, v), p);
    EqualityMeansMultiple(u, v);
    LineThroughMeans(xs, ys, Dot(u, v) / Dot(v, v));
  }

  lemma LineThroughMeans(xs: seq<real>, ys: seq<real>, a: real)
    requires |xs| == |ys| && xs != [] && Multiple(Centred(xs), Centred(ys), a)
    ensures OnLine(xs, ys, a, Mean(xs) - a * Mean(ys))
  {
    forall i | 0 <= i < |xs| ensures xs[i] == a * ys[i] + (Mean(xs) - a * Mean(ys)) {
      assert Centred(xs)[i] == a * Centred(ys)[i];
      assert a * (ys[i] - Mean(ys)) == a * ys[i] - a * Mean(ys);
    }
  }

  /** The coefficient is one or minus one exactly for points on a straight line. */
  lemma PerfectExactlyOnLines(xs: seq<real>, ys: seq<real>, sqrt: real -> real)
    requires IsSquareRoot(sqrt) && Varied(xs, ys)
    ensures Abs(Pearson(xs, ys, sqrt)) == 1.0 <==> exists a, b :: OnLine(xs, ys, a, b)
  {
    if Abs(Pearson(xs, ys, sqrt)) == 1.0 {
      PerfectIsALine(xs, ys, sqrt);
    }
    forall a, b | OnLine(xs, ys, a, b) ensures Abs(Pearson(xs, ys, sqrt)) == 1.0 {
      LineIsPerfect(xs, ys, a, b, sqrt);
    }
  }

  // ----- the prices of two assets

  /** The closing prices that are there, in order. */
  function Present(closes: seq<Option<real>>): seq<real> {
    if closes == [] then []
    else Present(closes[..|closes| - 1]) + (if closes[|closes| - 1].Some? then [closes[|closes| - 1].value] else [])
  }

  function Coefficient(a: seq<Option<real>>, b: seq<Option<real>>, sqrt: real -> real): real {
    var xs, ys := Present(a), Present(b);
    var n := if |xs| < |ys| then |xs| else |ys|;
    Pearson(xs[..n], ys[..n], sqrt)
  }

  method CollectCloses(closes: seq<Option<real>>) returns (found: seq<real>)
    ensures found == Present(closes)
  {
    found := [];
    for i := 0 to |closes|
      invariant found == Present(closes[..i])
    {
      assert closes[..i + 1][..i] == closes[..i];
      if closes[i].Some? {
        found := found + [closes[i].value];
      }
    }
    assert closes[..|closes|] == closes;
  }

  /** The given sequences are what the candle store returns for the two assets. */
  method GetCorrelation(a: seq<Option<real>>, b: seq<Option<real>>, sqrt: real -> real) returns (r: real)
    ensures r == Coefficient(a, b, sqrt)
  {
    var closesA := CollectCloses(a);
    var closesB := CollectCloses(b);
    var minLen := if |closesA| < |closesB| then |closesA| else |closesB|;
    if minLen < 5 {
      return 0.0;
    }
    r := Pearson(closesA[..minLen], closesB[..minLen], sqrt);
  }

  /** Bounded and independent of the order, whatever is missing. */
  lemma CoefficientIsFair(a: seq<Option<real>>, b: seq<Option<real>>, sqrt: real -> real)
    requires IsSquareRoot(sqrt)
    ensures -1.0 <= Coefficient(a, b, sqrt) <= 1.0 && Coefficient(a, b, sqrt) == Coefficient(b, a, sqrt)
  {
    var xs, ys := Present(a), Present(b);
    var n := if |xs| < |ys| then |xs| else |ys|;
    PearsonIsBounded(xs[..n], ys[..n], sqrt);
    PearsonIsSymmetric(xs[..n], ys[..n], sqrt);
  }

  // ----- the matrix

  type Matrix = map<(int, int), real>

  /** Fewer than five pairs, or a series that does not vary, have no correlation. */
  lemma TooLittleIsZero(xs: seq<real>, ys: seq<real>, sqrt: real -> real)
    requires |xs| == |ys| && IsSquareRoot(sqrt)
    ensures |xs| < 5 ==> Pearson(xs, ys, sqrt) == 0.0
    ensures |xs| >= 5 && (Dot(Centred(xs), Centred(xs)) == 0.0 || Dot(Centred(ys), Centred(ys)) == 0.0) ==>
              Pearson(xs, ys, sqrt) == 0.0
  {
    if |xs| >= 5 {
      var u, v := Dot(Centred(xs), Centred(xs)), Dot(Centred(ys), Centred(ys));
      if u == 0.0 {
        assert sqrt(u) * sqrt(u) == 0.0;
        SquareIsZero(sqrt(u));
      } else if v == 0.0 {
        assert sqrt(v) * sqrt(v) == 0.0;
        SquareIsZero(sqrt(v));
      }
    }
  }

  /** A missing close counts for nothing wherever it stands, and present ones stay as they are. */
  lemma {:induction false} MissingCountForNothing(a: seq<Option<real>>, b: seq<Option<real>>)
    ensures Present(a + [None] + b) == Present(a + b)
    ensures Present(a + b) == Present(a) + Present(b)
    ensures None !in b ==> |Present(b)| == |b| && forall i :: 0 <= i < |b| ==> b[i] == Some(Present(b)[i])
    decreases b
  {
    if b == [] {
      assert (a + [None] + b)[..|a|] == a && a + b == a && Present(a) + [] == Present(a);
    } else {
      var front := b[..|b| - 1];
      assert (a + [None] + b)[..|a| + |b|] == a + [None] + front && (a + b)[..|a + b| - 1] == a + front;
      MissingCountForNothing(a, front);
      var tail := if b[|b| - 1].Some? then [b[|b| - 1].value] else [];
      assert Present(a) + Present(front) + tail == Present(a) + (Present(front) + tail);
    }
  }

  /** Only the earliest closes count, as many as the shorter series has. */
  lemma LaterClosesAreIgnored(a: seq<Option<real>>, b: seq<Option<real>>, later: seq<Option<real>>, sqrt: real -> real)
    requires |Present(a)| <= |Present(b)|
    ensures Coefficient(a, b + later, sqrt) == Coefficient(a, b, sqrt)
  {
    MissingCountForNothing(b, later);
    var n := |Present(a)|;
    assert (Present(b) + Present(later))[..n] == Present(b)[..n];
    hide Pearson, Present;
  }

  ghost predicate Listed(ids: seq<int>, a: int, b: int) {
    exists i, j :: 0 <= i < j < |ids| && ids[i] == a && ids[j] == b
  }

  ghost predicate Complete(m: Matrix, ids: seq<int>, feed: int -> seq<Option<real>>, sqrt: real -> real) {
    && (forall a, b :: (a, b) in m <==> Listed(ids, a, b))
    && (forall a, b :: (a, b) in m ==> m[(a, b)] == Coefficient(feed(a), feed(b), sqrt))
  }

  method GetCorrelationMatrix(ids: seq<int>, feed: int -> seq<Option<real>>, sqrt: real -> real)
    returns (matrix: Matrix)
    ensures Complete(matrix, ids, feed, sqrt)
  {
    matrix := map[];
    for i := 0 to |ids|
      invariant forall a, b :: (a, b) in matrix ==> matrix[(a, b)] == Coefficient(feed(a), feed(b), sqrt)
      invariant forall a, b :: (a, b) in matrix ==> Listed(ids, a, b)
      invariant forall k, j :: 0 <= k < i && k < j < |ids| ==> (ids[k], ids[j]) in matrix
    {
      for j := i + 1 to |ids|
        invariant forall a, b :: (a, b) in matrix ==> matrix[(a, b)] == Coefficient(feed(a), feed(b), sqrt)
        invariant forall a, b :: (a, b) in matrix ==> Listed(ids, a, b)
        invariant forall k, l :: 0 <= k < i && k < l < |ids| ==> (ids[k], ids[l]) in matrix
        invariant forall l :: i < l < j ==> (ids[i], ids[l]) in matrix
      {
        var r := GetCorrelation(feed(ids[i]), feed(ids[j]), sqrt);
        assert Listed(ids, ids[i], ids[j]);
        matrix := matrix[(ids[i], ids[j]) := r];
      }
    }
  }

  /** Each two different assets stand in the matrix in one order only, and none stands beside itself. */
  ghost predicate EachPairOnce(m: Matrix, ids: seq<int>) {
    && (forall a, b :: a in ids && b in ids && a != b ==> ((a, b) in m <==> (b, a) !in m))
    && (forall a :: (a, a) !in m)
    && forall a, b :: (a, b) in m ==> a in ids && b in ids
  }

  /** The matrix holds each unordered pair exactly once if and only if no asset was listed twice. */
  lemma MatrixHasEachPairOnce(m: Matrix, ids: seq<int>, feed: int -> seq<Option<real>>, sqrt: real -> real)
    requires Complete(m, ids, feed, sqrt)
    ensures EachPairOnce(m, ids) <==> Distinct(ids)
  {
    if Distinct(ids) {
      forall a, b | a in ids && b in ids && a != b ensures (a, b) in m <==> (b, a) !in m {
        ListedOneWay(ids, a, b);
      }
    } else {
      var i, j :| 0 <= i < j < |ids| && ids[i] == ids[j];
      assert Listed(ids, ids[i], ids[i]);
    }
  }

  lemma ListedOneWay(ids: seq<int>, a: int, b: int)
    requires Distinct(ids) && a in ids && b in ids && a != b
    ensures Listed(ids, a, b) <==> !Listed(ids, b, a)
  {
    var i :| 0 <= i < |ids| && ids[i] == a;
    var j :| 0 <= j < |ids| && ids[j] == b;
  }
}

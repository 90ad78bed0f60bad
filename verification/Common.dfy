/** Small vocabulary shared by the component models. */
module Common {

  /** A value that may be absent: Python's None, or NaN in an indicator array. */
  datatype Option<+T> = None | Some(value: T)

  function Min(a: real, b: real): (r: real)
    ensures r <= a && r <= b && (r == a || r == b)
  {
    if a <= b then a else b
  }

  function Max(a: real, b: real): (r: real)
    ensures r >= a && r >= b && (r == a || r == b)
  {
    if a >= b then a else b
  }

  function Abs(a: real): (r: real)
    ensures r >= 0.0 && (r == a || r == -a)
  {
    if a < 0.0 then -a else a
  }

  function Sum(s: seq<real>): real {
    if s == [] then 0.0 else Sum(s[..|s| - 1]) + s[|s| - 1]
  }

  function Mean(s: seq<real>): real
    requires s != []
  {
    Sum(s) / |s| as real
  }

  /** One step of a mean in Wilder's manner: the old value keeps the weight of `n - 1` terms. */
  function WilderMean(previous: real, x: real, n: real): real
    requires n >= 1.0
  {
    var carried := previous * (n - 1.0);
    (carried + x) / n
  }

  /** Halves go to the even neighbour. */
  function RoundHalfEven(x: real): int {
    var floor := x.Floor;
    var rest := x - floor as real;
    if rest < 0.5 || (rest == 0.5 && floor % 2 == 0) then floor else floor + 1
  }

  /** `round` to steps of one over `scale`. */
  function Rounded(x: real, scale: nat): real
    requires scale > 0
  {
    RoundHalfEven(x * scale as real) as real / scale as real
  }

  ghost predicate Distinct<T>(s: seq<T>) {
    forall i, j :: 0 <= i < j < |s| ==> s[i] != s[j]
  }

  function Highest(s: seq<real>): (r: real)
    requires s != []
    ensures r in s && forall i :: 0 <= i < |s| ==> s[i] <= r
  {
    if |s| == 1 then s[0] else
      var front := Highest(s[..|s| - 1]);
      assert forall i :: 0 <= i < |s| - 1 ==> s[i] == s[..|s| - 1][i];
      Max(front, s[|s| - 1])
  }

  function Lowest(s: seq<real>): (r: real)
    requires s != []
    ensures r in s && forall i :: 0 <= i < |s| ==> r <= s[i]
  {
    if |s| == 1 then s[0] else
      var front := Lowest(s[..|s| - 1]);
      assert forall i :: 0 <= i < |s| - 1 ==> s[i] == s[..|s| - 1][i];
      Min(front, s[|s| - 1])
  }

  function Negated(s: seq<real>): (r: seq<real>)
    ensures |r| == |s|
  {
    seq(|s|, i requires 0 <= i < |s| => -s[i])
  }

  function Power(base: real, n: nat): real {
    if n == 0 then 1.0 else base * Power(base, n - 1)
  }

  lemma {:induction false} PowerGrows(base: real, m: nat, n: nat)
    requires base >= 1.0 && m <= n
    ensures 1.0 <= Power(base, m) <= Power(base, n)
    decreases n
  {
    if n > 0 {
      if m < n {
        PowerGrows(base, m, n - 1);
      } else {
        PowerGrows(base, n - 1, n - 1);
      }
      ProductMonotone(Power(base, n - 1), 1.0, base);
    }
  }

  // Products of reals, proved away from the definitions that use them.

  lemma ProductNonnegative(x: real, y: real)
    requires 0.0 <= x && 0.0 <= y
    ensures 0.0 <= x * y
  {
  }

  lemma ProductPositive(x: real, y: real)
    requires 0.0 < x && 0.0 < y
    ensures 0.0 < x * y
  {
  }

  lemma ProductMonotone(x: real, y: real, z: real)
    requires 0.0 <= x && y <= z
    ensures x * y <= x * z && y * x <= z * x
  {
    ProductNonnegative(x, z - y);
    assert x * (z - y) == x * z - x * y;
  }

  lemma SplitSpan(rate: real, t0: real, t1: real, t2: real)
    ensures rate * (t2 - t0) == rate * (t1 - t0) + rate * (t2 - t1)
  {
  }

  lemma QuotientBetween(x: real, y: real, low: real, high: real)
    requires 0.0 < y && low * y <= x <= high * y
    ensures low <= x / y <= high
  {
    var q := x / y;
    assert q * y == x;
    if q < low {
      ProductPositive(low - q, y);
    } else if q > high {
      ProductPositive(q - high, y);
    }
  }

  lemma QuotientsAdd(x: real, y: real, t: real)
    requires t != 0.0
    ensures x / t + y / t == (x + y) / t
  {
  }

  // Integers and sets.

  lemma ModuloOf(x: int, q: int, r: int, d: int)
    requires 0 <= r < d && x == q * d + r
    ensures x % d == r
  {
    var p := x / d - q;
    assert p * d == r - x % d;
  }

  lemma EmptyOrNot<T>(keys: set<T>)
    ensures keys == {} || exists k :: k in keys
  {
    if forall k :: k !in keys {
      assert keys == {};
    }
  }

  lemma SomeKey<T>(keys: set<T>) returns (k: T)
    requires keys != {}
    ensures k in keys
  {
    EmptyOrNot(keys);
    k :| k in keys;
  }

  lemma {:induction false} SubsetIsSmaller<T>(a: set<T>, b: set<T>)
    requires a <= b
    ensures |a| <= |b| && (|a| == |b| ==> a == b)
    decreases |a|
  {
    if a != {} {
      var x := SomeKey(a);
      SubsetIsSmaller(a - {x}, b - {x});
      assert a == a - {x} + {x} && b == b - {x} + {x};
    }
  }

  ghost function Elements<T>(s: seq<T>): set<T> {
    set x | x in s
  }

  lemma {:induction false} DistinctElements<T>(s: seq<T>)
    requires Distinct(s)
    ensures |Elements(s)| == |s|
    decreases s
  {
    if s != [] {
      var front, last := s[..|s| - 1], s[|s| - 1];
      DistinctElements(front);
      assert Elements(s) == Elements(front) + {last};
    }
  }

  /** Of two lists without repetition, one within the other is no longer, and if as long has the same elements. */
  lemma DistinctWithin<T>(a: seq<T>, b: seq<T>)
    requires Distinct(a) && Distinct(b) && forall x :: x in a ==> x in b
    ensures |a| <= |b| && (|a| == |b| ==> forall x :: x in b ==> x in a)
  {
    DistinctElements(a);
    DistinctElements(b);
    SubsetIsSmaller(Elements(a), Elements(b));
    assert |a| == |b| ==> forall x :: x in b ==> x in Elements(b);
  }
}

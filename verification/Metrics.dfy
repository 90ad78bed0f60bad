/** The metrics of a finished backtest run, and the analyzer's one-pass versions of them. */
module Metrics {
  import opened Common
  import opened Backtest

  // ----- drawdown as an array expression

  /** The running maximum of the balances. */
  function Peaks(b: seq<real>): (p: seq<real>)
    ensures |p| == |b|
  {
    if b == [] then []
    else
      var front, last := Peaks(b[..|b| - 1]), b[|b| - 1];
      front + [if front == [] then last else Max(front[|front| - 1], last)]
  }

  lemma {:induction false} PeakIsMaximum(b: seq<real>, j: nat) returns (i: nat)
    requires j < |b|
    ensures i <= j && b[i] == Peaks(b)[j]
    ensures forall k :: 0 <= k <= j ==> b[k] <= Peaks(b)[j]
    decreases b
  {
    var front := b[..|b| - 1];
    if j < |front| {
      i := PeakIsMaximum(front, j);
      assert forall k :: 0 <= k <= j ==> b[k] == front[k];
    } else if |b| == 1 {
      i := 0;
    } else {
      i := PeakIsMaximum(front, j - 1);
      assert forall k :: 0 <= k < j ==> b[k] == front[k];
      if b[j] >= front[i] {
        i := j;
      }
    }
  }

  function Falls(b: seq<real>): (d: seq<real>)
    ensures |d| == |b|
  {
    var p := Peaks(b);
    seq(|b|, i requires 0 <= i < |b| => p[i] - b[i])
  }

  function MaxDrawdown(b: seq<real>): real {
    if b == [] then 0.0 else Highest(Falls(b))
  }

  /** The opening balance and the balance after each profit. */
  function Balances(opening: real, profits: seq<real>): (b: seq<real>)
    ensures |b| == |profits| + 1 && b[0] == opening
  {
    if profits == [] then [opening]
    else
      var front := Balances(opening, profits[..|profits| - 1]);
      front + [front[|front| - 1] + profits[|profits| - 1]]
  }

  ghost predicate NoFallAbove(b: seq<real>, d: real) {
    forall i, j :: 0 <= i <= j < |b| ==> b[i] - b[j] <= d
  }

  ghost predicate FallsBy(b: seq<real>, d: real) {
    exists i, j :: 0 <= i <= j < |b| && b[i] - b[j] == d
  }

  /** The running-peak formula gives the largest fall from any balance to a later one. */
  lemma DrawdownIsLargestFall(b: seq<real>)
    requires b != []
    ensures NoFallAbove(b, MaxDrawdown(b)) && FallsBy(b, MaxDrawdown(b))
  {
    var p, f := Peaks(b), Falls(b);
    forall i, j | 0 <= i <= j < |b| ensures b[i] - b[j] <= MaxDrawdown(b) {
      assert f[j] == p[j] - b[j] && f[j] <= Highest(f);
      var _ := PeakIsMaximum(b, j);
    }
    var j :| 0 <= j < |f| && f[j] == Highest(f);
    var i := PeakIsMaximum(b, j);
    assert b[i] - b[j] == MaxDrawdown(b);
  }

  // ----- the analyzer's one pass

  const INITIAL_CAPITAL := 1000.0

  datatype Scan = Scan(balance: real, peak: real, drawdown: real, fraction: real)

  function ScanStep(s: Scan, pnl: real): Scan {
    var balance := s.balance + pnl;
    var peak := if balance > s.peak then balance else s.peak;
    var fall := peak - balance;
    if fall > s.drawdown then Scan(balance, peak, fall, if peak > 0.0 then fall / peak else s.fraction)
    else s.(balance := balance, peak := peak)
  }

  function ScanOf(profits: seq<real>): Scan {
    if profits == [] then Scan(INITIAL_CAPITAL, 0.0, 0.0, 0.0)
    else ScanStep(ScanOf(profits[..|profits| - 1]), profits[|profits| - 1])
  }

  function OrZero(profit: Option<real>): real {
    if profit.None? then 0.0 else profit.value
  }

  function Known(profits: seq<Option<real>>): (k: seq<real>)
    ensures |k| == |profits|
  {
    seq(|profits|, i requires 0 <= i < |profits| => OrZero(profits[i]))
  }

  // ----- what that pass computes

  /** The balances as the analyzer sees them: zero stands in for the opening one. */
  function Watched(profits: seq<real>): (w: seq<real>)
    ensures |w| == |profits| + 1
  {
    [0.0] + Balances(INITIAL_CAPITAL, profits)[1..]
  }

  /** Where a list first reaches its maximum. */
  function FirstHighest(s: seq<real>): (i: nat)
    requires s != []
    ensures i < |s| && s[i] == Highest(s)
  {
    if |s| == 1 then 0
    else
      var i := FirstHighest(s[..|s| - 1]);
      assert Highest(s) == Max(Highest(s[..|s| - 1]), s[|s| - 1]);
      if s[|s| - 1] > s[i] then |s| - 1 else i
  }

  lemma {:induction false} LowerBefore(s: seq<real>, j: nat)
    requires s != [] && j < FirstHighest(s)
    ensures s[j] < Highest(s)
    decreases s
  {
    var front := s[..|s| - 1];
    if FirstHighest(s) == |s| - 1 {
      assert front[j] <= Highest(front);
    } else {
      LowerBefore(front, j);
    }
  }

  /** The largest fall as a share of its peak, where it is first reached; zero while no peak is positive. */
  function LargestFallShare(b: seq<real>): real
    requires b != []
  {
    var i := FirstHighest(Falls(b));
    Share(Falls(b)[i], Peaks(b)[i])
  }

  function Share(fall: real, peak: real): real {
    if peak > 0.0 then fall / peak else 0.0
  }

  function LastPeak(b: seq<real>): real
    requires b != []
  {
    Peaks(b)[|b| - 1]
  }

  lemma PeaksOfMore(b: seq<real>, x: real)
    requires b != []
    ensures Peaks(b + [x]) == Peaks(b) + [Max(LastPeak(b), x)]
    ensures Falls(b + [x]) == Falls(b) + [Max(LastPeak(b), x) - x]
  {
    assert (b + [x])[..|b|] == b;
  }

  lemma HighestOfMore(s: seq<real>, x: real)
    requires s != []
    ensures Highest(s + [x]) == Max(Highest(s), x)
    ensures FirstHighest(s + [x]) == if x > Highest(s) then |s| else FirstHighest(s)
  {
    assert (s + [x])[..|s|] == s;
  }

  lemma PeaksGrow(b: seq<real>, i: nat)
    requires i < |b|
    ensures b[0] <= Peaks(b)[i] <= LastPeak(b)
  {
    hide Peaks;
    var j := PeakIsMaximum(b, i);
    var k := PeakIsMaximum(b, |b| - 1);
  }

  ghost predicate SeesAll(s: Scan, w: seq<real>) {
    w != [] && w[0] == 0.0 && s.peak == LastPeak(w) && s.drawdown == MaxDrawdown(w) && s.fraction == LargestFallShare(w)
  }

  lemma DrawdownOfMore(w: seq<real>, x: real)
    requires w != []
    ensures LastPeak(w + [x]) == Max(LastPeak(w), x)
    ensures MaxDrawdown(w + [x]) == Max(MaxDrawdown(w), LastPeak(w + [x]) - x)
  {
    PeaksOfMore(w, x);
    HighestOfMore(Falls(w), Max(LastPeak(w), x) - x);
  }

  lemma ShareAt(b: seq<real>, i: nat)
    requires b != [] && i == FirstHighest(Falls(b))
    ensures LargestFallShare(b) == Share(Falls(b)[i], Peaks(b)[i])
  {
  }

  lemma DrawdownIsHighest(b: seq<real>)
    requires b != []
    ensures MaxDrawdown(b) == Highest(Falls(b))
  {
  }

  lemma PlaceOfMore(w: seq<real>, x: real)
    requires w != []
    ensures
      var fall := LastPeak(w + [x]) - x;
      FirstHighest(Falls(w + [x])) == if fall > MaxDrawdown(w) then |w| else FirstHighest(Falls(w))
  {
    hide *;
    PeaksOfMore(w, x);
    HighestOfMore(Falls(w), Max(LastPeak(w), x) - x);
    DrawdownOfMore(w, x);
    DrawdownIsHighest(w);
  }

  lemma OldEntries(w: seq<real>, x: real, i: nat)
    requires i < |w|
    ensures Peaks(w + [x])[i] == Peaks(w)[i] && Falls(w + [x])[i] == Falls(w)[i]
  {
    hide *;
    PeaksOfMore(w, x);
  }

  lemma NewEntries(w: seq<real>, x: real)
    requires w != []
    ensures Peaks(w + [x])[|w|] == LastPeak(w + [x]) && Falls(w + [x])[|w|] == LastPeak(w + [x]) - x
  {
    hide *;
    PeaksOfMore(w, x);
    DrawdownOfMore(w, x);
  }

  lemma ShareOfMore(w: seq<real>, x: real)
    requires w != []
    ensures
      var fall := LastPeak(w + [x]) - x;
      LargestFallShare(w + [x]) == if fall > MaxDrawdown(w) then Share(fall, LastPeak(w + [x])) else LargestFallShare(w)
  {
    hide *;
    var i := FirstHighest(Falls(w));
    PlaceOfMore(w, x);
    OldEntries(w, x, i);
    NewEntries(w, x);
    ShareAt(w, i);
    ShareAt(w + [x], FirstHighest(Falls(w + [x])));
  }

  /** As long as no peak is positive, the share is zero. */
  lemma NoPeakNoShare(w: seq<real>)
    requires w != [] && LastPeak(w) <= 0.0
    ensures LargestFallShare(w) == 0.0
  {
    PeaksGrow(w, FirstHighest(Falls(w)));
  }

  lemma SeesAllStep(s: Scan, w: seq<real>, pnl: real)
    requires SeesAll(s, w)
    ensures SeesAll(ScanStep(s, pnl), w + [s.balance + pnl])
  {
    hide Peaks, Falls, LargestFallShare, LastPeak, MaxDrawdown;
    ShareOfMore(w, s.balance + pnl);
    DrawdownOfMore(w, s.balance + pnl);
    if LastPeak(w) <= 0.0 {
      NoPeakNoShare(w);
    }
  }

  lemma StartSeesAll()
    ensures SeesAll(ScanOf([]), Watched([])) && ScanOf([]).balance == Balances(INITIAL_CAPITAL, [])[0]
  {
    assert Watched([]) == [0.0];
  }

  lemma WatchedUnfolds(profits: seq<real>)
    requires profits != []
    ensures
      var front := profits[..|profits| - 1];
      var before := Balances(INITIAL_CAPITAL, front)[|front|];
      && ScanOf(profits) == ScanStep(ScanOf(front), profits[|front|])
      && Watched(profits) == Watched(front) + [before + profits[|front|]]
      && Balances(INITIAL_CAPITAL, profits)[|profits|] == before + profits[|front|]
  {
  }

  lemma StepBalance(s: Scan, pnl: real)
    ensures ScanStep(s, pnl).balance == s.balance + pnl
  {
  }

  /** The one pass gives the largest fall, and its share, of the balances without the opening one. */
  lemma {:induction false} ScanIsDrawdown(profits: seq<real>)
    ensures ScanOf(profits).balance == Balances(INITIAL_CAPITAL, profits)[|profits|]
    ensures SeesAll(ScanOf(profits), Watched(profits))
    decreases profits
  {
    hide *;
    if profits == [] {
      StartSeesAll();
    } else {
      var front, last := profits[..|profits| - 1], profits[|profits| - 1];
      ScanIsDrawdown(front);
      WatchedUnfolds(profits);
      StepBalance(ScanOf(front), last);
      SeesAllStep(ScanOf(front), Watched(front), last);
    }
  }

  method AnalyzerMaxDrawdown(profits: seq<Option<real>>) returns (usd: real, fraction: real)
    ensures usd == MaxDrawdown(Watched(Known(profits))) && fraction == LargestFallShare(Watched(Known(profits)))
  {
    ghost var known := Known(profits);
    var peak, balance := 0.0, INITIAL_CAPITAL;
    usd, fraction := 0.0, 0.0;
    for i := 0 to |profits|
      invariant Scan(balance, peak, usd, fraction) == ScanOf(known[..i])
    {
      assert known[..i + 1][..i] == known[..i];
      balance := balance + OrZero(profits[i]);
      if balance > peak {
        peak := balance;
      }
      var fall := peak - balance;
      if fall > usd {
        usd := fall;
        if peak > 0.0 {
          fraction := fall / peak;
        }
      }
    }
    assert known[..|profits|] == known;
    ScanIsDrawdown(known);
  }

  // ----- what it misses

  /** The largest fall from the opening balance. */
  function OpeningFall(b: seq<real>): real
    requires b != []
  {
    b[0] - Lowest(b)
  }

  lemma FallsKeptOrOpening(b: seq<real>, w: seq<real>, d: real, e: real)
    requires b != [] && w == [0.0] + b[1..] && FallsBy(b, d) && NoFallAbove(w, e)
    ensures d <= e || d <= OpeningFall(b)
  {
    var i, j :| 0 <= i <= j < |b| && b[i] - b[j] == d;
    if i > 0 {
      assert w[i] - w[j] <= e;
    }
  }

  lemma NoLargerFalls(b: seq<real>, w: seq<real>, d: real, e: real)
    requires b != [] && b[0] > 0.0 && w == [0.0] + b[1..] && NoFallAbove(b, d) && FallsBy(w, e)
    ensures e <= d && OpeningFall(b) <= d
  {
    var k :| 0 <= k < |b| && b[k] == Lowest(b);
    assert b[0] - b[k] <= d;
    var x, y :| 0 <= x <= y < |w| && w[x] - w[y] == e;
    assert b[x] - b[y] <= d && b[y] - b[y] <= d;
  }

  /** The analyzer misses exactly the falls from the opening balance. */
  lemma AnalyzerMissesTheOpening(profits: seq<real>)
    ensures
      var b := Balances(INITIAL_CAPITAL, profits);
      MaxDrawdown(b) == Max(MaxDrawdown(Watched(profits)), OpeningFall(b))
  {
    hide MaxDrawdown, NoFallAbove, FallsBy, OpeningFall;
    var b, w := Balances(INITIAL_CAPITAL, profits), Watched(profits);
    DrawdownIsLargestFall(b);
    DrawdownIsLargestFall(w);
    FallsKeptOrOpening(b, w, MaxDrawdown(b), MaxDrawdown(w));
    NoLargerFalls(b, w, MaxDrawdown(b), MaxDrawdown(w));
  }

  /** Some fall after the opening is at least `d`. */
  ghost predicate LaterFallReaches(b: seq<real>, d: real) {
    exists i, j :: 1 <= i <= j < |b| && b[i] - b[j] >= d
  }

  lemma ReachedWithoutOpening(b: seq<real>, w: seq<real>, e: real)
    requires b != [] && b[0] > 0.0 && w == [0.0] + b[1..]
    requires NoFallAbove(w, e) && FallsBy(w, e)
    ensures OpeningFall(b) <= e <==> OpeningFall(b) == 0.0 || LaterFallReaches(b, OpeningFall(b))
  {
    var x, y :| 0 <= x <= y < |w| && w[x] - w[y] == e;
    if x > 0 {
      assert b[x] - b[y] == e;
    }
    if LaterFallReaches(b, OpeningFall(b)) {
      var i, j :| 1 <= i <= j < |b| && b[i] - b[j] >= OpeningFall(b);
      assert w[i] - w[j] <= e;
    }
    assert w[0] - w[0] <= e;
  }

  /**
   On the same profits and any opening balance, the analyzer's drawdown never
   exceeds the backtest's. It is the same if and only if the largest fall from
   the opening balance is nothing, or is reached again by a later fall.
   */
  lemma AnalyzerAgainstBacktest(opening: real, profits: seq<real>)
    ensures MaxDrawdown(Watched(profits)) <= MaxDrawdown(Balances(opening, profits))
    ensures
      var b := Balances(INITIAL_CAPITAL, profits);
      && (MaxDrawdown(Watched(profits)) == MaxDrawdown(Balances(opening, profits))
          <==> OpeningFall(b) <= MaxDrawdown(Watched(profits)))
      && (MaxDrawdown(Watched(profits)) == MaxDrawdown(Balances(opening, profits))
          <==> OpeningFall(b) == 0.0 || LaterFallReaches(b, OpeningFall(b)))
  {
    hide MaxDrawdown, NoFallAbove, FallsBy, OpeningFall, LaterFallReaches;
    var b, w := Balances(INITIAL_CAPITAL, profits), Watched(profits);
    AnalyzerMissesTheOpening(profits);
    DrawdownIgnoresOpening(opening, INITIAL_CAPITAL, profits);
    DrawdownIsLargestFall(w);
    ReachedWithoutOpening(b, w, MaxDrawdown(w));
  }

  /** In particular when the first trade is no loss. */
  lemma NoOpeningLoss(opening: real, profits: seq<real>)
    requires profits != [] && profits[0] >= 0.0
    ensures MaxDrawdown(Watched(profits)) == MaxDrawdown(Balances(opening, profits))
  {
    var b := Balances(INITIAL_CAPITAL, profits);
    FirstBalance(INITIAL_CAPITAL, profits);
    AnalyzerAgainstBacktest(opening, profits);
    var k :| 0 <= k < |b| && b[k] == Lowest(b);
    if k > 0 {
      assert b[1] - b[k] >= OpeningFall(b);
    }
  }

  /** A single losing trade goes unnoticed. */
  lemma OneLossGoesUnnoticed()
    ensures MaxDrawdown(Watched([-10.0])) == 0.0 && MaxDrawdown(Balances(INITIAL_CAPITAL, [-10.0])) == 10.0
  {
    var profits := [-10.0];
    assert profits[..0] == [];
    assert Balances(INITIAL_CAPITAL, profits) == [1000.0] + [990.0] && Watched(profits) == [0.0] + [990.0];
    hide Balances, Watched;
    DrawdownOfMore([1000.0], 990.0);
    DrawdownOfMore([0.0], 990.0);
  }

  /** The share is taken of a peak that counts the thousand the analyzer starts from. */
  lemma AQuarterOfThePeak()
    ensures Watched([1000.0, -500.0]) == [0.0, 2000.0, 1500.0]
    ensures LargestFallShare(Watched([1000.0, -500.0])) == 0.25
  {
    var profits := [1000.0, -500.0];
    assert profits[..1] == [1000.0] && [1000.0][..0] == [];
    assert Balances(INITIAL_CAPITAL, [1000.0]) == [1000.0] + [2000.0];
    assert Balances(INITIAL_CAPITAL, profits) == [1000.0, 2000.0] + [1500.0];
    var w := Watched(profits);
    assert w == [0.0, 2000.0, 1500.0] && w[..2] == [0.0, 2000.0] && w[..2][..1] == [0.0] && [0.0][..0] == [];
    assert Peaks([0.0]) == [0.0] && Peaks(w[..2]) == [0.0] + [2000.0] && Peaks(w) == [0.0, 2000.0] + [2000.0];
    assert Falls(w) == [0.0, 0.0, 500.0];
    FirstIsFound(Falls(w));
  }

  lemma FirstIsFound(falls: seq<real>)
    requires falls == [0.0, 0.0, 500.0]
    ensures FirstHighest(falls) == 2
  {
    assert falls[FirstHighest(falls)] == Highest(falls) >= falls[2];
  }

  /** A trade without a profit, as one still open, leaves the balance where it was. */
  lemma UnknownLeavesTheBalance(opening: real, profits: seq<Option<real>>)
    ensures
      var b := Balances(opening, Known(profits));
      Balances(opening, Known(profits + [None])) == b + [b[|b| - 1]]
  {
    assert Known(profits + [None])[..|profits|] == Known(profits);
  }

  lemma {:induction false} BalancesShift(x: real, y: real, profits: seq<real>, i: nat)
    requires i <= |profits|
    ensures Balances(x, profits)[i] - x == Balances(y, profits)[i] - y
    decreases profits
  {
    if profits != [] {
      BalancesShift(x, y, profits[..|profits| - 1], if i < |profits| then i else i - 1);
    }
  }

  lemma ShiftedFalls(a: seq<real>, b: seq<real>, shift: real, d: real, e: real)
    requires |a| == |b| && forall i :: 0 <= i < |a| ==> a[i] == b[i] + shift
    requires NoFallAbove(a, d) && FallsBy(a, d) && NoFallAbove(b, e) && FallsBy(b, e)
    ensures d == e
  {
    var i, j :| 0 <= i <= j < |a| && a[i] - a[j] == d;
    assert b[i] - b[j] == d;
    var k, l :| 0 <= k <= l < |b| && b[k] - b[l] == e;
    assert a[k] - a[l] == e;
  }

  /** The backtest's drawdown does not depend on the opening balance. */
  lemma DrawdownIgnoresOpening(x: real, y: real, profits: seq<real>)
    ensures MaxDrawdown(Balances(x, profits)) == MaxDrawdown(Balances(y, profits))
  {
    var a, b := Balances(x, profits), Balances(y, profits);
    forall i | 0 <= i < |a| ensures a[i] == b[i] + (x - y) {
      BalancesShift(x, y, profits, i);
    }
    DrawdownIsLargestFall(a);
    DrawdownIsLargestFall(b);
    ShiftedFalls(a, b, x - y, MaxDrawdown(a), MaxDrawdown(b));
  }

  lemma {:induction false} FirstBalance(opening: real, profits: seq<real>)
    requires profits != []
    ensures Balances(opening, profits)[1] == opening + profits[0]
    decreases profits
  {
    if |profits| > 1 {
      FirstBalance(opening, profits[..|profits| - 1]);
    }
  }

  // ----- the drawdown of a finished run

  /** The balances a run's drawdown is taken over: the opening one, and the one each trade recorded. */
  function RecordedBalances(opening: real, trades: seq<Trade>): (b: seq<real>)
    ensures |b| == |trades| + 1
  {
    [opening] + seq(|trades|, i requires 0 <= i < |trades| => trades[i].balanceAfter)
  }

  function RunDrawdown(e: Engine): real {
    if Full(e).trades == [] then 0.0 else MaxDrawdown(RecordedBalances(e.initialBalance, Full(e).trades))
  }

  lemma {:induction false} BalanceIsPrefixSum(opening: real, profits: seq<real>, k: nat)
    requires k <= |profits|
    ensures Balances(opening, profits)[k] == opening + Sum(profits[..k])
    decreases profits
  {
    if profits != [] {
      var front := profits[..|profits| - 1];
      if k < |profits| {
        assert front[..k] == profits[..k];
        BalanceIsPrefixSum(opening, front, k);
      } else {
        assert front[..k - 1] == front && profits[..k] == profits;
        BalanceIsPrefixSum(opening, front, k - 1);
      }
    }
  }

  lemma RecordedAreBalances(e: Engine)
    ensures RecordedBalances(e.initialBalance, Full(e).trades) == Balances(e.initialBalance, Profits(Full(e).trades))
  {
    var trades := Full(e).trades;
    forall k | 0 <= k <= |trades|
      ensures RecordedBalances(e.initialBalance, trades)[k] == Balances(e.initialBalance, Profits(trades))[k]
    {
      BalanceIsPrefixSum(e.initialBalance, Profits(trades), k);
      BalancesArePrefixSums(e, e.minCandles, e.initialBalance, k);
    }
  }

  /** All of it if the first trade won, or there was none. */
  lemma RunThatStartsWinning(e: Engine)
    requires Accepted(e) && (Full(e).trades == [] || Full(e).trades[0].won)
    ensures MaxDrawdown(Watched(Profits(Full(e).trades))) == RunDrawdown(e)
  {
    if Full(e).trades == [] {
      assert Watched(Profits(Full(e).trades)) == [0.0];
    } else {
      EngineTradesAreDecisive(e);
      RecordedAreBalances(e);
      NoOpeningLoss(e.initialBalance, Profits(Full(e).trades));
    }
  }

  /** The same for every run of the engine and the profits it leaves. */
  lemma AnalyzerAgainstRun(e: Engine)
    ensures
      var profits := Profits(Full(e).trades);
      var b := Balances(INITIAL_CAPITAL, profits);
      && MaxDrawdown(Watched(profits)) <= RunDrawdown(e)
      && (MaxDrawdown(Watched(profits)) == RunDrawdown(e)
          <==> OpeningFall(b) == 0.0 || LaterFallReaches(b, OpeningFall(b)))
  {
    var profits := Profits(Full(e).trades);
    if Full(e).trades == [] {
      assert profits == [] && Watched(profits) == [0.0] && Balances(INITIAL_CAPITAL, profits) == [INITIAL_CAPITAL];
    } else {
      hide MaxDrawdown, OpeningFall, LaterFallReaches;
      RecordedAreBalances(e);
      AnalyzerAgainstBacktest(e.initialBalance, profits);
    }
  }

  // ----- expectancy

  function Positive(p: seq<real>): seq<real> {
    if p == [] then [] else Positive(p[..|p| - 1]) + if p[|p| - 1] > 0.0 then [p[|p| - 1]] else []
  }

  function Negative(p: seq<real>): seq<real> {
    if p == [] then [] else Negative(p[..|p| - 1]) + if p[|p| - 1] < 0.0 then [p[|p| - 1]] else []
  }

  function MeanOrZero(sum: real, count: nat): real {
    if count == 0 then 0.0 else sum / count as real
  }

  function Weigh(rate: real, averageWin: real, averageLoss: real): real {
    rate * averageWin + (1.0 - rate) * averageLoss
  }

  function WinRate(trades: seq<Trade>): real {
    if trades == [] then 0.0 else CountWon(trades) as real / |trades| as real
  }

  function Expectancy(trades: seq<Trade>): real {
    if trades == [] then 0.0
    else
      var wins, losses := Positive(Profits(trades)), Negative(Profits(trades));
      Weigh(WinRate(trades), MeanOrZero(Sum(wins), |wins|), MeanOrZero(Sum(losses), |losses|))
  }

  /** A win earns and a loss costs something. */
  ghost predicate Decisive(trades: seq<Trade>) {
    forall t :: t in trades ==> if t.won then t.profit > 0.0 else t.profit < 0.0
  }

  lemma {:induction false} SplitBySign(trades: seq<Trade>)
    requires Decisive(trades)
    ensures
      var p := Profits(trades);
      && |Positive(p)| == CountWon(trades) <= |trades|
      && |Negative(p)| == |trades| - CountWon(trades)
      && Sum(Positive(p)) + Sum(Negative(p)) == Sum(p)
    decreases trades
  {
    if trades != [] {
      var front := trades[..|trades| - 1];
      assert trades[|trades| - 1] in trades;
      SplitBySign(front);
      var p := Profits(trades);
      assert p[..|p| - 1] == Profits(front);
      AppendToSum(Positive(p[..|p| - 1]), p[|p| - 1]);
      AppendToSum(Negative(p[..|p| - 1]), p[|p| - 1]);
    }
  }

  lemma AppendToSum(s: seq<real>, x: real)
    ensures Sum(s + [x]) == Sum(s) + x && Sum(s + []) == Sum(s)
  {
    assert (s + [x])[..|s|] == s && s + [] == s;
  }

  /** A share of n, times the mean over that share, is the share's sum over n. */
  lemma WeightedMean(count: nat, sum: real, n: nat)
    requires n > 0 && (count == 0 ==> sum == 0.0)
    ensures (count as real / n as real) * MeanOrZero(sum, count) == sum / n as real
  {
  }

  lemma WeighedSums(won: nat, lost: nat, gains: real, costs: real)
    requires won + lost > 0 && (won == 0 ==> gains == 0.0) && (lost == 0 ==> costs == 0.0)
    ensures Weigh(won as real / (won + lost) as real, MeanOrZero(gains, won), MeanOrZero(costs, lost))
         == (gains + costs) / (won + lost) as real
  {
    var n := won + lost;
    WeightedMean(won, gains, n);
    WeightedMean(lost, costs, n);
    QuotientsAdd(won as real, lost as real, n as real);
    QuotientsAdd(gains, costs, n as real);
  }

  /** On an engine's trades the expectancy is the average profit. */
  lemma ExpectancyIsAverageProfit(trades: seq<Trade>)
    requires Decisive(trades) && trades != []
    ensures Expectancy(trades) == Sum(Profits(trades)) / |trades| as real
  {
    SplitBySign(trades);
    var wins, losses := Positive(Profits(trades)), Negative(Profits(trades));
    hide Weigh, MeanOrZero;
    WeighedSums(|wins|, |losses|, Sum(wins), Sum(losses));
  }

  lemma EngineTradesAreDecisive(e: Engine)
    requires Accepted(e)
    ensures Decisive(Full(e).trades)
  {
    TradesAreHonest(e, e.minCandles, e.initialBalance);
    ProductPositive(e.amount, e.payout);
  }

  // ----- streaks

  /** The number of `v` that end the list. */
  function EndRun(s: seq<bool>, v: bool): (n: nat)
    ensures n <= |s|
  {
    if s == [] || s[|s| - 1] != v then 0 else EndRun(s[..|s| - 1], v) + 1
  }

  function LongestRun(s: seq<bool>, v: bool): nat {
    if s == [] then 0
    else
      var before, now := LongestRun(s[..|s| - 1], v), EndRun(s, v);
      if now > before then now else before
  }

  /** Every result from `i` up to `j` is `v`. */
  ghost predicate AllAre(s: seq<bool>, v: bool, i: int, j: int) {
    0 <= i <= j <= |s| && forall k :: i <= k < j ==> s[k] == v
  }

  lemma {:induction false} EndRunIsMaximal(s: seq<bool>, v: bool)
    ensures AllAre(s, v, |s| - EndRun(s, v), |s|)
    ensures forall i :: AllAre(s, v, i, |s|) ==> |s| - i <= EndRun(s, v)
    decreases s
  {
    if s != [] {
      var front := s[..|s| - 1];
      EndRunIsMaximal(front, v);
      forall i | AllAre(s, v, i, |s|) ensures |s| - i <= EndRun(s, v) {
        if i < |s| {
          assert s[|s| - 1] == v && AllAre(front, v, i, |front|);
        }
      }
    }
  }

  /** The one-pass maximum is the length of the longest block of equal results. */
  lemma {:induction false} LongestRunIsLongest(s: seq<bool>, v: bool) returns (start: int)
    ensures AllAre(s, v, start, start + LongestRun(s, v))
    ensures forall i, j :: AllAre(s, v, i, j) ==> j - i <= LongestRun(s, v)
    decreases s
  {
    start := 0;
    if s != [] {
      var front := s[..|s| - 1];
      start := LongestRunIsLongest(front, v);
      EndRunIsMaximal(s, v);
      if EndRun(s, v) > LongestRun(front, v) {
        start := |s| - EndRun(s, v);
      }
      forall i, j | AllAre(s, v, i, j) ensures j - i <= LongestRun(s, v) {
        if j < |s| {
          assert AllAre(front, v, i, j);
        }
      }
    }
  }

  /** `max_consecutive_wins` and, with `v` false, `max_consecutive_losses`. */
  method MaxConsecutive(results: seq<bool>, v: bool) returns (longest: nat)
    ensures longest == LongestRun(results, v)
  {
    longest := 0;
    var current := 0;
    for i := 0 to |results|
      invariant longest == LongestRun(results[..i], v) && current == EndRun(results[..i], v)
    {
      assert results[..i + 1][..i] == results[..i];
      if results[i] == v {
        current := current + 1;
        longest := if current > longest then current else longest;
      } else {
        current := 0;
      }
    }
    assert results[..|results|] == results;
  }

  datatype Verdict = Win | Loss | Draw

  /** The results with the draws taken out. */
  function Decided(results: seq<Verdict>): seq<bool> {
    if results == [] then []
    else
      var last := results[|results| - 1];
      Decided(results[..|results| - 1]) + if last.Draw? then [] else [last.Win?]
  }

  /** A draw counts for nothing wherever it stands, and without draws the results stay as they are. */
  lemma {:induction false} DrawsCountForNothing(a: seq<Verdict>, b: seq<Verdict>)
    ensures Decided(a + [Draw] + b) == Decided(a + b)
    ensures Draw !in b ==> |Decided(b)| == |b| && forall i :: 0 <= i < |b| ==> Decided(b)[i] == b[i].Win?
    decreases b
  {
    if b == [] {
      assert (a + [Draw] + b)[..|a|] == a && a + b == a && Decided(a) + [] == Decided(a);
    } else {
      var front := b[..|b| - 1];
      assert (a + [Draw] + b)[..|a| + |b|] == a + [Draw] + front && (a + b)[..|a + b| - 1] == a + front;
      DrawsCountForNothing(a, front);
    }
  }

  lemma AfterResult(before: seq<bool>, x: bool, v: bool)
    ensures EndRun(before + [x], v) == if x == v then EndRun(before, v) + 1 else 0
    ensures LongestRun(before + [x], v)
         == if EndRun(before + [x], v) > LongestRun(before, v) then EndRun(before + [x], v) else LongestRun(before, v)
    ensures EndRun(before, v) <= LongestRun(before, v)
  {
    assert (before + [x])[..|before|] == before;
  }

  /** In the analyzer a draw neither extends nor breaks a streak. */
  method AnalyzerStreaks(results: seq<Verdict>) returns (wins: nat, losses: nat)
    ensures wins == LongestRun(Decided(results), true) && losses == LongestRun(Decided(results), false)
  {
    wins, losses := 0, 0;
    var currentWins, currentLosses := 0, 0;
    for i := 0 to |results|
      invariant wins == LongestRun(Decided(results[..i]), true) && losses == LongestRun(Decided(results[..i]), false)
      invariant currentWins == EndRun(Decided(results[..i]), true)
      invariant currentLosses == EndRun(Decided(results[..i]), false)
    {
      ghost var before := Decided(results[..i]);
      AfterResult(before, results[i].Win?, true);
      AfterResult(before, results[i].Win?, false);
      assert results[..i + 1][..i] == results[..i];
      assert Decided(results[..i + 1]) == if results[i].Draw? then before else before + [results[i].Win?];
      if results[i].Win? {
        currentWins := currentWins + 1;
        currentLosses := 0;
      } else if results[i].Loss? {
        currentLosses := currentLosses + 1;
        currentWins := 0;
      }
      wins := if currentWins > wins then currentWins else wins;
      losses := if currentLosses > losses then currentLosses else losses;
    }
    assert results[..|results|] == results;
  }
}

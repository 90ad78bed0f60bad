/** The chronological replay of a deterministic strategy over a fixed set of candles. */
module Backtest {
  import opened Common

  datatype Candle = Candle(time: real, open: real, high: real, low: real, close: real, volume: real)

  datatype Direction = Call | Put | Hold

  datatype Signal = Signal(direction: Direction, confidence: real)

  datatype Trade = Trade(
    index: nat, entryTime: real, entryPrice: real, exitPrice: real, direction: Direction,
    confidence: real, won: bool, profit: real, balanceAfter: real)

  datatype Engine = Engine(
    strategy: seq<Candle> -> Signal, candles: seq<Candle>,
    initialBalance: real, amount: real, payout: real, minCandles: nat)

  /** What the constructor insists on. */
  predicate Accepted(e: Engine) {
    e.minCandles <= |e.candles| && e.initialBalance > 0.0 && e.amount > 0.0 && 0.0 < e.payout <= 1.0
  }

  /** None stands for the ValueError of the constructor. */
  method Create(strategy: seq<Candle> -> Signal, candles: seq<Candle>,
                initialBalance: real, amount: real, payout: real, minCandles: nat)
    returns (e: Option<Engine>)
    ensures
      var wanted := Engine(strategy, candles, initialBalance, amount, payout, minCandles);
      e == if Accepted(wanted) then Some(wanted) else None
  {
    if |candles| < minCandles {
      return None;
    }
    if initialBalance <= 0.0 {
      return None;
    }
    if amount <= 0.0 {
      return None;
    }
    if payout <= 0.0 || payout > 1.0 {
      return None;
    }
    e := Some(Engine(strategy, candles, initialBalance, amount, payout, minCandles));
  }

  // ----- the replay

  datatype Replay = Replay(trades: seq<Trade>, balance: real, analyzed: nat)

  /** The signal at `i` sees the candles before `i` only. */
  function SignalAt(e: Engine, i: nat): Signal
    requires e.minCandles <= i <= |e.candles|
  {
    e.strategy(e.candles[i - e.minCandles..i])
  }

  function Wins(direction: Direction, entry: real, exit: real): bool {
    if direction.Call? then exit > entry else exit < entry
  }

  function TradeAt(e: Engine, i: nat, balance: real): Trade
    requires e.minCandles <= i && i + 1 < |e.candles|
  {
    var s, entry, exit := SignalAt(e, i), e.candles[i].close, e.candles[i + 1].close;
    var won := Wins(s.direction, entry, exit);
    var profit := if won then e.amount * e.payout else -e.amount;
    Trade(i, e.candles[i].time, entry, exit, s.direction, s.confidence, won, profit, balance + profit)
  }

  function ReplayFrom(e: Engine, i: nat, balance: real): Replay
    requires e.minCandles <= i
    decreases |e.candles| - i
  {
    if i + 1 >= |e.candles| then Replay([], balance, 0)
    else if SignalAt(e, i).direction.Hold? then
      var rest := ReplayFrom(e, i + 1, balance);
      rest.(analyzed := rest.analyzed + 1)
    else
      var t := TradeAt(e, i, balance);
      if t.balanceAfter <= 0.0 then Replay([t], t.balanceAfter, 1)
      else
        var rest := ReplayFrom(e, i + 1, t.balanceAfter);
        Replay([t] + rest.trades, rest.balance, rest.analyzed + 1)
  }

  function Full(e: Engine): Replay {
    ReplayFrom(e, e.minCandles, e.initialBalance)
  }

  lemma HoldStep(e: Engine, i: nat, balance: real)
    requires e.minCandles <= i && i + 1 < |e.candles| && SignalAt(e, i).direction.Hold?
    ensures
      var rest := ReplayFrom(e, i + 1, balance);
      ReplayFrom(e, i, balance) == Replay(rest.trades, rest.balance, rest.analyzed + 1)
  {
  }

  lemma TradeStep(e: Engine, i: nat, balance: real)
    requires e.minCandles <= i && i + 1 < |e.candles| && !SignalAt(e, i).direction.Hold?
    ensures
      var t := TradeAt(e, i, balance);
      var rest := ReplayFrom(e, i + 1, t.balanceAfter);
      ReplayFrom(e, i, balance) ==
        if t.balanceAfter <= 0.0 then Replay([t], t.balanceAfter, 1)
        else Replay([t] + rest.trades, rest.balance, rest.analyzed + 1)
  {
  }

  lemma NoStep(e: Engine, i: nat, balance: real)
    requires e.minCandles <= i && i + 1 >= |e.candles|
    ensures ReplayFrom(e, i, balance) == Replay([], balance, 0)
  {
  }

  method MakeTrade(e: Engine, i: nat, signal: Signal, balance: real) returns (trade: Trade)
    requires e.minCandles <= i && i + 1 < |e.candles| && signal == SignalAt(e, i) && !signal.direction.Hold?
    ensures trade == TradeAt(e, i, balance)
  {
    var entry, exit := e.candles[i].close, e.candles[i + 1].close;
    var won := if signal.direction == Call then exit > entry else exit < entry;
    var profit := if won then e.amount * e.payout else -e.amount;
    trade := Trade(
      i, e.candles[i].time, entry, exit, signal.direction, signal.confidence, won, profit, balance + profit);
  }

  method Run(e: Engine) returns (r: Replay)
    ensures r == Full(e)
  {
    hide ReplayFrom, TradeAt;
    var balance, trades, analyzed := e.initialBalance, [], 0;
    var i := e.minCandles;
    while i < |e.candles| - 1
      invariant e.minCandles <= i
      invariant
        var rest := ReplayFrom(e, i, balance);
        Full(e) == Replay(trades + rest.trades, rest.balance, analyzed + rest.analyzed)
    {
      var window := e.candles[i - e.minCandles..i];
      var signal := e.strategy(window);
      analyzed := analyzed + 1;
      if signal.direction == Hold {
        HoldStep(e, i, balance);
        i := i + 1;
        continue;
      }
      TradeStep(e, i, balance);
      var trade := MakeTrade(e, i, signal, balance);
      balance := trade.balanceAfter;
      ghost var rest := ReplayFrom(e, i + 1, balance);
      assert trades + ([trade] + rest.trades) == (trades + [trade]) + rest.trades;
      trades := trades + [trade];
      if balance <= 0.0 {
        return Replay(trades, balance, analyzed);
      }
      i := i + 1;
    }
    NoStep(e, i, balance);
    r := Replay(trades, balance, analyzed);
  }

  // ----- no look-ahead

  function Prefix(e: Engine, m: nat): Engine
    requires m <= |e.candles|
  {
    e.(candles := e.candles[..m])
  }

  /** The trades opened before index `limit`, in order. */
  function OpenedBefore(trades: seq<Trade>, limit: int): seq<Trade> {
    if trades == [] then []
    else (if trades[0].index < limit then [trades[0]] else []) + OpenedBefore(trades[1..], limit)
  }

  lemma {:induction false} TradesComeLater(e: Engine, i: nat, balance: real)
    requires e.minCandles <= i
    ensures forall t :: t in ReplayFrom(e, i, balance).trades ==> i <= t.index && t.index + 1 < |e.candles|
    decreases |e.candles| - i
  {
    if i + 1 < |e.candles| {
      TradesComeLater(e, i + 1, balance);
      TradesComeLater(e, i + 1, TradeAt(e, i, balance).balanceAfter);
    }
  }

  lemma {:induction false} NoneOpenedBefore(trades: seq<Trade>, limit: int)
    requires forall t :: t in trades ==> limit <= t.index
    ensures OpenedBefore(trades, limit) == []
    decreases trades
  {
    if trades != [] {
      assert trades[0] in trades;
      NoneOpenedBefore(trades[1..], limit);
    }
  }

  lemma {:induction false} PrefixReplay(e: Engine, m: nat, i: nat, balance: real)
    requires e.minCandles <= i && m <= |e.candles|
    ensures ReplayFrom(Prefix(e, m), i, balance).trades == OpenedBefore(ReplayFrom(e, i, balance).trades, m - 1)
    decreases |e.candles| - i
  {
    hide ReplayFrom;
    var p := Prefix(e, m);
    if i + 1 >= m {
      NoStep(p, i, balance);
      TradesComeLater(e, i, balance);
      NoneOpenedBefore(ReplayFrom(e, i, balance).trades, m - 1);
    } else {
      SameInPrefix(e, m, i, balance);
      hide SignalAt, TradeAt;
      if SignalAt(e, i).direction.Hold? {
        HoldStep(e, i, balance);
        HoldStep(p, i, balance);
        PrefixReplay(e, m, i + 1, balance);
      } else {
        TradeStep(e, i, balance);
        TradeStep(p, i, balance);
        TradeIndex(e, i, balance);
        var t := TradeAt(e, i, balance);
        if t.balanceAfter > 0.0 {
          PrefixReplay(e, m, i + 1, t.balanceAfter);
          var later := ReplayFrom(e, i + 1, t.balanceAfter).trades;
          assert ([t] + later)[1..] == later;
        }
      }
    }
  }

  lemma TradeIndex(e: Engine, i: nat, balance: real)
    requires e.minCandles <= i && i + 1 < |e.candles|
    ensures TradeAt(e, i, balance).index == i
  {
  }

  lemma SameInPrefix(e: Engine, m: nat, i: nat, balance: real)
    requires e.minCandles <= i && i + 1 < m <= |e.candles|
    ensures SignalAt(Prefix(e, m), i) == SignalAt(e, i) && TradeAt(Prefix(e, m), i, balance) == TradeAt(e, i, balance)
  {
    assert Prefix(e, m).candles[i - e.minCandles..i] == e.candles[i - e.minCandles..i];
  }

  /** Running on the first `m` candles gives exactly the full run's trades that open before index `m - 1`. */
  lemma NoLookAhead(e: Engine, m: nat)
    requires e.minCandles <= m <= |e.candles|
    ensures Full(Prefix(e, m)).trades == OpenedBefore(Full(e).trades, m - 1)
  {
    PrefixReplay(e, m, e.minCandles, e.initialBalance);
  }

  // ----- which candles are traded, and how

  /** Trade `t` is what the candles and the signal at its index say. */
  ghost predicate Honest(e: Engine, t: Trade) {
    && e.minCandles <= t.index && t.index + 1 < |e.candles|
    && t.direction == SignalAt(e, t.index).direction && t.confidence == SignalAt(e, t.index).confidence
    && t.direction != Hold
    && t.entryTime == e.candles[t.index].time
    && t.entryPrice == e.candles[t.index].close && t.exitPrice == e.candles[t.index + 1].close
    && (t.won <==>
          || (t.direction == Call && t.exitPrice > t.entryPrice)
          || (t.direction == Put && t.exitPrice < t.entryPrice))
    && t.profit == (if t.won then e.amount * e.payout else -e.amount)
  }

  /** Nothing before index `i` has emptied the account. */
  ghost predicate AliveAt(trades: seq<Trade>, i: int) {
    forall t :: t in trades && t.index < i ==> t.balanceAfter > 0.0
  }

  ghost predicate TradedAt(trades: seq<Trade>, i: int) {
    exists t :: t in trades && t.index == i
  }

  /** A candle is traded if and only if the signal there is not HOLD and the account was never emptied before. */
  lemma {:induction false} TradedExactly(e: Engine, start: nat, balance: real, i: nat)
    requires e.minCandles <= start <= i && i + 1 < |e.candles|
    ensures
      var trades := ReplayFrom(e, start, balance).trades;
      TradedAt(trades, i) <==> !SignalAt(e, i).direction.Hold? && AliveAt(trades, i)
    decreases |e.candles| - start
  {
    var trades := ReplayFrom(e, start, balance).trades;
    if SignalAt(e, start).direction.Hold? {
      TradesComeLater(e, start + 1, balance);
      if start < i {
        TradedExactly(e, start + 1, balance, i);
      }
    } else {
      var t := TradeAt(e, start, balance);
      assert trades[0] == t;
      TradesComeLater(e, start + 1, t.balanceAfter);
      if t.balanceAfter > 0.0 {
        var rest := ReplayFrom(e, start + 1, t.balanceAfter).trades;
        assert forall u :: u in trades <==> u == t || u in rest;
        if start < i {
          TradedExactly(e, start + 1, t.balanceAfter, i);
        }
      }
    }
  }

  /** The strategy that calls when it is shown just these candles. */
  function OnlyOn(shown: seq<Candle>, confidence: real): seq<Candle> -> Signal {
    window => Signal(if window == shown then Call else Hold, confidence)
  }

  /** What a strategy is shown at candle `i` are the `minCandles` candles before it, no more and no less. */
  lemma ShownExactly(e: Engine, shown: seq<Candle>, confidence: real, i: nat)
    requires e.strategy == OnlyOn(shown, confidence) && e.minCandles <= i && i + 1 < |e.candles|
    ensures
      var trades := Full(e).trades;
      TradedAt(trades, i) <==> e.candles[i - e.minCandles..i] == shown && AliveAt(trades, i)
  {
    TradedExactly(e, e.minCandles, e.initialBalance, i);
    hide Full, TradedAt, AliveAt;
  }

  /** Two engines on candles that agree before index `i`. */
  ghost predicate SamePast(e: Engine, f: Engine, i: nat) {
    && e.(candles := f.candles) == f && i + 1 < |e.candles| && i + 1 < |f.candles|
    && e.candles[..i] == f.candles[..i]
  }

  /** Whatever the candles from `i` on, they decide alike at `i`, if their accounts are still alive. */
  lemma BlindToTheFuture(e: Engine, f: Engine, i: nat)
    requires e.minCandles <= i && SamePast(e, f, i)
    ensures AliveAt(Full(e).trades, i) && AliveAt(Full(f).trades, i) ==>
      (TradedAt(Full(e).trades, i) <==> TradedAt(Full(f).trades, i))
    ensures forall t, u :: t in Full(e).trades && u in Full(f).trades && t.index == u.index == i ==>
      t.direction == u.direction && t.confidence == u.confidence
  {
    assert e.candles[i - e.minCandles..i] == e.candles[..i][i - e.minCandles..];
    assert f.candles[i - e.minCandles..i] == f.candles[..i][i - e.minCandles..];
    TradedExactly(e, e.minCandles, e.initialBalance, i);
    TradedExactly(f, f.minCandles, f.initialBalance, i);
    TradesAreHonest(e, e.minCandles, e.initialBalance);
    TradesAreHonest(f, f.minCandles, f.initialBalance);
    hide ReplayFrom, TradedAt, AliveAt;
  }

  /** The candle a trade will exit at is not shown: a strategy that waits for it holds. */
  lemma TheExitIsNotShown(a: Candle, b: Candle, c: Candle, confidence: real, payout: real)
    requires a != b
    ensures Full(Engine(OnlyOn([b], confidence), [a, b, c], 1000.0, 10.0, payout, 1)) == Replay([], 1000.0, 1)
  {
    var e := Engine(OnlyOn([b], confidence), [a, b, c], 1000.0, 10.0, payout, 1);
    assert e.candles[0..1] == [a] && [a] != [b] by {
      assert [a][0] != [b][0];
    }
    HoldStep(e, 1, 1000.0);
    NoStep(e, 2, 1000.0);
  }

  lemma {:induction false} TradesAreHonest(e: Engine, i: nat, balance: real)
    requires e.minCandles <= i
    ensures forall t :: t in ReplayFrom(e, i, balance).trades ==> Honest(e, t)
    decreases |e.candles| - i
  {
    if i + 1 < |e.candles| {
      TradesAreHonest(e, i + 1, balance);
      TradesAreHonest(e, i + 1, TradeAt(e, i, balance).balanceAfter);
    }
  }

  /** The replay stops at ruin: only the last trade may leave nothing, and trades are in candle order. */
  lemma {:induction false} OnlyTheLastTradeRuins(e: Engine, i: nat, balance: real, k: nat)
    requires e.minCandles <= i && k + 1 < |ReplayFrom(e, i, balance).trades|
    ensures
      var trades := ReplayFrom(e, i, balance).trades;
      trades[k].balanceAfter > 0.0 && trades[k].index < trades[k + 1].index
    decreases |e.candles| - i
  {
    if SignalAt(e, i).direction.Hold? {
      OnlyTheLastTradeRuins(e, i + 1, balance, k);
    } else {
      var t := TradeAt(e, i, balance);
      if k > 0 {
        OnlyTheLastTradeRuins(e, i + 1, t.balanceAfter, k - 1);
      } else {
        TradesComeLater(e, i + 1, t.balanceAfter);
        assert ReplayFrom(e, i, balance).trades[1] in ReplayFrom(e, i + 1, t.balanceAfter).trades;
      }
    }
  }

  /** Every candle from the first possible one is analysed, up to the ruinous trade if there is one. */
  lemma {:induction false} AnalyzedExactly(e: Engine, i: nat, balance: real)
    requires e.minCandles <= i
    ensures
      var r := ReplayFrom(e, i, balance);
      r.analyzed ==
        if r.trades != [] && r.trades[|r.trades| - 1].balanceAfter <= 0.0 then r.trades[|r.trades| - 1].index + 1 - i
        else if i + 1 < |e.candles| then |e.candles| - 1 - i
        else 0
    decreases |e.candles| - i
  {
    if i + 1 < |e.candles| {
      if SignalAt(e, i).direction.Hold? {
        AnalyzedExactly(e, i + 1, balance);
      } else {
        AnalyzedExactly(e, i + 1, TradeAt(e, i, balance).balanceAfter);
      }
    }
  }

  // ----- accounting

  function Profits(trades: seq<Trade>): (p: seq<real>)
    ensures |p| == |trades|
  {
    seq(|trades|, i requires 0 <= i < |trades| => trades[i].profit)
  }

  function CountWon(trades: seq<Trade>): nat {
    if trades == [] then 0 else CountWon(trades[..|trades| - 1]) + if trades[|trades| - 1].won then 1 else 0
  }

  /** Each balance is the opening balance plus all profits so far, and the last one is the final balance. */
  lemma {:induction false} BalancesArePrefixSums(e: Engine, i: nat, balance: real, k: nat)
    requires e.minCandles <= i && k <= |ReplayFrom(e, i, balance).trades|
    ensures
      var r := ReplayFrom(e, i, balance);
      && (k > 0 ==> r.trades[k - 1].balanceAfter == balance + Sum(Profits(r.trades)[..k]))
      && (k == |r.trades| ==> r.balance == balance + Sum(Profits(r.trades)[..k]))
    decreases |e.candles| - i
  {
    hide ReplayFrom, TradeAt;
    var r := ReplayFrom(e, i, balance);
    if i + 1 >= |e.candles| {
      NoStep(e, i, balance);
    } else if SignalAt(e, i).direction.Hold? {
      HoldStep(e, i, balance);
      BalancesArePrefixSums(e, i + 1, balance, k);
    } else {
      var t := TradeAt(e, i, balance);
      TradeStep(e, i, balance);
      TradeAddsItsProfit(e, i, balance);
      if k > 0 && t.balanceAfter > 0.0 {
        var rest := ReplayFrom(e, i + 1, t.balanceAfter);
        BalancesArePrefixSums(e, i + 1, t.balanceAfter, k - 1);
        assert Profits(r.trades)[..k] == [t.profit] + Profits(rest.trades)[..k - 1];
        SumOfCons(t.profit, Profits(rest.trades)[..k - 1]);
        assert r.trades[k - 1] == if k == 1 then t else rest.trades[k - 2];
      } else if k > 0 {
        assert Profits(r.trades)[..k] == [t.profit] + [];
        SumOfCons(t.profit, []);
      }
    }
  }

  lemma TradeAddsItsProfit(e: Engine, i: nat, balance: real)
    requires e.minCandles <= i && i + 1 < |e.candles|
    ensures TradeAt(e, i, balance).balanceAfter == balance + TradeAt(e, i, balance).profit
  {
  }

  lemma {:induction false} SumOfCons(x: real, s: seq<real>)
    ensures Sum([x] + s) == x + Sum(s)
    decreases s
  {
    var all := [x] + s;
    if s == [] {
      assert all[..|all| - 1] == [];
    } else {
      assert all[..|all| - 1] == [x] + s[..|s| - 1];
      SumOfCons(x, s[..|s| - 1]);
    }
  }

  /** What so many wins and losses come to. */
  function Settlement(e: Engine, won: nat, lost: nat): real {
    e.amount * (e.payout * won as real - lost as real)
  }

  lemma OneMore(e: Engine, won: nat, lost: nat)
    ensures Settlement(e, won + 1, lost) == Settlement(e, won, lost) + e.amount * e.payout
    ensures Settlement(e, won, lost + 1) == Settlement(e, won, lost) - e.amount
    ensures Settlement(e, 0, 0) == 0.0
  {
    var w, l, a, p := won as real, lost as real, e.amount, e.payout;
    assert a * (p * (w + 1.0) - l) == a * (p * w - l) + a * p;
    assert a * (p * w - (l + 1.0)) == a * (p * w - l) - a;
  }

  lemma {:induction false} TotalOfHonestTrades(e: Engine, trades: seq<Trade>)
    requires forall t :: t in trades ==> Honest(e, t)
    ensures CountWon(trades) <= |trades|
    ensures Sum(Profits(trades)) == Settlement(e, CountWon(trades), |trades| - CountWon(trades))
    decreases trades
  {
    if trades == [] {
      OneMore(e, 0, 0);
    } else {
      var front, last := trades[..|trades| - 1], trades[|trades| - 1];
      TotalOfHonestTrades(e, front);
      assert Profits(trades)[..|trades| - 1] == Profits(front);
      assert last in trades;
      OneMore(e, CountWon(front), |front| - CountWon(front));
    }
  }

  /** The final balance is the opening one plus the payout of every win minus the stake of every loss. */
  lemma FinalBalance(e: Engine)
    ensures CountWon(Full(e).trades) <= |Full(e).trades|
    ensures Full(e).balance
         == e.initialBalance + Settlement(e, CountWon(Full(e).trades), |Full(e).trades| - CountWon(Full(e).trades))
  {
    var trades := Full(e).trades;
    TradesAreHonest(e, e.minCandles, e.initialBalance);
    TotalOfHonestTrades(e, trades);
    BalancesArePrefixSums(e, e.minCandles, e.initialBalance, |trades|);
    assert Profits(trades)[..|trades|] == Profits(trades);
  }
}

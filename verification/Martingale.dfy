/**
 Stake sizing with hard caps. A trade's result is "win", "loss" or "draw", as
 the client reports it; None is the start.
 */
module MoneyManagement {
  import opened Common

  datatype Strategy = Flat | Martingale | AntiMartingale | Fibonacci | Kelly

  datatype Plan = Plan(
    strategy: Strategy, base: real, multiplier: real, maxSteps: int, maxAmount: real, maxBalancePct: real)

  const FIBONACCI: seq<int> := [1, 1, 2, 3, 5, 8, 13, 21, 34, 55]

  /** The guard's fields as a value. */
  datatype Guard = Guard(plan: Plan, step: nat, last: real) {
    ghost predicate Valid() {
      plan.strategy.Fibonacci? ==> step < |FIBONACCI|
    }
  }

  function Fresh(plan: Plan): Guard {
    Guard(plan, 0, plan.base)
  }

  /** One step up the ladder, or back to its foot beyond the last step. */
  function Climb(maxSteps: int, step: nat): nat {
    if step + 1 > maxSteps then 0 else step + 1
  }

  function NextStep(plan: Plan, step: nat, result: string): nat {
    match plan.strategy
    case Martingale => if result == "loss" then Climb(plan.maxSteps, step) else 0
    case AntiMartingale => if result == "win" then Climb(plan.maxSteps, step) else 0
    case Fibonacci =>
      if result == "loss" then
        var up := if step + 1 < |FIBONACCI| - 1 then step + 1 else |FIBONACCI| - 1;
        if up > plan.maxSteps then 0 else up
      else if step >= 2 then step - 2 else 0
    case _ => step
  }

  function RawStake(plan: Plan, step: nat): real
    requires Guard(plan, step, 0.0).Valid()
  {
    match plan.strategy
    case Martingale | AntiMartingale => plan.base * Power(plan.multiplier, step)
    case Fibonacci => plan.base * FIBONACCI[step] as real
    case _ => plan.base
  }

  function Capped(plan: Plan, amount: real, balance: real): real {
    Max(1.0, Min(Min(amount, plan.maxAmount), balance * plan.maxBalancePct))
  }

  /** The guard after `next_amount`; the stake it returns is the new `last`. */
  function Next(g: Guard, result: Option<string>, balance: real): (n: Guard)
    requires g.Valid()
    ensures n.Valid() && n.plan == g.plan
    ensures 1.0 <= n.last <= Max(1.0, Min(g.plan.maxAmount, balance * g.plan.maxBalancePct))
  {
    var p := g.plan;
    match result
    case None => Guard(p, 0, Capped(p, p.base, balance))
    case Some(r) =>
      if r == "draw" then g.(last := Capped(p, g.last, balance))
      else
        var step := NextStep(p, g.step, r);
        Guard(p, step, Capped(p, RawStake(p, step), balance))
  }

  class MartingaleGuard {
    const plan: Plan
    var step: nat
    var last: real

    ghost function Value(): Guard
      reads this
    {
      Guard(plan, step, last)
    }

    constructor (plan: Plan)
      ensures Value() == Fresh(plan)
    {
      this.plan := plan;
      step, last := 0, plan.base;
    }

    method CalculateRawAmount(result: string) returns (amount: real)
      requires Value().Valid()
      modifies this`step
      ensures step == NextStep(plan, old(step), result) && Value().Valid()
      ensures amount == RawStake(plan, step)
    {
      match plan.strategy
      case Flat => return plan.base;
      case Martingale =>
        if result == "loss" {
          step := step + 1;
          if step > plan.maxSteps {
            step := 0;
            return plan.base;
          }
          return plan.base * Power(plan.multiplier, step);
        } else {
          step := 0;
          return plan.base;
        }
      case AntiMartingale =>
        if result == "win" {
          step := step + 1;
          if step > plan.maxSteps {
            step := 0;
            return plan.base;
          }
          return plan.base * Power(plan.multiplier, step);
        } else {
          step := 0;
          return plan.base;
        }
      case Fibonacci =>
        if result == "loss" {
          step := if |FIBONACCI| - 1 < step + 1 then |FIBONACCI| - 1 else step + 1;
          if step > plan.maxSteps {
            step := 0;
          }
        } else {
          step := if step < 2 then 0 else step - 2;
        }
        return plan.base * FIBONACCI[step] as real;
      case Kelly => return plan.base;
    }

    method NextAmount(result: Option<string>, balance: real) returns (amount: real)
      requires Value().Valid()
      modifies this
      ensures Value() == Next(old(Value()), result, balance) && amount == last
    {
      if result == None {
        amount := plan.base;
        step := 0;
      } else if result.value == "draw" {
        amount := last;
      } else {
        amount := CalculateRawAmount(result.value);
      }
      var capped := Min(amount, plan.maxAmount);
      var balanceCap := balance * plan.maxBalancePct;
      amount := Max(1.0, Min(capped, balanceCap));
      last := amount;
    }

    method Reset()
      modifies this
      ensures Value() == Fresh(plan)
    {
      step := 0;
      last := plan.base;
    }
  }

  // ----- runs

  /** A call of `next_amount`. */
  datatype Call = Call(result: Option<string>, balance: real)

  function Run(g: Guard, calls: seq<Call>): (r: Guard)
    requires g.Valid()
    ensures r.Valid() && r.plan == g.plan
  {
    if calls == [] then g
    else
      var c := calls[|calls| - 1];
      Next(Run(g, calls[..|calls| - 1]), c.result, c.balance)
  }

  /** How many times `counted` came up since the last start or opposite result; draws are passed over. */
  function Streak(calls: seq<Call>, counted: string): nat {
    if calls == [] then 0
    else
      var c, before := calls[|calls| - 1], calls[..|calls| - 1];
      match c.result
      case None => 0
      case Some(r) =>
        if r == "draw" then Streak(before, counted)
        else if r == counted then Streak(before, counted) + 1
        else 0
  }

  function Counted(s: Strategy): string {
    if s.Martingale? then "loss" else "win"
  }

  /** A count that starts anew after `maxSteps`. */
  function Wrap(maxSteps: int, count: nat): nat {
    if maxSteps >= 0 then count % (maxSteps + 1) else 0
  }

  /** Climbing the ladder is counting modulo its length. */
  lemma ClimbIsCounting(maxSteps: int, count: nat)
    ensures Wrap(maxSteps, count + 1) == Climb(maxSteps, Wrap(maxSteps, count))
    ensures Wrap(maxSteps, count) <= if maxSteps >= 0 then maxSteps else 0
    ensures Wrap(maxSteps, 0) == 0
  {
    if maxSteps >= 0 {
      var d := maxSteps + 1;
      var q, r := count / d, count % d;
      if r == maxSteps {
        ModuloOf(count + 1, q + 1, 0, d);
      } else {
        ModuloOf(count + 1, q, r + 1, d);
      }
    }
  }

  /** The step alone, without the amounts. */
  function StepAfter(plan: Plan, calls: seq<Call>): nat {
    if calls == [] then 0
    else
      var step := StepAfter(plan, calls[..|calls| - 1]);
      match calls[|calls| - 1].result
      case None => 0
      case Some(r) => if r == "draw" then step else NextStep(plan, step, r)
  }

  lemma {:induction false} RunStep(plan: Plan, calls: seq<Call>)
    ensures Run(Fresh(plan), calls).step == StepAfter(plan, calls)
    decreases calls
  {
    if calls != [] {
      RunStep(plan, calls[..|calls| - 1]);
    }
  }

  lemma {:induction false} StepAfterIsStreak(plan: Plan, calls: seq<Call>)
    requires plan.strategy.Martingale? || plan.strategy.AntiMartingale?
    ensures StepAfter(plan, calls) == Wrap(plan.maxSteps, Streak(calls, Counted(plan.strategy)))
    decreases calls
  {
    ClimbIsCounting(plan.maxSteps, 0);
    if calls != [] {
      var before := calls[..|calls| - 1];
      StepAfterIsStreak(plan, before);
      ClimbIsCounting(plan.maxSteps, Streak(before, Counted(plan.strategy)));
    }
  }

  /** In every run the ladder's step is the current streak, wrapping after the last step. */
  lemma StepIsStreakModulo(plan: Plan, calls: seq<Call>)
    requires plan.strategy.Martingale? || plan.strategy.AntiMartingale?
    ensures Run(Fresh(plan), calls).step == Wrap(plan.maxSteps, Streak(calls, Counted(plan.strategy)))
  {
    RunStep(plan, calls);
    StepAfterIsStreak(plan, calls);
  }

  lemma StepWithinLadder(plan: Plan, calls: seq<Call>)
    requires plan.strategy.Martingale? || plan.strategy.AntiMartingale?
    ensures Run(Fresh(plan), calls).step <= if plan.maxSteps >= 0 then plan.maxSteps else 0
  {
    StepIsStreakModulo(plan, calls);
    ClimbIsCounting(plan.maxSteps, Streak(calls, Counted(plan.strategy)));
  }

  /** The Fibonacci table is never read out of range, nor beyond the allowed steps. */
  lemma {:induction false} FibonacciStepInRange(plan: Plan, calls: seq<Call>)
    requires plan.strategy.Fibonacci?
    ensures Run(Fresh(plan), calls).step < |FIBONACCI|
    ensures Run(Fresh(plan), calls).step <= if plan.maxSteps >= 0 then plan.maxSteps else 0
    decreases calls
  {
    if calls != [] {
      FibonacciStepInRange(plan, calls[..|calls| - 1]);
    }
  }

  // ----- the stake, exactly

  function Fib(n: nat): nat {
    if n < 2 then n else Fib(n - 1) + Fib(n - 2)
  }

  lemma TableIsFib(k: nat)
    requires k < |FIBONACCI|
    ensures FIBONACCI[k] == Fib(k + 1)
  {
    assert Fib(3) == 2 && Fib(4) == 3;
    assert Fib(5) == 5 && Fib(6) == 8;
    assert Fib(7) == 13 && Fib(8) == 21;
    assert Fib(9) == 34 && Fib(10) == 55;
  }

  /** The step in the Fibonacci table: one up on a loss, starting anew beyond the last step, and two down on a win. */
  function FibStep(maxSteps: int, calls: seq<Call>): nat {
    if calls == [] then 0
    else
      var before := FibStep(maxSteps, calls[..|calls| - 1]);
      match calls[|calls| - 1].result
      case None => 0
      case Some(r) =>
        if r == "draw" then before
        else if r != "loss" then (if before < 2 then 0 else before - 2)
        else if before == 9 && maxSteps >= 9 then 9
        else if before + 1 <= maxSteps then before + 1
        else 0
  }

  lemma {:induction false} FibStepIsStep(plan: Plan, calls: seq<Call>)
    requires plan.strategy.Fibonacci?
    ensures Run(Fresh(plan), calls).step == FibStep(plan.maxSteps, calls) < |FIBONACCI|
    decreases calls
  {
    if calls != [] {
      FibStepIsStep(plan, calls[..|calls| - 1]);
    }
  }

  /** What the last call wants to stake before any cut, told from the calls: after a draw the stake before it again. */
  function Wanted(plan: Plan, calls: seq<Call>): real
    requires calls != []
  {
    var result := calls[|calls| - 1].result;
    if result == Some("draw") then Run(Fresh(plan), calls[..|calls| - 1]).last
    else if result == None then plan.base
    else match plan.strategy
      case Martingale => plan.base * Power(plan.multiplier, Wrap(plan.maxSteps, Streak(calls, "loss")))
      case AntiMartingale => plan.base * Power(plan.multiplier, Wrap(plan.maxSteps, Streak(calls, "win")))
      case Fibonacci => plan.base * Fib(FibStep(plan.maxSteps, calls) + 1) as real
      case Flat => plan.base
      case Kelly => plan.base
  }

  /** The largest part of the balance that may be staked. */
  function Share(plan: Plan, balance: real): real {
    balance * plan.maxBalancePct
  }

  /** The smallest of the three, or one if that is less. */
  ghost predicate Cut(stake: real, wanted: real, cap: real, share: real) {
    if wanted <= 1.0 || cap <= 1.0 || share <= 1.0 then stake == 1.0
    else stake in {wanted, cap, share} && stake <= wanted && stake <= cap && stake <= share
  }

  lemma CappedIsCut(plan: Plan, amount: real, balance: real)
    ensures Cut(Capped(plan, amount, balance), amount, plan.maxAmount, Share(plan, balance))
  {
  }

  lemma FibonacciStake(plan: Plan, step: nat)
    requires plan.strategy.Fibonacci? && step < |FIBONACCI|
    ensures RawStake(plan, step) == plan.base * Fib(step + 1) as real
  {
    TableIsFib(step);
  }

  /** After a win or a loss the stake of the new step is what is wanted. */
  lemma RawIsWanted(plan: Plan, calls: seq<Call>)
    requires calls != [] && calls[|calls| - 1].result.Some? && calls[|calls| - 1].result != Some("draw")
    ensures RawStake(plan, Run(Fresh(plan), calls).step) == Wanted(plan, calls)
  {
    hide Streak, Wrap, Fib, FibStep, Run, Power;
    if plan.strategy.Fibonacci? {
      FibStepIsStep(plan, calls);
      FibonacciStake(plan, FibStep(plan.maxSteps, calls));
      hide RawStake;
    } else if plan.strategy.Martingale? || plan.strategy.AntiMartingale? {
      StepIsStreakModulo(plan, calls);
    }
  }

  lemma LastIsCapped(g: Guard, c: Call)
    requires g.Valid()
    ensures
      var n := Next(g, c.result, c.balance);
      n.last == Capped(g.plan,
                       if c.result == Some("draw") then g.last
                       else if c.result == None then g.plan.base
                       else RawStake(g.plan, n.step), c.balance)
  {
    hide Capped, RawStake, NextStep;
  }

  /** In every run the stake of a call is what it wants, cut at both caps, and never less than one. */
  lemma StakeExactly(plan: Plan, calls: seq<Call>)
    requires calls != []
    ensures Cut(Run(Fresh(plan), calls).last, Wanted(plan, calls),
                plan.maxAmount, Share(plan, calls[|calls| - 1].balance))
  {
    hide Capped, Cut, Share, RawStake, NextStep, Streak, Wrap, Fib, FibStep, Power, Next;
    var before, c := calls[..|calls| - 1], calls[|calls| - 1];
    LastIsCapped(Run(Fresh(plan), before), c);
    if c.result.Some? && c.result != Some("draw") {
      RawIsWanted(plan, calls);
      hide Wanted;
    }
    CappedIsCut(plan, Wanted(plan, calls), c.balance);
  }

  /** So a martingale that stays within its caps stakes the base times the multiplier for each loss of the streak. */
  lemma RungIsStaked(plan: Plan, calls: seq<Call>)
    requires calls != [] && plan.strategy.Martingale? && plan.maxSteps >= 0
    requires calls[|calls| - 1].result.Some? && calls[|calls| - 1].result != Some("draw")
    ensures
      var rung := plan.base * Power(plan.multiplier, Streak(calls, "loss") % (plan.maxSteps + 1));
      1.0 <= rung <= plan.maxAmount && rung <= Share(plan, calls[|calls| - 1].balance) ==>
        Run(Fresh(plan), calls).last == rung
  {
    hide Run, Power, Streak, Cut, Fib, FibStep, Share;
    var share := Share(plan, calls[|calls| - 1].balance);
    StakeExactly(plan, calls);
    UncutStake(Run(Fresh(plan), calls).last, Wanted(plan, calls), plan.maxAmount, share);
  }

  lemma UncutStake(stake: real, wanted: real, cap: real, share: real)
    requires Cut(stake, wanted, cap, share)
    ensures 1.0 <= wanted <= cap && wanted <= share ==> stake == wanted
  {
  }

  // ----- what a losing cycle can cost

  function Geometric(ratio: real, n: nat): real {
    if n == 0 then 0.0 else Geometric(ratio, n - 1) + Power(ratio, n - 1)
  }

  /** What the current losing cycle has staked: a draw hands its stake back, a win or a wrap starts anew. */
  function Exposure(g: Guard, calls: seq<Call>): real
    requires g.Valid()
  {
    if calls == [] then 0.0
    else
      var c, before, after := calls[|calls| - 1], calls[..|calls| - 1], Run(g, calls);
      if c.result == Some("draw") then
        (if before == [] then after.last else Exposure(g, before) - Run(g, before).last + after.last)
      else if after.step == 0 then after.last
      else Exposure(g, before) + after.last
  }

  /** The stakes of the first `n` rungs. */
  ghost function Rungs(plan: Plan, n: nat): real
    requires plan.strategy.Martingale?
  {
    if n == 0 then 0.0 else Rungs(plan, n - 1) + RawStake(plan, n - 1)
  }

  lemma {:induction false} RungsAreGeometric(plan: Plan, n: nat)
    requires plan.strategy.Martingale?
    ensures Rungs(plan, n) == plan.base * Geometric(plan.multiplier, n)
  {
    if n > 0 {
      RungsAreGeometric(plan, n - 1);
      Distribute(plan.base, Geometric(plan.multiplier, n - 1), Power(plan.multiplier, n - 1));
    }
  }

  lemma Distribute(x: real, y: real, z: real)
    ensures x * (y + z) == x * y + x * z
  {
  }

  /** A martingale whose unit stake and multiplier are at least one. */
  ghost predicate Doubling(plan: Plan) {
    plan.strategy.Martingale? && plan.base >= 1.0 && plan.multiplier >= 1.0
  }

  lemma RungAtLeastOne(plan: Plan, n: nat)
    requires Doubling(plan)
    ensures 1.0 <= plan.base <= RawStake(plan, n) && RawStake(plan, 0) == plan.base
  {
    PowerGrows(plan.multiplier, 0, n);
    ProductMonotone(plan.base, 1.0, Power(plan.multiplier, n));
  }

  lemma {:induction false} RungsGrow(plan: Plan, m: nat, n: nat)
    requires Doubling(plan) && m <= n
    ensures 0.0 <= Rungs(plan, m) <= Rungs(plan, n)
    decreases n
  {
    if n > 0 {
      RungAtLeastOne(plan, n - 1);
      if m < n {
        RungsGrow(plan, m, n - 1);
      } else {
        RungsGrow(plan, n - 1, n - 1);
      }
    }
  }

  /** Neither a cap nor a draw raises a stake above its rung; the step moves up by one, stays, or starts anew. */
  lemma StakeStep(g: Guard, c: Call)
    requires Doubling(g.plan) && 1.0 <= g.last <= RawStake(g.plan, g.step)
    ensures
      var n := Next(g, c.result, c.balance);
      && 1.0 <= n.last <= RawStake(g.plan, n.step)
      && (c.result == Some("draw") ==> n.step == g.step && n.last <= g.last)
      && (c.result != Some("draw") ==> n.step == 0 || n.step == g.step + 1)
  {
    var n := Next(g, c.result, c.balance);
    RungAtLeastOne(g.plan, n.step);
    if c.result.Some? && c.result.value != "draw" {
      assert n.last == Capped(g.plan, RawStake(g.plan, n.step), c.balance);
    }
  }

  lemma {:induction false} StakeBelowRung(plan: Plan, calls: seq<Call>)
    requires Doubling(plan)
    ensures 1.0 <= Run(Fresh(plan), calls).last <= RawStake(plan, Run(Fresh(plan), calls).step)
    decreases calls
  {
    if calls == [] {
      RungAtLeastOne(plan, 0);
    } else {
      var before := calls[..|calls| - 1];
      StakeBelowRung(plan, before);
      StakeStep(Run(Fresh(plan), before), calls[|calls| - 1]);
    }
  }

  lemma {:induction false} ExposureWithinRungs(plan: Plan, calls: seq<Call>)
    requires Doubling(plan)
    ensures Exposure(Fresh(plan), calls) <= Rungs(plan, Run(Fresh(plan), calls).step + 1)
    decreases calls
  {
    var step := Run(Fresh(plan), calls).step;
    StakeBelowRung(plan, calls);
    RungsGrow(plan, step, step + 1);
    if calls != [] {
      var before := calls[..|calls| - 1];
      ExposureWithinRungs(plan, before);
      StakeBelowRung(plan, before);
      StakeStep(Run(Fresh(plan), before), calls[|calls| - 1]);
    }
  }

  /** Whatever the results and balances, no losing cycle stakes more than the whole ladder. */
  lemma LadderBoundsEveryCycle(plan: Plan, calls: seq<Call>)
    requires Doubling(plan) && plan.maxSteps >= 0
    ensures Exposure(Fresh(plan), calls) <= Rungs(plan, plan.maxSteps + 1)
  {
    StepWithinLadder(plan, calls);
    ExposureWithinRungs(plan, calls);
    RungsGrow(plan, Run(Fresh(plan), calls).step + 1, plan.maxSteps + 1);
  }
}

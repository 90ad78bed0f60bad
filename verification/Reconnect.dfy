/**
 Reconnecting with exponential backoff, guarded by the circuit breaker. What the
 network and the clock do is a script with one entry for each turn of the loop.
 */
module Reconnecting {
  import opened Common
  import opened CircuitBreaking

  const JITTER := 0.3

  /** The backoff manager's fields as a value. */
  datatype Manager = Manager(base: real, cap: real, maxAttempts: int, attempt: nat)

  datatype Waited = Delay(secs: real) | Exhausted

  function RawDelay(m: Manager, attempt: nat): real {
    Min(Power(m.base, attempt), m.cap)
  }

  /** A raw delay with its random jitter. */
  function Jittered(raw: real, noise: real): real {
    var jitter := raw * (JITTER * (2.0 * noise - 1.0));
    Max(0.0, raw + jitter)
  }

  /** `noise` is the random number in [0, 1) that spreads the delay. */
  function Wait(m: Manager, noise: real): (Manager, Waited) {
    var n := m.(attempt := m.attempt + 1);
    if n.attempt > n.maxAttempts then (n, Exhausted)
    else (n, Delay(Jittered(RawDelay(n, n.attempt), noise)))
  }

  class ReconnectManager {
    const base: real
    const cap: real
    const maxAttempts: int
    var attempt: nat

    ghost function Value(): Manager
      reads this
    {
      Manager(base, cap, maxAttempts, attempt)
    }

    constructor (base: real, cap: real, maxAttempts: int)
      ensures Value() == Manager(base, cap, maxAttempts, 0)
    {
      this.base, this.cap, this.maxAttempts := base, cap, maxAttempts;
      attempt := 0;
    }

    method Pause(noise: real) returns (w: Waited)
      modifies this
      ensures (Value(), w) == Wait(old(Value()), noise)
    {
      attempt := attempt + 1;
      if attempt > maxAttempts {
        return Exhausted;
      }
      var raw := Min(Power(base, attempt), cap);
      w := Delay(Jittered(raw, noise));
    }

    method Reset()
      modifies this
      ensures Value() == old(Value()).(attempt := 0)
    {
      attempt := 0;
    }
  }

  // ----- the reconnect loop

  /**
   How `connect` ends. It resets the manager itself as soon as the login is
   through, and can still raise after that: then the attempt was `Dropped`.
   */
  datatype Outcome = Connected | Rejected | Raised | Dropped

  /** One turn: the clock at the breaker check, the noise, how `connect` ends, and the clock after it. */
  datatype Turn = Turn(checkAt: real, noise: real, outcome: Outcome, endAt: real)

  datatype End = Aborted | Reconnected | MaxAttemptsError | StillRunning

  datatype Result = Result(end: End, connects: nat, breaker: Option<Breaker>, manager: Manager)

  function Checked(b: Option<Breaker>, now: real): Option<Breaker> {
    if b.None? then None else Some(Settle(b.value, now))
  }

  function Failed(b: Option<Breaker>, now: real): Option<Breaker> {
    if b.None? then None else Some(RecordFailure(b.value, now))
  }

  function Healed(b: Option<Breaker>): Option<Breaker> {
    if b.None? then None else Some(RecordSuccess(b.value))
  }

  predicate IsOpen(b: Option<Breaker>) {
    b.Some? && b.value.phase.Open?
  }

  /** The manager after an attempt that did not connect. */
  function Tried(waited: Manager, o: Outcome): Manager {
    if o.Dropped? then waited.(attempt := 0) else waited
  }

  /** The loop from its `k`-th turn on, watched for a number of turns: nothing bounds them in the code. */
  function Reconnect(b: Option<Breaker>, m: Manager, script: nat -> Turn, k: nat, turns: nat): Result
    decreases turns
  {
    if turns == 0 then Result(StillRunning, 0, b, m)
    else
      var t := script(k);
      var checked := Checked(b, t.checkAt);
      var (waited, w) := Wait(m, t.noise);
      if IsOpen(checked) then Result(Aborted, 0, checked, m)
      else if w.Exhausted? then Result(MaxAttemptsError, 0, Failed(checked, t.endAt), waited)
      else if t.outcome.Connected? then Result(Reconnected, 1, Healed(checked), waited.(attempt := 0))
      else
        var rest := Reconnect(Failed(checked, t.endAt), Tried(waited, t.outcome), script, k + 1, turns - 1);
        rest.(connects := rest.connects + 1)
  }

  ghost function ValueOf(breaker: CircuitBreaker?): Option<Breaker>
    reads breaker
  {
    if breaker == null then None else Some(breaker.Value())
  }

  method RecordFailureIn(breaker: CircuitBreaker?, now: real)
    modifies breaker
    ensures ValueOf(breaker) == Failed(old(ValueOf(breaker)), now)
  {
    if breaker != null {
      breaker.Failure(now);
    }
  }

  method ReconnectWithBackoff(breaker: CircuitBreaker?, manager: ReconnectManager, script: nat -> Turn, turns: nat)
    returns (end: End, connects: nat)
    modifies breaker, manager
    ensures Result(end, connects, ValueOf(breaker), manager.Value())
         == Reconnect(old(ValueOf(breaker)), old(manager.Value()), script, 0, turns)
  {
    hide Settle, RecordFailure, RecordSuccess, RawDelay, Jittered;
    connects := 0;
    ghost var whole := Reconnect(ValueOf(breaker), manager.Value(), script, 0, turns);
    while connects < turns
      invariant connects <= turns
      invariant
        var rest := Reconnect(ValueOf(breaker), manager.Value(), script, connects, turns - connects);
        whole == rest.(connects := rest.connects + connects)
    {
      var t := script(connects);
      if breaker != null {
        var p := breaker.State(t.checkAt);
        if p == Open {
          return Aborted, connects;
        }
      }
      var w := manager.Pause(t.noise);
      if w.Exhausted? {
        RecordFailureIn(breaker, t.endAt);
        return MaxAttemptsError, connects;
      }
      if t.outcome.Connected? || t.outcome.Dropped? {
        manager.Reset();
      }
      if t.outcome.Connected? {
        manager.Reset();
        if breaker != null {
          breaker.Success();
        }
        return Reconnected, connects + 1;
      }
      RecordFailureIn(breaker, t.endAt);
      connects := connects + 1;
    }
    end := StillRunning;
  }

  // ----- how many times it tries

  function AtLeast(a: int, b: int): int {
    if a >= b then a else b
  }

  /** A loop that has ended is not changed by watching it longer. */
  lemma {:induction false} EndedForGood(
      b: Option<Breaker>, m: Manager, script: nat -> Turn, k: nat, turns: nat, more: nat)
    requires turns <= more && !Reconnect(b, m, script, k, turns).end.StillRunning?
    ensures Reconnect(b, m, script, k, more) == Reconnect(b, m, script, k, turns)
    decreases turns
  {
    var t := script(k);
    var checked := Checked(b, t.checkAt);
    var (waited, w) := Wait(m, t.noise);
    if !IsOpen(checked) && !w.Exhausted? && !t.outcome.Connected? {
      EndedForGood(Failed(checked, t.endAt), Tried(waited, t.outcome), script, k + 1, turns - 1, more - 1);
    }
  }

  /** The manager's count after `n` attempts from the `k`-th on: it starts anew at each dropped one. */
  function Count(start: nat, script: nat -> Turn, k: nat, n: nat): nat
    decreases n
  {
    if n == 0 then start
    else Count(if script(k).outcome.Dropped? then 0 else start + 1, script, k + 1, n - 1)
  }

  function Drops(script: nat -> Turn, k: nat, n: nat): nat
    decreases n
  {
    if n == 0 then 0 else (if script(k).outcome.Dropped? then 1 else 0) + Drops(script, k + 1, n - 1)
  }

  lemma {:induction false} CountAtMost(start: nat, script: nat -> Turn, k: nat, n: nat)
    ensures Count(start, script, k, n) <= start + n
    ensures Drops(script, k, n) == 0 ==> Count(start, script, k, n) == start + n
    decreases n
  {
    if n > 0 {
      CountAtMost(if script(k).outcome.Dropped? then 0 else start + 1, script, k + 1, n - 1);
    }
  }

  /** The attempts that a manager grants when `drops` of them are dropped: what is left, and a new budget for each. */
  function Granted(m: Manager, drops: nat): int {
    AtLeast(0, m.maxAttempts - m.attempt) + drops * AtLeast(0, m.maxAttempts)
  }

  lemma OneBudgetMore(m: Manager, waited: Manager, drops: nat)
    requires waited.maxAttempts == m.maxAttempts && waited.attempt == 0 && m.attempt + 1 <= m.maxAttempts
    ensures Granted(waited, drops) + 1 <= Granted(m, drops + 1)
  {
    var budget := AtLeast(0, m.maxAttempts);
    assert (drops + 1) * budget == drops * budget + budget;
  }

  /** The first `n` attempts all find the count below the limit. */
  ghost predicate Allows(m: Manager, script: nat -> Turn, k: nat, n: nat) {
    forall j: nat :: j < n ==> Count(m.attempt, script, k, j) < m.maxAttempts
  }

  /** The count reaches the limit after just `n` attempts. */
  ghost predicate AllowsJust(m: Manager, script: nat -> Turn, k: nat, n: nat) {
    Allows(m, script, k, n) && Count(m.attempt, script, k, n) >= m.maxAttempts
  }

  /** The manager before the attempt after the `k`-th. */
  function Following(m: Manager, script: nat -> Turn, k: nat): Manager {
    Tried(m.(attempt := m.attempt + 1), script(k).outcome)
  }

  lemma AllowsNext(m: Manager, script: nat -> Turn, k: nat, n: nat)
    requires m.attempt < m.maxAttempts
    ensures
      var next := Following(m, script, k);
      && (Allows(m, script, k, n + 1) <==> Allows(next, script, k + 1, n))
      && (AllowsJust(m, script, k, n + 1) <==> AllowsJust(next, script, k + 1, n))
  {
    var next, l := Following(m, script, k), k + 1;
    if Allows(m, script, k, n + 1) {
      forall j: nat | j < n ensures Count(next.attempt, script, l, j) < m.maxAttempts {
        assert Count(m.attempt, script, k, j + 1) < m.maxAttempts;
      }
    }
    if Allows(next, script, k + 1, n) {
      forall j: nat | j < n + 1 ensures Count(m.attempt, script, k, j) < m.maxAttempts {
        if j > 0 {
          assert Count(next.attempt, script, l, j - 1) < m.maxAttempts;
        }
      }
    }
  }

  lemma {:induction false} BudgetLeft(m: Manager, script: nat -> Turn, k: nat, n: nat, more: nat)
    requires Allows(m, script, k, n)
    ensures n + Granted(m.(attempt := Count(m.attempt, script, k, n)), more) <= Granted(m, Drops(script, k, n) + more)
    decreases n
  {
    if n > 0 {
      assert Count(m.attempt, script, k, 0) < m.maxAttempts;
      var next := Following(m, script, k);
      AllowsNext(m, script, k, n - 1);
      BudgetLeft(next, script, k + 1, n - 1, more);
      if script(k).outcome.Dropped? {
        OneBudgetMore(m, next, Drops(script, k + 1, n - 1) + more);
      }
    }
  }

  /** Every attempt that was made was made below the limit. */
  lemma {:induction false} AttemptsAreAllowed(b: Option<Breaker>, m: Manager, script: nat -> Turn, k: nat, turns: nat)
    ensures Allows(m, script, k, Reconnect(b, m, script, k, turns).connects)
    decreases turns
  {
    if turns > 0 {
      var t := script(k);
      var checked := Checked(b, t.checkAt);
      var (waited, w) := Wait(m, t.noise);
      if !IsOpen(checked) && !w.Exhausted? {
        var next := Following(m, script, k);
        AttemptsAreAllowed(Failed(checked, t.endAt), next, script, k + 1, turns - 1);
        AllowsNext(m, script, k, Reconnect(Failed(checked, t.endAt), next, script, k + 1, turns - 1).connects);
        assert Allows(m, script, k, 1);
      }
    }
  }

  /** The manager's count starts anew with each dropped attempt, and the loop raises only when it is at the limit. */
  lemma {:induction false} LoopEnds(b: Option<Breaker>, m: Manager, script: nat -> Turn, k: nat, turns: nat)
    ensures
      var r := Reconnect(b, m, script, k, turns);
      var count := Count(m.attempt, script, k, r.connects);
      && r.connects <= turns
      && r.manager == m.(attempt :=
           if r.end.Reconnected? then 0 else if r.end.MaxAttemptsError? then count + 1 else count)
      && (r.end.MaxAttemptsError? ==> count >= m.maxAttempts)
      && (r.end.StillRunning? ==> r.connects == turns)
    decreases turns
  {
    if turns > 0 {
      hide Checked, Failed, Healed, RawDelay, Jittered;
      var t := script(k);
      var checked := Checked(b, t.checkAt);
      var (waited, w) := Wait(m, t.noise);
      if !IsOpen(checked) && !w.Exhausted? && !t.outcome.Connected? {
        LoopEnds(Failed(checked, t.endAt), Tried(waited, t.outcome), script, k + 1, turns - 1);
      }
    }
  }

  lemma {:induction false} BreakerAtTheEnd(b: Option<Breaker>, m: Manager, script: nat -> Turn, k: nat, turns: nat)
    ensures
      var r := Reconnect(b, m, script, k, turns);
      && (r.end.Reconnected? ==>
            && r.connects >= 1
            && (b.Some? ==> r.breaker.Some? && r.breaker.value.phase.Closed? && r.breaker.value.losses == 0))
      && (r.end.Aborted? ==> IsOpen(r.breaker))
    decreases turns
  {
    if turns > 0 {
      hide Settle, RecordFailure, RawDelay, Jittered;
      var t := script(k);
      var checked := Checked(b, t.checkAt);
      var (waited, w) := Wait(m, t.noise);
      if !IsOpen(checked) && !w.Exhausted? && !t.outcome.Connected? {
        BreakerAtTheEnd(Failed(checked, t.endAt), Tried(waited, t.outcome), script, k + 1, turns - 1);
      }
    }
  }

  /**
   Whatever the script: the attempts are bounded by the remaining budget and one
   more budget for each dropped attempt; the manager's count starts anew with
   each of these; and the loop raises only when the count has reached the limit.
   */
  lemma BudgetBoundsConnects(b: Option<Breaker>, m: Manager, script: nat -> Turn, k: nat, turns: nat)
    ensures
      var r := Reconnect(b, m, script, k, turns);
      var count := Count(m.attempt, script, k, r.connects);
      && r.connects <= turns && r.connects <= Granted(m, Drops(script, k, r.connects))
      && r.manager == m.(attempt :=
           if r.end.Reconnected? then 0 else if r.end.MaxAttemptsError? then count + 1 else count)
      && (r.end.Reconnected? ==>
            && r.connects >= 1
            && (b.Some? ==> r.breaker.Some? && r.breaker.value.phase.Closed? && r.breaker.value.losses == 0))
      && (r.end.Aborted? ==> IsOpen(r.breaker))
      && (r.end.MaxAttemptsError? ==> count >= m.maxAttempts)
      && (r.end.StillRunning? ==> r.connects == turns)
  {
    hide Reconnect, Allows, Count, Drops;
    var connects := Reconnect(b, m, script, k, turns).connects;
    LoopEnds(b, m, script, k, turns);
    BreakerAtTheEnd(b, m, script, k, turns);
    AttemptsAreAllowed(b, m, script, k, turns);
    BudgetLeft(m, script, k, connects, 0);
    NeverNegative(m.(attempt := Count(m.attempt, script, k, connects)), 0);
    assert Drops(script, k, connects) + 0 == Drops(script, k, connects);
    hide Granted;
  }

  lemma NeverNegative(m: Manager, drops: nat)
    ensures Granted(m, drops) >= 0
  {
  }

  /** So without a dropped attempt the remaining budget alone bounds them, and each of them counts. */
  lemma OneBudgetWithoutDrops(b: Option<Breaker>, m: Manager, script: nat -> Turn, k: nat, turns: nat)
    requires Drops(script, k, Reconnect(b, m, script, k, turns).connects) == 0
    ensures
      var r := Reconnect(b, m, script, k, turns);
      && r.connects <= AtLeast(0, m.maxAttempts - m.attempt)
      && (r.end.Aborted? ==> r.manager.attempt == m.attempt + r.connects)
      && (turns > AtLeast(0, m.maxAttempts - m.attempt) ==> !r.end.StillRunning?)
  {
    BudgetBoundsConnects(b, m, script, k, turns);
    CountAtMost(m.attempt, script, k, Reconnect(b, m, script, k, turns).connects);
    hide Reconnect, Count;
  }

  /** A series of calls, each with its own script, until one does not end by an open breaker: attempts and drops. */
  function Series(b: Option<Breaker>, m: Manager, scripts: seq<nat -> Turn>, turns: nat): (nat, nat)
    decreases |scripts|
  {
    if scripts == [] then (0, 0)
    else
      var r := Reconnect(b, m, scripts[0], 0, turns);
      var (attempts, drops) := if r.end.Aborted? then Series(r.breaker, r.manager, scripts[1..], turns) else (0, 0);
      (r.connects + attempts, Drops(scripts[0], 0, r.connects) + drops)
  }

  /** An aborted call does not give its attempts back: a whole series shares one budget, and one for each drop. */
  lemma {:induction false} AbortedCallsShareTheBudget(
      b: Option<Breaker>, m: Manager, scripts: seq<nat -> Turn>, turns: nat)
    ensures
      var (attempts, drops) := Series(b, m, scripts, turns);
      attempts <= Granted(m, drops)
    decreases |scripts|
  {
    hide Granted, Reconnect, Count, Drops, Allows;
    if scripts == [] {
      NeverNegative(m, 0);
    } else {
      var r := Reconnect(b, m, scripts[0], 0, turns);
      BudgetBoundsConnects(b, m, scripts[0], 0, turns);
      if r.end.Aborted? {
        var more := Series(r.breaker, r.manager, scripts[1..], turns).1;
        AbortedCallsShareTheBudget(r.breaker, r.manager, scripts[1..], turns);
        AttemptsAreAllowed(b, m, scripts[0], 0, turns);
        BudgetLeft(m, scripts[0], 0, r.connects, more);
      }
    }
  }

  /** Every attempt that does not connect, and the raise at the end, is one failure for the breaker. */
  lemma {:induction false} FailuresAreRecorded(b: Breaker, m: Manager, script: nat -> Turn, k: nat, turns: nat)
    ensures
      var r := Reconnect(Some(b), m, script, k, turns);
      && r.breaker.Some? && r.breaker.value.limits == b.limits
      && r.breaker.value.losses ==
           if r.end.Reconnected? then 0
           else b.losses + r.connects + if r.end.MaxAttemptsError? then 1 else 0
    decreases turns
  {
    if turns > 0 {
      hide RawDelay, Jittered;
      var t := script(k);
      var s := Settle(b, t.checkAt);
      var (waited, w) := Wait(m, t.noise);
      if !s.phase.Open? && !w.Exhausted? && !t.outcome.Connected? {
        FailuresAreRecorded(RecordFailure(s, t.endAt), Tried(waited, t.outcome), script, k + 1, turns - 1);
      }
    }
  }

  /** The recovery wait never runs out between the end of a turn and the next breaker check. */
  ghost predicate ChecksPromptly(script: nat -> Turn, recoveryWait: real) {
    forall k: nat :: script(k + 1).checkAt - script(k).endAt < recoveryWait
  }

  /** How many failures the breaker takes before it opens. */
  function Patience(b: Breaker): int {
    AtLeast(1, b.limits.losses - b.losses)
  }

  lemma StaysOpen(f: Breaker, script: nat -> Turn, k: nat)
    requires ChecksPromptly(script, f.limits.recoveryWait) && f.phase.Open? && f.lastTrip == script(k).endAt
    ensures Settle(f, script(k + 1).checkAt) == f
  {
    assert script(k + 1).checkAt - script(k).endAt < f.limits.recoveryWait;
  }

  /** The breaker alone stops the loop, after its patience is used up, whatever the manager still allows. */
  lemma {:induction false} BreakerStopsTheLoop(b: Breaker, m: Manager, script: nat -> Turn, k: nat, turns: nat)
    requires ChecksPromptly(script, b.limits.recoveryWait)
    ensures
      var r := Reconnect(Some(b), m, script, k, turns);
      && r.connects <= Patience(b)
      && (turns > Patience(b) ==> !r.end.StillRunning?)
      && (r.end.MaxAttemptsError? ==> m.maxAttempts - m.attempt < Patience(b))
    decreases turns
  {
    if turns > 0 {
      var t := script(k);
      var s := Settle(b, t.checkAt);
      var (waited, w) := Wait(m, t.noise);
      if !s.phase.Open? && !w.Exhausted? && !t.outcome.Connected? {
        var f := RecordFailure(s, t.endAt);
        if f.phase.Open? {
          StaysOpen(f, script, k);
        } else {
          BreakerStopsTheLoop(f, Tried(waited, t.outcome), script, k + 1, turns - 1);
        }
      }
    }
  }

  /** With a fresh manager that allows as many attempts as the breaker allows losses, nothing is raised. */
  lemma FreshManagerNeverRaises(b: Breaker, m: Manager, script: nat -> Turn, turns: nat)
    requires ChecksPromptly(script, b.limits.recoveryWait)
    requires m.attempt == 0 && 1 <= m.maxAttempts && 0 <= b.losses && b.limits.losses <= m.maxAttempts
    ensures !Reconnect(Some(b), m, script, 0, turns).end.MaxAttemptsError?
  {
    BreakerStopsTheLoop(b, m, script, 0, turns);
  }

  /**
   The bounds are exact: if no attempt connects, the loop ends aborted after its
   patience when the count allows that many attempts, and raises as soon as the
   count reaches the limit otherwise.
   */
  lemma {:induction false} HopelessLoop(b: Breaker, m: Manager, script: nat -> Turn, k: nat, turns: nat)
    requires ChecksPromptly(script, b.limits.recoveryWait)
    requires forall i: nat :: !script(i).outcome.Connected?
    requires !Settle(b, script(k).checkAt).phase.Open? && turns > Patience(b)
    ensures
      var r := Reconnect(Some(b), m, script, k, turns);
      if Allows(m, script, k, Patience(b))
      then r.end.Aborted? && r.connects == Patience(b)
      else r.end.MaxAttemptsError? && r.connects < Patience(b) && AllowsJust(m, script, k, r.connects)
    decreases turns
  {
    var t := script(k);
    var s := Settle(b, t.checkAt);
    var (waited, w) := Wait(m, t.noise);
    if w.Exhausted? {
      assert Count(m.attempt, script, k, 0) >= m.maxAttempts;
    } else {
      var f := RecordFailure(s, t.endAt);
      var next := Tried(waited, t.outcome);
      AllowsNext(m, script, k, Patience(b) - 1);
      if f.phase.Open? {
        StaysOpen(f, script, k);
      } else {
        HopelessLoop(f, next, script, k + 1, turns - 1);
        AllowsNext(m, script, k, Reconnect(Some(f), next, script, k + 1, turns - 1).connects);
      }
    }
  }

  /**
   Without a breaker only the manager ends a hopeless loop: it is still running
   exactly as long as the count stays below the limit, and then raises.
   */
  lemma {:induction false} UnguardedLoop(m: Manager, script: nat -> Turn, k: nat, turns: nat)
    requires forall i: nat :: !script(i).outcome.Connected?
    ensures
      var r := Reconnect(None, m, script, k, turns);
      if Allows(m, script, k, turns)
      then r.end.StillRunning? && r.connects == turns
      else r.end.MaxAttemptsError? && AllowsJust(m, script, k, r.connects)
    decreases turns
  {
    if turns > 0 {
      var (waited, w) := Wait(m, script(k).noise);
      if w.Exhausted? {
        assert Count(m.attempt, script, k, 0) >= m.maxAttempts;
      } else {
        var next := Tried(waited, script(k).outcome);
        UnguardedLoop(next, script, k + 1, turns - 1);
        AllowsNext(m, script, k, turns - 1);
        AllowsNext(m, script, k, Reconnect(None, next, script, k + 1, turns - 1).connects);
      }
    }
  }

  // ----- with and without dropped attempts

  ghost predicate NeverDropped(script: nat -> Turn) {
    forall i: nat :: !script(i).outcome.Dropped?
  }

  lemma {:induction false} CountsOn(start: nat, script: nat -> Turn, k: nat, n: nat)
    requires NeverDropped(script)
    ensures Count(start, script, k, n) == start + n
    decreases n
  {
    if n > 0 {
      CountsOn(start + 1, script, k + 1, n - 1);
    }
  }

  /** Without dropped attempts the count allows exactly the remaining budget. */
  lemma AllowsTheBudget(m: Manager, script: nat -> Turn, k: nat, n: nat)
    requires NeverDropped(script)
    ensures Allows(m, script, k, n) <==> n <= AtLeast(0, m.maxAttempts - m.attempt)
    ensures AllowsJust(m, script, k, n) <==> n == AtLeast(0, m.maxAttempts - m.attempt)
  {
    forall j: nat ensures Count(m.attempt, script, k, j) == m.attempt + j {
      CountsOn(m.attempt, script, k, j);
    }
    if n > 0 && Allows(m, script, k, n) {
      assert Count(m.attempt, script, k, n - 1) < m.maxAttempts;
    }
  }

  /** Then a hopeless loop uses up the shorter of patience and budget, and without a breaker the budget. */
  lemma HopelessWithoutDrops(b: Breaker, m: Manager, script: nat -> Turn, turns: nat)
    requires forall i: nat :: !script(i).outcome.Connected?
    requires NeverDropped(script)
    ensures
      var r, budget := Reconnect(None, m, script, 0, turns), AtLeast(0, m.maxAttempts - m.attempt);
      turns > budget ==> r.end.MaxAttemptsError? && r.connects == budget
    ensures
      var r, budget := Reconnect(Some(b), m, script, 0, turns), m.maxAttempts - m.attempt;
      && ChecksPromptly(script, b.limits.recoveryWait)
      && !Settle(b, script(0).checkAt).phase.Open? && turns > Patience(b) ==>
        if Patience(b) <= budget
        then r.end.Aborted? && r.connects == Patience(b)
        else r.end.MaxAttemptsError? && r.connects == AtLeast(0, budget)
  {
    hide Reconnect, Allows, AllowsJust, Settle;
    UnguardedLoop(m, script, 0, turns);
    AllowsTheBudget(m, script, 0, turns);
    AllowsTheBudget(m, script, 0, Reconnect(None, m, script, 0, turns).connects);
    if ChecksPromptly(script, b.limits.recoveryWait)
       && !Settle(b, script(0).checkAt).phase.Open? && turns > Patience(b) {
      HopelessLoop(b, m, script, 0, turns);
      AllowsTheBudget(m, script, 0, Patience(b));
      AllowsTheBudget(m, script, 0, Reconnect(Some(b), m, script, 0, turns).connects);
    }
  }

  /** A server that accepts every login and then drops the connection. */
  function Droppy(): nat -> Turn {
    _ => Turn(0.0, 0.5, Dropped, 0.0)
  }

  lemma {:induction false} CountStaysZero(start: nat, k: nat, n: nat)
    ensures Count(start, Droppy(), k, n) == if n == 0 then start else 0
    decreases n
  {
    if n > 0 {
      CountStaysZero(0, k + 1, n - 1);
    }
  }

  /**
   A budget of one attempt is then no bound: a new breaker that allows three
   losses makes it three attempts, and without a breaker the loop never ends.
   */
  lemma DropsOutlastTheBudget(limits: Limits, base: real, cap: real, turns: nat)
    requires limits.losses == 3 && limits.recoveryWait > 0.0 && turns > 3
    ensures
      var m := Manager(base, cap, 1, 0);
      var guarded, unguarded :=
        Reconnect(Some(Fresh(limits)), m, Droppy(), 0, turns), Reconnect(None, m, Droppy(), 0, turns);
      && guarded.end.Aborted? && guarded.connects == 3
      && unguarded.end.StillRunning? && unguarded.connects == turns
  {
    var m := Manager(base, cap, 1, 0);
    forall n: nat ensures Allows(m, Droppy(), 0, n) {
      forall j: nat | j < n ensures Count(0, Droppy(), 0, j) < 1 {
        CountStaysZero(0, 0, j);
      }
    }
    HopelessLoop(Fresh(limits), m, Droppy(), 0, turns);
    UnguardedLoop(m, Droppy(), 0, turns);
  }

  // ----- how long it waits

  /** Each delay lies within the jitter of the raw delay, which never shrinks and never passes the cap. */
  lemma DelaysStayInTheBand(m: Manager, noise: real)
    requires m.base >= 1.0 && m.cap >= 0.0 && 0.0 <= noise < 1.0 && Wait(m, noise).1.Delay?
    ensures
      var raw, d := RawDelay(m, m.attempt + 1), Wait(m, noise).1.secs;
      && (1.0 - JITTER) * raw <= d <= (1.0 + JITTER) * raw
      && RawDelay(m, m.attempt) <= raw <= m.cap
  {
    PowerGrows(m.base, m.attempt, m.attempt + 1);
    JitterBand(RawDelay(m, m.attempt + 1), noise);
  }

  /** The first raw delay is one, and each is the one before it times the base until the cap is reached. */
  lemma DelaysMultiply(m: Manager, attempt: nat)
    requires m.base >= 1.0 && m.cap >= 1.0
    ensures RawDelay(m, 0) == 1.0
    ensures RawDelay(m, attempt + 1) == Min(m.base * RawDelay(m, attempt), m.cap)
  {
    CappedProduct(m.base, Power(m.base, attempt), m.cap);
    hide Min;
  }

  /** The delay is the raw one of the attempt at the middle noise, and the lower edge of the band at the least. */
  lemma DelayWithoutJitter(m: Manager)
    requires m.base >= 1.0 && m.cap >= 0.0 && m.attempt < m.maxAttempts
    ensures Wait(m, 0.5).1 == Delay(RawDelay(m, m.attempt + 1))
    ensures Wait(m, 0.0).1 == Delay((1.0 - JITTER) * RawDelay(m, m.attempt + 1))
  {
    PowerGrows(m.base, 0, m.attempt + 1);
    NoJitter(RawDelay(m, m.attempt + 1));
    hide Jittered, Power;
  }

  lemma CappedProduct(base: real, power: real, cap: real)
    requires base >= 1.0 && cap >= 0.0
    ensures Min(base * power, cap) == Min(base * Min(power, cap), cap)
  {
    if power > cap {
      ProductMonotone(base, cap, power);
      ProductMonotone(cap, 1.0, base);
    }
  }

  lemma NoJitter(raw: real)
    requires raw >= 0.0
    ensures Jittered(raw, 0.5) == raw && Jittered(raw, 0.0) == (1.0 - JITTER) * raw
  {
    assert raw * (JITTER * (2.0 * 0.5 - 1.0)) == 0.0;
    assert raw * (JITTER * (2.0 * 0.0 - 1.0)) == -0.3 * raw;
  }

  lemma JitterBand(raw: real, noise: real)
    requires 0.0 <= raw && 0.0 <= noise < 1.0
    ensures (1.0 - JITTER) * raw <= Jittered(raw, noise) <= (1.0 + JITTER) * raw
  {
    var swing := JITTER * (2.0 * noise - 1.0);
    ProductMonotone(raw, -JITTER, swing);
    ProductMonotone(raw, swing, JITTER);
  }
}

/**
 The token bucket that admits orders. Every clock read happens under the
 bucket's lock, so one locked pass of one thread is one step, and the reads of
 a run never decrease.
 */
module RateLimit {
  import opened Common

  /** The bucket's fields as a value. */
  datatype Bucket = Bucket(capacity: real, refillRate: real, block: bool, tokens: real, lastRefill: real) {
    ghost predicate Valid() {
      0.0 <= refillRate && 0.0 <= tokens <= capacity
    }
  }

  /** How one locked pass of `consume` ends. */
  datatype Outcome = Granted | Sleeps(until: real) | Refused(retryIn: real) | DivisionByZero

  /** The level the bucket would have at time `t` if it could not overflow. */
  function Allowance(b: Bucket, t: real): real {
    b.tokens + b.refillRate * (t - b.lastRefill)
  }

  function Refill(b: Bucket, now: real): Bucket {
    b.(tokens := Min(b.capacity, Allowance(b, now)), lastRefill := now)
  }

  /** One pass of the retry loop, taken under the lock. */
  function Pass(b: Bucket, now: real): (Bucket, Outcome) {
    var r := Refill(b, now);
    if r.tokens >= 1.0 then (r.(tokens := r.tokens - 1.0), Granted)
    else if r.refillRate == 0.0 then (r, DivisionByZero)
    else
      var wait := (1.0 - r.tokens) / r.refillRate;
      (r, if r.block then Sleeps(now + wait) else Refused(wait))
  }

  // ----- the bucket object

  class TokenBucket {
    const capacity: real
    const refillRate: real
    const block: bool
    var tokens: real
    var lastRefill: real

    ghost function State(): Bucket
      reads this
    {
      Bucket(capacity, refillRate, block, tokens, lastRefill)
    }

    constructor (capacity: real, refillRate: real, block: bool, now: real)
      ensures State() == Bucket(capacity, refillRate, block, capacity, now)
    {
      this.capacity, this.refillRate, this.block := capacity, refillRate, block;
      tokens, lastRefill := capacity, now;
    }

    method RefillNow(now: real)
      modifies this
      ensures State() == Refill(old(State()), now)
    {
      var elapsed := now - lastRefill;
      tokens := Min(capacity, tokens + elapsed * refillRate);
      lastRefill := now;
    }

    method TryConsume(now: real) returns (o: Outcome)
      modifies this
      ensures (State(), o) == Pass(old(State()), now)
    {
      RefillNow(now);
      if tokens >= 1.0 {
        tokens := tokens - 1.0;
        return Granted;
      }
      if refillRate == 0.0 {
        return DivisionByZero;
      }
      var wait := (1.0 - tokens) / refillRate;
      o := if block then Sleeps(now + wait) else Refused(wait);
    }

    /** The blocking call when no other thread interferes: `wake` is the clock after the sleep. */
    method Consume(now: real, wake: real) returns (o: Outcome, passes: nat)
      requires State().Valid() && lastRefill <= now
      requires block ==> capacity >= 1.0 && refillRate > 0.0
      requires Pass(State(), now).1.Sleeps? ==> Pass(State(), now).1.until <= wake
      modifies this
      ensures 1 <= passes <= 2 && !o.Sleeps?
      ensures block ==> o.Granted?
      ensures passes == 2 <==> Pass(old(State()), now).1.Sleeps?
      ensures passes == 1 ==> (State(), o) == Pass(old(State()), now)
      ensures passes == 2 ==> (State(), o) == Pass(old(State()), wake)
    {
      passes := 0;
      var t := now;
      while true
        invariant passes == 0 ==> t == now && State() == old(State())
        invariant passes != 0 ==> passes == 1 && t == wake && block
        invariant passes == 1 ==> Pass(old(State()), now) == (State(), Pass(old(State()), now).1)
        invariant passes == 1 ==> Pass(old(State()), now).1.Sleeps?
        decreases 2 - passes
      {
        ghost var before := State();
        o := TryConsume(t);
        passes := passes + 1;
        if passes == 2 {
          RetryExact(old(State()), now, wake);
          RefillTwice(old(State()), now, wake);
        }
        if !o.Sleeps? {
          return;
        }
        t := wake;
      }
    }

    method AvailableTokens(now: real) returns (available: real)
      modifies this
      ensures State() == Refill(old(State()), now) && available == tokens
    {
      RefillNow(now);
      available := tokens;
    }
  }

  // ----- any number of threads

  /** One locked section: a thread passing through `consume`, or an `available_tokens` read. */
  datatype Step = Consume(tid: nat, at: real) | Probe(at: real)

  /** The bucket and, for each thread asleep in `consume`, the time it wakes up. */
  datatype System = System(bucket: Bucket, asleep: map<nat, real>)

  ghost predicate Enabled(s: System, step: Step) {
    && s.bucket.lastRefill <= step.at
    && (step.Consume? && step.tid in s.asleep ==> s.asleep[step.tid] <= step.at)
  }

  function Next(s: System, step: Step): System {
    match step
    case Probe(at) => s.(bucket := Refill(s.bucket, at))
    case Consume(tid, at) =>
      var (b, o) := Pass(s.bucket, at);
      System(b, if o.Sleeps? then s.asleep[tid := o.until] else s.asleep - {tid})
  }

  function Run(s: System, steps: seq<Step>): System
    decreases steps
  {
    if steps == [] then s else Run(Next(s, steps[0]), steps[1..])
  }

  ghost predicate Legal(s: System, steps: seq<Step>)
    decreases steps
  {
    steps == [] || (Enabled(s, steps[0]) && Legal(Next(s, steps[0]), steps[1..]))
  }

  ghost predicate Admits(s: System, step: Step) {
    step.Consume? && Pass(s.bucket, step.at).1.Granted?
  }

  /** How many orders a run admits between the times `t1` and `t2`, both included. */
  ghost function Admitted(s: System, steps: seq<Step>, t1: real, t2: real): nat
    decreases steps
  {
    if steps == [] then 0
    else
      (if Admits(s, steps[0]) && t1 <= steps[0].at <= t2 then 1 else 0)
      + Admitted(Next(s, steps[0]), steps[1..], t1, t2)
  }

  lemma AllowanceGrows(b: Bucket, t: real)
    requires b.Valid() && b.lastRefill <= t
    ensures 0.0 <= b.tokens <= Allowance(b, t)
  {
    ProductNonnegative(b.refillRate, t - b.lastRefill);
  }

  /** Waiting from `at` to `t` adds the same, whatever the level was. */
  lemma AllowanceAdds(b: Bucket, c: Bucket, t: real)
    requires b.refillRate == c.refillRate
    ensures Allowance(b, t) - Allowance(b, c.lastRefill) == Allowance(c, t) - c.tokens
  {
    SplitSpan(b.refillRate, b.lastRefill, c.lastRefill, t);
  }

  lemma RefillKeepsValid(b: Bucket, now: real)
    requires b.Valid() && b.lastRefill <= now
    ensures Refill(b, now).Valid()
    ensures b.tokens <= Refill(b, now).tokens <= Allowance(b, now)
  {
    AllowanceGrows(b, now);
  }

  lemma RefillAtOnce(b: Bucket, now: real)
    requires b.Valid() && b.lastRefill == now
    ensures Refill(b, now) == b
  {
    assert b.refillRate * (now - b.lastRefill) == 0.0;
  }

  /** A step leaves the level valid, and takes one token exactly when it admits. */
  lemma StepLevel(s: System, step: Step)
    requires s.bucket.Valid() && Enabled(s, step)
    ensures
      var b, n := s.bucket, Next(s, step).bucket;
      && n.Valid() && n.capacity == b.capacity && n.refillRate == b.refillRate && n.lastRefill == step.at
      && n.tokens + (if Admits(s, step) then 1.0 else 0.0) == Refill(b, step.at).tokens
      && Refill(b, step.at).tokens <= Allowance(b, step.at)
  {
    RefillKeepsValid(s.bucket, step.at);
  }

  /** Whatever the interleaving, the level stays between zero and the capacity. */
  lemma {:induction false} LevelInRange(s: System, steps: seq<Step>)
    requires s.bucket.Valid() && Legal(s, steps)
    ensures Run(s, steps).bucket.Valid()
    ensures Run(s, steps).bucket.capacity == s.bucket.capacity
    decreases steps
  {
    if steps != [] {
      StepLevel(s, steps[0]);
      LevelInRange(Next(s, steps[0]), steps[1..]);
    }
  }

  lemma {:induction false} NoneAdmittedLater(s: System, steps: seq<Step>, t1: real, t2: real)
    requires Legal(s, steps) && t2 < s.bucket.lastRefill
    ensures Admitted(s, steps, t1, t2) == 0
    decreases steps
  {
    if steps != [] {
      NoneAdmittedLater(Next(s, steps[0]), steps[1..], t1, t2);
    }
  }

  /** A step can only use up the allowance, and uses one unit when it admits. */
  lemma AllowanceShrinks(b: Bucket, at: real, t: real)
    requires b.Valid() && b.lastRefill <= at <= t
    ensures Allowance(Refill(b, at), t) <= Allowance(b, t)
    ensures Pass(b, at).0.Valid()
    ensures Allowance(Pass(b, at).0, t) + (if Pass(b, at).1.Granted? then 1.0 else 0.0) <= Allowance(b, t)
  {
    RefillKeepsValid(b, at);
    AllowanceAdds(b, Refill(b, at), t);
    AllowanceAdds(b, Pass(b, at).0, t);
  }

  /** Once the window has begun, admissions are paid for by the level and by later refills. */
  lemma {:induction false} PaidByAllowance(s: System, steps: seq<Step>, t1: real, t2: real)
    requires s.bucket.Valid() && Legal(s, steps) && s.bucket.lastRefill <= t2
    ensures Admitted(s, steps, t1, t2) as real <= Allowance(s.bucket, t2)
    decreases steps
  {
    AllowanceGrows(s.bucket, t2);
    if steps != [] {
      var at, n := steps[0].at, Next(s, steps[0]);
      if t2 < at {
        NoneAdmittedLater(n, steps[1..], t1, t2);
      } else {
        AllowanceShrinks(s.bucket, at, t2);
        RefillKeepsValid(s.bucket, at);
        PaidByAllowance(n, steps[1..], t1, t2);
      }
    }
  }

  lemma FullBucketIsWithinBound(b: Bucket, t1: real, t2: real)
    requires b.Valid() && t1 <= b.lastRefill <= t2
    ensures Allowance(b, t2) <= b.capacity + b.refillRate * (t2 - t1)
  {
    ProductMonotone(b.refillRate, t2 - b.lastRefill, t2 - t1);
  }

  /** `bound` covers the allowance of every bucket of this make that is refilled inside the window. */
  ghost predicate Covers(bound: real, make: Bucket, t1: real, t2: real) {
    forall b: Bucket ::
      b.Valid() && b.capacity == make.capacity && b.refillRate == make.refillRate && t1 <= b.lastRefill <= t2
      ==> Allowance(b, t2) <= bound
  }

  lemma RefilledRunsTheSame(s: System, steps: seq<Step>, t1: real, t2: real) returns (r: System)
    requires s.bucket.Valid() && steps != [] && Legal(s, steps)
    ensures r.bucket.Valid() && r.bucket.lastRefill == steps[0].at && Legal(r, steps)
    ensures r.bucket.capacity == s.bucket.capacity && r.bucket.refillRate == s.bucket.refillRate
    ensures Admitted(r, steps, t1, t2) == Admitted(s, steps, t1, t2)
  {
    var at := steps[0].at;
    r := s.(bucket := Refill(s.bucket, at));
    RefillKeepsValid(s.bucket, at);
    RefillAtOnce(r.bucket, at);
    assert Next(r, steps[0]) == Next(s, steps[0]);
  }

  lemma {:induction false} AdmittedWithin(s: System, steps: seq<Step>, t1: real, t2: real, bound: real)
    requires s.bucket.Valid() && Legal(s, steps)
    requires 0.0 <= bound && Covers(bound, s.bucket, t1, t2)
    ensures Admitted(s, steps, t1, t2) as real <= bound
    decreases steps
  {
    if steps != [] {
      var at, n := steps[0].at, Next(s, steps[0]);
      assert n.bucket.Valid() && n.bucket.lastRefill == at && Covers(bound, n.bucket, t1, t2) by {
        StepLevel(s, steps[0]);
      }
      if at < t1 {
        AdmittedWithin(n, steps[1..], t1, t2, bound);
      } else if t2 < at {
        NoneAdmittedLater(n, steps[1..], t1, t2);
      } else {
        var r := RefilledRunsTheSame(s, steps, t1, t2);
        PaidByAllowance(r, steps, t1, t2);
        assert Allowance(r.bucket, t2) <= bound;
      }
    }
  }

  /** The limiter's promise: over every window of every run, one burst plus the refill rate. */
  lemma AdmissionBound(s: System, steps: seq<Step>, t1: real, t2: real)
    requires s.bucket.Valid() && Legal(s, steps) && t1 <= t2
    ensures Admitted(s, steps, t1, t2) as real <= s.bucket.capacity + s.bucket.refillRate * (t2 - t1)
  {
    var bound := s.bucket.capacity + s.bucket.refillRate * (t2 - t1);
    AllowanceGrows(s.bucket.(tokens := s.bucket.capacity, lastRefill := t1), t2);
    forall b: Bucket |
      && b.Valid() && b.capacity == s.bucket.capacity && b.refillRate == s.bucket.refillRate
      && t1 <= b.lastRefill <= t2
      ensures Allowance(b, t2) <= bound
    {
      FullBucketIsWithinBound(b, t1, t2);
    }
    AdmittedWithin(s, steps, t1, t2, bound);
  }

  /** `n` passes at one instant. */
  function Burst(b: Bucket, now: real, n: nat): Bucket {
    if n == 0 then Refill(b, now) else Pass(Burst(b, now, n - 1), now).0
  }

  /** The bound is reached: a full bucket admits exactly the whole tokens it holds at one instant. */
  lemma {:induction false} BurstIsExact(b: Bucket, now: real, n: nat)
    requires b.Valid() && b.lastRefill <= now
    ensures n as real <= Refill(b, now).tokens ==>
      && Burst(b, now, n).tokens == Refill(b, now).tokens - n as real
      && (Pass(Burst(b, now, n), now).1.Granted? <==> (n + 1) as real <= Refill(b, now).tokens)
    ensures Burst(b, now, n).lastRefill == now && Burst(b, now, n).Valid()
    ensures Burst(b, now, n).capacity == b.capacity
  {
    RefillKeepsValid(b, now);
    if n > 0 {
      BurstIsExact(b, now, n - 1);
      RefillAtOnce(Burst(b, now, n - 1), now);
    }
    RefillAtOnce(Burst(b, now, n), now);
  }

  // ----- probes change nothing

  /** Refilling on the way costs nothing: only the last refill counts. */
  lemma RefillTwice(b: Bucket, t1: real, t2: real)
    requires b.Valid() && b.lastRefill <= t1 <= t2
    ensures Refill(Refill(b, t1), t2) == Refill(b, t2)
  {
    RefillKeepsValid(b, t1);
    AllowanceAdds(b, Refill(b, t1), t2);
    AllowanceGrows(Refill(b, t1), t2);
  }

  function WithoutProbes(steps: seq<Step>): seq<Step> {
    if steps == [] then []
    else (if steps[0].Probe? then [] else [steps[0]]) + WithoutProbes(steps[1..])
  }

  /** What the callers of `consume` see, in order. */
  function Outcomes(s: System, steps: seq<Step>): seq<(Step, Outcome)>
    decreases steps
  {
    if steps == [] then []
    else
      (if steps[0].Probe? then [] else [(steps[0], Pass(s.bucket, steps[0].at).1)])
      + Outcomes(Next(s, steps[0]), steps[1..])
  }

  /** `p` is `q` with some extra refills behind it. */
  ghost predicate Ahead(p: System, q: System) {
    && p.asleep == q.asleep
    && q.bucket.Valid() && q.bucket.lastRefill <= p.bucket.lastRefill
    && p.bucket == Refill(q.bucket, p.bucket.lastRefill)
  }

  lemma {:induction false} ProbesDoNotMatter(p: System, q: System, steps: seq<Step>)
    requires Ahead(p, q) && Legal(p, steps)
    ensures Legal(q, WithoutProbes(steps))
    ensures Outcomes(p, steps) == Outcomes(q, WithoutProbes(steps))
    decreases steps
  {
    if steps != [] {
      var at, rest := steps[0].at, WithoutProbes(steps[1..]);
      RefillTwice(q.bucket, p.bucket.lastRefill, at);
      if steps[0].Probe? {
        ProbesDoNotMatter(Next(p, steps[0]), q, steps[1..]);
        assert WithoutProbes(steps) == rest;
      } else {
        var n := Next(q, steps[0]);
        StepLevel(q, steps[0]);
        RefillAtOnce(n.bucket, at);
        ProbesDoNotMatter(n, n, steps[1..]);
        assert WithoutProbes(steps)[0] == steps[0] && WithoutProbes(steps)[1..] == rest;
      }
    }
  }

  /** Reading `available_tokens` anywhere in a run changes no caller's outcome. */
  lemma AvailableTokensIsHarmless(s: System, steps: seq<Step>)
    requires s.bucket.Valid() && Legal(s, steps)
    ensures Legal(s, WithoutProbes(steps))
    ensures Outcomes(s, steps) == Outcomes(s, WithoutProbes(steps))
  {
    assert s.bucket == Refill(s.bucket, s.bucket.lastRefill);
    ProbesDoNotMatter(s, s, steps);
  }

  // ----- the computed sleep

  /** With no one else in between, the sleep is exact: a retry succeeds if and only if it is not early. */
  lemma RetryExact(b: Bucket, now: real, later: real)
    requires b.Valid() && b.lastRefill <= now <= later
    requires Pass(b, now).1.Sleeps?
    ensures Pass(Pass(b, now).0, later).1.Granted? <==> b.capacity >= 1.0 && Pass(b, now).1.until <= later
  {
    RefillKeepsValid(b, now);
    WaitIsExact(Refill(b, now).tokens, b.refillRate, later - now);
  }

  lemma WaitIsExact(level: real, rate: real, span: real)
    requires 0.0 < rate
    ensures 1.0 <= level + rate * span <==> (1.0 - level) / rate <= span
  {
    var wait := (1.0 - level) / rate;
    assert rate * wait == 1.0 - level;
    if wait <= span {
      ProductMonotone(rate, wait, span);
    } else {
      ProductPositive(rate, wait - span);
      SplitSpan(rate, 0.0, span, wait);
    }
  }

  /** A bucket that cannot hold one token admits nothing, so a blocking call never returns. */
  lemma {:induction false} SmallBucketStarves(s: System, steps: seq<Step>, t1: real, t2: real)
    requires s.bucket.capacity < 1.0
    ensures Admitted(s, steps, t1, t2) == 0
    decreases steps
  {
    if steps != [] {
      SmallBucketStarves(Next(s, steps[0]), steps[1..], t1, t2);
    }
  }

  // ----- the decorator

  /** One undisturbed call of `consume`: where it sleeps, it tries again at `wake`. Also the time it ends. */
  function Enter(b: Bucket, now: real, wake: real): (Bucket, Outcome, real) {
    var (first, o) := Pass(b, now);
    if o.Sleeps? then
      var (second, again) := Pass(first, wake);
      (second, again, wake)
    else (first, o, now)
  }

  /** A sleeping call does not wake up early. */
  ghost predicate SleepsEnough(b: Bucket, now: real, wake: real) {
    Pass(b, now).1.Sleeps? ==> Pass(b, now).1.until <= wake
  }

  /** The end of the sleep, if there is one. */
  function Wake(b: Bucket, now: real): real {
    if Pass(b, now).1.Sleeps? then Pass(b, now).1.until else now
  }

  /** `rate_limited`: without a bucket every call goes through; with one, only admitted calls do. */
  function Gate(bucket: Option<Bucket>, now: real, wake: real): (Option<Bucket>, bool, real) {
    match bucket
    case None => (None, true, now)
    case Some(b) => var (b', o, at) := Enter(b, now, wake); (Some(b'), o.Granted?, at)
  }

  /**
   `buy_digital_spot` is gated and calls `buy_digital_spot_v2`, which is gated
   on the same bucket: the second gate is reached at `later`.
   */
  function GatedTwice(bucket: Option<Bucket>, now: real, wake: real, later: real, wakeLater: real)
    : (Option<Bucket>, bool, real)
  {
    var (once, through, at) := Gate(bucket, now, wake);
    if through then Gate(once, later, wakeLater) else (once, false, at)
  }

  /** Without a bucket every order is sent at once. */
  lemma NoBucketNoLimit(now: real, wake: real, later: real, wakeLater: real)
    ensures GatedTwice(None, now, wake, later, wakeLater) == (None, true, later)
  {
  }

  /** A blocking call that sleeps enough always ends with a token, and costs one. */
  lemma EnterGrants(b: Bucket, now: real, wake: real)
    requires b.Valid() && b.block && b.capacity >= 1.0 && b.refillRate > 0.0 && b.lastRefill <= now
    requires SleepsEnough(b, now, wake)
    ensures
      var (c, o, at) := Enter(b, now, wake);
      && o.Granted? && c.Valid() && c == b.(tokens := c.tokens, lastRefill := at) && now <= at
      && c.tokens == Min(b.capacity, Allowance(b, at)) - 1.0
  {
    RefillKeepsValid(b, now);
    if Pass(b, now).1.Sleeps? {
      WaitNonnegative(Refill(b, now).tokens, b.refillRate);
      RetryExact(b, now, wake);
      RefillTwice(b, now, wake);
      RefillKeepsValid(b, wake);
    }
  }

  lemma WaitNonnegative(level: real, rate: real)
    requires level < 1.0 && rate > 0.0
    ensures (1.0 - level) / rate >= 0.0
  {
  }

  /** The earliest time at which two tokens can have been there. */
  function EarliestSend(b: Bucket, now: real): real
    requires b.refillRate > 0.0
  {
    var level := Refill(b, now).tokens;
    now + if level >= 2.0 then 0.0 else (2.0 - level) / b.refillRate
  }

  lemma NotBefore(level: real, rate: real, span: real)
    requires rate > 0.0 && 0.0 <= span && 2.0 <= level + rate * span
    ensures span >= if level >= 2.0 then 0.0 else (2.0 - level) / rate
  {
    var wait := (2.0 - level) / rate;
    assert rate * wait == 2.0 - level;
    if span < wait {
      ProductPositive(rate, wait - span);
      assert rate * (wait - span) == rate * wait - rate * span;
    }
  }

  /**
   The client's own bucket blocks. An order through both gates is then always
   sent, however long the pauses; it costs two tokens, and never leaves before
   two tokens can have been there.
   */
  lemma NestedGateBlocks(b: Bucket, now: real, wake: real, later: real, wakeLater: real)
    requires b.Valid() && b.block && b.capacity >= 1.0 && b.refillRate > 0.0 && b.lastRefill <= now
    requires SleepsEnough(b, now, wake) && Enter(b, now, wake).2 <= later
    requires SleepsEnough(Enter(b, now, wake).0, later, wakeLater)
    ensures
      var (after, sent, at) := GatedTwice(Some(b), now, wake, later, wakeLater);
      && sent && at >= EarliestSend(b, now)
      && after.value.tokens <= Allowance(b, at) - 2.0
      && (Allowance(b, at) <= b.capacity ==> after.value.tokens == Allowance(b, at) - 2.0)
  {
    hide *;
    var (c, o, first) := Enter(b, now, wake);
    var (d, p, at) := Enter(c, later, wakeLater);
    var full := Refill(b, now);
    EnterGrants(b, now, wake);
    EnterGrants(c, later, wakeLater);
    ThroughBoth(b, now, wake, later, wakeLater);
    SameAfterRefill(b, now, first);
    TwoEntries(b, c, d.tokens, first, at);
    TwoEntries(full, c, d.tokens, first, at);
    NonnegativeLevel(d);
    NotBeforeEarliest(b, now, at);
  }

  lemma NonnegativeLevel(b: Bucket)
    requires b.Valid()
    ensures b.tokens >= 0.0
  {
  }

  lemma ThroughBoth(b: Bucket, now: real, wake: real, later: real, wakeLater: real)
    requires Enter(b, now, wake).1.Granted? && Enter(Enter(b, now, wake).0, later, wakeLater).1.Granted?
    ensures
      var (d, _, at) := Enter(Enter(b, now, wake).0, later, wakeLater);
      GatedTwice(Some(b), now, wake, later, wakeLater) == (Some(d), true, at)
  {
    hide Enter;
  }

  lemma SameAfterRefill(b: Bucket, now: real, first: real)
    requires b.Valid() && b.lastRefill <= now <= first
    ensures
      var full := Refill(b, now);
      && full.Valid() && full.lastRefill == now && full.capacity == b.capacity && full.refillRate == b.refillRate
      && Min(full.capacity, Allowance(full, first)) == Min(b.capacity, Allowance(b, first))
  {
    RefillKeepsValid(b, now);
    RefillTwice(b, now, first);
    hide Allowance;
  }

  lemma NotBeforeEarliest(b: Bucket, now: real, at: real)
    requires b.Valid() && b.lastRefill <= now <= at && b.refillRate > 0.0 && 2.0 <= Allowance(Refill(b, now), at)
    ensures at >= EarliestSend(b, now)
  {
    NotBefore(Refill(b, now).tokens, b.refillRate, at - now);
  }

  /** Two tokens taken on the way, in terms of the allowance at the start. */
  lemma TwoEntries(b: Bucket, c: Bucket, after: real, first: real, at: real)
    requires b.Valid() && b.lastRefill <= first <= at && c.refillRate == b.refillRate && c.lastRefill == first
    requires c.tokens == Min(b.capacity, Allowance(b, first)) - 1.0
    requires after == Min(b.capacity, Allowance(c, at)) - 1.0
    ensures after <= Allowance(b, at) - 2.0
    ensures Allowance(b, at) <= b.capacity ==> after == Allowance(b, at) - 2.0
  {
    AllowanceSplits(b, first, at);
  }

  /** What is left of the allowance after a stop on the way. */
  lemma AllowanceSplits(b: Bucket, t: real, u: real)
    requires b.Valid() && b.lastRefill <= t <= u
    ensures Allowance(b, u) == Allowance(b, t) + b.refillRate * (u - t)
    ensures Allowance(b, t) <= Allowance(b, u)
  {
    SplitSpan(b.refillRate, b.lastRefill, t, u);
    ProductNonnegative(b.refillRate, u - t);
  }

  /** That bound is reached: without any delay the order leaves exactly when the two tokens are there. */
  lemma NestedGateIsPrompt(b: Bucket, now: real)
    requires b.Valid() && b.block && b.capacity >= 1.0 && b.refillRate > 0.0 && b.lastRefill <= now
    ensures
      var wake := Wake(b, now);
      var (c, _, first) := Enter(b, now, wake);
      GatedTwice(Some(b), now, wake, first, Wake(c, first)).2 == EarliestSend(b, now)
  {
    var level, rate := Refill(b, now).tokens, b.refillRate;
    var wake := Wake(b, now);
    var (c, o, first) := Enter(b, now, wake);
    RefillKeepsValid(b, now);
    EnterGrants(b, now, wake);
    RefillAtOnce(c, first);
    if level < 1.0 {
      FirstSleep(b, now);
      QuotientsAdd(1.0 - level, 1.0, rate);
    }
  }

  lemma AllowanceAfter(b: Bucket, wait: real)
    ensures Allowance(b, b.lastRefill + wait) == b.tokens + b.refillRate * wait
  {
    var span := b.lastRefill + wait - b.lastRefill;
    assert span == wait;
  }

  /** After an exact sleep the level was one, and nothing is left. */
  lemma FirstSleep(b: Bucket, now: real)
    requires b.Valid() && b.block && b.capacity >= 1.0 && b.refillRate > 0.0 && b.lastRefill <= now
    requires Refill(b, now).tokens < 1.0
    ensures
      var wake := now + (1.0 - Refill(b, now).tokens) / b.refillRate;
      Wake(b, now) == wake && Enter(b, now, wake).0.tokens == 0.0 && Enter(b, now, wake).2 == wake
  {
    var level, rate := Refill(b, now).tokens, b.refillRate;
    var wait := (1.0 - level) / rate;
    assert rate * wait == 1.0 - level;
    RefillKeepsValid(b, now);
    AllowanceAfter(Refill(b, now), wait);
  }

  /**
   On a bucket that does not block, such an order needs one token at the first
   gate and another at the second, whose clock read may find some refilled;
   refused at the second gate, it has spent the first token all the same.
   */
  lemma NestedGateChargesTwice(b: Bucket, now: real, wake: real, later: real, wakeLater: real)
    requires b.Valid() && b.lastRefill <= now <= later && !b.block
    ensures
      var level, (after, sent, _) := Refill(b, now).tokens, GatedTwice(Some(b), now, wake, later, wakeLater);
      var refilled := level - 1.0 + b.refillRate * (later - now);
      && (sent <==> level >= 1.0 && refilled >= 1.0)
      && after.value.tokens ==
         if sent then Min(b.capacity, refilled) - 1.0 else if level >= 1.0 then refilled else level
  {
    RefillKeepsValid(b, now);
    ProductNonnegative(b.refillRate, later - now);
  }

  /** Back to back, it is sent only if two tokens are there at once. */
  lemma NestedGateAtOnce(b: Bucket, now: real, wake: real)
    requires b.Valid() && b.lastRefill <= now && !b.block
    ensures GatedTwice(Some(b), now, wake, now, wake).1 <==> Refill(b, now).tokens >= 2.0
  {
    NestedGateChargesTwice(b, now, wake, now, wake);
  }

  // ----- nested orders of any number of threads

  /** A thread's admissions lead it past its first gate and its second in turn. */
  ghost function AfterGate(s: System, step: Step, half: set<nat>): set<nat> {
    if !Admits(s, step) then half
    else if step.tid in half then half - {step.tid}
    else half + {step.tid}
  }

  /** This admission is a thread's second one, so its order leaves. */
  ghost predicate Leaves(s: System, step: Step, half: set<nat>) {
    Admits(s, step) && step.tid in half
  }

  /**
   The orders sent between `t1` and `t2`, both included, when every thread places
   nested orders. `half` are the threads between their two gates at the start.
   */
  ghost function OrdersSent(s: System, steps: seq<Step>, t1: real, t2: real, half: set<nat>): nat
    decreases steps
  {
    if steps == [] then 0
    else
      (if Leaves(s, steps[0], half) && t1 <= steps[0].at <= t2 then 1 else 0)
      + OrdersSent(Next(s, steps[0]), steps[1..], t1, t2, AfterGate(s, steps[0], half))
  }

  /** The threads between their two gates when the clock reaches `t`. */
  ghost function HalfAt(s: System, steps: seq<Step>, t: real, half: set<nat>): set<nat>
    decreases steps
  {
    if steps == [] || steps[0].at >= t then half
    else HalfAt(Next(s, steps[0]), steps[1..], t, AfterGate(s, steps[0], half))
  }

  lemma NextRefilledAt(s: System, step: Step)
    ensures Next(s, step).bucket.lastRefill == step.at
  {
  }

  lemma {:induction false} NoneSentLater(s: System, steps: seq<Step>, t1: real, t2: real, half: set<nat>)
    requires Legal(s, steps) && t2 < s.bucket.lastRefill
    ensures OrdersSent(s, steps, t1, t2, half) == 0
    decreases steps
  {
    if steps != [] {
      hide Admits, Next;
      NextRefilledAt(s, steps[0]);
      NoneSentLater(Next(s, steps[0]), steps[1..], t1, t2, AfterGate(s, steps[0], half));
    }
  }

  /** Inside the window an order uses up two admissions, or one if its thread was past the first gate before. */
  lemma {:induction false} TwoAdmissionsInside(s: System, steps: seq<Step>, t1: real, t2: real, half: set<nat>)
    requires Legal(s, steps) && t1 <= s.bucket.lastRefill
    ensures 2 * OrdersSent(s, steps, t1, t2, half) <= Admitted(s, steps, t1, t2) + |half|
    decreases steps
  {
    if steps != [] {
      hide Admits, Next;
      var n := Next(s, steps[0]);
      NextRefilledAt(s, steps[0]);
      if t2 < steps[0].at {
        NoneSentLater(n, steps[1..], t1, t2, AfterGate(s, steps[0], half));
      } else {
        TwoAdmissionsInside(n, steps[1..], t1, t2, AfterGate(s, steps[0], half));
      }
    }
  }

  /** In any window of a run, twice the orders sent are at most the admissions and the threads half-way at its start. */
  lemma {:induction false} TwoAdmissionsAnOrder(s: System, steps: seq<Step>, t1: real, t2: real, half: set<nat>)
    requires Legal(s, steps)
    ensures 2 * OrdersSent(s, steps, t1, t2, half)
         <= Admitted(s, steps, t1, t2) + |HalfAt(s, steps, t1, half)|
    decreases steps
  {
    if steps != [] {
      hide Admits, Next;
      var n := Next(s, steps[0]);
      NextRefilledAt(s, steps[0]);
      if t1 <= steps[0].at {
        WindowOpens(s, steps, t1, t2, half);
      } else {
        TwoAdmissionsAnOrder(n, steps[1..], t1, t2, AfterGate(s, steps[0], half));
      }
    }
  }

  lemma WindowOpens(s: System, steps: seq<Step>, t1: real, t2: real, half: set<nat>)
    requires Legal(s, steps) && steps != [] && t1 <= steps[0].at
    ensures 2 * OrdersSent(s, steps, t1, t2, half) <= Admitted(s, steps, t1, t2) + |half|
  {
    hide Admits, Next;
    var after := AfterGate(s, steps[0], half);
    NextRefilledAt(s, steps[0]);
    if t2 < steps[0].at {
      NoneSentLater(Next(s, steps[0]), steps[1..], t1, t2, after);
    } else {
      TwoAdmissionsInside(Next(s, steps[0]), steps[1..], t1, t2, after);
    }
  }

  /**
   Nested orders leave at half the rate: in every window of every run, twice
   their number is within the bound on admissions, and one more for each thread
   that is past its first gate when the window opens.
   */
  lemma NestedOrdersBound(s: System, steps: seq<Step>, t1: real, t2: real)
    requires s.bucket.Valid() && Legal(s, steps) && t1 <= t2
    ensures 2.0 * OrdersSent(s, steps, t1, t2, {}) as real
         <= s.bucket.capacity + s.bucket.refillRate * (t2 - t1) + |HalfAt(s, steps, t1, {})| as real
  {
    TwoAdmissionsAnOrder(s, steps, t1, t2, {});
    AdmissionBound(s, steps, t1, t2);
  }

  /** A window that opens with the run has no such threads. */
  lemma NestedOrdersFromTheStart(s: System, steps: seq<Step>, t: real)
    requires s.bucket.Valid() && Legal(s, steps) && s.bucket.lastRefill <= t
    ensures 2.0 * OrdersSent(s, steps, s.bucket.lastRefill, t, {}) as real
         <= s.bucket.capacity + s.bucket.refillRate * (t - s.bucket.lastRefill)
  {
    NestedOrdersBound(s, steps, s.bucket.lastRefill, t);
    assert HalfAt(s, steps, s.bucket.lastRefill, {}) == {};
  }

  /** A bucket for two tokens that gains one in two seconds, with nobody asleep. */
  function Small(tokens: real, lastRefill: real): System {
    System(Bucket(2.0, 0.5, true, tokens, lastRefill), map[])
  }

  lemma SmallGrants(tokens: real, lastRefill: real, tid: nat, at: real, left: real)
    requires 0.0 <= left <= 1.0 && left + 1.0 == Min(2.0, tokens + 0.5 * (at - lastRefill))
    ensures Admits(Small(tokens, lastRefill), Consume(tid, at))
    ensures Next(Small(tokens, lastRefill), Consume(tid, at)) == Small(left, at)
  {
    var nobody: map<nat, real> := map[];
    assert nobody - {tid} == nobody;
  }

  lemma SmallEnabled(tokens: real, lastRefill: real, tid: nat, at: real)
    requires lastRefill <= at
    ensures Enabled(Small(tokens, lastRefill), Consume(tid, at))
  {
  }

  lemma OneStepMore(s: System, step: Step, rest: seq<Step>, t: real, half: set<nat>, after: set<nat>)
    requires Enabled(s, step) && Admits(s, step) && Legal(Next(s, step), rest)
    requires after == if step.tid in half then half - {step.tid} else half + {step.tid}
    ensures
      var n := Next(s, step);
      && Legal(s, [step] + rest)
      && OrdersSent(s, [step] + rest, t, t, half) ==
           (if step.tid in half && step.at == t then 1 else 0) + OrdersSent(n, rest, t, t, after)
      && HalfAt(s, [step] + rest, t, half) == if step.at >= t then half else HalfAt(n, rest, t, after)
  {
    hide Next, Admits, Enabled;
    assert ([step] + rest)[1..] == rest;
  }

  lemma EmptyRun(s: System, t: real, half: set<nat>)
    ensures Legal(s, []) && OrdersSent(s, [], t, t, half) == 0
  {
  }

  lemma LateBurstEnds(p: nat, q: nat, t: real)
    requires p != q
    ensures
      var s, run := Small(0.0, t - 4.0), [Consume(p, t)] + ([Consume(q, t)] + []);
      && Legal(s, run) && OrdersSent(s, run, t, t, {p, q}) == 2 && HalfAt(s, run, t, {p, q}) == {p, q}
  {
    SmallGrants(0.0, t - 4.0, p, t, 1.0);
    SmallGrants(1.0, t, q, t, 0.0);
    SmallEnabled(0.0, t - 4.0, p, t);
    SmallEnabled(1.0, t, q, t);
    EmptyRun(Small(0.0, t), t, {});
    hide Next, Admits, Enabled, Legal, OrdersSent, HalfAt, Small;
    OneStepMore(Small(1.0, t), Consume(q, t), [], t, {q}, {});
    OneStepMore(Small(0.0, t - 4.0), Consume(p, t), [Consume(q, t)] + [], t, {p, q}, {q});
  }

  /**
   The half-way threads do count: on a bucket for two that gains one token in two
   seconds, two threads pass their first gates, and four seconds later both
   orders leave at the same instant.
   */
  lemma ALateBurst(p: nat, q: nat, t: real)
    requires p != q
    ensures
      var s, run := Small(2.0, t - 4.0), [Consume(p, t - 4.0), Consume(q, t - 4.0), Consume(p, t), Consume(q, t)];
      && s.bucket.Valid() && Legal(s, run)
      && OrdersSent(s, run, t, t, {}) == 2 && HalfAt(s, run, t, {}) == {p, q}
  {
    SmallGrants(2.0, t - 4.0, p, t - 4.0, 1.0);
    SmallGrants(1.0, t - 4.0, q, t - 4.0, 0.0);
    SmallEnabled(2.0, t - 4.0, p, t - 4.0);
    SmallEnabled(1.0, t - 4.0, q, t - 4.0);
    LateBurstEnds(p, q, t);
    assert Small(2.0, t - 4.0).bucket.Valid();
    hide Next, Admits, Enabled, Legal, OrdersSent, HalfAt, Small;
    var later := [Consume(p, t)] + ([Consume(q, t)] + []);
    OneStepMore(Small(1.0, t - 4.0), Consume(q, t - 4.0), later, t, {p}, {p, q});
    OneStepMore(Small(2.0, t - 4.0), Consume(p, t - 4.0), [Consume(q, t - 4.0)] + later, t, {}, {p});
    assert [Consume(p, t - 4.0)] + ([Consume(q, t - 4.0)] + later)
        == [Consume(p, t - 4.0), Consume(q, t - 4.0), Consume(p, t), Consume(q, t)];
  }
}

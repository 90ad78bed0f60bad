/**
 The breaker that pauses trading after losses. Clock reads are parameters: a
 call that reads the clock twice takes `now` and a `later` that is not earlier.
 */
module CircuitBreaking {
  import opened Common

  datatype Phase = Closed | Open | Half

  datatype Limits = Limits(losses: int, sessionLoss: real, drawdownPct: real, recoveryWait: real)

  /** The breaker's fields as a value. */
  datatype Breaker = Breaker(
    limits: Limits, phase: Phase, losses: int, sessionLoss: real,
    initialBalance: Option<real>, peak: real, current: real,
    trips: nat, lastTrip: real, probeSpent: bool)

  function Fresh(limits: Limits): Breaker {
    Breaker(limits, Closed, 0, 0.0, None, 0.0, 0.0, 0, 0.0, false)
  }

  /** Reading the `state` property: an open breaker turns half-open once the wait is over. */
  function Settle(b: Breaker, now: real): Breaker {
    if b.phase.Open? && now - b.lastTrip >= b.limits.recoveryWait
    then b.(phase := Half, probeSpent := false)
    else b
  }

  function Trip(b: Breaker, now: real): Breaker {
    b.(phase := Open, lastTrip := now, trips := b.trips + 1)
  }

  function NoteBalance(b: Breaker, balance: real): Breaker {
    var first := if b.initialBalance.None? then b.(initialBalance := Some(balance), peak := balance) else b;
    first.(peak := Max(first.peak, balance), current := balance)
  }

  function DrawnDown(b: Breaker): bool {
    b.peak > 0.0 && b.current > 0.0 && (b.peak - b.current) / b.peak >= b.limits.drawdownPct
  }

  function CheckThresholds(b: Breaker, now: real): Breaker {
    if !b.phase.Closed? then b
    else if b.losses >= b.limits.losses || b.sessionLoss >= b.limits.sessionLoss || DrawnDown(b) then Trip(b, now)
    else b
  }

  function RecordWin(b: Breaker, balance: real, now: real): Breaker {
    var s := Settle(NoteBalance(b.(losses := 0), balance), now);
    if s.phase.Half? then s.(phase := Closed) else s
  }

  function RecordLoss(b: Breaker, amount: real, balance: real, now: real, later: real): Breaker {
    var s := Settle(NoteBalance(b.(losses := b.losses + 1, sessionLoss := b.sessionLoss + amount), balance), now);
    if s.phase.Half? then Trip(s, later) else CheckThresholds(s, later)
  }

  function CanTrade(b: Breaker, now: real): (Breaker, bool) {
    var s := Settle(b, now);
    if s.phase.Closed? then (s, true)
    else if s.phase.Half? && !s.probeSpent then (s.(probeSpent := true), true)
    else (s, false)
  }

  function RecordSuccess(b: Breaker): Breaker {
    b.(losses := 0, phase := Closed)
  }

  function RecordFailure(b: Breaker, now: real): Breaker {
    var f := b.(losses := b.losses + 1);
    if f.losses >= f.limits.losses then Trip(f, now) else f
  }

  function ResetSession(b: Breaker, balance: real): Breaker {
    b.(losses := 0, sessionLoss := 0.0, initialBalance := Some(balance), peak := balance, phase := Closed)
  }

  /** The report reads the state, and then calls `can_trade`. */
  function StatusReport(b: Breaker, now: real, later: real): (Breaker, Report) {
    var s := Settle(b, now);
    var (after, allowed) := CanTrade(s, later);
    (after, Report(s.phase, s.losses, s.sessionLoss, s.trips, s.peak,
                   if s.peak > 0.0 then Rounded((s.peak - s.current) / s.peak, 10000) else 0.0, allowed))
  }

  datatype Report = Report(
    phase: Phase, losses: int, sessionLoss: real, trips: nat, peak: real, drawdown: real, canTrade: bool)

  // ----- the breaker object

  class CircuitBreaker {
    const limits: Limits
    var phase: Phase
    var losses: int
    var sessionLoss: real
    var initialBalance: Option<real>
    var peak: real
    var current: real
    var trips: nat
    var lastTrip: real
    var probeSpent: bool

    ghost function Value(): Breaker
      reads this
    {
      Breaker(limits, phase, losses, sessionLoss, initialBalance, peak, current, trips, lastTrip, probeSpent)
    }

    constructor (limits: Limits)
      ensures Value() == Fresh(limits)
    {
      this.limits := limits;
      phase, losses, sessionLoss, initialBalance := Closed, 0, 0.0, None;
      peak, current, trips, lastTrip, probeSpent := 0.0, 0.0, 0, 0.0, false;
    }

    method State(now: real) returns (p: Phase)
      modifies this
      ensures Value() == Settle(old(Value()), now) && p == phase
    {
      if phase == Open && now - lastTrip >= limits.recoveryWait {
        phase := Half;
        probeSpent := false;
      }
      p := phase;
    }

    method TripNow(now: real)
      modifies this
      ensures Value() == Trip(old(Value()), now)
    {
      phase := Open;
      lastTrip := now;
      trips := trips + 1;
    }

    method UpdateBalanceMetrics(balance: real)
      modifies this
      ensures Value() == NoteBalance(old(Value()), balance)
    {
      if initialBalance == None {
        initialBalance := Some(balance);
        peak := balance;
      }
      if balance > peak {
        peak := balance;
      }
      current := balance;
    }

    method Check(now: real)
      modifies this
      ensures Value() == CheckThresholds(old(Value()), now)
    {
      if phase != Closed {
        return;
      }
      if losses >= limits.losses {
        TripNow(now);
        return;
      }
      if sessionLoss >= limits.sessionLoss {
        TripNow(now);
        return;
      }
      if peak > 0.0 && current > 0.0 {
        var drawdown := (peak - current) / peak;
        if drawdown >= limits.drawdownPct {
          TripNow(now);
        }
      }
    }

    method Win(balance: real, now: real)
      modifies this
      ensures Value() == RecordWin(old(Value()), balance, now)
    {
      losses := 0;
      UpdateBalanceMetrics(balance);
      var p := State(now);
      if p == Half {
        phase := Closed;
      }
    }

    method Loss(amount: real, balance: real, now: real, later: real)
      modifies this
      ensures Value() == RecordLoss(old(Value()), amount, balance, now, later)
    {
      losses := losses + 1;
      sessionLoss := sessionLoss + amount;
      UpdateBalanceMetrics(balance);
      var p := State(now);
      if p == Half {
        TripNow(later);
      } else {
        Check(later);
      }
    }

    method IsOpen(now: real) returns (open: bool)
      modifies this
      ensures Value() == Settle(old(Value()), now) && (open <==> phase == Open)
    {
      var p := State(now);
      open := p == Open;
    }

    method MayTrade(now: real) returns (allowed: bool)
      modifies this
      ensures (Value(), allowed) == CanTrade(old(Value()), now)
    {
      var p := State(now);
      if p == Closed {
        return true;
      }
      if p == Half {
        if !probeSpent {
          probeSpent := true;
          return true;
        }
      }
      allowed := false;
    }

    method Success()
      modifies this
      ensures Value() == RecordSuccess(old(Value()))
    {
      losses := 0;
      if phase != Closed {
        phase := Closed;
      }
    }

    method Failure(now: real)
      modifies this
      ensures Value() == RecordFailure(old(Value()), now)
    {
      losses := losses + 1;
      if losses >= limits.losses {
        TripNow(now);
      }
    }

    method Reset(balance: real)
      modifies this
      ensures Value() == ResetSession(old(Value()), balance)
    {
      losses := 0;
      sessionLoss := 0.0;
      initialBalance := Some(balance);
      peak := balance;
      phase := Closed;
    }

    method Status(now: real, later: real) returns (r: Report)
      modifies this
      ensures (Value(), r) == StatusReport(old(Value()), now, later)
    {
      var p := State(now);
      var drawdown := if peak > 0.0 then Rounded((peak - current) / peak, 10000) else 0.0;
      var snapshot := Report(p, losses, sessionLoss, trips, peak, drawdown, false);
      var allowed := MayTrade(later);
      r := snapshot.(canTrade := allowed);
    }
  }

  // ----- runs

  datatype Op =
    | Won(balance: real)
    | Lost(amount: real, balance: real)
    | Ask
    | Peek
    | Describe
    | Succeed
    | Fail
    | Reopen(balance: real)
    | Note(balance: real)

  /** A call, with the first and last clock reads it may make. */
  datatype Event = Event(op: Op, at: real, later: real)

  function Step(b: Breaker, e: Event): Breaker {
    match e.op
    case Won(balance) => RecordWin(b, balance, e.at)
    case Lost(amount, balance) => RecordLoss(b, amount, balance, e.at, e.later)
    case Ask => CanTrade(b, e.later).0
    case Peek => Settle(b, e.later)
    case Describe => StatusReport(b, e.at, e.later).0
    case Succeed => RecordSuccess(b)
    case Fail => RecordFailure(b, e.later)
    case Reopen(balance) => ResetSession(b, balance)
    case Note(balance) => NoteBalance(b, balance)
  }

  function Run(b: Breaker, events: seq<Event>): Breaker
    decreases events
  {
    if events == [] then b else Run(Step(b, events[0]), events[1..])
  }

  /** Clock reads never go back, and none is before `since`. */
  ghost predicate Ordered(events: seq<Event>, since: real) {
    events == [] || (since <= events[0].at <= events[0].later && Ordered(events[1..], events[0].later))
  }

  /** The call lets a trade through. */
  ghost predicate Grants(b: Breaker, e: Event) {
    (e.op.Ask? && CanTrade(b, e.later).1) || (e.op.Describe? && StatusReport(b, e.at, e.later).1.canTrade)
  }

  /** The call lets the half-open test trade through. */
  ghost predicate GrantsProbe(b: Breaker, e: Event) {
    Grants(b, e) && Settle(b, e.later).phase.Half?
  }

  ghost predicate BelowLimit(b: Breaker) {
    b.phase.Closed? ==> b.losses < b.limits.losses
  }

  lemma StepBelowLimit(b: Breaker, e: Event)
    requires BelowLimit(b) && b.limits.losses >= 1
    ensures BelowLimit(Step(b, e)) && Step(b, e).limits == b.limits
  {
  }

  lemma {:induction false} ClosedMeansBelowLimit(b: Breaker, events: seq<Event>)
    requires BelowLimit(b) && b.limits.losses >= 1
    ensures BelowLimit(Run(b, events)) && Run(b, events).limits == b.limits
    decreases events
  {
    if events != [] {
      hide Step, BelowLimit;
      StepBelowLimit(b, events[0]);
      ClosedMeansBelowLimit(Step(b, events[0]), events[1..]);
    }
  }

  /** A new breaker that is closed is below its loss limit in every run, if and only if the limit is at least one. */
  lemma FreshClosedMeansBelowLimit(limits: Limits)
    ensures limits.losses >= 1 <==> forall events :: BelowLimit(Run(Fresh(limits), events))
  {
    if limits.losses >= 1 {
      forall events ensures BelowLimit(Run(Fresh(limits), events)) {
        ClosedMeansBelowLimit(Fresh(limits), events);
      }
    } else {
      assert !BelowLimit(Run(Fresh(limits), []));
    }
  }

  /** After a trip nothing is let through until the wait is over, short of a success or a reset. */
  lemma {:induction false} OpenGrantsNothing(b: Breaker, events: seq<Event>, k: nat)
    requires b.phase.Open? && Ordered(events, b.lastTrip) && k < |events|
    requires forall e :: e in events ==> e.later - b.lastTrip < b.limits.recoveryWait && !e.op.Succeed? && !e.op.Reopen?
    ensures Run(b, events[..k]).phase.Open? && !Grants(Run(b, events[..k]), events[k])
    decreases events
  {
    if k > 0 {
      assert events[..k][1..] == events[1..][..k - 1];
      assert events[0] in events;
      var n := Step(b, events[0]);
      assert n.phase.Open? && b.lastTrip <= n.lastTrip && n.limits == b.limits;
      if n.lastTrip != b.lastTrip {
        assert n.lastTrip == events[0].later;
      } else {
        OrderedSooner(events[1..], events[0].later, n.lastTrip);
      }
      OpenGrantsNothing(n, events[1..], k - 1);
    }
  }

  lemma OrderedSooner(events: seq<Event>, since: real, earlier: real)
    requires Ordered(events, since) && earlier <= since
    ensures Ordered(events, earlier)
  {
  }

  /** No probe is left over from before `since`. */
  ghost predicate ProbeUsed(b: Breaker, since: real) {
    (b.phase.Half? ==> b.probeSpent) && (b.phase.Open? ==> since <= b.lastTrip)
  }

  /** Before the wait is over, a step neither lets a probe through nor makes one available. */
  lemma ProbeStaysUsed(b: Breaker, e: Event, since: real)
    requires ProbeUsed(b, since) && since <= e.at <= e.later < since + b.limits.recoveryWait
    ensures ProbeUsed(Step(b, e), since) && Step(b, e).limits == b.limits && !GrantsProbe(b, e)
  {
  }

  lemma {:induction false} NextProbeIsLate(b: Breaker, events: seq<Event>, since: real, now: real, j: nat)
    requires ProbeUsed(b, since) && since <= now && Ordered(events, now) && j < |events|
    requires GrantsProbe(Run(b, events[..j]), events[j])
    ensures since + b.limits.recoveryWait <= events[j].later
    decreases events
  {
    hide ProbeUsed, Step, GrantsProbe;
    var e := events[0];
    if since + b.limits.recoveryWait <= e.later {
      LaterStill(events, now, 0, j);
    } else {
      ProbeStaysUsed(b, e, since);
      if j > 0 {
        assert events[..j][1..] == events[1..][..j - 1];
        NextProbeIsLate(Step(b, e), events[1..], since, e.later, j - 1);
      }
    }
  }

  lemma {:induction false} LaterStill(events: seq<Event>, since: real, i: nat, j: nat)
    requires Ordered(events, since) && i <= j < |events|
    ensures events[i].later <= events[j].later && (i < j ==> events[i].later <= events[j].at)
    decreases events
  {
    if i > 0 {
      LaterStill(events[1..], events[0].later, i - 1, j - 1);
    } else if j > 1 {
      LaterStill(events[1..], events[0].later, 0, j - 1);
    }
  }

  lemma StepKeepsLimits(b: Breaker, e: Event)
    ensures Step(b, e).limits == b.limits
  {
  }

  lemma ProbeSpendsItself(b: Breaker, e: Event)
    requires GrantsProbe(b, e)
    ensures ProbeUsed(Step(b, e), e.later)
  {
  }

  /**
   In every run, any two half-open test trades are at least the recovery wait
   apart, even when a win, a success or a reset comes between them.
   */
  lemma {:induction false} ProbesAreSpaced(b: Breaker, events: seq<Event>, since: real, i: nat, j: nat)
    requires Ordered(events, since) && i < j < |events|
    requires GrantsProbe(Run(b, events[..i]), events[i])
    requires GrantsProbe(Run(b, events[..j]), events[j])
    ensures events[j].later - events[i].later >= b.limits.recoveryWait
    decreases events
  {
    var n := Step(b, events[0]);
    assert events[..j][1..] == events[1..][..j - 1];
    StepKeepsLimits(b, events[0]);
    hide Step, GrantsProbe, ProbeUsed;
    if i == 0 {
      ProbeSpendsItself(b, events[0]);
      NextProbeIsLate(n, events[1..], events[0].later, events[0].later, j - 1);
    } else {
      assert events[..i][1..] == events[1..][..i - 1];
      ProbesAreSpaced(n, events[1..], events[0].later, i - 1, j - 1);
    }
  }

  // ----- when a trade is granted, told from the calls

  /** Losses and failures since the last win, success or reset. */
  function LossesSince(events: seq<Event>): nat {
    if events == [] then 0
    else
      var before, op := events[..|events| - 1], events[|events| - 1].op;
      if op.Won? || op.Succeed? || op.Reopen? then 0
      else if op.Lost? || op.Fail? then LossesSince(before) + 1
      else LossesSince(before)
  }

  /** What was lost since the last reset. */
  function LostSince(events: seq<Event>): real {
    if events == [] then 0.0
    else
      var before, op := events[..|events| - 1], events[|events| - 1].op;
      if op.Reopen? then 0.0 else if op.Lost? then LostSince(before) + op.amount else LostSince(before)
  }

  /** The highest balance since the last reset, and None before the first balance. */
  function PeakSince(events: seq<Event>): Option<real> {
    if events == [] then None
    else
      var before, op := events[..|events| - 1], events[|events| - 1].op;
      if op.Reopen? then Some(op.balance)
      else if op.Won? || op.Lost? || op.Note? then
        Some(if PeakSince(before).Some? then Max(PeakSince(before).value, op.balance) else op.balance)
      else PeakSince(before)
  }

  /** The last balance reported; a reset does not count as a report. */
  function LastBalance(events: seq<Event>): real {
    if events == [] then 0.0
    else
      var op := events[|events| - 1].op;
      if op.Won? || op.Lost? || op.Note? then op.balance else LastBalance(events[..|events| - 1])
  }

  /** The last call is a loss or a failure that reaches a limit; the drawdown counts only with money left. */
  predicate ReachesLimit(limits: Limits, events: seq<Event>)
    requires events != []
  {
    var op := events[|events| - 1].op;
    || ((op.Lost? || op.Fail?) && LossesSince(events) >= limits.losses)
    || (op.Lost? && LostSince(events) >= limits.sessionLoss)
    || (op.Lost? && op.balance > 0.0 && PeakSince(events).Some? && PeakSince(events).value > 0.0
        && (PeakSince(events).value - op.balance) / PeakSince(events).value >= limits.drawdownPct)
  }

  /** The trip that stands, and whether a trade was granted since. */
  datatype Pause = Running | Paused(since: real, probed: bool)

  predicate WaitOver(limits: Limits, p: Pause, now: real) {
    p.Paused? && now - p.since >= limits.recoveryWait
  }

  /** The calls that ask whether a trade may be made. */
  predicate Asks(e: Event) {
    e.op.Ask? || e.op.Describe?
  }

  /**
   A loss or failure that reaches a limit starts a pause, and so does any loss
   once the wait is over; a success or a reset ends it, and a win once the wait is
   over. Of the questions asked after the wait, the first is granted.
   */
  function PauseAfter(limits: Limits, events: seq<Event>): Pause {
    if events == [] then Running
    else
      var e, before := events[|events| - 1], PauseAfter(limits, events[..|events| - 1]);
      if e.op.Succeed? || e.op.Reopen? then Running
      else if e.op.Won? then (if WaitOver(limits, before, e.at) then Running else before)
      else if e.op.Fail? then (if ReachesLimit(limits, events) then Paused(e.later, false) else before)
      else if e.op.Lost? then
        (if WaitOver(limits, before, e.at) || (before.Running? && ReachesLimit(limits, events))
         then Paused(e.later, false) else before)
      else if Asks(e) && WaitOver(limits, before, e.later) then before.(probed := true)
      else before
  }

  /** The last call starts a pause, or starts it anew. */
  predicate StartsPause(limits: Limits, events: seq<Event>)
    requires events != []
  {
    var e, before := events[|events| - 1], PauseAfter(limits, events[..|events| - 1]);
    || (e.op.Fail? && ReachesLimit(limits, events))
    || (e.op.Lost? && (WaitOver(limits, before, e.at) || (before.Running? && ReachesLimit(limits, events))))
  }

  function PausesIn(limits: Limits, events: seq<Event>): nat {
    if events == [] then 0
    else PausesIn(limits, events[..|events| - 1]) + if StartsPause(limits, events) then 1 else 0
  }

  /** The breaker after the calls, and the clock, are as told. */
  ghost predicate AsTold(b: Breaker, limits: Limits, events: seq<Event>, clock: real) {
    && CountsAsTold(b, limits, events)
    && PauseAsTold(b, PauseAfter(limits, events), clock)
  }

  ghost predicate CountsAsTold(b: Breaker, limits: Limits, events: seq<Event>) {
    && b.limits == limits && b.losses == LossesSince(events) && b.sessionLoss == LostSince(events)
    && b.current == LastBalance(events)
    && (if PeakSince(events).Some? then b.initialBalance.Some? && b.peak == PeakSince(events).value
        else b.initialBalance.None?)
  }

  ghost predicate PauseAsTold(b: Breaker, p: Pause, clock: real) {
    if p.Running? then b.phase.Closed?
    else
      && b.lastTrip == p.since
      && (b.phase.Open? ==> !p.probed)
      && (b.phase.Half? ==> WaitOver(b.limits, p, clock) && b.probeSpent == p.probed)
      && !b.phase.Closed?
  }

  lemma CheckKeepsCounts(b: Breaker, now: real)
    ensures
      var n := CheckThresholds(b, now);
      && n.limits == b.limits && n.losses == b.losses && n.sessionLoss == b.sessionLoss
      && n.initialBalance == b.initialBalance && n.peak == b.peak && n.current == b.current
  {
    hide DrawnDown;
  }

  lemma LossCounts(b: Breaker, amount: real, balance: real, now: real, later: real)
    ensures
      var n, noted := RecordLoss(b, amount, balance, now, later), NoteBalance(b, balance);
      && n.limits == b.limits && n.losses == b.losses + 1 && n.sessionLoss == b.sessionLoss + amount
      && n.initialBalance == noted.initialBalance && n.peak == noted.peak && n.current == balance
  {
    var noted := NoteBalance(b.(losses := b.losses + 1, sessionLoss := b.sessionLoss + amount), balance);
    CheckKeepsCounts(Settle(noted, now), later);
    hide CheckThresholds;
  }

  lemma QuestionKeepsCounts(b: Breaker, at: real, later: real)
    ensures
      var n, m := CanTrade(b, later).0, StatusReport(b, at, later).0;
      && n.limits == m.limits == b.limits && n.losses == m.losses == b.losses
      && n.sessionLoss == m.sessionLoss == b.sessionLoss
      && n.initialBalance == m.initialBalance == b.initialBalance && n.peak == m.peak == b.peak
      && n.current == m.current == b.current
  {
    hide Rounded;
  }

  /** What a call does to the counts. */
  lemma StepCounts(b: Breaker, e: Event)
    ensures
      var n, op := Step(b, e), e.op;
      && n.limits == b.limits
      && n.losses == (if op.Won? || op.Succeed? || op.Reopen? then 0
                      else if op.Lost? || op.Fail? then b.losses + 1 else b.losses)
      && n.sessionLoss ==
           (if op.Reopen? then 0.0 else if op.Lost? then b.sessionLoss + op.amount else b.sessionLoss)
      && n.current == (if op.Won? || op.Lost? || op.Note? then op.balance else b.current)
      && (if op.Reopen? then n.initialBalance == Some(op.balance) && n.peak == op.balance
          else if op.Won? || op.Lost? || op.Note? then
            n.initialBalance.Some? && n.peak == if b.initialBalance.Some? then Max(b.peak, op.balance) else op.balance
          else n.initialBalance == b.initialBalance && n.peak == b.peak)
  {
    QuestionKeepsCounts(b, e.at, e.later);
    if e.op.Lost? {
      LossCounts(b, e.op.amount, e.op.balance, e.at, e.later);
    }
    hide RecordLoss, CanTrade, StatusReport;
  }

  lemma CountsStep(b: Breaker, limits: Limits, events: seq<Event>)
    requires events != [] && CountsAsTold(b, limits, events[..|events| - 1])
    ensures CountsAsTold(Step(b, events[|events| - 1]), limits, events)
  {
    StepCounts(b, events[|events| - 1]);
    hide Step;
  }

  lemma PauseStepOnLoss(b: Breaker, limits: Limits, events: seq<Event>, clock: real)
    requires events != [] && CountsAsTold(b, limits, events[..|events| - 1]) && events[|events| - 1].op.Lost?
    requires PauseAsTold(b, PauseAfter(limits, events[..|events| - 1]), clock)
    requires clock <= events[|events| - 1].at <= events[|events| - 1].later
    ensures PauseAsTold(Step(b, events[|events| - 1]), PauseAfter(limits, events), events[|events| - 1].later)
  {
    var e := events[|events| - 1];
    CountsStep(b, limits, events);
    LossReaches(b, limits, events);
    hide CountsAsTold, ReachesLimit, CheckThresholds, NoteBalance;
  }

  /** A closed breaker trips on a loss that reaches a limit, and a half-open one on any loss. */
  lemma LossReaches(b: Breaker, limits: Limits, events: seq<Event>)
    requires events != [] && CountsAsTold(b, limits, events[..|events| - 1]) && events[|events| - 1].op.Lost?
    ensures
      var e := events[|events| - 1];
      var s, after := Settle(b, e.at), Step(b, e);
      if s.phase.Half? || (s.phase.Closed? && ReachesLimit(limits, events))
      then after.phase.Open? && after.lastTrip == e.later && after.trips == b.trips + 1
      else after.phase == s.phase && after.lastTrip == s.lastTrip && after.trips == b.trips
  {
  }

  lemma PauseStepOnWin(b: Breaker, limits: Limits, events: seq<Event>, clock: real)
    requires events != [] && b.limits == limits && events[|events| - 1].op.Won?
    requires PauseAsTold(b, PauseAfter(limits, events[..|events| - 1]), clock)
    requires clock <= events[|events| - 1].at <= events[|events| - 1].later
    ensures PauseAsTold(Step(b, events[|events| - 1]), PauseAfter(limits, events), events[|events| - 1].later)
  {
    hide ReachesLimit;
  }

  lemma PauseStepOnFailure(b: Breaker, limits: Limits, events: seq<Event>, clock: real)
    requires events != [] && CountsAsTold(b, limits, events[..|events| - 1]) && events[|events| - 1].op.Fail?
    requires PauseAsTold(b, PauseAfter(limits, events[..|events| - 1]), clock)
    requires clock <= events[|events| - 1].at <= events[|events| - 1].later
    ensures PauseAsTold(Step(b, events[|events| - 1]), PauseAfter(limits, events), events[|events| - 1].later)
  {
    hide LostSince, PeakSince;
  }

  lemma PauseStepOnQuestion(b: Breaker, limits: Limits, events: seq<Event>, clock: real)
    requires events != [] && b.limits == limits && Asks(events[|events| - 1])
    requires PauseAsTold(b, PauseAfter(limits, events[..|events| - 1]), clock)
    requires clock <= events[|events| - 1].at <= events[|events| - 1].later
    ensures PauseAsTold(Step(b, events[|events| - 1]), PauseAfter(limits, events), events[|events| - 1].later)
  {
    hide ReachesLimit, Rounded;
  }

  lemma PauseStep(b: Breaker, limits: Limits, events: seq<Event>, clock: real)
    requires events != [] && CountsAsTold(b, limits, events[..|events| - 1])
    requires PauseAsTold(b, PauseAfter(limits, events[..|events| - 1]), clock)
    requires clock <= events[|events| - 1].at <= events[|events| - 1].later
    ensures PauseAsTold(Step(b, events[|events| - 1]), PauseAfter(limits, events), events[|events| - 1].later)
  {
    var e := events[|events| - 1];
    if e.op.Lost? {
      PauseStepOnLoss(b, limits, events, clock);
    } else if e.op.Won? {
      assert b.limits == limits;
      PauseStepOnWin(b, limits, events, clock);
    } else if e.op.Fail? {
      PauseStepOnFailure(b, limits, events, clock);
    } else if Asks(e) {
      assert b.limits == limits;
      PauseStepOnQuestion(b, limits, events, clock);
    } else {
      hide ReachesLimit, LossesSince, LostSince, PeakSince;
      hide CanTrade, StatusReport, RecordWin, RecordLoss, RecordFailure;
    }
  }

  lemma TripsStep(b: Breaker, limits: Limits, events: seq<Event>, clock: real)
    requires events != [] && CountsAsTold(b, limits, events[..|events| - 1])
    requires PauseAsTold(b, PauseAfter(limits, events[..|events| - 1]), clock)
    requires clock <= events[|events| - 1].at <= events[|events| - 1].later
    ensures Step(b, events[|events| - 1]).trips == b.trips + if StartsPause(limits, events) then 1 else 0
  {
    var e := events[|events| - 1];
    if e.op.Lost? {
      LossReaches(b, limits, events);
      hide ReachesLimit, CountsAsTold, RecordLoss;
    } else if e.op.Fail? {
      hide LostSince, PeakSince, RecordLoss;
    } else {
      hide ReachesLimit, CountsAsTold, RecordLoss, RecordFailure, Rounded;
    }
  }

  lemma {:induction false} RunMore(b: Breaker, events: seq<Event>, e: Event)
    ensures Run(b, events + [e]) == Step(Run(b, events), e)
    decreases events
  {
    hide Step;
    if events == [] {
      assert events + [e] == [e] && [e][1..] == [];
    } else {
      assert (events + [e])[1..] == events[1..] + [e];
      RunMore(Step(b, events[0]), events[1..], e);
    }
  }

  lemma {:induction false} OrderedFront(events: seq<Event>, e: Event, since: real)
    requires Ordered(events + [e], since)
    ensures Ordered(events, since) && since <= LastClock(events, since) <= e.at <= e.later
    decreases events
  {
    if events != [] {
      assert (events + [e])[1..] == events[1..] + [e];
      OrderedFront(events[1..], e, events[0].later);
    }
  }

  function LastClock(events: seq<Event>, since: real): real {
    if events == [] then since else events[|events| - 1].later
  }

  lemma {:induction false} RunsAsTold(limits: Limits, events: seq<Event>, since: real)
    requires Ordered(events, since)
    ensures AsTold(Run(Fresh(limits), events), limits, events, LastClock(events, since))
    ensures Run(Fresh(limits), events).trips == PausesIn(limits, events)
    decreases |events|
  {
    if events != [] {
      hide Step, CountsAsTold, PauseAsTold, PauseAfter, Ordered, StartsPause;
      var front, e := events[..|events| - 1], events[|events| - 1];
      assert events == front + [e];
      OrderedFront(front, e, since);
      RunsAsTold(limits, front, since);
      RunMore(Fresh(limits), front, e);
      CountsStep(Run(Fresh(limits), front), limits, events);
      PauseStep(Run(Fresh(limits), front), limits, events, LastClock(front, since));
      TripsStep(Run(Fresh(limits), front), limits, events, LastClock(front, since));
    }
  }

  lemma GrantedAsTold(b: Breaker, p: Pause, clock: real, e: Event)
    requires PauseAsTold(b, p, clock) && clock <= e.at <= e.later
    ensures Grants(b, e) <==> Asks(e) && (p.Running? || (WaitOver(b.limits, p, e.later) && !p.probed))
  {
  }

  /**
   In every run of a new breaker, a question is granted if and only if no pause
   stands, or its wait is over and nothing was granted since it began.
   */
  lemma GrantsExactly(limits: Limits, events: seq<Event>, e: Event, since: real)
    requires Ordered(events + [e], since)
    ensures
      var p := PauseAfter(limits, events);
      Grants(Run(Fresh(limits), events), e) <==>
        Asks(e) && (p.Running? || (WaitOver(limits, p, e.later) && !p.probed))
  {
    hide Run, PauseAfter, Grants, PauseAsTold, Asks;
    OrderedFront(events, e, since);
    RunsAsTold(limits, events, since);
    GrantedAsTold(Run(Fresh(limits), events), PauseAfter(limits, events), LastClock(events, since), e);
  }

  /** A report tells the counts, the pause and the drawdown of the calls before it. */
  lemma ReportsExactly(limits: Limits, events: seq<Event>, e: Event, since: real)
    requires Ordered(events + [e], since)
    ensures
      var r, p := StatusReport(Run(Fresh(limits), events), e.at, e.later).1, PauseAfter(limits, events);
      && r.losses == LossesSince(events) && r.sessionLoss == LostSince(events) && r.trips == PausesIn(limits, events)
      && (r.phase.Closed? <==> p.Running?) && (r.phase.Half? <==> WaitOver(limits, p, e.at))
      && (PeakSince(events).Some? ==> r.peak == PeakSince(events).value)
      && (PeakSince(events).Some? && r.peak > 0.0 ==>
            r.drawdown == Rounded((r.peak - LastBalance(events)) / r.peak, 10000))
  {
    OrderedFront(events, e, since);
    RunsAsTold(limits, events, since);
    hide Run, PauseAfter, LossesSince, LostSince, PausesIn, PeakSince, LastBalance, Rounded, Ordered;
  }

  lemma {:induction false} NeverPaused(limits: Limits, events: seq<Event>)
    requires forall k :: 0 < k <= |events| ==> !ReachesLimit(limits, events[..k])
    ensures PauseAfter(limits, events).Running?
    decreases events
  {
    if events != [] {
      hide ReachesLimit;
      var front := events[..|events| - 1];
      assert events[..|events|] == events;
      forall k | 0 < k <= |front| ensures !ReachesLimit(limits, front[..k]) {
        assert front[..k] == events[..k];
      }
      NeverPaused(limits, front);
    }
  }

  /** So a run in which no limit is reached grants every question. */
  lemma GrantsWithinLimits(limits: Limits, events: seq<Event>, e: Event, since: real)
    requires Ordered(events + [e], since) && Asks(e)
    requires forall k :: 0 < k <= |events| ==> !ReachesLimit(limits, events[..k])
    ensures Grants(Run(Fresh(limits), events), e)
  {
    hide ReachesLimit, Run, Grants;
    NeverPaused(limits, events);
    GrantsExactly(limits, events, e, since);
  }

  // ----- what a status report costs

  /** Asking for a report is asking to trade: same verdict, and the same probe spent. */
  lemma ReportSpendsTheProbe(b: Breaker, now: real, later: real)
    requires now <= later
    ensures StatusReport(b, now, later).0 == CanTrade(b, later).0
    ensures StatusReport(b, now, later).1.canTrade == CanTrade(b, later).1
    ensures Settle(b, later).phase.Half? ==> !CanTrade(StatusReport(b, now, later).0, later).1
  {
  }

  // ----- which losses trip

  /** The peak a loss is measured against. */
  function PeakWith(b: Breaker, balance: real): real {
    if b.initialBalance.None? then balance else Max(b.peak, balance)
  }

  /** The rule as intended: any one of the three limits is reached. */
  ghost predicate LimitReached(b: Breaker, amount: real, balance: real) {
    || b.losses + 1 >= b.limits.losses
    || b.sessionLoss + amount >= b.limits.sessionLoss
    || (PeakWith(b, balance) > 0.0 && PeakWith(b, balance) - balance >= b.limits.drawdownPct * PeakWith(b, balance))
  }

  /** A closed breaker follows the rule unless only the drawdown limit is reached and the account is empty. */
  lemma LossTripsExactly(b: Breaker, amount: real, balance: real, now: real, later: real)
    requires b.phase.Closed?
    ensures RecordLoss(b, amount, balance, now, later).phase.Open? <==>
      && LimitReached(b, amount, balance)
      && (balance > 0.0 || b.losses + 1 >= b.limits.losses || b.sessionLoss + amount >= b.limits.sessionLoss)
  {
    var peak := PeakWith(b, balance);
    if peak > 0.0 {
      DivideBy(peak - balance, peak, b.limits.drawdownPct);
    }
  }

  lemma DivideBy(x: real, y: real, limit: real)
    requires y > 0.0
    ensures x / y >= limit <==> x >= limit * y
  {
    var q := x / y;
    assert x == q * y;
    if q >= limit {
      ProductMonotone(y, limit, q);
    } else {
      ProductPositive(y, limit - q);
      assert y * (limit - q) == limit * y - q * y;
    }
  }

  /** Losing the whole account in one trade leaves the breaker closed. */
  lemma WipedOutStaysClosed()
    ensures
      var events := [Event(Won(1000.0), 0.0, 0.0), Event(Lost(1000.0, 0.0), 1.0, 1.0)];
      var b := Run(Fresh(Limits(3, 2000.0, 0.1, 300.0)), events);
      b.phase.Closed? && b.peak == 1000.0 && b.current == 0.0
  {
    var start := Fresh(Limits(3, 2000.0, 0.1, 300.0));
    var won, lost := Event(Won(1000.0), 0.0, 0.0), Event(Lost(1000.0, 0.0), 1.0, 1.0);
    assert [won, lost][1..] == [lost];
    assert Run(start, [won, lost]) == Run(Step(start, won), [lost]);
  }

  /** Until the session is reset, a spent session makes every later loss end in a pause. */
  lemma {:induction false} SpentSessionTripsOnEveryLoss(b: Breaker, events: seq<Event>, e: Event)
    requires b.sessionLoss >= b.limits.sessionLoss
    requires forall x :: x in events ==> !x.op.Reopen? && (x.op.Lost? ==> x.op.amount >= 0.0)
    requires e.op.Lost? && e.op.amount >= 0.0
    ensures Step(Run(b, events), e).phase.Open?
    decreases events
  {
    if events != [] {
      assert events[0] in events;
      SpentSessionTripsOnEveryLoss(Step(b, events[0]), events[1..], e);
    }
  }

  // ----- the balance that a reset leaves behind

  /** Equal but for the last balance seen. */
  ghost predicate SameButBalance(b: Breaker, c: Breaker) {
    c == b.(current := c.current)
  }

  lemma BalanceIsForgotten(b: Breaker, c: Breaker, balance: real)
    requires SameButBalance(b, c)
    ensures NoteBalance(b, balance) == NoteBalance(c, balance)
  {
  }

  lemma ReportIgnoresBalance(b: Breaker, c: Breaker, at: real, later: real)
    requires SameButBalance(b, c)
    ensures SameButBalance(CanTrade(b, later).0, CanTrade(c, later).0) && CanTrade(b, later).1 == CanTrade(c, later).1
    ensures SameButBalance(StatusReport(b, at, later).0, StatusReport(c, at, later).0)
    ensures StatusReport(b, at, later).1.canTrade == StatusReport(c, at, later).1.canTrade
  {
    hide Rounded;
  }

  lemma WinForgetsBalance(b: Breaker, c: Breaker, balance: real, now: real)
    requires SameButBalance(b, c)
    ensures RecordWin(b, balance, now) == RecordWin(c, balance, now)
  {
    hide CheckThresholds, NoteBalance;
    BalanceIsForgotten(b.(losses := 0), c.(losses := 0), balance);
  }

  lemma LossForgetsBalance(b: Breaker, c: Breaker, amount: real, balance: real, now: real, later: real)
    requires SameButBalance(b, c)
    ensures RecordLoss(b, amount, balance, now, later) == RecordLoss(c, amount, balance, now, later)
  {
    hide CheckThresholds, NoteBalance;
    BalanceIsForgotten(
      b.(losses := b.losses + 1, sessionLoss := b.sessionLoss + amount),
      c.(losses := c.losses + 1, sessionLoss := c.sessionLoss + amount), balance);
  }

  lemma StepIgnoresBalance(b: Breaker, c: Breaker, e: Event)
    requires SameButBalance(b, c)
    ensures SameButBalance(Step(b, e), Step(c, e)) && (Grants(b, e) <==> Grants(c, e))
  {
    ReportIgnoresBalance(b, c, e.at, e.later);
    hide CanTrade, StatusReport, CheckThresholds, NoteBalance, RecordWin, RecordLoss;
    match e.op
    case Won(balance) => WinForgetsBalance(b, c, balance, e.at);
    case Lost(amount, balance) => LossForgetsBalance(b, c, amount, balance, e.at, e.later);
    case Note(balance) => BalanceIsForgotten(b, c, balance);
    case _ =>
  }

  /** `reset_session` leaves the last balance in place, and no later decision depends on it. */
  lemma {:induction false} StaleBalanceIsHarmless(b: Breaker, c: Breaker, events: seq<Event>, k: nat)
    requires SameButBalance(b, c) && k < |events|
    ensures SameButBalance(Run(b, events[..k]), Run(c, events[..k]))
    ensures Grants(Run(b, events[..k]), events[k]) <==> Grants(Run(c, events[..k]), events[k])
    decreases events
  {
    StepIgnoresBalance(b, c, events[0]);
    if k > 0 {
      assert events[..k][1..] == events[1..][..k - 1];
      StaleBalanceIsHarmless(Step(b, events[0]), Step(c, events[0]), events[1..], k - 1);
    }
  }

  /** A report made right after the reset shows no drawdown only if the two balances agree to half of four digits. */
  lemma ReportAfterReset(b: Breaker, balance: real, now: real, later: real)
    requires balance > 0.0
    ensures
      var shift := (balance - b.current) / balance;
      StatusReport(ResetSession(b, balance), now, later).1.drawdown == 0.0 <==> -0.00005 <= shift <= 0.00005
  {
    var shift := (balance - b.current) / balance;
    RoundsToZero(shift);
    hide Rounded;
  }

  lemma RoundsToZero(x: real)
    ensures Rounded(x, 10000) == 0.0 <==> -0.00005 <= x <= 0.00005
  {
    var y := x * 10000.0;
    var r := RoundHalfEven(y);
    assert r == 0 <==> -0.5 <= y <= 0.5;
    assert r as real / 10000.0 == 0.0 <==> r == 0;
  }
}

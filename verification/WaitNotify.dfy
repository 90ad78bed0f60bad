/**
 Waiting for the outcome of an order. A caller waits on an event kept per order;
 a handler on the network thread may store the outcome where the caller will
 look, may file the message by its name, and then sets the order's event. Between
 any two methods below other threads may act, and within none unless it says so.
 Each order has at most one caller waiting at a time.
 */
module WaitNotify {
  import opened Common

  type Message = int

  /** A `threading.Event`, made for one order; the serial number is its identity. */
  datatype Signal = Signal(order: int, serial: nat)

  /** Where the caller of `_wait_result` for an order stands. */
  datatype Waiter =
    | Idle
    | Missed(own: Signal)
    | Waiting(signal: Signal)
    | Woken
    | Consulting
    | Finishing(result: Option<Message>)
    | Done(result: Option<Message>)

  /** Where the network thread stands: in a handler or in `on_close`. */
  datatype Network =
    | Listening
    | Notifying(order: int)
    | Fetched(order: int, signal: Signal)
    | Closing(snapshot: map<int, Signal>)

  /** The message names under which `order_async` is searched, in that order. */
  datatype Name = PositionChanged | OptionClosed | OptionMessage

  datatype Stores = Stores(
    events: map<int, Signal>, flags: set<Signal>, results: map<int, Message>, filed: map<(int, Name), Message>,
    created: nat)

  /** All callers use the same kind of wait, whose two dictionaries the stores are. */
  datatype System = System(wait: Wait, stores: Stores, waiters: map<int, Waiter>, network: Network)

  const EMPTY := Stores(map[], {}, map[], map[], 0)

  function Start(w: Wait): System {
    System(w, EMPTY, map[], Listening)
  }

  function WaiterOf(s: System, order: int): Waiter {
    if order in s.waiters then s.waiters[order] else Idle
  }

  // ----- what the handlers do

  /** Of a message: it goes where the caller looks, it is filed under a name, its handler sets the order's event. */
  datatype Delivery = Delivery(stores: bool, name: Option<Name>, signals: bool)

  /**
   Two of the waits: `check_win_digital` looks into `socket_option_closed` and
   waits on `socket_option_closed_event`; `check_win` looks into `game_betinfo`
   and waits on `result_event_store`.
   */
  datatype Wait = CheckWinDigital | CheckWin

  datatype Handler = OnOption | OnOptionClosed | OnSocketOptionClosed | OnPositionChanged | OnListInfo | OnBetInfo

  /**
   What a handler does for one of the waits; `final` tells whether the message
   reports an outcome. An order numbered 0 is never signalled.
   */
  function Delivers(w: Wait, h: Handler, order: int, final: bool): Delivery {
    var known := order != 0;
    match h
    case OnOption => Delivery(w.CheckWinDigital?, Some(OptionMessage), known && final)
    case OnOptionClosed => Delivery(w.CheckWinDigital?, Some(OptionClosed), known)
    case OnSocketOptionClosed => Delivery(w.CheckWinDigital?, None, known)
    case OnPositionChanged => Delivery(false, Some(PositionChanged), known && w.CheckWin? && final)
    case OnListInfo => Delivery(false, None, known && w.CheckWin?)
    case OnBetInfo => Delivery(known && w.CheckWin?, None, known && w.CheckWin?)
  }

  /** The first of the filed messages that is there. */
  function Filed(filed: map<(int, Name), Message>, order: int): Option<Message> {
    if (order, PositionChanged) in filed then Some(filed[(order, PositionChanged)])
    else if (order, OptionClosed) in filed then Some(filed[(order, OptionClosed)])
    else if (order, OptionMessage) in filed then Some(filed[(order, OptionMessage)])
    else None
  }

  function Deliver(s: Stores, order: int, message: Message, d: Delivery): Stores {
    s.(results := if d.stores then s.results[order := message] else s.results,
       filed := if d.name.Some? then s.filed[(order, d.name.value) := message] else s.filed)
  }

  // ----- the shared stores

  /** `event_store[order]` on a defaultdict, or the caller's own new event when `insert` is false. */
  function Make(s: Stores, order: int, insert: bool): Stores {
    var made := Signal(order, s.created);
    s.(events := if insert then s.events[order := made] else s.events, created := s.created + 1)
  }

  class EventStores {
    var events: map<int, Signal>
    var flags: set<Signal>
    var results: map<int, Message>
    var filed: map<(int, Name), Message>
    var created: nat

    ghost function Value(): Stores
      reads this
    {
      Stores(events, flags, results, filed, created)
    }

    constructor ()
      ensures Value() == EMPTY
    {
      events, flags, results, filed, created := map[], {}, map[], map[], 0;
    }

    method NewSignal(order: int) returns (signal: Signal)
      modifies this`created
      ensures signal == Signal(order, old(created)) && created == old(created) + 1
    {
      signal := Signal(order, created);
      created := created + 1;
    }

    /** The caller's `get`, which does not create an entry. */
    method Lookup(order: int) returns (waiter: Waiter)
      modifies this
      ensures order in old(events) ==> waiter == Waiting(old(events)[order]) && Value() == old(Value())
      ensures order !in old(events) ==>
        waiter == Missed(Signal(order, old(created))) && Value() == Make(old(Value()), order, false)
    {
      if order in events {
        waiter := Waiting(events[order]);
      } else {
        var own := NewSignal(order);
        waiter := Missed(own);
      }
    }

    method Register(order: int, own: Signal)
      modifies this`events
      ensures events == old(events)[order := own]
    {
      events := events[order := own];
    }

    /** The caller's last act, whatever the outcome: a missing entry is not an error. */
    method Cleanup(order: int)
      modifies this`events
      ensures events == old(events) - {order}
    {
      if order in events {
        events := events - {order};
      }
    }

    method Store(order: int, message: Message, d: Delivery)
      modifies this`results, this`filed
      ensures Value() == Deliver(old(Value()), order, message, d)
    {
      if d.stores {
        results := results[order := message];
      }
      if d.name.Some? {
        filed := filed[(order, d.name.value) := message];
      }
    }

    /** The handler's subscript, which creates a missing entry. */
    method Fetch(order: int) returns (signal: Signal)
      modifies this
      ensures Value() == if order in old(events) then old(Value()) else Make(old(Value()), order, true)
      ensures order in events && signal == events[order]
    {
      if order !in events {
        var made := NewSignal(order);
        events := events[order := made];
      }
      signal := events[order];
    }

    method Set(signal: Signal)
      modifies this`flags
      ensures flags == old(flags) + {signal}
    {
      flags := flags + {signal};
    }

    /** A handler, run without interruption. */
    method Handle(w: Wait, h: Handler, order: int, message: Message, final: bool)
      modifies this
      ensures results == Deliver(old(Value()), order, message, Delivers(w, h, order, final)).results
      ensures filed == Deliver(old(Value()), order, message, Delivers(w, h, order, final)).filed
      ensures
        if Delivers(w, h, order, final).signals then
          && order in events && flags == old(flags) + {events[order]}
          && events == if order in old(events) then old(events)
                       else old(events)[order := Signal(order, old(created))]
        else events == old(events) && flags == old(flags)
    {
      var d := Delivers(w, h, order, final);
      Store(order, message, d);
      if d.signals {
        var signal := Fetch(order);
        Set(signal);
      }
    }

    /**
     The caller after its wait, run without interruption: it looks only if the
     event fired, among the filed messages if it must, and always cleans up.
     */
    method Conclude(order: int, fired: bool) returns (result: Option<Message>)
      modifies this`events
      ensures result == if !fired then None else if order in results then Some(results[order]) else Filed(filed, order)
      ensures events == old(events) - {order}
    {
      result := None;
      if fired {
        result := if order in results then Some(results[order]) else None;
        if result == None {
          result := Filed(filed, order);
        }
      }
      Cleanup(order);
    }

    /** The kill switch of `on_close`, run without interruption: every stored event is set. */
    method OnClose()
      modifies this`flags
      ensures forall order :: order in events ==> events[order] in flags
      ensures old(flags) <= flags <= old(flags) + events.Values
    {
      var left := events.Keys;
      while left != {}
        invariant left <= events.Keys
        invariant old(flags) <= flags <= old(flags) + events.Values
        invariant forall order :: order in events ==> order in left || events[order] in flags
        decreases |left|
      {
        ghost var one := SomeKey(left);
        var order :| order in left;
        assert events[order] in events.Values;
        Set(events[order]);
        left := left - {order};
      }
    }
  }

  // ----- the interleaved system

  datatype Action =
    | Lookup(order: int)
    | Register(order: int)
    | Wake(order: int)
    | TimeOut(order: int)
    | Read(order: int)
    | Consult(order: int)
    | Cleanup(order: int)
    | Arrive(order: int, handler: Handler, message: Message, final: bool)
    | Fetch(order: int)
    | Set(order: int)
    | CloseBegin
    | CloseSet(order: int)
    | CloseEnd

  predicate Enabled(s: System, a: Action) {
    match a
    case Lookup(k) => WaiterOf(s, k).Idle? || WaiterOf(s, k).Done?
    case Register(k) => WaiterOf(s, k).Missed?
    case Wake(k) => WaiterOf(s, k).Waiting? && WaiterOf(s, k).signal in s.stores.flags
    case TimeOut(k) => WaiterOf(s, k).Waiting? && WaiterOf(s, k).signal !in s.stores.flags
    case Read(k) => WaiterOf(s, k).Woken?
    case Consult(k) => WaiterOf(s, k).Consulting?
    case Cleanup(k) => WaiterOf(s, k).Finishing?
    case Arrive(_, _, _, _) => s.network == Listening
    case Fetch(k) => s.network == Notifying(k)
    case Set(k) => s.network.Fetched? && s.network.order == k
    case CloseBegin => s.network == Listening
    case CloseSet(k) => s.network.Closing? && k in s.network.snapshot
    case CloseEnd => s.network == Closing(map[])
  }

  function Next(s: System, a: Action): System
    requires Enabled(s, a)
  {
    var t := s.stores;
    match a
    case Lookup(k) =>
      if k in t.events then s.(waiters := s.waiters[k := Waiting(t.events[k])])
      else s.(stores := Make(t, k, false), waiters := s.waiters[k := Missed(Signal(k, t.created))])
    case Register(k) =>
      var own := WaiterOf(s, k).own;
      s.(stores := t.(events := t.events[k := own]), waiters := s.waiters[k := Waiting(own)])
    case Wake(k) => s.(waiters := s.waiters[k := Woken])
    case TimeOut(k) => s.(waiters := s.waiters[k := Finishing(None)])
    case Read(k) =>
      s.(waiters := s.waiters[k := if k in t.results then Finishing(Some(t.results[k])) else Consulting])
    case Consult(k) => s.(waiters := s.waiters[k := Finishing(Filed(t.filed, k))])
    case Cleanup(k) =>
      s.(stores := t.(events := t.events - {k}), waiters := s.waiters[k := Done(WaiterOf(s, k).result)])
    case Arrive(k, h, message, final) =>
      var d := Delivers(s.wait, h, k, final);
      s.(stores := Deliver(t, k, message, d), network := if d.signals then Notifying(k) else Listening)
    case Fetch(k) =>
      if k in t.events then s.(network := Fetched(k, t.events[k]))
      else s.(stores := Make(t, k, true), network := Fetched(k, Signal(k, t.created)))
    case Set(_) => s.(stores := t.(flags := t.flags + {s.network.signal}), network := Listening)
    case CloseBegin => s.(network := Closing(t.events))
    case CloseSet(k) =>
      s.(stores := t.(flags := t.flags + {s.network.snapshot[k]}), network := Closing(s.network.snapshot - {k}))
    case CloseEnd => s.(network := Listening)
  }

  ghost predicate Legal(s: System, run: seq<Action>)
    decreases run, 0
  {
    run == [] || (Legal(s, run[..|run| - 1]) && Enabled(After(s, run[..|run| - 1]), run[|run| - 1]))
  }

  ghost function After(s: System, run: seq<Action>): (t: System)
    requires Legal(s, run)
    ensures t.wait == s.wait
    decreases run, 1
  {
    if run == [] then s else Next(After(s, run[..|run| - 1]), run[|run| - 1])
  }

  // ----- what an order's caller can hear, told from the actions alone

  /**
   For one order: an entry exists; the caller is between its failed lookup and
   its registration; a handler, or `on_close`, holds the entry's event and has
   not set it yet; the entry's event has been set.
   */
  datatype Ear = Ear(entry: bool, window: bool, inHand: bool, closing: bool, heard: bool)

  function Hear(ear: Ear, a: Action, order: int): Ear {
    match a
    case Lookup(k) => if k == order then ear.(window := !ear.entry) else ear
    case Register(k) => if k == order then Ear(true, false, false, false, false) else ear
    case Cleanup(k) => if k == order then Ear(false, false, false, false, false) else ear
    case Fetch(k) => if k == order then ear.(entry := true, inHand := true) else ear
    case Set(k) => if k == order then ear.(inHand := false, heard := ear.heard || ear.inHand) else ear
    case CloseBegin => ear.(closing := ear.entry)
    case CloseSet(k) => if k == order then ear.(closing := false, heard := ear.heard || ear.closing) else ear
    case _ => ear
  }

  function Heard(run: seq<Action>, order: int): Ear {
    if run == [] then Ear(false, false, false, false, false)
    else Hear(Heard(run[..|run| - 1], order), run[|run| - 1], order)
  }

  ghost predicate Sound(t: Stores, order: int, signal: Signal) {
    signal.order == order && signal.serial < t.created
  }

  ghost predicate SoundMap(t: Stores, m: map<int, Signal>) {
    forall k :: k in m ==> Sound(t, k, m[k])
  }

  /** Events are created once, for one order. */
  ghost predicate Inv(s: System) {
    && SoundMap(s.stores, s.stores.events)
    && (forall e :: e in s.stores.flags ==> e.serial < s.stores.created)
    && (s.network.Fetched? ==> Sound(s.stores, s.network.order, s.network.signal))
    && (s.network.Closing? ==> SoundMap(s.stores, s.network.snapshot))
    && forall k :: k in s.waiters && s.waiters[k].Missed? ==> Sound(s.stores, k, s.waiters[k].own)
  }

  ghost predicate InHand(s: System, order: int, signal: Signal) {
    s.network == Fetched(order, signal)
  }

  ghost predicate InSnapshot(s: System, order: int, signal: Signal) {
    s.network.Closing? && order in s.network.snapshot && s.network.snapshot[order] == signal
  }

  /** The entry of an order is as the ear says. */
  ghost predicate EntryAgrees(s: System, ear: Ear, order: int) {
    && (ear.entry <==> order in s.stores.events)
    && (ear.heard <==> order in s.stores.events && s.stores.events[order] in s.stores.flags)
    && (ear.inHand <==> order in s.stores.events && InHand(s, order, s.stores.events[order]))
    && (ear.closing <==> order in s.stores.events && InSnapshot(s, order, s.stores.events[order]))
  }

  /** A caller in the window holds an event nobody else knows; a waiting caller holds the entry's. */
  ghost predicate WaiterAgrees(s: System, ear: Ear, order: int) {
    var w := WaiterOf(s, order);
    && (ear.window <==> w.Missed?)
    && (w.Missed? ==>
          && w.own !in s.stores.flags && !InHand(s, order, w.own) && !InSnapshot(s, order, w.own)
          && (order in s.stores.events ==> s.stores.events[order] != w.own))
    && (w.Waiting? ==> order in s.stores.events && s.stores.events[order] == w.signal)
  }

  lemma InvStep(s: System, a: Action)
    requires Inv(s) && Enabled(s, a)
    ensures Inv(Next(s, a))
  {
  }

  predicate ByCaller(a: Action) {
    a.Lookup? || a.Register? || a.Wake? || a.TimeOut? || a.Read? || a.Consult? || a.Cleanup?
  }

  lemma EntryStepByCaller(s: System, ear: Ear, a: Action, order: int)
    requires Inv(s) && Enabled(s, a) && ByCaller(a)
    requires EntryAgrees(s, ear, order) && WaiterAgrees(s, ear, order)
    ensures EntryAgrees(Next(s, a), Hear(ear, a, order), order)
  {
  }

  lemma EntryStepByNetwork(s: System, ear: Ear, a: Action, order: int)
    requires Inv(s) && Enabled(s, a) && !ByCaller(a)
    requires EntryAgrees(s, ear, order)
    ensures EntryAgrees(Next(s, a), Hear(ear, a, order), order)
  {
  }

  lemma WaiterStepByCaller(s: System, ear: Ear, a: Action, order: int)
    requires Inv(s) && Enabled(s, a) && ByCaller(a)
    requires EntryAgrees(s, ear, order) && WaiterAgrees(s, ear, order)
    ensures WaiterAgrees(Next(s, a), Hear(ear, a, order), order)
  {
  }

  lemma WaiterStepByNetwork(s: System, ear: Ear, a: Action, order: int)
    requires Inv(s) && Enabled(s, a) && !ByCaller(a)
    requires EntryAgrees(s, ear, order) && WaiterAgrees(s, ear, order)
    ensures WaiterAgrees(Next(s, a), Hear(ear, a, order), order)
  {
  }

  lemma EarStep(s: System, ear: Ear, a: Action, order: int)
    requires Inv(s) && Enabled(s, a)
    requires EntryAgrees(s, ear, order) && WaiterAgrees(s, ear, order)
    ensures EntryAgrees(Next(s, a), Hear(ear, a, order), order)
    ensures WaiterAgrees(Next(s, a), Hear(ear, a, order), order)
  {
    hide *;
    if ByCaller(a) {
      EntryStepByCaller(s, ear, a, order);
      WaiterStepByCaller(s, ear, a, order);
    } else {
      EntryStepByNetwork(s, ear, a, order);
      WaiterStepByNetwork(s, ear, a, order);
    }
  }

  /** The identity-free account of an order is right after every run, whatever the other orders do. */
  lemma {:induction false} EarIsRight(w: Wait, run: seq<Action>, order: int)
    requires Legal(Start(w), run)
    ensures Inv(After(Start(w), run))
    ensures EntryAgrees(After(Start(w), run), Heard(run, order), order)
    ensures WaiterAgrees(After(Start(w), run), Heard(run, order), order)
    decreases run
  {
    if run != [] {
      hide Next, Hear, Inv, EntryAgrees, WaiterAgrees;
      var before := run[..|run| - 1];
      EarIsRight(w, before, order);
      InvStep(After(Start(w), before), run[|run| - 1]);
      EarStep(After(Start(w), before), Heard(before, order), run[|run| - 1], order);
    }
  }

  // ----- what the caller may rely on

  /** A waiting caller can give up exactly while it has heard nothing. */
  lemma WaitsUntilHeard(w: Wait, run: seq<Action>, order: int)
    requires Legal(Start(w), run) && WaiterOf(After(Start(w), run), order).Waiting?
    ensures Enabled(After(Start(w), run), TimeOut(order)) <==> !Heard(run, order).heard
    ensures Enabled(After(Start(w), run), Wake(order)) <==> Heard(run, order).heard
  {
    EarIsRight(w, run, order);
  }

  lemma HeardSplit(a: seq<Action>, b: seq<Action>, order: int)
    requires b != []
    ensures Heard(a + b, order) == Hear(Heard(a + b[..|b| - 1], order), b[|b| - 1], order)
    ensures forall x :: x in b <==> x in b[..|b| - 1] || x == b[|b| - 1]
  {
    hide Hear;
    assert (a + b)[..|a + b| - 1] == a + b[..|b| - 1];
    assert b == b[..|b| - 1] + [b[|b| - 1]];
  }

  lemma Split(w: Wait, a: seq<Action>, b: seq<Action>)
    requires b != [] && Legal(Start(w), a + b)
    ensures Legal(Start(w), a + b[..|b| - 1]) && Enabled(After(Start(w), a + b[..|b| - 1]), b[|b| - 1])
    ensures After(Start(w), a + b) == Next(After(Start(w), a + b[..|b| - 1]), b[|b| - 1])
  {
    hide Enabled, Next;
    assert (a + b)[..|a + b| - 1] == a + b[..|b| - 1];
  }

  lemma {:induction false} PrefixIsLegal(w: Wait, a: seq<Action>, b: seq<Action>)
    requires Legal(Start(w), a + b)
    ensures Legal(Start(w), a)
    decreases b
  {
    if b == [] {
      assert a + b == a;
    } else {
      Split(w, a, b);
      PrefixIsLegal(w, a, b[..|b| - 1]);
    }
  }

  /** The run in which a handler takes the event of an order, and what follows. */
  function FetchThen(before: seq<Action>, order: int, rest: seq<Action>): seq<Action> {
    before + [Fetch(order)] + rest
  }

  /** Nothing but this one handler concerns the order. */
  predicate OneSignal(rest: seq<Action>, order: int) {
    Cleanup(order) !in rest && Fetch(order) !in rest && CloseBegin !in rest
  }

  lemma {:induction false} HeldOutsideTheWindow(w: Wait, start: seq<Action>, rest: seq<Action>, order: int)
    requires Legal(Start(w), start + rest) && Cleanup(order) !in rest
    requires var ear := Heard(start, order); ear.entry && !ear.window && ear.inHand
    ensures var ear := Heard(start + rest, order);
      ear.entry && !ear.window && (ear.heard || (ear.inHand && Set(order) !in rest))
    decreases rest
  {
    hide Next, Inv;
    if rest == [] {
      assert start + rest == start;
    } else {
      Split(w, start, rest);
      HeardSplit(start, rest, order);
      HeldOutsideTheWindow(w, start, rest[..|rest| - 1], order);
      EarIsRight(w, start + rest[..|rest| - 1], order);
    }
  }

  lemma {:induction false} LostInTheWindow(w: Wait, start: seq<Action>, rest: seq<Action>, order: int)
    requires Legal(Start(w), start + rest) && OneSignal(rest, order)
    requires var ear := Heard(start, order); ear.window && !ear.closing
    ensures var ear := Heard(start + rest, order);
      !ear.closing && (ear.window || (!ear.inHand && !ear.heard))
    decreases rest
  {
    hide Next, Inv;
    if rest == [] {
      assert start + rest == start;
    } else {
      Split(w, start, rest);
      HeardSplit(start, rest, order);
      LostInTheWindow(w, start, rest[..|rest| - 1], order);
      EarIsRight(w, start + rest[..|rest| - 1], order);
    }
  }

  /**
   The handshake, exactly: once the handler has set the event, the waiting caller
   wakes if and only if the handler did not take the event between the caller's
   failed lookup and its registration.
   */
  lemma HeardUnlessInTheWindow(w: Wait, before: seq<Action>, rest: seq<Action>, order: int)
    requires Legal(Start(w), before) && Legal(Start(w), FetchThen(before, order, rest))
    requires Set(order) in rest && OneSignal(rest, order)
    requires WaiterOf(After(Start(w), FetchThen(before, order, rest)), order).Waiting?
    ensures Enabled(After(Start(w), FetchThen(before, order, rest)), Wake(order)) <==>
            !WaiterOf(After(Start(w), before), order).Missed?
  {
    hide Next, Inv;
    var start := before + [Fetch(order)];
    PrefixIsLegal(w, start, rest);
    assert start[..|start| - 1] == before;
    EarIsRight(w, before, order);
    EarIsRight(w, start + rest, order);
    if WaiterOf(After(Start(w), before), order).Missed? {
      LostInTheWindow(w, start, rest, order);
    } else {
      HeldOutsideTheWindow(w, start, rest, order);
    }
  }

  lemma Extend(w: Wait, run: seq<Action>, a: Action)
    requires Legal(Start(w), run) && Enabled(After(Start(w), run), a)
    ensures Legal(Start(w), run + [a]) && After(Start(w), run + [a]) == Next(After(Start(w), run), a)
  {
    hide Enabled, Next;
    assert (run + [a])[..|run|] == run;
  }

  /** Outside the window no other traffic can spoil the signal: only the caller's own return ends it. */
  lemma SignalIsKept(w: Wait, before: seq<Action>, rest: seq<Action>, order: int)
    requires Legal(Start(w), before) && Legal(Start(w), FetchThen(before, order, rest))
    requires !WaiterOf(After(Start(w), before), order).Missed?
    requires Set(order) in rest && Cleanup(order) !in rest
    ensures !Enabled(After(Start(w), FetchThen(before, order, rest)), TimeOut(order))
  {
    hide Next, Inv;
    var start := before + [Fetch(order)];
    PrefixIsLegal(w, start, rest);
    assert start[..|start| - 1] == before;
    EarIsRight(w, before, order);
    EarIsRight(w, start + rest, order);
    HeldOutsideTheWindow(w, start, rest, order);
  }

  lemma {:induction false} ClosingReaches(w: Wait, start: seq<Action>, rest: seq<Action>, order: int)
    requires Legal(Start(w), start + rest) && Cleanup(order) !in rest
    requires var ear := Heard(start, order); ear.entry && !ear.window && ear.closing
    ensures var ear := Heard(start + rest, order);
      ear.entry && !ear.window && (ear.heard || (ear.closing && CloseEnd !in rest))
    decreases rest
  {
    hide Next, Inv;
    if rest == [] {
      assert start + rest == start;
    } else {
      Split(w, start, rest);
      HeardSplit(start, rest, order);
      ClosingReaches(w, start, rest[..|rest| - 1], order);
      EarIsRight(w, start + rest[..|rest| - 1], order);
    }
  }

  /** A connection that closes after the registration wakes the caller. */
  lemma CloseWakes(w: Wait, before: seq<Action>, rest: seq<Action>, order: int)
    requires Legal(Start(w), before) && Legal(Start(w), before + [CloseBegin] + rest)
    requires WaiterOf(After(Start(w), before), order).Waiting?
    requires CloseEnd in rest && Cleanup(order) !in rest
    ensures !Enabled(After(Start(w), before + [CloseBegin] + rest), TimeOut(order))
  {
    var start := before + [CloseBegin];
    PrefixIsLegal(w, start, rest);
    assert start[..|start| - 1] == before;
    EarIsRight(w, before, order);
    EarIsRight(w, start + rest, order);
    ClosingReaches(w, start, rest, order);
  }

  lemma {:induction false} EntrySince(start: seq<Action>, rest: seq<Action>, order: int)
    requires !Heard(start, order).entry && Cleanup(order) !in rest
    ensures Heard(start + rest, order).entry <==> Fetch(order) in rest || Register(order) in rest
    decreases rest
  {
    if rest == [] {
      assert start + rest == start;
    } else {
      HeardSplit(start, rest, order);
      EntrySince(start, rest[..|rest| - 1], order);
    }
  }

  /** After the caller's cleanup an entry is there only if a handler, or a new wait, made one since. */
  lemma NoEntryRemains(w: Wait, before: seq<Action>, rest: seq<Action>, order: int)
    requires Legal(Start(w), before + [Cleanup(order)] + rest) && Cleanup(order) !in rest
    ensures order in After(Start(w), before + [Cleanup(order)] + rest).stores.events <==>
            Fetch(order) in rest || Register(order) in rest
  {
    var start := before + [Cleanup(order)];
    assert start[..|start| - 1] == before;
    EntrySince(start, rest, order);
    EarIsRight(w, start + rest, order);
  }

  // ----- which messages reach the caller, and which it takes

  /** The messages that set the event on which a caller of this kind waits. */
  predicate Announces(w: Wait, h: Handler, order: int, final: bool) {
    order != 0 &&
    match h
    case OnOption => final
    case OnOptionClosed => true
    case OnSocketOptionClosed => true
    case OnPositionChanged => w.CheckWin? && final
    case OnListInfo => w.CheckWin?
    case OnBetInfo => w.CheckWin?
  }

  /** The handlers that write where a caller of this kind looks. */
  function Writers(w: Wait, order: int): set<Handler> {
    if w.CheckWinDigital? then {OnOption, OnOptionClosed, OnSocketOptionClosed}
    else if order != 0 then {OnBetInfo}
    else {}
  }

  /** The handler whose messages are filed under a name. */
  function Filer(name: Name): Handler {
    match name
    case PositionChanged => OnPositionChanged
    case OptionClosed => OnOptionClosed
    case OptionMessage => OnOption
  }

  lemma HandlersAsTold(w: Wait, h: Handler, order: int, final: bool, name: Name)
    ensures
      var d := Delivers(w, h, order, final);
      && (d.signals <==> Announces(w, h, order, final))
      && (d.stores <==> h in Writers(w, order))
      && (d.name == Some(name) <==> h == Filer(name))
  {
  }

  lemma {:induction false} AnnouncedReaches(w: Wait, start: seq<Action>, rest: seq<Action>, order: int)
    requires Legal(Start(w), start) && Legal(Start(w), start + rest) && Cleanup(order) !in rest
    requires Heard(start, order).entry && !Heard(start, order).window
    requires After(Start(w), start).network == Notifying(order)
    ensures
      var ear, s := Heard(start + rest, order), After(Start(w), start + rest);
      ear.entry && !ear.window && (ear.heard || ear.inHand || s.network == Notifying(order))
    decreases rest
  {
    if rest == [] {
      assert start + rest == start;
    } else {
      Split(w, start, rest);
      HeardSplit(start, rest, order);
      AnnouncedReaches(w, start, rest[..|rest| - 1], order);
      EarIsRight(w, start + rest[..|rest| - 1], order);
      hide Inv, Legal, After, Heard, Deliver, Delivers;
    }
  }

  /**
   A caller that waits when a message arrives that sets its event cannot time
   out any more once the network thread listens again, whatever else happens.
   */
  lemma AnnouncedCannotTimeOut(
      w: Wait, before: seq<Action>, h: Handler, message: Message, final: bool, order: int, rest: seq<Action>)
    requires Announces(w, h, order, final) && Cleanup(order) !in rest
    requires Legal(Start(w), before) && WaiterOf(After(Start(w), before), order).Waiting?
    requires
      var run := before + [Arrive(order, h, message, final)] + rest;
      Legal(Start(w), run) && After(Start(w), run).network == Listening
    ensures !Enabled(After(Start(w), before + [Arrive(order, h, message, final)] + rest), TimeOut(order))
  {
    var news := Arrive(order, h, message, final);
    var start := before + [news];
    PrefixIsLegal(w, start, rest);
    assert start[..|start| - 1] == before;
    EarIsRight(w, before, order);
    HandlersAsTold(w, h, order, final, OptionClosed);
    Announced(After(Start(w), before), order, h, message, final);
    AnnouncedReaches(w, start, rest, order);
    EarIsRight(w, start + rest, order);
    hide Inv, Legal, After, Heard, Next, Delivers;
  }

  lemma Announced(s: System, order: int, h: Handler, message: Message, final: bool)
    requires Announces(s.wait, h, order, final) && Enabled(s, Arrive(order, h, message, final))
    ensures Next(s, Arrive(order, h, message, final)).network == Notifying(order)
  {
  }

  /** Nothing is about to set an event of this order, and none has been set. */
  ghost predicate Silent(s: System, order: int) {
    && s.network != Notifying(order) && !s.network.Closing?
    && (s.network.Fetched? ==> s.network.order != order && s.network.signal.order != order)
    && (forall e :: e in s.stores.flags ==> e.order != order)
    && !WaiterOf(s, order).Woken?
  }

  lemma SilentStep(s: System, a: Action, order: int)
    requires Inv(s) && Enabled(s, a) && Silent(s, order) && !a.CloseBegin?
    requires a.Arrive? && a.order == order ==> !Announces(s.wait, a.handler, order, a.final)
    requires WaiterOf(s, order).Waiting? ==> WaiterOf(s, order).signal.order == order
    ensures Silent(Next(s, a), order)
  {
  }

  /** Without such a message, and without a closing connection, nobody is woken, and whoever waits can time out. */
  lemma {:induction false} OnlyAnnouncementsWake(w: Wait, run: seq<Action>, order: int)
    requires Legal(Start(w), run) && CloseBegin !in run
    requires forall a :: a in run && a.Arrive? && a.order == order ==> !Announces(w, a.handler, order, a.final)
    ensures Silent(After(Start(w), run), order)
    ensures WaiterOf(After(Start(w), run), order).Waiting? ==> Enabled(After(Start(w), run), TimeOut(order))
    decreases run
  {
    EarIsRight(w, run, order);
    if run != [] {
      var before, last := run[..|run| - 1], run[|run| - 1];
      OnlyAnnouncementsWake(w, before, order);
      EarIsRight(w, before, order);
      assert last in run;
      hide Announces, Enabled, Next;
      SilentStep(After(Start(w), before), last, order);
      hide Silent;
      SilentCanTimeOut(After(Start(w), run), order);
    }
  }

  lemma SilentCanTimeOut(s: System, order: int)
    requires Silent(s, order) && (WaiterOf(s, order).Waiting? ==> WaiterOf(s, order).signal.order == order)
    ensures WaiterOf(s, order).Waiting? ==> Enabled(s, TimeOut(order))
  {
  }

  // ----- what a woken caller finds

  /** The newest message about an order that one of these handlers received. */
  function Newest(run: seq<Action>, order: int, handlers: set<Handler>): Option<Message> {
    if run == [] then None
    else
      var last := run[|run| - 1];
      if last.Arrive? && last.order == order && last.handler in handlers then Some(last.message)
      else Newest(run[..|run| - 1], order, handlers)
  }

  function OrElse(a: Option<Message>, b: Option<Message>): Option<Message> {
    if a.Some? then a else b
  }

  /** The newest message under the first name there is. */
  function NewestFiled(run: seq<Action>, order: int): Option<Message> {
    OrElse(Newest(run, order, {OnPositionChanged}),
           OrElse(Newest(run, order, {OnOptionClosed}), Newest(run, order, {OnOption})))
  }

  function Found(t: Stores, order: int): Option<Message> {
    if order in t.results then Some(t.results[order]) else None
  }

  function FoundNamed(t: Stores, order: int, name: Name): Option<Message> {
    if (order, name) in t.filed then Some(t.filed[(order, name)]) else None
  }

  lemma StoreStep(s: System, a: Action, order: int, name: Name)
    requires Enabled(s, a)
    ensures
      var t, mine := Next(s, a).stores, a.Arrive? && a.order == order;
      && Found(t, order) ==
           (if mine && a.handler in Writers(s.wait, order) then Some(a.message) else Found(s.stores, order))
      && FoundNamed(t, order, name) ==
           if mine && a.handler == Filer(name) then Some(a.message) else FoundNamed(s.stores, order, name)
  {
    if a.Arrive? {
      HandlersAsTold(s.wait, a.handler, a.order, a.final, name);
      hide Delivers, Writers, Filer;
    }
  }

  lemma {:induction false} StoresHoldTheNewest(w: Wait, run: seq<Action>, order: int, name: Name)
    requires Legal(Start(w), run)
    ensures Found(After(Start(w), run).stores, order) == Newest(run, order, Writers(w, order))
    ensures FoundNamed(After(Start(w), run).stores, order, name) == Newest(run, order, {Filer(name)})
    decreases run
  {
    if run != [] {
      hide Enabled, Next, Found, FoundNamed, Writers, Filer;
      var before := run[..|run| - 1];
      StoresHoldTheNewest(w, before, order, name);
      StoreStep(After(Start(w), before), run[|run| - 1], order, name);
    } else {
      assert Found(EMPTY, order) == None && FoundNamed(EMPTY, order, name) == None;
    }
  }

  lemma FiledIsTheNewest(w: Wait, run: seq<Action>, order: int)
    requires Legal(Start(w), run)
    ensures Filed(After(Start(w), run).stores.filed, order) == NewestFiled(run, order)
  {
    StoresHoldTheNewest(w, run, order, PositionChanged);
    StoresHoldTheNewest(w, run, order, OptionClosed);
    StoresHoldTheNewest(w, run, order, OptionMessage);
    hide After, Newest;
  }

  /** A message about the order came to one of these handlers. */
  ghost predicate Arrived(run: seq<Action>, order: int, handlers: set<Handler>) {
    exists h, message: Message, final :: h in handlers && Arrive(order, h, message, final) in run
  }

  lemma {:induction false} NewestExists(run: seq<Action>, order: int, handlers: set<Handler>)
    ensures Newest(run, order, handlers).Some? <==> Arrived(run, order, handlers)
    decreases run
  {
    if run != [] {
      var front, last := run[..|run| - 1], run[|run| - 1];
      NewestExists(front, order, handlers);
      assert run == front + [last];
      if last.Arrive? && last.order == order {
        assert last == Arrive(order, last.handler, last.message, last.final);
      }
    }
  }

  lemma {:induction false} NewestOfBoth(start: seq<Action>, rest: seq<Action>, order: int, handlers: set<Handler>)
    ensures Newest(start + rest, order, handlers) ==
            OrElse(Newest(rest, order, handlers), Newest(start, order, handlers))
    decreases rest
  {
    if rest == [] {
      assert start + rest == start;
    } else {
      assert (start + rest)[..|start + rest| - 1] == start + rest[..|rest| - 1];
      NewestOfBoth(start, rest[..|rest| - 1], order, handlers);
    }
  }

  /** A message stays the newest one while none comes after it. */
  lemma NewestSince(before: seq<Action>, news: Action, rest: seq<Action>, handlers: set<Handler>)
    requires news.Arrive? && news.handler in handlers && !Arrived(rest, news.order, handlers)
    ensures Newest(before + [news] + rest, news.order, handlers) == Some(news.message)
  {
    NewestOfBoth(before + [news], rest, news.order, handlers);
    NewestExists(rest, news.order, handlers);
    hide Arrived;
  }

  /** A woken caller takes the newest message stored for it, and must look further only if there was none. */
  lemma WokenReadsTheLatest(w: Wait, run: seq<Action>, order: int)
    requires Legal(Start(w), run) && WaiterOf(After(Start(w), run), order).Woken?
    ensures
      WaiterOf(Next(After(Start(w), run), Read(order)), order) ==
        if Arrived(run, order, Writers(w, order)) then Finishing(Newest(run, order, Writers(w, order))) else Consulting
  {
    StoresHoldTheNewest(w, run, order, OptionClosed);
    NewestExists(run, order, Writers(w, order));
    hide Arrived, Newest, Writers, Legal, After;
  }

  lemma FiledExists(run: seq<Action>, order: int)
    ensures NewestFiled(run, order).Some? <==> Arrived(run, order, {OnPositionChanged, OnOptionClosed, OnOption})
  {
    NewestExists(run, order, {OnPositionChanged});
    NewestExists(run, order, {OnOptionClosed});
    NewestExists(run, order, {OnOption});
    hide Newest;
    if Arrived(run, order, {OnPositionChanged, OnOptionClosed, OnOption}) {
      var h, message: Message, final :|
        h in {OnPositionChanged, OnOptionClosed, OnOption} && Arrive(order, h, message, final) in run;
      assert Arrived(run, order, {h});
    }
  }

  /** It then takes the newest message filed under the first name there is, and finds none only if none was filed. */
  lemma ConsultReadsTheFiled(w: Wait, run: seq<Action>, order: int)
    requires Legal(Start(w), run) && WaiterOf(After(Start(w), run), order).Consulting?
    ensures WaiterOf(Next(After(Start(w), run), Consult(order)), order) == Finishing(NewestFiled(run, order))
    ensures NewestFiled(run, order) == None <==> !Arrived(run, order, {OnPositionChanged, OnOptionClosed, OnOption})
  {
    FiledIsTheNewest(w, run, order);
    FiledExists(run, order);
    hide Arrived, NewestFiled, Filed, Legal, After;
  }

  /** So a message from a handler that writes where the caller looks is its answer, if no newer one is written there. */
  lemma TheMessageIsTheAnswer(
      w: Wait, before: seq<Action>, h: Handler, message: Message, final: bool, order: int, rest: seq<Action>)
    requires h in Writers(w, order) && !Arrived(rest, order, Writers(w, order))
    requires
      var run := before + [Arrive(order, h, message, final)] + rest;
      Legal(Start(w), run) && WaiterOf(After(Start(w), run), order).Woken?
    ensures
      var run := before + [Arrive(order, h, message, final)] + rest;
      WaiterOf(Next(After(Start(w), run), Read(order)), order) == Finishing(Some(message))
  {
    hide Legal, After, Next, Writers, Arrived, Newest;
    var run := before + [Arrive(order, h, message, final)] + rest;
    NewestSince(before, Arrive(order, h, message, final), rest, Writers(w, order));
    WokenReadsTheLatest(w, run, order);
    NewestExists(run, order, Writers(w, order));
  }

  /** The handlers whose messages are preferred to those of `h` among the filed ones. */
  function Preferred(h: Handler): set<Handler> {
    if h.OnOption? then {OnPositionChanged, OnOptionClosed}
    else if h.OnOptionClosed? then {OnPositionChanged}
    else {}
  }

  /**
   And a message that is only filed is the answer of a caller that found nothing
   where it looked, if none is preferred and no newer one is filed with it: so
   `check_win` ends with the "option-closed" message.
   */
  lemma TheFiledMessageIsTheAnswer(
      w: Wait, before: seq<Action>, h: Handler, message: Message, final: bool, order: int, rest: seq<Action>)
    requires h in {OnPositionChanged, OnOptionClosed, OnOption} && !Arrived(rest, order, {h})
    requires
      var run := before + [Arrive(order, h, message, final)] + rest;
      && !Arrived(run, order, Preferred(h))
      && Legal(Start(w), run) && WaiterOf(After(Start(w), run), order).Consulting?
    ensures
      var run := before + [Arrive(order, h, message, final)] + rest;
      WaiterOf(Next(After(Start(w), run), Consult(order)), order) == Finishing(Some(message))
  {
    hide Legal, After, Next, Arrived, Newest;
    var run := before + [Arrive(order, h, message, final)] + rest;
    NewestSince(before, Arrive(order, h, message, final), rest, {h});
    ConsultReadsTheFiled(w, run, order);
    PreferredAbsent(run, order, h);
  }

  lemma PreferredAbsent(run: seq<Action>, order: int, h: Handler)
    requires h in {OnPositionChanged, OnOptionClosed, OnOption} && !Arrived(run, order, Preferred(h))
    ensures Newest(run, order, {h}).Some? ==> NewestFiled(run, order) == Newest(run, order, {h})
  {
    forall x | x in Preferred(h) ensures Newest(run, order, {x}) == None {
      NewestExists(run, order, {x});
      assert Arrived(run, order, {x}) ==> Arrived(run, order, Preferred(h));
    }
    hide Newest, Arrived;
  }

  // ----- when the store and the signal belong together

  ghost predicate SignalsStore(w: Wait, a: Action) {
    a.Arrive? && Announces(w, a.handler, a.order, a.final) ==> a.handler in Writers(w, a.order)
  }

  /** Every message that sets the event was written where the caller looks. */
  ghost predicate StoringSignals(w: Wait, run: seq<Action>) {
    forall a :: a in run ==> SignalsStore(w, a)
  }

  /** Whoever is about to be signalled, or was woken by a handler, has a message to read. */
  ghost predicate WrittenFirst(s: System, order: int) {
    && ((s.network == Notifying(order) || (s.network.Fetched? && s.network.order == order)) ==>
          order in s.stores.results)
    && (forall e :: e in s.stores.flags && e.order == order ==> order in s.stores.results)
    && (WaiterOf(s, order).Woken? ==> order in s.stores.results)
    && !WaiterOf(s, order).Consulting?
  }

  lemma WrittenStep(s: System, a: Action, order: int)
    requires Inv(s) && Enabled(s, a) && WrittenFirst(s, order) && !s.network.Closing? && SignalsStore(s.wait, a)
    requires WaiterOf(s, order).Waiting? ==> WaiterOf(s, order).signal.order == order
    ensures WrittenFirst(Next(s, a), order)
  {
    if a.Arrive? {
      HandlersAsTold(s.wait, a.handler, a.order, a.final, OptionClosed);
      hide Delivers, Announces, Writers;
    }
  }

  /** With such messages only, and no closing connection, every event set has a message stored before it. */
  lemma {:induction false} StoreBeforeSignal(w: Wait, run: seq<Action>, order: int)
    requires Legal(Start(w), run) && StoringSignals(w, run) && CloseBegin !in run
    ensures WrittenFirst(After(Start(w), run), order) && !After(Start(w), run).network.Closing?
    decreases run
  {
    if run != [] {
      var before, last := run[..|run| - 1], run[|run| - 1];
      StoreBeforeSignal(w, before, order);
      EarIsRight(w, before, order);
      assert last in run && SignalsStore(w, last);
      WrittenStep(After(Start(w), before), last, order);
    }
  }

  /** `check_win_digital` is never woken in vain, short of a closing connection: the message is where it looks. */
  lemma DigitalWaitFindsIt(run: seq<Action>, order: int)
    requires Legal(Start(CheckWinDigital), run) && CloseBegin !in run
    requires WaiterOf(After(Start(CheckWinDigital), run), order).Woken?
    ensures Arrived(run, order, {OnOption, OnOptionClosed, OnSocketOptionClosed})
    ensures WaiterOf(Next(After(Start(CheckWinDigital), run), Read(order)), order) ==
            Finishing(Newest(run, order, {OnOption, OnOptionClosed, OnSocketOptionClosed}))
  {
    assert StoringSignals(CheckWinDigital, run);
    StoreBeforeSignal(CheckWinDigital, run, order);
    StoresHoldTheNewest(CheckWinDigital, run, order, OptionClosed);
    NewestExists(run, order, Writers(CheckWinDigital, order));
    WokenReadsTheLatest(CheckWinDigital, run, order);
    hide Arrived, Newest, Legal, After, Next, StoringSignals;
  }

  // ----- two runs step by step

  /** A state of `check_win` with one order, whose event is the first one made. */
  function At(order: int, isSet: bool, w: Waiter, n: Network): System {
    var signal := Signal(order, 0);
    System(
      CheckWin, Stores(map[order := signal], if isSet then {signal} else {}, map[], map[], 1), map[order := w], n)
  }

  lemma SignalSteps(order: int, message: Message)
    requires order != 0
    ensures
      var signal := Signal(order, 0);
      var registered := At(order, false, Waiting(signal), Listening);
      var announced := At(order, false, Waiting(signal), Notifying(order));
      var fetched := At(order, false, Waiting(signal), Fetched(order, signal));
      var signalled := At(order, true, Waiting(signal), Listening);
      var news := Arrive(order, OnSocketOptionClosed, message, true);
      && Enabled(Start(CheckWin), Lookup(order)) && Enabled(Next(Start(CheckWin), Lookup(order)), Register(order))
      && Next(Next(Start(CheckWin), Lookup(order)), Register(order)) == registered
      && Enabled(registered, news) && Next(registered, news) == announced
      && Enabled(announced, Fetch(order)) && Next(announced, Fetch(order)) == fetched
      && Enabled(fetched, Set(order)) && Next(fetched, Set(order)) == signalled
  {
  }

  lemma ReadSteps(order: int)
    ensures
      var signalled := At(order, true, Waiting(Signal(order, 0)), Listening);
      var woken := At(order, true, Woken, Listening);
      var consulting := At(order, true, Consulting, Listening);
      && Enabled(signalled, Wake(order)) && Next(signalled, Wake(order)) == woken
      && Enabled(woken, Read(order)) && Next(woken, Read(order)) == consulting
      && Enabled(consulting, Consult(order)) && WaiterOf(Next(consulting, Consult(order)), order) == Finishing(None)
  {
  }

  /** `check_win` can be: a closed socket option wakes it, and there is nothing where it looks and nothing filed. */
  lemma CheckWinFindsNothing(order: int, message: Message)
    requires order != 0
    ensures
      var news := Arrive(order, OnSocketOptionClosed, message, true);
      var run := [Lookup(order), Register(order), news, Fetch(order), Set(order), Wake(order), Read(order)];
      && Legal(Start(CheckWin), run) && CloseBegin !in run
      && Enabled(After(Start(CheckWin), run), Consult(order))
      && WaiterOf(Next(After(Start(CheckWin), run), Consult(order)), order) == Finishing(None)
  {
    var news := Arrive(order, OnSocketOptionClosed, message, true);
    SignalSteps(order, message);
    ReadSteps(order);
    StartIsLegal(CheckWin);
    hide Enabled, Next, Legal, After, At, WaiterOf;
    var one := [Lookup(order)];
    var two := one + [Register(order)];
    var three := two + [news];
    var four := three + [Fetch(order)];
    var five := four + [Set(order)];
    var six := five + [Wake(order)];
    Extend(CheckWin, [], Lookup(order));
    assert [] + one == one;
    Extend(CheckWin, one, Register(order));
    Extend(CheckWin, two, news);
    Extend(CheckWin, three, Fetch(order));
    Extend(CheckWin, four, Set(order));
    Extend(CheckWin, five, Wake(order));
    Extend(CheckWin, six, Read(order));
    assert six + [Read(order)]
        == [Lookup(order), Register(order), news, Fetch(order), Set(order), Wake(order), Read(order)];
  }

  lemma StartIsLegal(w: Wait)
    ensures Legal(Start(w), []) && After(Start(w), []) == Start(w)
  {
  }

  lemma LostSteps(order: int, message: Message)
    requires order != 0
    ensures
      var signal, own := Signal(order, 1), Signal(order, 0);
      var missed := Next(Start(CheckWinDigital), Lookup(order));
      var arrived := Next(missed, Arrive(order, OnOptionClosed, message, true));
      var fetched := Next(arrived, Fetch(order));
      var signalled := Next(fetched, Set(order));
      var registered := Next(signalled, Register(order));
      && Enabled(Start(CheckWinDigital), Lookup(order)) && Enabled(missed, Arrive(order, OnOptionClosed, message, true))
      && Enabled(arrived, Fetch(order)) && Enabled(fetched, Set(order)) && Enabled(signalled, Register(order))
      && order in registered.stores.results
      && Enabled(registered, TimeOut(order)) && !Enabled(registered, Wake(order))
  {
    var signal, own := Signal(order, 1), Signal(order, 0);
    var missed := Next(Start(CheckWinDigital), Lookup(order));
    var arrived := Next(missed, Arrive(order, OnOptionClosed, message, true));
    assert arrived.network == Notifying(order) && arrived.stores.events == map[] && arrived.stores.flags == {};
    var fetched := Next(arrived, Fetch(order));
    assert fetched.network == Fetched(order, signal) && WaiterOf(fetched, order) == Missed(own);
    var signalled := Next(fetched, Set(order));
    assert signalled.stores.flags == {signal} && WaiterOf(signalled, order) == Missed(own);
    var registered := Next(signalled, Register(order));
    assert WaiterOf(registered, order) == Waiting(own);
  }

  /** The shortest run that loses a signal: the message is stored and signalled, and the caller still times out. */
  lemma ALostSignal(order: int, message: Message)
    requires order != 0
    ensures
      var news := Arrive(order, OnOptionClosed, message, true);
      var run := [Lookup(order), news, Fetch(order), Set(order), Register(order)];
      && Legal(Start(CheckWinDigital), run)
      && order in After(Start(CheckWinDigital), run).stores.results
      && Enabled(After(Start(CheckWinDigital), run), TimeOut(order))
      && !Enabled(After(Start(CheckWinDigital), run), Wake(order))
  {
    LostSteps(order, message);
    StartIsLegal(CheckWinDigital);
    hide Enabled, Next, Legal, After;
    var one := [Lookup(order)];
    var two := one + [Arrive(order, OnOptionClosed, message, true)];
    var three := two + [Fetch(order)];
    var four := three + [Set(order)];
    Extend(CheckWinDigital, [], Lookup(order));
    assert [] + one == one;
    Extend(CheckWinDigital, one, Arrive(order, OnOptionClosed, message, true));
    Extend(CheckWinDigital, two, Fetch(order));
    Extend(CheckWinDigital, three, Set(order));
    Extend(CheckWinDigital, four, Register(order));
    assert four + [Register(order)]
        == [Lookup(order), Arrive(order, OnOptionClosed, message, true), Fetch(order), Set(order), Register(order)];
  }
}

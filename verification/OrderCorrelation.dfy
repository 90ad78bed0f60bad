/**
 Matching order replies to requests. The server's "option-opened" message does
 not name its request, so the client takes the oldest id still in its queue.
 */
module OrderCorrelation {
  import opened Common

  /** An entry of `buy_multi_option`; an absent field and a None are the same to every reader. */
  datatype Entry = Entry(id: Option<int>, success: Option<bool>)

  /** The correlation state: the id queue and the replies so far. */
  datatype Desk = Desk(pending: seq<string>, options: map<string, Entry>)

  function Enqueue(d: Desk, id: string): Desk {
    d.(pending := d.pending + [id])
  }

  function RemoveFirst(s: seq<string>, id: string): seq<string> {
    if s == [] then []
    else if s[0] == id then s[1..]
    else [s[0]] + RemoveFirst(s[1..], id)
  }

  function EntryOf(d: Desk, id: string): Entry {
    if id in d.options then d.options[id] else Entry(None, None)
  }

  /** The "option-opened" handler. */
  function Open(d: Desk, option: int): Desk {
    if d.pending == [] then d
    else
      var id := d.pending[0];
      Desk(d.pending[1..], d.options[id := EntryOf(d, id).(id := Some(option))])
  }

  /** The "result" handler, for a message that names its request. */
  function Answer(d: Desk, id: string, success: bool): Desk {
    var marked :=
      if id in d.options then d.(options := d.options[id := d.options[id].(success := Some(success))])
      else d;
    if success then marked else marked.(pending := RemoveFirst(marked.pending, id))
  }

  function BeginBuy(d: Desk, id: string): Desk {
    Enqueue(Enqueue(Desk(d.pending, map[id := Entry(None, None)]), id), id)
  }

  const DIGITS: string := "0123456789"

  /** `str(n)`. */
  function Decimal(n: nat): (s: string)
    ensures s != []
  {
    if n < 10 then [DIGITS[n]] else Decimal(n / 10) + [DIGITS[n % 10]]
  }

  lemma {:induction false} DecimalIsInjective(m: nat, n: nat)
    requires Decimal(m) == Decimal(n)
    ensures m == n
    decreases m
  {
    var s, t := Decimal(m), Decimal(n);
    assert s[|s| - 1] == DIGITS[m % 10] && t[|t| - 1] == DIGITS[n % 10];
    assert m % 10 == n % 10;
    if m >= 10 && n >= 10 {
      assert s[..|s| - 1] == Decimal(m / 10) && t[..|t| - 1] == Decimal(n / 10);
      DecimalIsInjective(m / 10, n / 10);
    }
  }

  function Numbers(n: nat): (s: seq<string>)
    ensures |s| == n && forall i :: 0 <= i < n ==> s[i] == Decimal(i)
  {
    seq(n, i requires 0 <= i < n => Decimal(i))
  }

  /** An "option" reply without an order id: its request gets a new entry without an option, and stays in the queue. */
  function Decline(d: Desk, id: string): Desk {
    d.(options := d.options[id := Entry(None, None)])
  }

  class Api {
    var requestIdCounter: nat
    var pendingBuyIds: seq<string>
    var buyMultiOption: map<string, Entry>
    var result: Option<bool>

    ghost function Value(): Desk
      reads this
    {
      Desk(pendingBuyIds, buyMultiOption)
    }

    constructor ()
      ensures Value() == Desk([], map[]) && requestIdCounter == 0
    {
      requestIdCounter, pendingBuyIds, buyMultiOption, result := 0, [], map[], None;
    }

    /** Only an order to open an option is queued. */
    method SendWebsocketRequest(requestId: Option<string>, opensOption: bool) returns (id: string)
      modifies this
      ensures requestId.Some? ==> id == requestId.value && requestIdCounter == old(requestIdCounter)
      ensures requestId.None? ==> requestIdCounter == old(requestIdCounter) + 1 && id == Decimal(requestIdCounter)
      ensures Value() == if opensOption then Enqueue(old(Value()), id) else old(Value())
      ensures result == old(result)
    {
      if requestId.None? {
        requestIdCounter := requestIdCounter + 1;
        id := Decimal(requestIdCounter);
      } else {
        id := requestId.value;
      }
      if opensOption {
        pendingBuyIds := pendingBuyIds + [id];
      }
    }

    method RemovePendingBuyId(id: string)
      modifies this`pendingBuyIds
      ensures pendingBuyIds == RemoveFirst(old(pendingBuyIds), id)
    {
      AbsentStays(pendingBuyIds, id);
      if id in pendingBuyIds {
        pendingBuyIds := RemoveFirst(pendingBuyIds, id);
      }
    }

    method OptionOpened(option: int)
      modifies this
      ensures Value() == Open(old(Value()), option) && result == old(result)
      ensures requestIdCounter == old(requestIdCounter)
    {
      if pendingBuyIds != [] {
        var id := pendingBuyIds[0];
        pendingBuyIds := pendingBuyIds[1..];
        if id !in buyMultiOption {
          buyMultiOption := buyMultiOption[id := Entry(None, None)];
        }
        buyMultiOption := buyMultiOption[id := buyMultiOption[id].(id := Some(option))];
      }
    }

    method ResultReceived(requestId: Option<string>, success: bool)
      modifies this
      ensures result == Some(success) && requestIdCounter == old(requestIdCounter)
      ensures Value() == if requestId.Some? then Answer(old(Value()), requestId.value, success) else old(Value())
    {
      result := Some(success);
      if requestId.Some? {
        var id := requestId.value;
        if id in buyMultiOption {
          buyMultiOption := buyMultiOption[id := buyMultiOption[id].(success := Some(success))];
        }
        if !success {
          RemovePendingBuyId(id);
        }
      }
    }

    /** The path of the "option" handler for a message without an order id. */
    method OptionWithoutOrder(requestId: Option<string>)
      modifies this
      ensures requestIdCounter == old(requestIdCounter) && result == old(result)
      ensures Value() == if requestId.Some? then Decline(old(Value()), requestId.value) else old(Value())
    {
      if requestId.Some? {
        buyMultiOption := buyMultiOption[requestId.value := Entry(None, None)];
      }
    }

    /** The sending half of `buy`, which queues its id itself before the request queues it again. */
    method BuyBegin(id: string)
      modifies this
      ensures Value() == BeginBuy(old(Value()), id)
    {
      buyMultiOption := map[id := Entry(None, None)];
      pendingBuyIds := pendingBuyIds + [id];
      var _ := SendWebsocketRequest(Some(id), true);
    }

    /** The sending half of `buy_multi`: the requests are numbered from zero. */
    method BuyMultiBegin(n: nat)
      modifies this
      ensures Value() == Desk(old(pendingBuyIds) + Numbers(n), map[])
    {
      buyMultiOption := map[];
      for i := 0 to n
        invariant Value() == Desk(old(pendingBuyIds) + Numbers(i), map[])
      {
        var _ := SendWebsocketRequest(Some(Decimal(i)), true);
        assert old(pendingBuyIds) + Numbers(i) + [Decimal(i)] == old(pendingBuyIds) + Numbers(i + 1);
      }
    }
  }

  lemma {:induction false} AbsentStays(s: seq<string>, id: string)
    ensures id !in s ==> RemoveFirst(s, id) == s
    decreases s
  {
    if s != [] {
      AbsentStays(s[1..], id);
    }
  }

  // ----- runs

  /** A message as an observer of the server sees it: an opening knows its request. */
  datatype Event =
    | Sent(id: string)
    | Opened(id: string, option: int)
    | Rejected(id: string)
    | Confirmed(id: string)
    | Declined(id: string)

  function Step(d: Desk, e: Event): Desk {
    match e
    case Sent(id) => Enqueue(d, id)
    case Opened(_, option) => Open(d, option)
    case Rejected(id) => Answer(d, id, false)
    case Confirmed(id) => Answer(d, id, true)
    case Declined(id) => Decline(d, id)
  }

  function Run(events: seq<Event>): Desk {
    if events == [] then Desk([], map[]) else Step(Run(events[..|events| - 1]), events[|events| - 1])
  }

  lemma RunMore(events: seq<Event>, e: Event)
    ensures Run(events + [e]) == Step(Run(events), e)
  {
    hide Step;
    assert (events + [e])[..|events|] == events;
  }

  function SentIds(events: seq<Event>): seq<string> {
    if events == [] then []
    else
      var before, last := SentIds(events[..|events| - 1]), events[|events| - 1];
      if last.Sent? then before + [last.id] else before
  }

  /** The requests that were opened, in order, and the options they opened. */
  function OpenedIds(events: seq<Event>): seq<string> {
    if events == [] then []
    else
      var before, last := OpenedIds(events[..|events| - 1]), events[|events| - 1];
      if last.Opened? then before + [last.id] else before
  }

  function OpenedOptions(events: seq<Event>): (s: seq<int>)
    ensures |s| == |OpenedIds(events)|
  {
    if events == [] then []
    else
      var before, last := OpenedOptions(events[..|events| - 1]), events[|events| - 1];
      if last.Opened? then before + [last.option] else before
  }

  ghost predicate WasSent(events: seq<Event>, id: string) {
    Sent(id) in events
  }

  ghost predicate WasOpened(events: seq<Event>, id: string, option: int) {
    Opened(id, option) in events
  }

  lemma {:induction false} SentIsListed(events: seq<Event>, id: string)
    ensures WasSent(events, id) <==> id in SentIds(events)
    decreases events
  {
    if events != [] {
      var front, last := events[..|events| - 1], events[|events| - 1];
      SentIsListed(front, id);
      assert WasSent(events, id) <==> WasSent(front, id) || last == Sent(id);
    }
  }

  lemma {:induction false} OpenedIsListed(events: seq<Event>, id: string, option: int)
    requires WasOpened(events, id, option)
    ensures id in OpenedIds(events)
    decreases events
  {
    var front, last := events[..|events| - 1], events[|events| - 1];
    if last != Opened(id, option) {
      assert Opened(id, option) in front;
      OpenedIsListed(front, id, option);
    }
  }

  lemma {:induction false} OpenedPairs(events: seq<Event>, i: nat)
    requires i < |OpenedIds(events)|
    ensures WasOpened(events, OpenedIds(events)[i], OpenedOptions(events)[i])
    decreases events
  {
    var front, last := events[..|events| - 1], events[|events| - 1];
    if i < |OpenedIds(front)| {
      OpenedPairs(front, i);
    } else {
      assert last in events;
    }
  }

  // ----- lists of ids

  lemma HeadIsIn(s: seq<string>)
    ensures s == [] || s[0] in s
  {
  }

  function Without(s: seq<string>, id: string): seq<string> {
    if s == [] then [] else (if s[0] == id then [] else [s[0]]) + Without(s[1..], id)
  }

  lemma {:induction false} WithoutAbsent(s: seq<string>, id: string)
    requires id !in s
    ensures Without(s, id) == s
    decreases s
  {
    if s != [] {
      WithoutAbsent(s[1..], id);
    }
  }

  lemma {:induction false} WithoutKeeps(s: seq<string>, id: string, x: string)
    ensures x in Without(s, id) <==> x in s && x != id
    decreases s
  {
    if s != [] {
      WithoutKeeps(s[1..], id, x);
    }
  }

  lemma {:induction false} WithoutSplits(a: seq<string>, b: seq<string>, id: string)
    ensures Without(a + b, id) == Without(a, id) + Without(b, id)
    decreases a
  {
    if a == [] {
      assert a + b == b;
    } else {
      assert (a + b)[1..] == a[1..] + b;
      WithoutSplits(a[1..], b, id);
    }
  }

  lemma {:induction false} WithoutStaysDistinct(s: seq<string>, id: string)
    requires Distinct(s)
    ensures Distinct(Without(s, id))
    decreases s
  {
    if s != [] {
      WithoutStaysDistinct(s[1..], id);
      WithoutKeeps(s[1..], id, s[0]);
    }
  }

  /** From a list without repetition, removing the first occurrence removes the id. */
  lemma {:induction false} RemovingTheOnlyOne(s: seq<string>, id: string)
    requires Distinct(s)
    ensures RemoveFirst(s, id) == Without(s, id)
    decreases s
  {
    if s != [] {
      if s[0] == id {
        WithoutAbsent(s[1..], id);
      } else {
        RemovingTheOnlyOne(s[1..], id);
      }
    }
  }

  // ----- the ledger: every id ever queued, and the options that took them

  /** The ids queued and not removed, in order, and the options of the openings that took the first of them. */
  datatype Ledger = Ledger(line: seq<string>, options: seq<int>)

  function Enter(l: Ledger, e: Event): (after: Ledger)
    requires |l.options| <= |l.line|
    ensures |after.options| <= |after.line| && l.options <= after.options
    ensures l.line[..|l.options|] <= after.line
  {
    var taken := |l.options|;
    match e
    case Sent(id) => l.(line := l.line + [id])
    case Opened(_, option) => if taken < |l.line| then l.(options := l.options + [option]) else l
    case Rejected(id) => l.(line := l.line[..taken] + RemoveFirst(l.line[taken..], id))
    case Confirmed(_) => l
    case Declined(_) => l
  }

  function LedgerOf(events: seq<Event>): (l: Ledger)
    ensures |l.options| <= |l.line|
  {
    if events == [] then Ledger([], []) else Enter(LedgerOf(events[..|events| - 1]), events[|events| - 1])
  }

  /** The ids that openings have taken from the queue. */
  function TakenIds(events: seq<Event>): seq<string> {
    LedgerOf(events).line[..|LedgerOf(events).options|]
  }

  function Rest(l: Ledger): seq<string>
    requires |l.options| <= |l.line|
  {
    l.line[|l.options|..]
  }

  lemma QueueStep(d: Desk, l: Ledger, e: Event)
    requires |l.options| <= |l.line| && d.pending == Rest(l)
    ensures Step(d, e).pending == Rest(Enter(l, e))
  {
  }

  /** In every run whatever, the queue is the rest of the line. */
  lemma {:induction false} QueueIsRestOfLine(events: seq<Event>)
    ensures Run(events).pending == Rest(LedgerOf(events))
    decreases events
  {
    if events != [] {
      hide Step, Enter, Rest;
      var front, last := events[..|events| - 1], events[|events| - 1];
      QueueIsRestOfLine(front);
      QueueStep(Run(front), LedgerOf(front), last);
    } else {
      assert Rest(LedgerOf(events)) == [];
    }
  }

  lemma {:induction false} RemoveFirstWithin(s: seq<string>, id: string)
    ensures forall x :: x in RemoveFirst(s, id) ==> x in s
    decreases s
  {
    if s != [] {
      RemoveFirstWithin(s[1..], id);
    }
  }

  lemma DistinctJoin(a: seq<string>, b: seq<string>)
    requires Distinct(a) && Distinct(b) && forall x :: x in b ==> x !in a
    ensures Distinct(a + b)
  {
    forall i, j | 0 <= i < j < |a + b| ensures (a + b)[i] != (a + b)[j] {
      if i < |a| && |a| <= j {
        assert b[j - |a|] in b;
      }
    }
  }

  lemma EnterKeepsDistinct(l: Ledger, e: Event)
    requires |l.options| <= |l.line| && Distinct(l.line) && (e.Sent? ==> e.id !in l.line)
    ensures Distinct(Enter(l, e).line)
    ensures forall x :: x in Enter(l, e).line ==> x in l.line || e == Sent(x)
  {
    if e.Rejected? {
      var done, rest := l.line[..|l.options|], l.line[|l.options|..];
      assert Distinct(done) && Distinct(rest);
      RemoveFirstWithin(rest, e.id);
      RemovingTheOnlyOne(rest, e.id);
      WithoutStaysDistinct(rest, e.id);
      DistinctJoin(done, RemoveFirst(rest, e.id));
    }
  }

  /** With distinct request ids no id is in line twice. */
  lemma {:induction false} LineIsDistinct(events: seq<Event>)
    requires Distinct(SentIds(events))
    ensures Distinct(LedgerOf(events).line)
    ensures forall x :: x in LedgerOf(events).line ==> x in SentIds(events)
    decreases events
  {
    if events != [] {
      hide Enter;
      var front, last := events[..|events| - 1], events[|events| - 1];
      var before := SentIds(front);
      assert before == SentIds(events)[..|before|];
      assert forall i :: 0 <= i < |before| ==> before[i] == SentIds(events)[i];
      LineIsDistinct(front);
      assert last.Sent? ==> SentIds(events)[|before|] == last.id;
      EnterKeepsDistinct(LedgerOf(front), last);
    }
  }

  /** An "option" reply without an order id came for the `k`-th id in line after an opening had taken it. */
  predicate Overwritten(events: seq<Event>, k: nat) {
    if events == [] then false
    else
      var front, last := events[..|events| - 1], events[|events| - 1];
      k < |LedgerOf(front).options| && (Overwritten(front, k) || last == Declined(LedgerOf(front).line[k]))
  }

  /** What an id has stored under it: the option that took it, unless it was overwritten since. */
  function Stored(events: seq<Event>, k: nat): Option<int>
    requires k < |LedgerOf(events).options|
  {
    if Overwritten(events, k) then None else Some(LedgerOf(events).options[k])
  }

  lemma StoredStep(events: seq<Event>, k: nat)
    requires events != [] && k < |LedgerOf(events).options|
    ensures
      var front, last := events[..|events| - 1], events[|events| - 1];
      && LedgerOf(events).line[k] == LedgerOf(front).line[k]
      && (k < |LedgerOf(front).options| ==>
            Stored(events, k) == if last == Declined(LedgerOf(front).line[k]) then None else Stored(front, k))
      && (k >= |LedgerOf(front).options| ==> last.Opened? && Stored(events, k) == Some(last.option))
  {
    var l := LedgerOf(events[..|events| - 1]);
    assert k < |l.options| ==> l.line[..|l.options|][k] == LedgerOf(events).line[k];
  }

  /** In every run with distinct request ids, the dictionary holds for each taken id what the ledger says. */
  lemma {:induction false} StoredInLine(events: seq<Event>, k: nat)
    requires Distinct(SentIds(events)) && k < |LedgerOf(events).options|
    ensures EntryOf(Run(events), LedgerOf(events).line[k]).id == Stored(events, k)
    decreases events
  {
    var front, last := events[..|events| - 1], events[|events| - 1];
    var before := SentIds(front);
    assert before == SentIds(events)[..|before|];
    assert forall i :: 0 <= i < |before| ==> before[i] == SentIds(events)[i];
    StoredStep(events, k);
    QueueIsRestOfLine(front);
    LineIsDistinct(front);
    if k < |LedgerOf(front).options| {
      StoredInLine(front, k);
    }
    hide Stored, Overwritten;
  }

  /** It holds nothing for an id that no opening has taken. */
  lemma {:induction false} NothingUntilTaken(events: seq<Event>, id: string)
    requires id !in TakenIds(events)
    ensures EntryOf(Run(events), id).id == None
    decreases events
  {
    if events != [] {
      var front := events[..|events| - 1];
      var l := LedgerOf(front);
      assert l.line[..|l.options|] <= TakenIds(events);
      NothingUntilTaken(front, id);
      QueueIsRestOfLine(front);
    }
  }

  lemma TakenStep(events: seq<Event>, id: string)
    requires events != []
    ensures
      var front, last := events[..|events| - 1], events[|events| - 1];
      var l := LedgerOf(front);
      id in TakenIds(events) <==>
        id in TakenIds(front) || (last.Opened? && |l.options| < |l.line| && l.line[|l.options|] == id)
  {
    var front, last := events[..|events| - 1], events[|events| - 1];
    var l := LedgerOf(front);
    if last.Opened? && |l.options| < |l.line| {
      assert TakenIds(events) == TakenIds(front) + [l.line[|l.options|]];
    } else {
      assert TakenIds(events) == TakenIds(front);
    }
  }

  lemma EntriesStep(d: Desk, e: Event, id: string)
    ensures id in Step(d, e).options <==>
            id in d.options || e == Declined(id) || (e.Opened? && d.pending != [] && d.pending[0] == id)
  {
  }

  /** It has an entry for the taken ids and for those that an "option" reply without an order id named. */
  lemma {:induction false} EntriesExactly(events: seq<Event>, id: string)
    ensures id in Run(events).options <==> id in TakenIds(events) || Declined(id) in events
    decreases events
  {
    if events != [] {
      hide Step, LedgerOf, TakenIds;
      var front, last := events[..|events| - 1], events[|events| - 1];
      EntriesExactly(front, id);
      QueueIsRestOfLine(front);
      EntriesStep(Run(front), last, id);
      TakenStep(events, id);
      assert Declined(id) in events <==> Declined(id) in front || last == Declined(id);
    }
  }

  /** An entry was there before: an opening took the id, or an "option" reply without an order id named it. */
  ghost predicate Entered(events: seq<Event>, id: string) {
    id in TakenIds(events) || Declined(id) in events
  }

  /** The latest result for an id that had an entry by then, forgotten at each "option" reply without an order id. */
  ghost function ResultFor(events: seq<Event>, id: string): Option<bool> {
    if events == [] then None
    else
      var front, last := events[..|events| - 1], events[|events| - 1];
      if last == Declined(id) then None
      else if (last == Confirmed(id) || last == Rejected(id)) && Entered(front, id) then Some(last.Confirmed?)
      else ResultFor(front, id)
  }

  lemma SuccessStep(d: Desk, e: Event, id: string)
    ensures EntryOf(Step(d, e), id).success ==
            if e == Declined(id) then None
            else if (e == Confirmed(id) || e == Rejected(id)) && id in d.options then Some(e.Confirmed?)
            else EntryOf(d, id).success
  {
  }

  /** In every run the success stored under an id is that of the latest result since its entry was made. */
  lemma {:induction false} SuccessIsTheLatest(events: seq<Event>, id: string)
    ensures EntryOf(Run(events), id).success == ResultFor(events, id)
    decreases events
  {
    if events != [] {
      hide Step, Entered, EntryOf;
      var front := events[..|events| - 1];
      SuccessIsTheLatest(front, id);
      EntriesExactly(front, id);
      assert Entered(front, id) <==> id in TakenIds(front) || Declined(id) in front by {
        EnteredMeans(front, id);
      }
      SuccessStep(Run(front), events[|events| - 1], id);
      hide TakenIds;
    } else {
      assert EntryOf(Desk([], map[]), id) == Entry(None, None);
    }
  }

  lemma EnteredMeans(events: seq<Event>, id: string)
    ensures Entered(events, id) <==> id in TakenIds(events) || Declined(id) in events
  {
  }
}

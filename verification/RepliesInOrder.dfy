/**
 Requests whose options are opened in request order. A refusal either comes as
 a failed result, which takes the id out of the queue, or as an "option" reply
 without an order id, which leaves it there and shifts the later answers.
 */
module RepliesInOrder {
  import opened Common
  import opened OrderCorrelation

  /** The requests without a final answer, oldest first. */
  function Unanswered(events: seq<Event>): seq<string> {
    if events == [] then []
    else
      var before, last := Unanswered(events[..|events| - 1]), events[|events| - 1];
      if last.Sent? then before + [last.id] else if last.Confirmed? then before else Without(before, last.id)
  }

  /** A new request has a new id, an opening is for the oldest unanswered request, a failed result for any of them. */
  ghost predicate MayFollow(before: seq<Event>, e: Event) {
    match e
    case Sent(id) => !WasSent(before, id)
    case Opened(id, _) => Unanswered(before) != [] && Unanswered(before)[0] == id
    case Rejected(id) => id in Unanswered(before)
    case Confirmed(_) => true
    case Declined(_) => true
  }

  /** Ids are never reused, openings come in request order, and a failed result is for an unanswered request. */
  ghost predicate InOrder(events: seq<Event>) {
    events == [] || (InOrder(events[..|events| - 1]) && MayFollow(events[..|events| - 1], events[|events| - 1]))
  }

  /** The requests that were declined while they waited for an answer: their ids stay in the queue. */
  function Lost(events: seq<Event>): seq<string> {
    if events == [] then []
    else
      var front, last := events[..|events| - 1], events[|events| - 1];
      Lost(front) + if last.Declined? && last.id in Unanswered(front) then [last.id] else []
  }

  lemma {:induction false} SentAreDistinct(events: seq<Event>)
    requires InOrder(events)
    ensures Distinct(SentIds(events))
    decreases events
  {
    if events != [] {
      var front, last := events[..|events| - 1], events[|events| - 1];
      SentAreDistinct(front);
      SentIsListed(front, last.id);
    }
  }

  lemma {:induction false} UnansweredWereSent(events: seq<Event>)
    requires InOrder(events)
    ensures Distinct(Unanswered(events))
    ensures forall id :: id in Unanswered(events) ==> WasSent(events, id)
    decreases events
  {
    if events != [] {
      var front, last := events[..|events| - 1], events[|events| - 1];
      UnansweredWereSent(front);
      WithoutStaysDistinct(Unanswered(front), last.id);
      forall x ensures x in Unanswered(events) ==> WasSent(events, x) {
        WithoutKeeps(Unanswered(front), last.id, x);
        assert WasSent(events, x) <==> WasSent(front, x) || last == Sent(x);
      }
    }
  }

  /** An opened request is no longer waiting, and it had been sent. */
  lemma {:induction false} OpenedIsDone(events: seq<Event>, id: string)
    requires InOrder(events) && id in OpenedIds(events)
    ensures id !in Unanswered(events) && WasSent(events, id)
    decreases events
  {
    var front, last := events[..|events| - 1], events[|events| - 1];
    UnansweredWereSent(front);
    WithoutKeeps(Unanswered(front), last.id, id);
    if id in OpenedIds(front) {
      OpenedIsDone(front, id);
    }
    assert WasSent(front, id) ==> WasSent(events, id);
  }

  // ----- what became of the requests, against the line

  /** The requests opened, and then those still waiting. */
  function Standing(events: seq<Event>): seq<string> {
    OpenedIds(events) + Unanswered(events)
  }

  lemma OpeningMovesTheHead(done: seq<string>, waiting: seq<string>)
    requires waiting != [] && Distinct(waiting)
    ensures (done + [waiting[0]]) + Without(waiting, waiting[0]) == done + waiting
  {
    var head, tail := waiting[0], waiting[1..];
    assert head !in tail;
    WithoutAbsent(tail, head);
    assert Without(waiting, head) == tail;
    hide Without, Distinct;
  }

  lemma RefusalTakesOut(done: seq<string>, waiting: seq<string>, id: string)
    requires id !in done
    ensures done + Without(waiting, id) == Without(done + waiting, id)
  {
    WithoutSplits(done, waiting, id);
    WithoutAbsent(done, id);
  }

  /** A refusal takes its request out; nothing else changes the order of what was sent. */
  lemma StandingStep(events: seq<Event>)
    requires InOrder(events) && events != []
    ensures
      var front, last := events[..|events| - 1], events[|events| - 1];
      var refused := last.Rejected? || (last.Declined? && last.id in Unanswered(front));
      Standing(events) ==
        if last.Sent? then Standing(front) + [last.id]
        else if refused then Without(Standing(front), last.id) else Standing(front)
  {
    var front, last := events[..|events| - 1], events[|events| - 1];
    var done, waiting := OpenedIds(front), Unanswered(front);
    hide Without, Distinct, WasSent;
    if last.Sent? {
      assert done + (waiting + [last.id]) == (done + waiting) + [last.id];
    } else if last.Opened? {
      UnansweredWereSent(front);
      OpeningMovesTheHead(done, waiting);
    } else if last.id in waiting {
      if last.id in done {
        OpenedIsDone(front, last.id);
      }
      RefusalTakesOut(done, waiting, last.id);
    } else {
      WithoutAbsent(waiting, last.id);
    }
  }

  /** A list with the lost ids taken out. */
  function Outside(s: seq<string>, lost: seq<string>): seq<string> {
    if s == [] then []
    else Outside(s[..|s| - 1], lost) + if s[|s| - 1] in lost then [] else [s[|s| - 1]]
  }

  lemma {:induction false} OutsideKeeps(s: seq<string>, lost: seq<string>, x: string)
    ensures x in Outside(s, lost) <==> x in s && x !in lost
    decreases s
  {
    if s != [] {
      OutsideKeeps(s[..|s| - 1], lost, x);
      assert s == s[..|s| - 1] + [s[|s| - 1]];
    }
  }

  lemma {:induction false} OutsideSplits(a: seq<string>, b: seq<string>, lost: seq<string>)
    ensures Outside(a + b, lost) == Outside(a, lost) + Outside(b, lost)
    decreases b
  {
    if b == [] {
      assert a + b == a;
    } else {
      assert (a + b)[..|a + b| - 1] == a + b[..|b| - 1];
      OutsideSplits(a, b[..|b| - 1], lost);
    }
  }

  /** The list keeps its length exactly when it holds nothing lost, and then it stays as it was. */
  lemma {:induction false} OutsideLength(s: seq<string>, lost: seq<string>)
    ensures |Outside(s, lost)| <= |s|
    ensures |Outside(s, lost)| == |s| <==> forall x :: x in s ==> x !in lost
    ensures |Outside(s, lost)| == |s| ==> Outside(s, lost) == s
    decreases s
  {
    if s != [] {
      OutsideLength(s[..|s| - 1], lost);
      assert s == s[..|s| - 1] + [s[|s| - 1]];
    }
  }

  lemma {:induction false} OutsideMore(s: seq<string>, lost: seq<string>, id: string)
    ensures Outside(s, lost + [id]) == Without(Outside(s, lost), id)
    decreases s
  {
    if s != [] {
      var last := s[|s| - 1];
      OutsideMore(s[..|s| - 1], lost, id);
      WithoutSplits(Outside(s[..|s| - 1], lost), if last in lost then [] else [last], id);
      assert [last][1..] == [];
    }
  }

  lemma OutsideOne(x: string, lost: seq<string>)
    ensures Outside([x], lost) == if x in lost then [] else [x]
  {
    assert [x][..0] == [];
  }

  lemma {:induction false} OutsideCommutes(s: seq<string>, lost: seq<string>, id: string)
    ensures Outside(Without(s, id), lost) == Without(Outside(s, lost), id)
    decreases s
  {
    if s != [] {
      var front, last := s[..|s| - 1], s[|s| - 1];
      assert s == front + [last] && [last][1..] == [];
      OutsideCommutes(front, lost, id);
      WithoutSplits(front, [last], id);
      OutsideSplits(Without(front, id), Without([last], id), lost);
      WithoutSplits(Outside(front, lost), if last in lost then [] else [last], id);
      OutsideOne(last, lost);
    }
  }

  /** What became of the requests: the openings and their options, the requests standing, and the lost ones. */
  datatype Truth = Truth(done: seq<string>, options: seq<int>, standing: seq<string>, lost: seq<string>)

  function TruthOf(events: seq<Event>): Truth {
    Truth(OpenedIds(events), OpenedOptions(events), Standing(events), Lost(events))
  }

  ghost predicate Agree(l: Ledger, t: Truth) {
    && l.options == t.options && |t.done| == |t.options| && t.done <= t.standing
    && Outside(l.line, t.lost) == t.standing
    && (forall x :: x in t.lost ==> x in l.line)
  }

  lemma AgreeSent(l: Ledger, t: Truth, id: string)
    requires |l.options| <= |l.line| && Agree(l, t) && id !in l.line
    ensures Agree(Enter(l, Sent(id)), t.(standing := t.standing + [id]))
  {
    assert (l.line + [id])[..|l.line|] == l.line;
  }

  lemma AgreeOpened(l: Ledger, t: Truth, id: string, option: int)
    requires |l.options| <= |l.line| && Agree(l, t)
    requires |t.done| < |t.standing| && t.standing[|t.done|] == id
    ensures Agree(Enter(l, Opened(id, option)), t.(done := t.done + [id], options := t.options + [option]))
  {
    OutsideLength(l.line, t.lost);
    hide Outside;
  }

  lemma WaitingIsInTheRest(l: Ledger, t: Truth, id: string)
    requires |l.options| <= |l.line| && Agree(l, t) && id in t.standing && id !in t.done
    ensures id in l.line && id !in l.line[..|l.options|] && id in Rest(l)
  {
    var taken, rest := l.line[..|l.options|], l.line[|l.options|..];
    assert l.line == taken + rest;
    OutsideSplits(taken, rest, t.lost);
    OutsideLength(taken, t.lost);
    OutsideKeeps(l.line, t.lost, id);
    OutsideKeeps(taken, t.lost, id);
    hide Outside;
    assert Outside(taken, t.lost) <= t.done;
    assert id !in taken;
  }

  /** A failed result for a waiting request finds its id in the queue, and takes it out of the line. */
  lemma RejectionTakesFromLine(l: Ledger, t: Truth, id: string)
    requires |l.options| <= |l.line| && Agree(l, t) && Distinct(l.line) && id in t.standing && id !in t.done
    ensures Enter(l, Rejected(id)).line == Without(l.line, id)
  {
    var taken, rest := l.line[..|l.options|], l.line[|l.options|..];
    assert l.line == taken + rest;
    WaitingIsInTheRest(l, t, id);
    RemovingTheOnlyOne(rest, id);
    RefusalTakesOut(taken, rest, id);
    hide Without, Outside, Agree;
  }

  lemma PrefixStays(done: seq<string>, s: seq<string>, id: string)
    requires done <= s && id !in done
    ensures done <= Without(s, id)
  {
    assert s == done + s[|done|..];
    RefusalTakesOut(done, s[|done|..], id);
  }

  lemma AgreeRejected(l: Ledger, t: Truth, id: string)
    requires |l.options| <= |l.line| && Agree(l, t) && Distinct(l.line) && id in t.standing && id !in t.done
    ensures Agree(Enter(l, Rejected(id)), t.(standing := Without(t.standing, id)))
  {
    RejectionTakesFromLine(l, t, id);
    OutsideCommutes(l.line, t.lost, id);
    OutsideKeeps(l.line, t.lost, id);
    PrefixStays(t.done, t.standing, id);
    forall x ensures x in Without(l.line, id) <==> x in l.line && x != id {
      WithoutKeeps(l.line, id, x);
    }
    hide Outside, Without;
  }

  lemma AgreeDeclined(l: Ledger, t: Truth, id: string)
    requires |l.options| <= |l.line| && Agree(l, t) && id in t.standing && id !in t.done
    ensures Agree(l, t.(standing := Without(t.standing, id), lost := t.lost + [id]))
  {
    OutsideMore(l.line, t.lost, id);
    OutsideKeeps(l.line, t.lost, id);
    PrefixStays(t.done, t.standing, id);
    hide Outside, Without;
  }

  lemma TruthStep(events: seq<Event>)
    requires InOrder(events) && events != []
    ensures
      var front, last := events[..|events| - 1], events[|events| - 1];
      var t, refused := TruthOf(front), last.Declined? && last.id in Unanswered(front);
      TruthOf(events) ==
        if last.Sent? then t.(standing := t.standing + [last.id])
        else if last.Opened? then t.(done := t.done + [last.id], options := t.options + [last.option])
        else if last.Rejected? then t.(standing := Without(t.standing, last.id))
        else if refused then t.(standing := Without(t.standing, last.id), lost := t.lost + [last.id])
        else t
  {
    StandingStep(events);
    hide Standing, Without, MayFollow;
    assert Lost(events[..|events| - 1]) + [] == Lost(events[..|events| - 1]);
  }

  lemma WaitingStands(events: seq<Event>, id: string)
    requires InOrder(events) && id in Unanswered(events)
    ensures id in Standing(events) && id !in OpenedIds(events)
  {
    if id in OpenedIds(events) {
      OpenedIsDone(events, id);
    }
  }

  lemma HeadStandsNext(events: seq<Event>)
    requires Unanswered(events) != []
    ensures |OpenedIds(events)| < |Standing(events)|
    ensures Standing(events)[|OpenedIds(events)|] == Unanswered(events)[0]
  {
  }

  /** In order, the openings and the waiting requests are the line with the lost ids taken out. */
  lemma {:induction false} LineAgainstTruth(events: seq<Event>)
    requires InOrder(events)
    ensures Agree(LedgerOf(events), TruthOf(events)) && Distinct(LedgerOf(events).line)
    decreases events
  {
    SentAreDistinct(events);
    LineIsDistinct(events);
    if events != [] {
      var front, last := events[..|events| - 1], events[|events| - 1];
      assert InOrder(front) && MayFollow(front, last);
      var l, t := LedgerOf(front), TruthOf(front);
      assert l.line == LedgerOf(front).line && t.standing == Standing(front) && t.done == OpenedIds(front);
      TruthStep(events);
      LineAgainstTruth(front);
      hide Enter, Agree, TruthOf, Standing, OpenedIds, Unanswered;
      if last.Sent? {
        NewIdIsNotInLine(events);
        AgreeSent(l, t, last.id);
      } else if last.Opened? {
        HeadStandsNext(front);
        AgreeOpened(l, t, last.id, last.option);
      } else if last.Rejected? {
        WaitingStands(front, last.id);
        AgreeRejected(l, t, last.id);
      } else if last.Declined? && last.id in Unanswered(front) {
        WaitingStands(front, last.id);
        AgreeDeclined(l, t, last.id);
        EnterIgnores(l, last);
      } else {
        EnterIgnores(l, last);
      }
    }
  }

  lemma EnterIgnores(l: Ledger, e: Event)
    requires |l.options| <= |l.line| && (e.Confirmed? || e.Declined?)
    ensures Enter(l, e) == l
  {
  }

  lemma NewIdIsNotInLine(events: seq<Event>)
    requires InOrder(events) && events != [] && events[|events| - 1].Sent?
    ensures events[|events| - 1].id !in LedgerOf(events[..|events| - 1]).line
  {
    var front := events[..|events| - 1];
    SentAreDistinct(front);
    LineIsDistinct(front);
    SentIsListed(front, events[|events| - 1].id);
  }

  // ----- the queue and the storage, exactly

  /** The queue is the unanswered requests in order if and only if none was declined while it waited. */
  lemma QueueIsUnanswered(events: seq<Event>)
    requires InOrder(events)
    ensures Run(events).pending == Unanswered(events) <==> Lost(events) == []
  {
    var l := LedgerOf(events);
    LineAgainstTruth(events);
    QueueIsRestOfLine(events);
    OutsideLength(l.line, Lost(events));
    HeadIsIn(Lost(events));
    if Lost(events) == [] {
      assert Standing(events)[|l.options|..] == Unanswered(events);
    }
  }

  /** An id keeps its place in a list exactly when neither it nor any before it is lost. */
  lemma PlaceExactly(before: seq<string>, x: string, rest: seq<string>, lost: seq<string>)
    requires x !in rest && |before| < |Outside(before + ([x] + rest), lost)|
    ensures Outside(before + ([x] + rest), lost)[|before|] == x <==>
            x !in lost && forall y :: y in before ==> y !in lost
  {
    var a, b, c := Outside(before, lost), Outside([x], lost), Outside(rest, lost);
    OutsideSplits(before, [x] + rest, lost);
    OutsideSplits([x], rest, lost);
    OutsideOne(x, lost);
    OutsideLength(before, lost);
    OutsideKeeps(rest, lost, x);
    hide Outside;
    NthOfThree(a, b, c, x, |before|);
  }

  lemma NthOfThree(a: seq<string>, b: seq<string>, c: seq<string>, x: string, k: nat)
    requires |a| <= k < |a + (b + c)| && (b == [] || b == [x]) && x !in c
    ensures (a + (b + c))[k] == x <==> b == [x] && |a| == k
  {
    assert k >= |a| + |b| ==> (a + (b + c))[k] == c[k - |a| - |b|] && c[k - |a| - |b|] in c;
  }

  lemma TakenUnderOwnIdExactly(line: seq<string>, lost: seq<string>, k: nat)
    requires Distinct(line) && k < |Outside(line, lost)|
    ensures k < |line|
    ensures line[k] == Outside(line, lost)[k] <==> forall j :: 0 <= j <= k ==> line[j] !in lost
  {
    hide Outside;
    OutsideLength(line, lost);
    var before, rest := line[..k], line[k + 1..];
    assert line[k] !in rest;
    assert line == before + ([line[k]] + rest);
    PlaceExactly(before, line[k], rest, lost);
    hide Distinct;
    EarlierIn(line, lost, k);
  }

  lemma EarlierIn(line: seq<string>, lost: seq<string>, k: nat)
    requires k < |line|
    ensures (forall j :: 0 <= j <= k ==> line[j] !in lost) <==>
            line[k] !in lost && forall y :: y in line[..k] ==> y !in lost
  {
    assert forall j :: 0 <= j < k ==> line[..k][j] == line[j];
  }

  /**
   The `k`-th opening is stored under the `k`-th id in line. That is its own
   request if and only if no request up to there was declined while it waited.
   */
  lemma StoredUnderItsRequestExactly(events: seq<Event>, k: nat)
    requires InOrder(events) && k < |OpenedIds(events)|
    ensures k < |LedgerOf(events).options|
    ensures EntryOf(Run(events), LedgerOf(events).line[k]).id ==
            if Overwritten(events, k) then None else Some(OpenedOptions(events)[k])
    ensures LedgerOf(events).line[k] == OpenedIds(events)[k] <==>
            forall j :: 0 <= j <= k ==> LedgerOf(events).line[j] !in Lost(events)
  {
    LineAgainstTruth(events);
    SentAreDistinct(events);
    StoredInLine(events, k);
    assert Standing(events)[k] == OpenedIds(events)[k];
    TakenUnderOwnIdExactly(LedgerOf(events).line, Lost(events), k);
  }

  // ----- while no waiting request is declined

  lemma {:induction false} OpenedAreDistinct(events: seq<Event>)
    requires InOrder(events)
    ensures Distinct(OpenedIds(events))
    decreases events
  {
    if events != [] {
      var front, last := events[..|events| - 1], events[|events| - 1];
      OpenedAreDistinct(front);
      if last.Opened? && last.id in OpenedIds(front) {
        OpenedIsDone(front, last.id);
      }
    }
  }

  lemma {:induction false} OpenedPlace(events: seq<Event>, id: string, option: int) returns (k: nat)
    requires WasOpened(events, id, option)
    ensures k < |OpenedIds(events)| && OpenedIds(events)[k] == id && OpenedOptions(events)[k] == option
    decreases events
  {
    var front, last := events[..|events| - 1], events[|events| - 1];
    if last == Opened(id, option) {
      k := |OpenedIds(front)|;
    } else {
      assert Opened(id, option) in front;
      k := OpenedPlace(front, id, option);
    }
  }

  /** The request was declined after its opening. */
  predicate DeclinedSince(events: seq<Event>, id: string) {
    if events == [] then false
    else
      var front, last := events[..|events| - 1], events[|events| - 1];
      id in OpenedIds(front) && (DeclinedSince(front, id) || last == Declined(id))
  }

  lemma TakenAreOpened(events: seq<Event>)
    requires InOrder(events) && Lost(events) == []
    ensures |LedgerOf(events).options| == |OpenedIds(events)| && TakenIds(events) == OpenedIds(events)
  {
    var line := LedgerOf(events).line;
    LineAgainstTruth(events);
    OutsideLength(line, []);
    assert line == Standing(events);
  }

  /** The `k`-th opened request is a new one if the last message opened it. */
  lemma OpenedLast(events: seq<Event>, k: nat)
    requires InOrder(events) && events != [] && k < |OpenedIds(events)|
    ensures
      var done := OpenedIds(events[..|events| - 1]);
      && |done| <= |OpenedIds(events)|
      && (k < |done| ==> OpenedIds(events)[k] == done[k])
      && (k >= |done| ==> OpenedIds(events)[k] !in done)
  {
    OpenedAreDistinct(events);
    var done := OpenedIds(events[..|events| - 1]);
    assert forall i :: 0 <= i < |done| ==> done[i] == OpenedIds(events)[i];
    hide InOrder;
  }

  lemma {:induction false} OverwrittenIsDeclined(events: seq<Event>, k: nat)
    requires InOrder(events) && Lost(events) == [] && k < |OpenedIds(events)|
    ensures Overwritten(events, k) <==> DeclinedSince(events, OpenedIds(events)[k])
    decreases events
  {
    var front := events[..|events| - 1];
    OpenedLast(events, k);
    assert InOrder(front) && Lost(front) == [];
    TakenAreOpened(front);
    if k < |OpenedIds(front)| {
      OverwrittenIsDeclined(front, k);
      assert TakenIds(front)[k] == LedgerOf(front).line[k];
    }
    hide TakenIds, LedgerOf, InOrder, Lost, OpenedIds;
  }

  lemma StoredAtItsPlace(events: seq<Event>, k: nat)
    requires InOrder(events) && Lost(events) == [] && k < |OpenedIds(events)|
    ensures EntryOf(Run(events), OpenedIds(events)[k]).id ==
            if DeclinedSince(events, OpenedIds(events)[k]) then None else Some(OpenedOptions(events)[k])
  {
    hide InOrder, DeclinedSince, EntryOf, Run;
    TakenAreOpened(events);
    StoredUnderItsRequestExactly(events, k);
    assert TakenIds(events)[k] == LedgerOf(events).line[k];
    OverwrittenIsDeclined(events, k);
  }

  /**
   One-to-one correlation: while no request is declined as it waits, the id
   stored under a request is that of the option the request opened, unless the
   request was declined afterwards; any other request has none.
   */
  lemma StoredUnderItsRequest(events: seq<Event>, id: string, option: int)
    requires InOrder(events) && Lost(events) == []
    ensures EntryOf(Run(events), id).id == Some(option) <==> WasOpened(events, id, option) && !DeclinedSince(events, id)
  {
    hide InOrder, DeclinedSince, EntryOf, Run, TakenIds;
    if id in OpenedIds(events) {
      var k :| 0 <= k < |OpenedIds(events)| && OpenedIds(events)[k] == id;
      StoredAtItsPlace(events, k);
      OpenedPairs(events, k);
      OpenedAreDistinct(events);
      hide OpenedIds, OpenedOptions;
      if WasOpened(events, id, option) {
        var j := OpenedPlace(events, id, option);
      }
    } else {
      TakenAreOpened(events);
      NothingUntilTaken(events, id);
      if WasOpened(events, id, option) {
        OpenedIsListed(events, id, option);
      }
    }
  }

  /** No request is both opened and refused by a failed result: that is what order of replies means here. */
  lemma {:induction false} RejectedIsNotOpened(events: seq<Event>, id: string)
    requires InOrder(events) && Rejected(id) in events
    ensures id !in OpenedIds(events) && id !in Unanswered(events)
    decreases events
  {
    var front, last := events[..|events| - 1], events[|events| - 1];
    UnansweredWereSent(front);
    WithoutKeeps(Unanswered(front), last.id, id);
    if Rejected(id) in front {
      RejectedIsNotOpened(front, id);
      if last == Sent(id) {
        RejectedWasSent(front, id);
      }
    } else if id in OpenedIds(front) {
      OpenedIsDone(front, id);
    }
  }

  lemma {:induction false} RejectedWasSent(events: seq<Event>, id: string)
    requires InOrder(events) && Rejected(id) in events
    ensures WasSent(events, id)
    decreases events
  {
    var front, last := events[..|events| - 1], events[|events| - 1];
    UnansweredWereSent(front);
    if Rejected(id) in front {
      RejectedWasSent(front, id);
    }
    assert WasSent(front, id) ==> WasSent(events, id);
  }

  /** So a request refused by a failed result never holds an option id. */
  lemma RejectedGetsNone(events: seq<Event>, id: string)
    requires InOrder(events) && Lost(events) == [] && Rejected(id) in events
    ensures EntryOf(Run(events), id).id == None
  {
    RejectedIsNotOpened(events, id);
    TakenAreOpened(events);
    NothingUntilTaken(events, id);
  }

  // ----- when answers go astray

  lemma WaitingIsNotTaken(events: seq<Event>, id: string)
    requires InOrder(events) && id in Unanswered(events)
    ensures id !in TakenIds(events) && id in Rest(LedgerOf(events))
  {
    LineAgainstTruth(events);
    WaitingStands(events, id);
    hide LedgerOf, InOrder, Agree, Unanswered, Standing, OpenedIds, Rest;
    WaitingIsInTheRest(LedgerOf(events), TruthOf(events), id);
  }

  /** An opening for a request that is not at the head of the queue goes to the head; its own request waits on. */
  lemma OutOfOrderGoesToTheOldest(events: seq<Event>, id: string, option: int)
    requires InOrder(events) && id in Unanswered(events)
    ensures Run(events).pending != []
    ensures
      var head, after := Run(events).pending[0], Run(events + [Opened(id, option)]);
      && EntryOf(after, head).id == Some(option)
      && (head != id ==> EntryOf(after, id).id == None && id in after.pending)
  {
    QueueIsRestOfLine(events);
    RunMore(events, Opened(id, option));
    WaitingIsNotTaken(events, id);
    NothingUntilTaken(events, id);
    hide LedgerOf, InOrder, Unanswered, TakenIds, Run;
    HeadIsIn(Rest(LedgerOf(events)));
  }

  function Refusal(option: int): seq<Event> {
    [Sent("0"), Sent("1"), Declined("0"), Opened("1", option)]
  }

  /** Two orders, the first refused by an "option" reply: the second one's option is stored under the first. */
  lemma ARefusalTakesTheOption(option: int)
    ensures Run(Refusal(option)) ==
            Desk(["1"], map["0" := Entry(Some(option), None)])
  {
    RunMore([], Sent("0"));
    assert [] + [Sent("0")] == [Sent("0")];
    RunMore([Sent("0")], Sent("1"));
    assert [Sent("0")] + [Sent("1")] == [Sent("0"), Sent("1")];
    RunMore([Sent("0"), Sent("1")], Declined("0"));
    assert [Sent("0"), Sent("1")] + [Declined("0")] == [Sent("0"), Sent("1"), Declined("0")];
    RunMore([Sent("0"), Sent("1"), Declined("0")], Opened("1", option));
    assert [Sent("0"), Sent("1"), Declined("0")] + [Opened("1", option)] == Refusal(option);
  }
}

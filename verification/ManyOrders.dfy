/** Several orders at once: what `buy_multi` returns for any mix and order of replies. */
module ManyOrders {
  import opened Common
  import opened OrderCorrelation
  import opened RepliesInOrder

  /** String order, character by character. */
  predicate Before(a: string, b: string) {
    b != [] && (a == [] || a[0] < b[0] || (a[0] == b[0] && Before(a[1..], b[1..])))
  }

  ghost predicate Ascending(s: seq<string>) {
    forall i, j :: 0 <= i < j < |s| ==> Before(s[i], s[j])
  }

  ghost predicate SameElements(a: seq<string>, b: seq<string>) {
    forall x :: x in a <==> x in b
  }

  lemma {:induction false} NotBothBefore(a: string, b: string)
    ensures !(Before(a, b) && Before(b, a))
    decreases a
  {
    if a != [] && b != [] {
      NotBothBefore(a[1..], b[1..]);
    }
  }

  lemma HeadIsLeast(s: seq<string>, x: string)
    requires Ascending(s) && x in s
    ensures x == s[0] || Before(s[0], x)
    ensures x in s[1..] <==> x != s[0]
  {
    NotBothBefore(x, x);
    var i :| 0 <= i < |s| && s[i] == x;
    if x != s[0] {
      assert s[1..][i - 1] == x;
    }
  }

  lemma {:induction false} SortingIsUnique(a: seq<string>, b: seq<string>)
    requires Ascending(a) && Ascending(b) && SameElements(a, b)
    ensures a == b
    decreases a
  {
    HeadIsIn(a);
    HeadIsIn(b);
    if a != [] {
      HeadIsLeast(a, b[0]);
      HeadIsLeast(b, a[0]);
      NotBothBefore(a[0], b[0]);
      forall x ensures x in a[1..] <==> x in b[1..] {
        if x in a {
          HeadIsLeast(a, x);
          HeadIsLeast(b, x);
        }
      }
      SortingIsUnique(a[1..], b[1..]);
    }
  }

  lemma TenComesBeforeTwo()
    ensures !Before(Decimal(2), Decimal(10))
  {
    assert Decimal(10) == Decimal(1) + [DIGITS[0]];
    assert Decimal(10)[0] == '1' && Decimal(2)[0] == '2';
  }

  /** Numbers are in string order as long as each has one digit. */
  lemma NumbersAscend(n: nat)
    ensures Ascending(Numbers(n)) <==> n <= 10
  {
    if n > 10 {
      assert Ascending(Numbers(n)) ==> Before(Numbers(n)[2], Numbers(n)[10]);
      TenComesBeforeTwo();
    }
  }

  /** With an entry for every order, the sorted keys are in request order if and only if there are at most ten. */
  lemma KeysInRequestOrder(n: nat, keys: seq<string>)
    requires Ascending(keys) && SameElements(keys, Numbers(n))
    ensures keys == Numbers(n) <==> n <= 10
  {
    NumbersAscend(n);
    if n <= 10 {
      SortingIsUnique(keys, Numbers(n));
    }
  }

  /** What `sorted` makes of the keys of `buy_multi_option`. */
  ghost predicate SortedKeys(keys: seq<string>, d: Desk) {
    Ascending(keys) && forall x :: x in keys <==> x in d.options
  }

  /** What the collecting half of `buy_multi` makes of them. */
  function Collected(keys: seq<string>, d: Desk): (ids: seq<Option<int>>)
    ensures |ids| == |keys|
  {
    seq(|keys|, i requires 0 <= i < |keys| => EntryOf(d, keys[i]).id)
  }

  method CollectIds(keys: seq<string>, d: Desk) returns (ids: seq<Option<int>>)
    ensures ids == Collected(keys, d)
  {
    ids := [];
    for i := 0 to |keys|
      invariant |ids| == i && forall k :: 0 <= k < i ==> ids[k] == EntryOf(d, keys[k]).id
    {
      ids := ids + [if keys[i] in d.options then d.options[keys[i]].id else None];
    }
  }

  // ----- any run whatever

  /** The list has a place for every id that an opening took or an "option" reply without an order id named. */
  lemma ListsTheTaken(events: seq<Event>, keys: seq<string>)
    requires Distinct(SentIds(events)) && SortedKeys(keys, Run(events))
    ensures forall x :: x in keys <==> x in TakenIds(events) || Declined(x) in events
    ensures
      var l, ids := LedgerOf(events), Collected(keys, Run(events));
      forall i, k :: 0 <= i < |keys| && 0 <= k < |l.options| && keys[i] == l.line[k] ==> ids[i] == Stored(events, k)
    ensures
      forall i :: 0 <= i < |keys| && keys[i] !in TakenIds(events) ==> Collected(keys, Run(events))[i] == None
  {
    hide EntryOf, Stored, TakenIds, Run;
    forall x ensures x in keys <==> x in TakenIds(events) || Declined(x) in events {
      EntriesExactly(events, x);
    }
    var l, ids := LedgerOf(events), Collected(keys, Run(events));
    forall i, k | 0 <= i < |keys| && 0 <= k < |l.options| && keys[i] == l.line[k]
      ensures ids[i] == Stored(events, k)
    {
      StoredInLine(events, k);
    }
    forall i | 0 <= i < |keys| && keys[i] !in TakenIds(events) ensures ids[i] == None {
      NothingUntilTaken(events, keys[i]);
    }
  }

  /**
   With replies in request order, and none declined while it waits, the places
   are those of the opened and the declined requests, and each holds the option
   its request opened unless it was declined since.
   */
  lemma ListsTheOpened(events: seq<Event>, keys: seq<string>)
    requires InOrder(events) && Lost(events) == [] && SortedKeys(keys, Run(events))
    ensures forall x :: x in keys <==> x in OpenedIds(events) || Declined(x) in events
    ensures forall i, option :: 0 <= i < |keys| ==>
      (Collected(keys, Run(events))[i] == Some(option) <==>
        WasOpened(events, keys[i], option) && !DeclinedSince(events, keys[i]))
  {
    hide InOrder, EntryOf, Run, TakenIds, LedgerOf, DeclinedSince;
    SentAreDistinct(events);
    TakenAreOpened(events);
    ListsTheTaken(events, keys);
    forall i, option | 0 <= i < |keys|
      ensures Collected(keys, Run(events))[i] == Some(option) <==>
              WasOpened(events, keys[i], option) && !DeclinedSince(events, keys[i])
    {
      StoredUnderItsRequest(events, keys[i], option);
    }
  }

  lemma {:induction false} AscendingAfterRemoval(s: seq<string>, id: string)
    requires Ascending(s)
    ensures Ascending(RemoveFirst(s, id))
    decreases s
  {
    if s != [] {
      AscendingAfterRemoval(s[1..], id);
      RemoveFirstWithin(s[1..], id);
      forall x | x in RemoveFirst(s[1..], id) ensures Before(s[0], x) {
        assert x in s[1..];
      }
    }
  }

  lemma AscendingJoin(a: seq<string>, b: seq<string>)
    requires Ascending(a) && Ascending(b) && forall x, y :: x in a && y in b ==> Before(x, y)
    ensures Ascending(a + b)
  {
  }

  lemma NextNumberIsLast(s: seq<string>, n: nat)
    requires Ascending(s) && (forall x :: x in s ==> x in Numbers(n)) && n < 10
    ensures Ascending(s + [Decimal(n)])
  {
    NumbersAscend(n + 1);
    forall x | x in s ensures Before(x, Decimal(n)) {
      var j :| 0 <= j < n && Numbers(n)[j] == x;
      assert Before(Numbers(n + 1)[j], Numbers(n + 1)[n]);
    }
  }

  lemma EnterKeepsAscending(l: Ledger, e: Event)
    requires |l.options| <= |l.line| && Ascending(l.line) && !e.Sent?
    ensures Ascending(Enter(l, e).line)
    ensures forall x :: x in Enter(l, e).line ==> x in l.line
  {
    if e.Rejected? {
      var taken, rest := l.line[..|l.options|], l.line[|l.options|..];
      AscendingAfterRemoval(rest, e.id);
      RemoveFirstWithin(rest, e.id);
      AscendingJoin(taken, RemoveFirst(rest, e.id));
    }
  }

  /** Up to ten orders the line stays in string order. */
  lemma {:induction false} LineAscends(events: seq<Event>, n: nat)
    requires SentIds(events) == Numbers(n) && n <= 10
    ensures Ascending(LedgerOf(events).line)
    ensures forall x :: x in LedgerOf(events).line ==> x in Numbers(n)
    decreases events
  {
    if events != [] {
      hide Ascending, Decimal, Enter;
      var front, last := events[..|events| - 1], events[|events| - 1];
      var l := LedgerOf(front);
      if last.Sent? {
        assert Numbers(n)[..n - 1] == Numbers(n - 1) && SentIds(front) == Numbers(n)[..n - 1];
        assert last.id == Decimal(n - 1) && Decimal(n - 1) in Numbers(n);
        LineAscends(front, n - 1);
        NextNumberIsLast(l.line, n - 1);
        EnterSent(l, last.id);
      } else {
        LineAscends(front, n);
        EnterKeepsAscending(l, last);
      }
    } else {
      assert LedgerOf(events).line == [];
    }
  }

  lemma EnterSent(l: Ledger, id: string)
    requires |l.options| <= |l.line|
    ensures Enter(l, Sent(id)).line == l.line + [id]
  {
  }

  /**
   Up to ten orders, and if only requests that have taken an option are
   declined, place `i` of the list is what the `i`-th opening left there, so a
   request without an option has no place and shifts the others.
   */
  lemma ListsInOrderOfOpening(events: seq<Event>, n: nat, keys: seq<string>)
    requires SentIds(events) == Numbers(n) && n <= 10 && SortedKeys(keys, Run(events))
    requires forall id :: Declined(id) in events ==> id in TakenIds(events)
    ensures keys == TakenIds(events)
    ensures forall i :: 0 <= i < |keys| ==> Collected(keys, Run(events))[i] == Stored(events, i)
  {
    NumbersDiffer(n);
    LineAscends(events, n);
    ListsTheTaken(events, keys);
    hide Collected, Stored, Run;
    var taken := TakenIds(events);
    assert forall i :: 0 <= i < |taken| ==> taken[i] == LedgerOf(events).line[i];
    assert Ascending(taken);
    SortingIsUnique(keys, taken);
  }

  lemma NumbersDiffer(n: nat)
    ensures Distinct(Numbers(n))
  {
    forall i, j | 0 <= i < j < n ensures Numbers(n)[i] != Numbers(n)[j] {
      if Decimal(i) == Decimal(j) {
        DecimalIsInjective(i, j);
      }
    }
  }

  // ----- openings in any order

  /**
   A request is opened only after it was sent, and only once. A failed result may
   come for any id, since other requests can have the same number, and so may an
   "option" reply without an order id.
   */
  ghost predicate MayServe(before: seq<Event>, e: Event) {
    match e
    case Sent(id) => id !in SentIds(before)
    case Opened(id, _) => id in SentIds(before) && id !in OpenedIds(before)
    case Rejected(_) => true
    case Confirmed(_) => true
    case Declined(_) => true
  }

  /** The server's part of it, in any order. */
  ghost predicate Served(events: seq<Event>) {
    events == [] || (Served(events[..|events| - 1]) && MayServe(events[..|events| - 1], events[|events| - 1]))
  }

  /** Replies in request order are a special case. */
  lemma {:induction false} InOrderIsServed(events: seq<Event>)
    requires InOrder(events)
    ensures Served(events)
    decreases events
  {
    if events != [] {
      var front, last := events[..|events| - 1], events[|events| - 1];
      InOrderIsServed(front);
      UnansweredWereSent(front);
      SentIsListed(front, last.id);
      if last.Opened? {
        HeadIsIn(Unanswered(front));
        WaitingStands(front, last.id);
      }
    }
  }

  lemma {:induction false} ServedOnce(events: seq<Event>)
    requires Served(events)
    ensures Distinct(SentIds(events)) && Distinct(OpenedIds(events))
    ensures forall id :: id in OpenedIds(events) ==> id in SentIds(events)
    decreases events
  {
    if events != [] {
      ServedOnce(events[..|events| - 1]);
    }
  }

  lemma NotMoreOpenedThanSent(events: seq<Event>)
    requires Served(events)
    ensures |OpenedIds(events)| <= |SentIds(events)|
  {
    ServedOnce(events);
    DistinctWithin(OpenedIds(events), SentIds(events));
  }

  /** Among the requests sent, the id comes after as many as were opened. */
  ghost predicate StillQueued(events: seq<Event>, id: string) {
    exists j :: |OpenedIds(events)| <= j < |SentIds(events)| && SentIds(events)[j] == id
  }

  /** No failed result came for an id that was still queued. */
  ghost predicate NoneStruck(events: seq<Event>) {
    events == [] ||
    (NoneStruck(events[..|events| - 1]) &&
     !(events[|events| - 1].Rejected? && StillQueued(events[..|events| - 1], events[|events| - 1].id)))
  }

  lemma QueuedIsInRest(events: seq<Event>, id: string)
    requires |OpenedIds(events)| <= |SentIds(events)|
    ensures StillQueued(events, id) <==> id in SentIds(events)[|OpenedIds(events)|..]
  {
    var n, sent := |OpenedIds(events)|, SentIds(events);
    if StillQueued(events, id) {
      var j :| n <= j < |sent| && sent[j] == id;
      assert sent[n..][j - n] == id;
    }
  }

  /** The ledger when no queued id was struck out: every opening takes the next request in the order of sending. */
  function FullLedger(events: seq<Event>): Ledger {
    Ledger(SentIds(events), OpenedOptions(events))
  }

  lemma Striking(l: Ledger, id: string)
    requires |l.options| <= |l.line|
    ensures
      var struck := id in l.line[|l.options|..];
      if struck then |Enter(l, Rejected(id)).line| < |l.line| else Enter(l, Rejected(id)) == l
  {
    var rest := l.line[|l.options|..];
    RemovalShortens(rest, id);
    AbsentStays(rest, id);
    assert l.line[..|l.options|] + rest == l.line;
  }

  lemma FullStep(events: seq<Event>)
    requires Served(events) && events != [] && LedgerOf(events[..|events| - 1]) == FullLedger(events[..|events| - 1])
    ensures
      var front, last := events[..|events| - 1], events[|events| - 1];
      var struck := last.Rejected? && StillQueued(front, last.id);
      if struck then |LedgerOf(events).line| < |SentIds(events)| else LedgerOf(events) == FullLedger(events)
  {
    var front, last := events[..|events| - 1], events[|events| - 1];
    NotMoreOpenedThanSent(events);
    NotMoreOpenedThanSent(front);
    hide Distinct, Served, StillQueued;
    if last.Rejected? {
      QueuedIsInRest(front, last.id);
      Striking(FullLedger(front), last.id);
      hide Enter;
    }
  }

  lemma {:induction false} RemovalShortens(s: seq<string>, id: string)
    ensures |RemoveFirst(s, id)| <= |s|
    ensures id in s ==> |RemoveFirst(s, id)| < |s|
    decreases s
  {
    if s != [] {
      RemovalShortens(s[1..], id);
    }
  }

  /** The line is never longer than what was sent, and as long only if no queued id was struck out. */
  lemma {:induction false} LineIsFullExactly(events: seq<Event>)
    requires Served(events)
    ensures |LedgerOf(events).line| <= |SentIds(events)|
    ensures |LedgerOf(events).line| == |SentIds(events)| <==> NoneStruck(events)
    ensures NoneStruck(events) ==> LedgerOf(events) == FullLedger(events)
    decreases events
  {
    if events != [] {
      var front, last := events[..|events| - 1], events[|events| - 1];
      LineIsFullExactly(front);
      if NoneStruck(front) {
        FullStep(events);
      } else {
        LineGrowsAtMost(LedgerOf(front), last);
      }
      hide StillQueued, Served, Enter;
    }
  }

  lemma LineGrowsAtMost(l: Ledger, e: Event)
    requires |l.options| <= |l.line|
    ensures |Enter(l, e).line| <= |l.line| + if e.Sent? then 1 else 0
  {
    if e.Rejected? {
      RemovalShortens(l.line[|l.options|..], e.id);
    }
  }

  /** The request was declined when `k + 1` requests or more had been opened. */
  predicate DeclinedAfter(events: seq<Event>, k: nat, id: string) {
    if events == [] then false
    else
      var front, last := events[..|events| - 1], events[|events| - 1];
      k < |OpenedIds(front)| && (DeclinedAfter(front, k, id) || last == Declined(id))
  }

  lemma {:induction false} OverwrittenIsDeclinedAfter(events: seq<Event>, k: nat)
    requires Served(events) && NoneStruck(events) && k < |OpenedIds(events)|
    ensures k < |SentIds(events)|
    ensures Overwritten(events, k) <==> DeclinedAfter(events, k, SentIds(events)[k])
    decreases events
  {
    NotMoreOpenedThanSent(events);
    var front := events[..|events| - 1];
    LineIsFullExactly(front);
    hide LedgerOf, StillQueued;
    if k < |OpenedIds(front)| {
      OverwrittenIsDeclinedAfter(front, k);
    }
  }

  /** When all were opened, request `k` holds the option of the `k`-th opening, whichever request that was for. */
  lemma HoldsTheNthOption(events: seq<Event>, n: nat, k: nat)
    requires Served(events) && NoneStruck(events)
    requires SentIds(events) == Numbers(n) && |OpenedIds(events)| == n && k < n
    ensures EntryOf(Run(events), Decimal(k)).id ==
            if DeclinedAfter(events, k, Decimal(k)) then None else Some(OpenedOptions(events)[k])
  {
    ServedOnce(events);
    LineIsFullExactly(events);
    OverwrittenIsDeclinedAfter(events, k);
    StoredInLine(events, k);
  }

  lemma EntriesOfAll(events: seq<Event>, n: nat, id: string)
    requires Served(events) && NoneStruck(events) && SentIds(events) == Numbers(n) && |OpenedIds(events)| == n
    ensures id in Run(events).options <==> id in Numbers(n) || Declined(id) in events
  {
    LineIsFullExactly(events);
    EntriesExactly(events, id);
    assert TakenIds(events) == Numbers(n);
  }

  // ----- the place of a request in the list

  /** How many of the `n` requests come before request `k` in string order. */
  ghost function Rank(n: nat, k: nat): nat {
    |set x | x in Numbers(n) && Before(x, Decimal(k))|
  }

  lemma AscendingIsDistinct(s: seq<string>)
    requires Ascending(s)
    ensures Distinct(s)
  {
    forall i, j | 0 <= i < j < |s| ensures s[i] != s[j] {
      NotBothBefore(s[i], s[j]);
    }
  }

  /** A sorted list of all requests has request `k` in the place of its rank. */
  lemma PlaceIsRank(keys: seq<string>, n: nat, j: nat, k: nat)
    requires Ascending(keys) && SameElements(keys, Numbers(n)) && j < |keys| && keys[j] == Decimal(k)
    ensures Rank(n, k) == j
  {
    var earlier := keys[..j];
    AscendingIsDistinct(keys);
    DistinctElements(earlier);
    forall x ensures x in Elements(earlier) <==> x in Numbers(n) && Before(x, Decimal(k)) {
      NotBothBefore(x, keys[j]);
      if x in Numbers(n) && Before(x, Decimal(k)) {
        assert x in keys;
        var i :| 0 <= i < |keys| && keys[i] == x;
        assert i < j && earlier[i] == x;
      }
    }
    hide Distinct, Ascending, Before, Decimal, SameElements;
    assert Elements(earlier) == set x | x in Numbers(n) && Before(x, Decimal(k));
  }

  /** Up to ten requests each is in its own place; with more, some is not. */
  lemma RanksAreNumbers(n: nat, keys: seq<string>)
    requires Ascending(keys) && SameElements(keys, Numbers(n)) && |keys| == n
    ensures (forall k :: 0 <= k < n ==> Decimal(Rank(n, k)) == Decimal(k)) <==> n <= 10
  {
    if n <= 10 {
      KeysInRequestOrder(n, keys);
      forall k | 0 <= k < n ensures Rank(n, k) == k {
        PlaceIsRank(keys, n, k, k);
      }
    }
    if forall k :: 0 <= k < n ==> Decimal(Rank(n, k)) == Decimal(k) {
      forall k | 0 <= k < n ensures keys[k] == Decimal(k) {
        assert Numbers(n)[k] in keys;
        var j := IndexOf(keys, Decimal(k));
        PlaceIsRank(keys, n, j, k);
        DecimalIsInjective(j, k);
      }
      assert keys == Numbers(n);
      KeysInRequestOrder(n, keys);
    }
  }

  lemma IndexOf(s: seq<string>, x: string) returns (j: nat)
    requires x in s
    ensures j < |s| && s[j] == x
  {
    j :| 0 <= j < |s| && s[j] == x;
  }

  // ----- when the list is right

  /** What `buy_multi` promises: place `i` holds the option that request `i` opened. */
  ghost predicate EachInPlace(events: seq<Event>, n: nat, ids: seq<Option<int>>) {
    |ids| == n && forall i :: 0 <= i < n ==> ids[i].Some? && WasOpened(events, Decimal(i), ids[i].value)
  }

  /** The server gives no option id twice. */
  ghost predicate OptionsDiffer(events: seq<Event>) {
    forall a, b, option :: WasOpened(events, a, option) && WasOpened(events, b, option) ==> a == b
  }

  /** All requests are opened, in just the order that sorting the keys undoes. */
  ghost predicate OpenedByRank(events: seq<Event>, n: nat) {
    && |OpenedIds(events)| == n
    && forall k :: 0 <= k < n ==> OpenedIds(events)[k] == Decimal(Rank(n, k))
  }

  /**
   No failed result strikes out a queued id, only these requests are declined,
   and request `k` only before the opening after `k` others.
   */
  ghost predicate Undisturbed(events: seq<Event>, n: nat) {
    && NoneStruck(events)
    && (forall id :: Declined(id) in events ==> id in Numbers(n))
    && (forall k :: 0 <= k < n ==> !DeclinedAfter(events, k, Decimal(k)))
  }

  lemma KeysOfAll(events: seq<Event>, n: nat, keys: seq<string>)
    requires Served(events) && SentIds(events) == Numbers(n) && SortedKeys(keys, Run(events))
    requires NoneStruck(events) && |OpenedIds(events)| == n
    ensures |keys| == n <==> forall id :: Declined(id) in events ==> id in Numbers(n)
    ensures |keys| == n <==> SameElements(keys, Numbers(n))
  {
    hide Run, Before, Served, Decimal;
    NumbersDiffer(n);
    AscendingIsDistinct(keys);
    forall x ensures x in keys <==> x in Numbers(n) || Declined(x) in events {
      EntriesOfAll(events, n, x);
    }
    DistinctWithin(Numbers(n), keys);
    if forall x :: x in keys ==> x in Numbers(n) {
      DistinctWithin(keys, Numbers(n));
    }
  }

  lemma RightMeansAllOpened(events: seq<Event>, n: nat, ids: seq<Option<int>>)
    requires Served(events) && SentIds(events) == Numbers(n) && EachInPlace(events, n, ids)
    ensures |OpenedIds(events)| == n
  {
    ServedOnce(events);
    NumbersDiffer(n);
    DistinctWithin(OpenedIds(events), Numbers(n));
    forall x | x in Numbers(n) ensures x in OpenedIds(events) {
      var i := IndexOf(Numbers(n), x);
      OpenedIsListed(events, x, ids[i].value);
    }
    DistinctWithin(Numbers(n), OpenedIds(events));
  }

  lemma RightAtRank(events: seq<Event>, n: nat, keys: seq<string>, j: nat, k: nat)
    requires Served(events) && SentIds(events) == Numbers(n) && |OpenedIds(events)| == n && OptionsDiffer(events)
    requires NoneStruck(events) && j < |keys| && k < n && keys[j] == Decimal(k)
    ensures
      var id := Collected(keys, Run(events))[j];
      id.Some? && WasOpened(events, Decimal(j), id.value) <==>
        !DeclinedAfter(events, k, Decimal(k)) && OpenedIds(events)[k] == Decimal(j)
  {
    hide Run, DeclinedAfter, Served, EntryOf, SentIds, OpenedIds, Decimal;
    HoldsTheNthOption(events, n, k);
    OpenedPairs(events, k);
  }

  /** A list without empty places needs an id in line for each. */
  lemma RightMeansNoneStruck(events: seq<Event>, n: nat, keys: seq<string>)
    requires Served(events) && SentIds(events) == Numbers(n) && SortedKeys(keys, Run(events))
    requires EachInPlace(events, n, Collected(keys, Run(events)))
    ensures NoneStruck(events)
  {
    hide Run, WasOpened, Served, Decimal, NoneStruck;
    ServedOnce(events);
    LineIsDistinct(events);
    ListsTheTaken(events, keys);
    AscendingIsDistinct(keys);
    var taken := TakenIds(events);
    assert Distinct(taken) by {
      assert forall i :: 0 <= i < |taken| ==> taken[i] == LedgerOf(events).line[i];
    }
    forall x | x in keys ensures x in taken {
      var i := IndexOf(keys, x);
      assert Collected(keys, Run(events))[i].Some?;
    }
    DistinctWithin(keys, taken);
    LineIsFullExactly(events);
  }

  lemma RightOnlyByRank(events: seq<Event>, n: nat, keys: seq<string>)
    requires Served(events) && SentIds(events) == Numbers(n) && SortedKeys(keys, Run(events)) && OptionsDiffer(events)
    requires EachInPlace(events, n, Collected(keys, Run(events)))
    ensures OpenedByRank(events, n) && Undisturbed(events, n)
  {
    RightMeansAllOpened(events, n, Collected(keys, Run(events)));
    RightMeansNoneStruck(events, n, keys);
    KeysOfAll(events, n, keys);
    hide Collected, Run, Served, WasOpened, Rank, DeclinedAfter, Decimal, NoneStruck;
    forall k | 0 <= k < n
      ensures OpenedIds(events)[k] == Decimal(Rank(n, k)) && !DeclinedAfter(events, k, Decimal(k))
    {
      assert Numbers(n)[k] in keys;
      var j := IndexOf(keys, Decimal(k));
      PlaceIsRank(keys, n, j, k);
      RightAtRank(events, n, keys, j, k);
    }
  }

  lemma RightByRank(events: seq<Event>, n: nat, keys: seq<string>)
    requires Served(events) && SentIds(events) == Numbers(n) && SortedKeys(keys, Run(events)) && OptionsDiffer(events)
    requires OpenedByRank(events, n) && Undisturbed(events, n)
    ensures EachInPlace(events, n, Collected(keys, Run(events)))
  {
    KeysOfAll(events, n, keys);
    hide Collected, Run, Served, WasOpened, Rank, DeclinedAfter, Decimal, NoneStruck;
    forall j | 0 <= j < n ensures
      var id := Collected(keys, Run(events))[j];
      id.Some? && WasOpened(events, Decimal(j), id.value)
    {
      assert keys[j] in Numbers(n);
      var k := IndexOf(Numbers(n), keys[j]);
      PlaceIsRank(keys, n, j, k);
      RightAtRank(events, n, keys, j, k);
    }
  }

  /**
   Whatever the order of the replies, every place of the list is right if and
   only if every request was opened, in just the order that sorting undoes, and
   no refusal disturbed it, whether of these requests or of others.
   */
  lemma BuyMultiIsRightExactly(events: seq<Event>, n: nat, keys: seq<string>)
    requires Served(events) && SentIds(events) == Numbers(n) && SortedKeys(keys, Run(events)) && OptionsDiffer(events)
    ensures EachInPlace(events, n, Collected(keys, Run(events))) <==> OpenedByRank(events, n) && Undisturbed(events, n)
  {
    if OpenedByRank(events, n) && Undisturbed(events, n) {
      RightByRank(events, n, keys);
    }
    if EachInPlace(events, n, Collected(keys, Run(events))) {
      RightOnlyByRank(events, n, keys);
    }
  }

  /** Up to ten orders that order is the request order, and openings in request order are right only up to ten. */
  lemma RightInRequestOrder(events: seq<Event>, n: nat, keys: seq<string>)
    requires Served(events) && SentIds(events) == Numbers(n) && SortedKeys(keys, Run(events)) && OptionsDiffer(events)
    requires n <= 10 || OpenedIds(events) == Numbers(n)
    ensures EachInPlace(events, n, Collected(keys, Run(events))) <==>
            OpenedIds(events) == Numbers(n) && n <= 10 && Undisturbed(events, n)
  {
    BuyMultiIsRightExactly(events, n, keys);
    if |OpenedIds(events)| == n && Undisturbed(events, n) {
      KeysOfAll(events, n, keys);
      RanksAreNumbers(n, keys);
      hide Rank, Decimal, Undisturbed, EachInPlace, Served, Run;
      if n <= 10 && OpenedByRank(events, n) {
        assert OpenedIds(events) == Numbers(n);
      }
    }
  }

  // ----- examples

  lemma NextNumberIsNew(n: nat)
    ensures Decimal(n) !in Numbers(n) && Numbers(n + 1) == Numbers(n) + [Decimal(n)]
  {
    forall i | 0 <= i < n ensures Numbers(n)[i] != Decimal(n) {
      if Decimal(i) == Decimal(n) {
        DecimalIsInjective(i, n);
      }
    }
  }

  lemma ServedMore(events: seq<Event>, e: Event)
    requires Served(events) && MayServe(events, e)
    ensures Served(events + [e]) && Run(events + [e]) == Step(Run(events), e)
    ensures SentIds(events + [e]) == SentIds(events) + if e.Sent? then [e.id] else []
    ensures OpenedIds(events + [e]) == OpenedIds(events) + if e.Opened? then [e.id] else []
  {
    hide Step, MayServe;
    assert (events + [e])[..|events|] == events;
  }

  /** Sending alone gives the queue that `buy_multi` starts with. */
  lemma {:induction false} RequestsQueueUp(n: nat) returns (events: seq<Event>)
    ensures Served(events) && SentIds(events) == Numbers(n) && OpenedIds(events) == []
    ensures Run(events) == Desk(Numbers(n), map[])
  {
    events := [];
    if n > 0 {
      events := RequestsQueueUp(n - 1);
      NextNumberIsNew(n - 1);
      hide Numbers, Decimal, Served, SentIds, Run;
      ServedMore(events, Sent(Decimal(n - 1)));
      events := events + [Sent(Decimal(n - 1))];
    }
  }

  lemma TwoSent()
    ensures Served([Sent("0"), Sent("1")]) && Run([Sent("0"), Sent("1")]) == Desk(["0", "1"], map[])
    ensures SentIds([Sent("0"), Sent("1")]) == ["0", "1"] && OpenedIds([Sent("0"), Sent("1")]) == []
  {
    var one := [Sent("0")];
    assert [] + one == one;
    ServedMore([], Sent("0"));
    ServedMore(one, Sent("1"));
    assert one + [Sent("1")] == [Sent("0"), Sent("1")];
  }

  lemma ThenOne(first: Event)
    requires MayServe([Sent("0"), Sent("1")], first) && !first.Sent?
    ensures
      var events := [Sent("0"), Sent("1"), first];
      && Served(events) && Run(events) == Step(Desk(["0", "1"], map[]), first)
      && SentIds(events) == ["0", "1"] && OpenedIds(events) == if first.Opened? then [first.id] else []
  {
    hide Step, MayServe, Run, Served;
    TwoSent();
    ServedMore([Sent("0"), Sent("1")], first);
    assert [Sent("0"), Sent("1")] + [first] == [Sent("0"), Sent("1"), first];
  }

  lemma ThenTwo(first: Event, second: Event)
    requires MayServe([Sent("0"), Sent("1")], first) && MayServe([Sent("0"), Sent("1"), first], second) && !first.Sent?
    ensures
      var events := [Sent("0"), Sent("1"), first, second];
      Served(events) && Run(events) == Step(Step(Desk(["0", "1"], map[]), first), second)
  {
    hide Step, MayServe, Run, Served;
    ThenOne(first);
    ServedMore([Sent("0"), Sent("1"), first], second);
    assert [Sent("0"), Sent("1"), first] + [second] == [Sent("0"), Sent("1"), first, second];
  }

  lemma ListOfOne(keys: seq<string>, d: Desk, id: string, entry: Entry)
    requires SortedKeys(keys, d) && d.options == map[id := entry]
    ensures Collected(keys, d) == [entry.id]
  {
    SortingIsUnique(keys, [id]);
  }

  lemma ListOfTwo(keys: seq<string>, d: Desk, first: Entry, second: Entry)
    requires SortedKeys(keys, d) && d.options == map["0" := first, "1" := second]
    ensures Collected(keys, d) == [first.id, second.id]
  {
    SortingIsUnique(keys, ["0", "1"]);
  }

  /** Two orders, the first rejected: the second one's option stands in the first place. */
  lemma ARejectionShiftsTheList(option: int, keys: seq<string>)
    requires SortedKeys(keys, Run([Sent("0"), Sent("1"), Rejected("0"), Opened("1", option)]))
    ensures Served([Sent("0"), Sent("1"), Rejected("0"), Opened("1", option)])
    ensures Collected(keys, Run([Sent("0"), Sent("1"), Rejected("0"), Opened("1", option)])) == [Some(option)]
  {
    hide Run, Served, Collected, SortedKeys;
    TwoSent();
    ThenOne(Rejected("0"));
    ThenTwo(Rejected("0"), Opened("1", option));
    var d := Run([Sent("0"), Sent("1"), Rejected("0"), Opened("1", option)]);
    ListOfOne(keys, d, "1", Entry(Some(option), None));
  }

  /** Two orders, the second declined: it has a place in the list, and an empty one. */
  lemma ADeclineAddsAPlace(option: int, keys: seq<string>)
    requires SortedKeys(keys, Run([Sent("0"), Sent("1"), Opened("0", option), Declined("1")]))
    ensures Served([Sent("0"), Sent("1"), Opened("0", option), Declined("1")])
    ensures Collected(keys, Run([Sent("0"), Sent("1"), Opened("0", option), Declined("1")])) == [Some(option), None]
  {
    hide Run, Served, Collected, SortedKeys;
    TwoSent();
    ThenOne(Opened("0", option));
    ThenTwo(Opened("0", option), Declined("1"));
    var d := Run([Sent("0"), Sent("1"), Opened("0", option), Declined("1")]);
    ListOfTwo(keys, d, Entry(Some(option), None), Entry(None, None));
  }

  lemma BothOpenedThenDeclined(first: int, second: int)
    ensures
      var events := [Sent("0"), Sent("1"), Opened("0", first), Opened("1", second), Declined("0")];
      && Served(events)
      && Run(events) == Desk([], map["0" := Entry(None, None), "1" := Entry(Some(second), None)])
  {
    hide Run, Served;
    var four := [Sent("0"), Sent("1"), Opened("0", first), Opened("1", second)];
    TwoSent();
    ThenOne(Opened("0", first));
    ThenTwo(Opened("0", first), Opened("1", second));
    ServedMore(four, Declined("0"));
    assert four + [Declined("0")] == [Sent("0"), Sent("1"), Opened("0", first), Opened("1", second), Declined("0")];
    assert Run(four) == Desk([], map["0" := Entry(Some(first), None), "1" := Entry(Some(second), None)]);
  }

  /** Two orders, both opened, and then the first declined: its place is empty although it was opened. */
  lemma ADeclineEmptiesAPlace(first: int, second: int, keys: seq<string>)
    requires SortedKeys(keys, Run([Sent("0"), Sent("1"), Opened("0", first), Opened("1", second), Declined("0")]))
    ensures
      var events := [Sent("0"), Sent("1"), Opened("0", first), Opened("1", second), Declined("0")];
      Served(events) && Collected(keys, Run(events)) == [None, Some(second)]
  {
    hide Run, Served, Collected, SortedKeys;
    BothOpenedThenDeclined(first, second);
    var d := Run([Sent("0"), Sent("1"), Opened("0", first), Opened("1", second), Declined("0")]);
    ListOfTwo(keys, d, Entry(None, None), Entry(Some(second), None));
  }

  /**
   Two orders, both opened, but before that another request with the first one's
   number failed: the first option goes to the second order, whose own is lost.
   */
  lemma AForeignFailureLosesAnOption(first: int, second: int, keys: seq<string>)
    requires SortedKeys(keys, Run([Sent("0"), Sent("1"), Rejected("0"), Opened("0", first), Opened("1", second)]))
    ensures
      var events := [Sent("0"), Sent("1"), Rejected("0"), Opened("0", first), Opened("1", second)];
      && Served(events) && OpenedIds(events) == ["0", "1"]
      && Collected(keys, Run(events)) == [Some(first)]
  {
    hide Run, Served, Collected, SortedKeys;
    FailedThenBothOpened(first, second);
    var d := Run([Sent("0"), Sent("1"), Rejected("0"), Opened("0", first), Opened("1", second)]);
    ListOfOne(keys, d, "1", Entry(Some(first), None));
  }

  lemma FailedThenBothOpened(first: int, second: int)
    ensures
      var events := [Sent("0"), Sent("1"), Rejected("0"), Opened("0", first), Opened("1", second)];
      && Served(events) && OpenedIds(events) == ["0", "1"]
      && Run(events) == Desk([], map["1" := Entry(Some(first), None)])
  {
    hide Run, Served;
    var three, four := [Sent("0"), Sent("1"), Rejected("0")],
                       [Sent("0"), Sent("1"), Rejected("0"), Opened("0", first)];
    ThenOne(Rejected("0"));
    ServedMore(three, Opened("0", first));
    assert three + [Opened("0", first)] == four;
    ServedMore(four, Opened("1", second));
    assert four + [Opened("1", second)]
        == [Sent("0"), Sent("1"), Rejected("0"), Opened("0", first), Opened("1", second)];
    assert Run(four) == Desk([], map["1" := Entry(Some(first), None)]);
  }
}

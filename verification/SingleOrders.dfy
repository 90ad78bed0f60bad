/**
 Single orders. `buy` queues its id twice, and an opening takes only one entry
 away, so the queue of a session with several calls falls behind.
 */
module SingleOrders {
  import opened Common
  import opened OrderCorrelation

  /** What reaches the desk while single orders are placed one after the other; an opening does not name its request. */
  datatype Traffic =
    | Began(id: string)
    | Opening(option: int)
    | Refusal(id: string)
    | Confirmation(id: string)
    | Declining(id: string)

  function BuyStep(d: Desk, t: Traffic): Desk {
    match t
    case Began(id) => BeginBuy(d, id)
    case Opening(option) => Open(d, option)
    case Refusal(id) => Answer(d, id, false)
    case Confirmation(id) => Answer(d, id, true)
    case Declining(id) => Decline(d, id)
  }

  function BuyRun(traffic: seq<Traffic>): Desk {
    if traffic == [] then Desk([], map[])
    else BuyStep(BuyRun(traffic[..|traffic| - 1]), traffic[|traffic| - 1])
  }

  /** The ids of the calls so far, in order. */
  function Begun(traffic: seq<Traffic>): seq<string> {
    if traffic == [] then []
    else
      var before, last := Begun(traffic[..|traffic| - 1]), traffic[|traffic| - 1];
      if last.Began? then before + [last.id] else before
  }

  /** The messages that can take an id from the queue, whoever caused them. */
  function Replies(traffic: seq<Traffic>): nat {
    if traffic == [] then 0
    else
      var last := traffic[|traffic| - 1];
      Replies(traffic[..|traffic| - 1]) + if last.Opening? || last.Refusal? then 1 else 0
  }

  lemma {:induction false} RemoveFirstShortens(s: seq<string>, id: string)
    ensures |s| - 1 <= |RemoveFirst(s, id)| <= |s|
    ensures forall x :: x in RemoveFirst(s, id) ==> x in s
    decreases s
  {
    if s != [] {
      RemoveFirstShortens(s[1..], id);
    }
  }

  lemma RemoveFirstUnfolds(head: string, tail: seq<string>, id: string)
    ensures RemoveFirst([head] + tail, id) == if head == id then tail else [head] + RemoveFirst(tail, id)
  {
    assert ([head] + tail)[1..] == tail;
  }

  lemma {:induction false} RemoveFirstInFront(a: seq<string>, b: seq<string>, id: string)
    requires id in a
    ensures RemoveFirst(a + b, id) == RemoveFirst(a, id) + b
    decreases a
  {
    hide RemoveFirst;
    var head, tail := a[0], a[1..];
    RemoveFirstUnfolds(head, tail, id);
    RemoveFirstUnfolds(head, tail + b, id);
    assert a == [head] + tail && a + b == [head] + (tail + b);
    if head != id {
      RemoveFirstInFront(tail, b, id);
      Regroup(head, RemoveFirst(tail, id), b);
    }
  }

  lemma Regroup(head: string, tail: seq<string>, b: seq<string>)
    ensures [head] + (tail + b) == [head] + tail + b
  {
  }

  lemma {:induction false} RemoveFirstInBack(a: seq<string>, b: seq<string>, id: string)
    requires id !in a
    ensures RemoveFirst(a + b, id) == a + RemoveFirst(b, id)
    decreases a
  {
    hide RemoveFirst;
    if a == [] {
      assert a + b == b;
    } else {
      var head, tail := a[0], a[1..];
      RemoveFirstInBack(tail, b, id);
      RemoveFirstUnfolds(head, tail + b, id);
      assert a == [head] + tail && a + b == [head] + (tail + b);
    }
  }

  lemma RemoveFirstSplits(a: seq<string>, b: seq<string>, id: string)
    ensures RemoveFirst(a + b, id) == if id in a then RemoveFirst(a, id) + b else a + RemoveFirst(b, id)
  {
    hide RemoveFirst;
    if id in a {
      RemoveFirstInFront(a, b, id);
    } else {
      RemoveFirstInBack(a, b, id);
    }
  }

  lemma {:induction false} NothingBegun(traffic: seq<Traffic>)
    requires Begun(traffic) == []
    ensures BuyRun(traffic).pending == []
    decreases traffic
  {
    if traffic != [] {
      NothingBegun(traffic[..|traffic| - 1]);
    }
  }

  function QueueAfter(before: seq<string>, t: Traffic): seq<string> {
    match t
    case Began(id) => before + [id, id]
    case Opening(_) => if before == [] then [] else before[1..]
    case Refusal(id) => RemoveFirst(before, id)
    case Confirmation(_) => before
    case Declining(_) => before
  }

  lemma StepQueue(d: Desk, t: Traffic)
    ensures BuyStep(d, t).pending == QueueAfter(d.pending, t)
  {
  }

  lemma QueueStep(traffic: seq<Traffic>)
    requires traffic != []
    ensures
      var before, last := BuyRun(traffic[..|traffic| - 1]).pending, traffic[|traffic| - 1];
      BuyRun(traffic).pending == QueueAfter(before, last)
  {
    hide BuyStep, QueueAfter;
    StepQueue(BuyRun(traffic[..|traffic| - 1]), traffic[|traffic| - 1]);
  }

  lemma CallsStep(traffic: seq<Traffic>)
    requires traffic != [] && Distinct(Begun(traffic)) && traffic[|traffic| - 1].Began?
    ensures
      var ids := Begun(traffic);
      var before := Begun(traffic[..|traffic| - 1]);
      ids[..|ids| - 1] == before && Distinct(before)
  {
    var before := Begun(traffic[..|traffic| - 1]);
    assert Begun(traffic)[..|before|] == before;
    assert forall i :: 0 <= i < |before| ==> before[i] == Begun(traffic)[i];
  }

  /**
   The queue holds the older calls' ids before the newest call's. Each call has
   added two and each reply has removed at most one, so the older ids are at
   least twice the older calls, less the replies.
   */
  lemma {:induction false} Backlog(traffic: seq<Traffic>) returns (older: seq<string>, newer: seq<string>)
    requires Begun(traffic) != [] && Distinct(Begun(traffic))
    ensures BuyRun(traffic).pending == older + newer
    ensures
      var ids := Begun(traffic);
      && (forall x :: x in older ==> x in ids[..|ids| - 1])
      && (forall x :: x in newer ==> x == ids[|ids| - 1])
      && |older| >= 2 * (|ids| - 1) - Replies(traffic)
      && |older| + |newer| >= 2 * |ids| - Replies(traffic)
    decreases traffic
  {
    var front, last := traffic[..|traffic| - 1], traffic[|traffic| - 1];
    QueueStep(traffic);
    hide BuyRun, Distinct;
    if last.Began? {
      CallsStep(traffic);
      newer := [last.id, last.id];
      if Begun(front) == [] {
        NothingBegun(front);
        older := [];
      } else {
        var o, n := Backlog(front);
        older := o + n;
      }
    } else {
      older, newer := Backlog(front);
      if last.Opening? {
        older, newer := AfterOpening(older, newer);
      } else if last.Refusal? {
        older, newer := AfterRefusal(older, newer, last.id);
      }
    }
  }

  lemma AfterOpening(o: seq<string>, n: seq<string>) returns (older: seq<string>, newer: seq<string>)
    ensures older + newer == if o + n == [] then [] else (o + n)[1..]
    ensures (forall x :: x in older ==> x in o) && (forall x :: x in newer ==> x in n)
    ensures |older| >= |o| - 1 && |older| + |newer| >= |o| + |n| - 1
  {
    older := if o == [] then o else o[1..];
    newer := if o == [] && n != [] then n[1..] else n;
  }

  lemma AfterRefusal(o: seq<string>, n: seq<string>, id: string) returns (older: seq<string>, newer: seq<string>)
    ensures older + newer == RemoveFirst(o + n, id)
    ensures (forall x :: x in older ==> x in o) && (forall x :: x in newer ==> x in n)
    ensures |older| >= |o| - 1 && |older| + |newer| >= |o| + |n| - 1
  {
    RemoveFirstSplits(o, n, id);
    RemoveFirstShortens(o, id);
    RemoveFirstShortens(n, id);
    older := if id in o then RemoveFirst(o, id) else o;
    newer := if id in o then n else RemoveFirst(n, id);
  }

  /** However late and mixed the replies, each call leaves two ids and each reply takes at most one. */
  lemma BuysLeaveStaleIds(traffic: seq<Traffic>)
    requires Distinct(Begun(traffic))
    ensures |BuyRun(traffic).pending| >= 2 * |Begun(traffic)| - Replies(traffic)
  {
    if Begun(traffic) == [] {
      NothingBegun(traffic);
    } else {
      var older, newer := Backlog(traffic);
    }
  }

  /** The option of the latest opening since the last call began, unless `id` was declined after it. */
  function OpeningFor(traffic: seq<Traffic>, id: string): Option<int> {
    if traffic == [] then None
    else
      var last := traffic[|traffic| - 1];
      if last.Opening? then Some(last.option)
      else if last.Began? || last == Declining(id) then None
      else OpeningFor(traffic[..|traffic| - 1], id)
  }

  /** How many replies leave the call in progress with its own answer or none: two for every older call. */
  function Harmless(calls: nat): nat {
    if calls <= 1 then 2 else 2 * (calls - 1)
  }

  /**
   Over all runs of single orders, with replies delayed, mixed and even caused
   by others, while there are no more than two for every older call: the call in
   progress finds an option id under its own request if and only if it is the
   first call and an option was opened.
   */
  lemma {:induction false} OnlyTheFirstBuyIsCorrelated(traffic: seq<Traffic>)
    requires Begun(traffic) != [] && Distinct(Begun(traffic)) && Replies(traffic) <= Harmless(|Begun(traffic)|)
    ensures
      var ids := Begun(traffic);
      var id := ids[|ids| - 1];
      EntryOf(BuyRun(traffic), id).id == if |ids| == 1 then OpeningFor(traffic, id) else None
    decreases traffic
  {
    var front, last := traffic[..|traffic| - 1], traffic[|traffic| - 1];
    if !last.Began? {
      OnlyTheFirstBuyIsCorrelated(front);
      var older, newer := Backlog(front);
      HeadIsIn(older);
      HeadIsIn(newer);
      assert last.Opening? && |Begun(traffic)| > 1 ==> |older| >= 1;
    }
  }

  /** A new call forgets the entries of the ones before it. */
  lemma ACallForgets(traffic: seq<Traffic>, id: string)
    ensures BuyRun(traffic + [Began(id)]).options == map[id := Entry(None, None)]
  {
    assert (traffic + [Began(id)])[..|traffic|] == traffic;
  }

  // ----- the bound is reached

  function Calls(ids: seq<string>): (s: seq<Traffic>)
    ensures |s| == |ids|
  {
    seq(|ids|, i requires 0 <= i < |ids| => Began(ids[i]))
  }

  function Openings(n: nat, option: int): (s: seq<Traffic>)
    ensures |s| == n
  {
    seq(n, i => Opening(option))
  }

  function Doubled(ids: seq<string>): (s: seq<string>)
    ensures |s| == 2 * |ids| && forall k :: 0 <= k < |s| ==> s[k] == ids[k / 2]
  {
    seq(2 * |ids|, k requires 0 <= k < 2 * |ids| => ids[k / 2])
  }

  lemma {:induction false} CallsQueueUp(ids: seq<string>)
    ensures Begun(Calls(ids)) == ids && BuyRun(Calls(ids)).pending == Doubled(ids)
    decreases ids
  {
    if ids != [] {
      var front, last := ids[..|ids| - 1], ids[|ids| - 1];
      CallsQueueUp(front);
      assert Calls(ids)[..|ids| - 1] == Calls(front);
      assert Doubled(ids) == Doubled(front) + [last, last];
    }
  }

  lemma {:induction false} OpeningsTake(traffic: seq<Traffic>, n: nat, option: int)
    requires 0 < n <= |BuyRun(traffic).pending|
    ensures
      var before, after := BuyRun(traffic).pending, BuyRun(traffic + Openings(n, option));
      after.pending == before[n..] && EntryOf(after, before[n - 1]).id == Some(option)
    decreases n
  {
    var all := traffic + Openings(n, option);
    assert all[..|all| - 1] == traffic + Openings(n - 1, option);
    if n > 1 {
      OpeningsTake(traffic, n - 1, option);
    } else {
      assert traffic + Openings(0, option) == traffic;
    }
  }

  /** One more opening than two for every older call reaches the call in progress, whichever it is. */
  lemma OneMoreCatchesUp(ids: seq<string>, option: int)
    requires ids != []
    ensures EntryOf(BuyRun(Calls(ids) + Openings(2 * (|ids| - 1) + 1, option)), ids[|ids| - 1]).id == Some(option)
  {
    CallsQueueUp(ids);
    OpeningsTake(Calls(ids), 2 * (|ids| - 1) + 1, option);
  }
}

/** The bounded dictionary of live candles, keyed by their start: the smallest keys make room. */
module DictQueue {
  import opened Common

  type Store = map<int, int>

  /** `kept` is what remains of `all` when only its `n` largest keys stay. */
  ghost predicate Largest(kept: Store, all: Store, n: int) {
    && kept.Keys <= all.Keys
    && (forall k :: k in kept ==> kept[k] == all[k])
    && |kept| == (if n < |all| then n else |all|)
    && forall k, j :: k in kept && j in all && j !in kept ==> j < k
  }

  /** One call: a present key is overwritten; for a new one the smallest keys are deleted first. */
  ghost predicate Added(before: Store, key: int, value: int, maxdict: int, after: Store) {
    if key in before then after == before[key := value]
    else key in after && after[key] == value && Largest(after - {key}, before, maxdict - 1)
  }

  class Queue {
    var items: Store

    constructor ()
      ensures items == map[]
    {
      items := map[];
    }

    /** With no room at all a new key empties the store, and then there is no smallest key: an IndexError. */
    method Add(maxdict: int, key: int, value: int) returns (stored: bool)
      modifies this
      ensures stored == (key in old(items) || maxdict > 0)
      ensures if stored then Added(old(items), key, value, maxdict, items) else items == map[]
    {
      if key in items {
        items := items[key := value];
        return true;
      }
      while |items| >= maxdict
        invariant Largest(items, old(items), |items|)
        invariant items == old(items) || |items| >= maxdict - 1
        invariant key !in items
        decreases |items|
      {
        if |items| == 0 {
          return false;
        }
        LeastExists(items.Keys);
        var least :| least in items.Keys && IsLeast(items.Keys, least);
        DeletingTheLeast(items, old(items), least);
        items := items - {least};
      }
      assert items[key := value] - {key} == items;
      items := items[key := value];
      stored := true;
    }
  }

  predicate IsLeast(keys: set<int>, least: int) {
    forall k :: k in keys ==> least <= k
  }

  lemma {:induction false} LeastExists(keys: set<int>)
    requires keys != {}
    ensures exists least :: least in keys && IsLeast(keys, least)
    decreases |keys|
  {
    var x := SomeKey(keys);
    if keys == {x} {
      assert IsLeast(keys, x);
    } else {
      LeastExists(keys - {x});
      var y :| y in keys - {x} && IsLeast(keys - {x}, y);
      var least := if x < y then x else y;
      forall k | k in keys ensures least <= k {
        assert k == x || k in keys - {x};
      }
      assert IsLeast(keys, least);
    }
  }

  lemma DeletingTheLeast(items: Store, all: Store, least: int)
    requires Largest(items, all, |items|) && least in items && IsLeast(items.Keys, least)
    ensures Largest(items - {least}, all, |items| - 1) && |items - {least}| == |items| - 1
  {
    var rest := items - {least};
    assert rest.Keys == items.Keys - {least};
    forall k, j | k in rest && j in all && j !in rest ensures j < k {
      if j in items {
        assert j == least && k in items;
      }
    }
  }

  lemma OneContainsTheOther(a: Store, b: Store, all: Store, n: int)
    requires Largest(a, all, n) && Largest(b, all, n)
    ensures a.Keys <= b.Keys || b.Keys <= a.Keys
  {
    forall x | x in a.Keys ensures x in b.Keys || b.Keys <= a.Keys {
      forall y | y in b.Keys ensures x in b.Keys || y in a.Keys {
      }
    }
  }

  /** There is only one choice of largest keys. */
  lemma LargestIsUnique(a: Store, b: Store, all: Store, n: int)
    requires Largest(a, all, n) && Largest(b, all, n)
    ensures a == b
  {
    OneContainsTheOther(a, b, all, n);
    assert |a| == |a.Keys| && |b| == |b.Keys|;
    if a.Keys <= b.Keys {
      SubsetIsSmaller(a.Keys, b.Keys);
    } else {
      SubsetIsSmaller(b.Keys, a.Keys);
    }
    assert a.Keys == b.Keys;
    forall k | k in a.Keys ensures a[k] == b[k] {
      assert k in b.Keys;
    }
  }

  // ----- against an unbounded dictionary

  datatype Call = Call(key: int, value: int)

  /** The states that a series of calls with one limit goes through, from an empty store. */
  ghost predicate Trace(states: seq<Store>, calls: seq<Call>, maxdict: int) {
    && |states| == |calls| + 1 && states[0] == map[]
    && forall i :: 0 <= i < |calls| ==> Added(states[i], calls[i].key, calls[i].value, maxdict, states[i + 1])
  }

  /** Every key ever added, with its latest value. */
  function History(calls: seq<Call>): Store {
    if calls == [] then map[] else History(calls[..|calls| - 1])[calls[|calls| - 1].key := calls[|calls| - 1].value]
  }

  /** The key is present, or there is room, or it exceeds the smallest key present. */
  ghost predicate Welcome(before: Store, key: int, maxdict: int) {
    key in before || |before| < maxdict || exists least :: least in before && least < key
  }

  lemma RoomForAll(before: Store, all: Store, key: int, value: int, maxdict: int, after: Store)
    requires maxdict >= 1 && Largest(before, all, maxdict) && Added(before, key, value, maxdict, after)
    requires key in before || |before| < maxdict
    ensures Largest(after, all[key := value], maxdict)
  {
    if key !in before {
      SubsetIsSmaller(before.Keys, all.Keys);
      SubsetIsSmaller((after - {key}).Keys, before.Keys);
      assert after == (after - {key})[key := value];
    } else {
      assert all[key := value].Keys == all.Keys && after.Keys == before.Keys;
    }
  }

  /** A full store drops exactly one key, its smallest. */
  lemma OneMakesRoom(before: Store, key: int, value: int, maxdict: int, after: Store) returns (dropped: int)
    requires maxdict >= 1 && |before| == maxdict && key !in before && Added(before, key, value, maxdict, after)
    ensures dropped in before && IsLeast(before.Keys, dropped)
    ensures after == (before - {dropped})[key := value]
  {
    LeastExists(before.Keys);
    dropped :| dropped in before.Keys && IsLeast(before.Keys, dropped);
    DeletingTheLeast(before, before, dropped);
    LargestIsUnique(before - {dropped}, after - {key}, before, maxdict - 1);
    assert after == (after - {key})[key := value];
  }

  /** One call keeps the largest keys of the history if and only if its key is welcome. */
  lemma KeepsTheLargest(before: Store, all: Store, key: int, value: int, maxdict: int, after: Store)
    requires maxdict >= 1 && Largest(before, all, maxdict) && Added(before, key, value, maxdict, after)
    ensures Largest(after, all[key := value], maxdict) <==> Welcome(before, key, maxdict)
  {
    if key in before || |before| < maxdict {
      RoomForAll(before, all, key, value, maxdict, after);
    } else {
      var dropped := OneMakesRoom(before, key, value, maxdict, after);
      assert after.Keys == before.Keys - {dropped} + {key};
      if dropped < key {
        assert key !in all;
        assert all[key := value].Keys == all.Keys + {key};
      } else {
        assert key < dropped && dropped !in after && dropped in all[key := value];
      }
    }
  }

  lemma {:induction false} NeverTooLarge(states: seq<Store>, calls: seq<Call>, maxdict: int, i: nat)
    requires maxdict >= 1 && Trace(states, calls, maxdict) && i < |states|
    ensures |states[i]| <= maxdict
    decreases i
  {
    if i > 0 {
      NeverTooLarge(states, calls, maxdict, i - 1);
      var key, value := calls[i - 1].key, calls[i - 1].value;
      if key in states[i - 1] {
        assert states[i].Keys == states[i - 1].Keys;
      } else {
        assert states[i].Keys == (states[i] - {key}).Keys + {key};
      }
    }
  }

  ghost predicate KeptAt(states: seq<Store>, calls: seq<Call>, maxdict: int, i: nat)
    requires i < |states| == |calls| + 1
  {
    Largest(states[i], History(calls[..i]), maxdict)
  }

  ghost predicate WelcomeAt(states: seq<Store>, calls: seq<Call>, maxdict: int, i: nat)
    requires i < |calls| < |states|
  {
    Welcome(states[i], calls[i].key, maxdict)
  }

  lemma KeptAtStart(states: seq<Store>, calls: seq<Call>, maxdict: int)
    requires maxdict >= 1 && Trace(states, calls, maxdict)
    ensures KeptAt(states, calls, maxdict, 0)
  {
  }

  lemma KeptNext(states: seq<Store>, calls: seq<Call>, maxdict: int, i: nat)
    requires maxdict >= 1 && Trace(states, calls, maxdict) && i < |calls|
    requires KeptAt(states, calls, maxdict, i)
    ensures KeptAt(states, calls, maxdict, i + 1) <==> WelcomeAt(states, calls, maxdict, i)
  {
    hide Largest, Welcome, Added;
    var c := calls[i];
    assert calls[..i + 1][..i] == calls[..i];
    assert Added(states[i], c.key, c.value, maxdict, states[i + 1]);
    KeepsTheLargest(states[i], History(calls[..i]), c.key, c.value, maxdict, states[i + 1]);
  }

  /** After each of the first `n` calls, and before them. */
  ghost predicate AlwaysKept(states: seq<Store>, calls: seq<Call>, maxdict: int, n: nat)
    requires n < |states| == |calls| + 1
  {
    KeptAt(states, calls, maxdict, n) && (n > 0 ==> AlwaysKept(states, calls, maxdict, n - 1))
  }

  ghost predicate AlwaysWelcome(states: seq<Store>, calls: seq<Call>, maxdict: int, n: nat)
    requires n <= |calls| < |states|
  {
    n > 0 ==> WelcomeAt(states, calls, maxdict, n - 1) && AlwaysWelcome(states, calls, maxdict, n - 1)
  }

  /**
   Over a whole series the store is at every moment the largest keys ever added,
   each with its latest value, if and only if every key was welcome.
   */
  lemma {:induction false} RefinesHistory(states: seq<Store>, calls: seq<Call>, maxdict: int, n: nat)
    requires maxdict >= 1 && Trace(states, calls, maxdict) && n <= |calls|
    ensures AlwaysKept(states, calls, maxdict, n) <==> AlwaysWelcome(states, calls, maxdict, n)
    decreases n
  {
    KeptAtStart(states, calls, maxdict);
    if n > 0 {
      hide KeptAt, WelcomeAt;
      RefinesHistory(states, calls, maxdict, n - 1);
      if AlwaysKept(states, calls, maxdict, n - 1) {
        KeptNext(states, calls, maxdict, n - 1);
      }
    }
  }
}

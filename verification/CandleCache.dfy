/**
 The bounded candle store: one double-ended queue for each asset and candle
 size, newest candle first, with a maximal length and a time to live.
 */
module CandleCaching {
  import opened Common

  /** Asset and candle size. */
  type Key = (int, int)

  /** A candle and the moment it was added. */
  datatype Candle = Candle(content: int, added: real)

  /** A deque with `maxlen`. */
  datatype Buffer = Buffer(maxlen: nat, candles: seq<Candle>)

  function First<T>(s: seq<T>, n: nat): seq<T> {
    if n < |s| then s[..n] else s
  }

  function Last<T>(s: seq<T>, n: nat): seq<T> {
    if n < |s| then s[|s| - n..] else s
  }

  /** `appendleft`: a full deque loses its right end. */
  function PushLeft(b: Buffer, candle: Candle): Buffer {
    b.(candles := First([candle] + b.candles, b.maxlen))
  }

  /** A deque made from another one appends on the right, so its left end is lost. */
  function Rebuild(b: Buffer, maxlen: nat): Buffer {
    Buffer(maxlen, Last(b.candles, maxlen))
  }

  function Kept(candles: seq<Candle>, cutoff: real): seq<Candle> {
    if candles == [] then []
    else (if candles[0].added > cutoff then [candles[0]] else []) + Kept(candles[1..], cutoff)
  }

  /** `candles[:n]` for a truthy `n`, all of them otherwise. */
  function Slice(candles: seq<Candle>, n: Option<int>): seq<Candle> {
    if n == None || n == Some(0) then candles
    else if n.value > 0 then First(candles, n.value)
    else if -n.value < |candles| then candles[..|candles| + n.value]
    else []
  }

  function BufferOf(buffers: map<Key, Buffer>, key: Key, maxlen: nat): Buffer {
    if key in buffers then buffers[key] else Buffer(maxlen, [])
  }

  function Unexpired(b: Buffer, cutoff: real): Buffer {
    b.(candles := Kept(b.candles, cutoff))
  }

  function Evicted(buffers: map<Key, Buffer>, cutoff: real): map<Key, Buffer> {
    map key | key in buffers :: Unexpired(buffers[key], cutoff)
  }

  predicate Fits(b: Buffer) {
    |b.candles| <= b.maxlen
  }

  lemma {:induction false} KeptIsShorter(candles: seq<Candle>, cutoff: real)
    ensures |Kept(candles, cutoff)| <= |candles|
    decreases candles
  {
    if candles != [] {
      KeptIsShorter(candles[1..], cutoff);
    }
  }

  /** `total_candles`. */
  function Total(keys: seq<Key>, buffers: map<Key, Buffer>): nat
    requires forall k :: k in keys ==> k in buffers
  {
    if keys == [] then 0
    else Total(keys[..|keys| - 1], buffers) + |buffers[keys[|keys| - 1]].candles|
  }

  class CandleCache {
    /** The dictionary, with its keys in order of insertion. */
    var keys: seq<Key>
    var buffers: map<Key, Buffer>
    const maxlen: nat
    const ttl: real

    ghost predicate Valid()
      reads this
    {
      && (forall k :: k in keys <==> k in buffers)
      && Distinct(keys)
      && (forall k :: k in buffers ==> Fits(buffers[k]))
    }

    constructor (maxlen: nat, ttl: real)
      ensures Valid() && buffers == map[] && this.maxlen == maxlen && this.ttl == ttl
    {
      keys, buffers := [], map[];
      this.maxlen, this.ttl := maxlen, ttl;
    }

    method Put(key: Key, buffer: Buffer)
      requires Valid() && Fits(buffer)
      modifies this
      ensures Valid() && buffers == old(buffers)[key := buffer]
      ensures keys == if key in old(buffers) then old(keys) else old(keys) + [key]
    {
      if key !in buffers {
        keys := keys + [key];
      }
      buffers := buffers[key := buffer];
    }

    method GetOrCreateBuffer(key: Key) returns (buffer: Buffer)
      requires Valid()
      modifies this
      ensures Valid() && buffer == BufferOf(old(buffers), key, maxlen) && buffers == old(buffers)[key := buffer]
    {
      if key !in buffers {
        Put(key, Buffer(maxlen, []));
      }
      buffer := buffers[key];
    }

    method AddCandle(key: Key, content: int, now: real)
      requires Valid()
      modifies this
      ensures Valid()
      ensures buffers == old(buffers)[key := PushLeft(BufferOf(old(buffers), key, maxlen), Candle(content, now))]
    {
      var buffer := GetOrCreateBuffer(key);
      Put(key, PushLeft(buffer, Candle(content, now)));
    }

    /** Asking for an unknown key creates its buffer. */
    method GetCandles(key: Key, n: Option<int>) returns (candles: seq<Candle>)
      requires Valid()
      modifies this
      ensures Valid() && buffers == old(buffers)[key := BufferOf(old(buffers), key, maxlen)]
      ensures candles == Slice(BufferOf(old(buffers), key, maxlen).candles, n)
    {
      var buffer := GetOrCreateBuffer(key);
      candles := Slice(buffer.candles, n);
    }

    /** A negative length is a ValueError, before anything changes. */
    method SetMaxlen(key: Key, length: int) returns (accepted: bool)
      requires Valid()
      modifies this
      ensures Valid() && accepted == (length >= 0)
      ensures accepted ==> buffers == old(buffers)[key := Rebuild(BufferOf(old(buffers), key, length), length)]
      ensures !accepted ==> buffers == old(buffers) && keys == old(keys)
    {
      if length < 0 {
        return false;
      }
      if key in buffers {
        if buffers[key].maxlen != length {
          Put(key, Rebuild(buffers[key], length));
        }
      } else {
        Put(key, Buffer(length, []));
      }
      accepted := true;
    }

    method EvictBuffer(key: Key, cutoff: real) returns (removed: int)
      requires Valid() && key in buffers
      modifies this
      ensures Valid() && keys == old(keys)
      ensures buffers == old(buffers)[key := Unexpired(old(buffers)[key], cutoff)]
      ensures removed == Total(keys, old(buffers)) - Total(keys, buffers)
    {
      var remaining := Unexpired(buffers[key], cutoff);
      KeptIsShorter(buffers[key].candles, cutoff);
      TotalAfterUpdate(keys, buffers, key, remaining);
      removed := |buffers[key].candles| - |remaining.candles|;
      Put(key, remaining);
    }

    method EvictExpired(now: real) returns (removed: int)
      requires Valid()
      modifies this
      ensures Valid() && keys == old(keys) && buffers == Evicted(old(buffers), now - ttl)
      ensures removed == Total(keys, old(buffers)) - Total(keys, buffers)
    {
      hide Total, Unexpired, Fits;
      var cutoff := now - ttl;
      removed := 0;
      for i := 0 to |keys|
        invariant Valid() && keys == old(keys) && buffers.Keys == old(buffers).Keys
        invariant forall j :: 0 <= j < i ==> buffers[keys[j]] == Unexpired(old(buffers)[keys[j]], cutoff)
        invariant forall j :: i <= j < |keys| ==> buffers[keys[j]] == old(buffers)[keys[j]]
        invariant removed == Total(keys, old(buffers)) - Total(keys, buffers)
      {
        var dropped := EvictBuffer(keys[i], cutoff);
        removed := removed + dropped;
      }
    }

    method Stats() returns (count: nat, total: nat)
      requires Valid()
      ensures count == |buffers| && total == Total(keys, buffers)
    {
      DistinctElements(keys);
      assert buffers.Keys == Elements(keys);
      count, total := |keys|, 0;
      for i := 0 to |keys|
        invariant total == Total(keys[..i], buffers)
      {
        assert keys[..i + 1][..i] == keys[..i];
        total := total + |buffers[keys[i]].candles|;
      }
      assert keys[..|keys|] == keys;
    }
  }

  lemma {:induction false} TotalElsewhere(keys: seq<Key>, buffers: map<Key, Buffer>, key: Key, buffer: Buffer)
    requires (forall k :: k in keys ==> k in buffers) && key !in keys
    ensures Total(keys, buffers[key := buffer]) == Total(keys, buffers)
    decreases keys
  {
    if keys != [] {
      TotalElsewhere(keys[..|keys| - 1], buffers, key, buffer);
    }
  }

  lemma {:induction false} TotalAfterUpdate(keys: seq<Key>, buffers: map<Key, Buffer>, key: Key, buffer: Buffer)
    requires forall k :: k in keys ==> k in buffers
    requires Distinct(keys)
    requires key in keys
    ensures Total(keys, buffers[key := buffer]) == Total(keys, buffers) - |buffers[key].candles| + |buffer.candles|
    decreases keys
  {
    var front, last := keys[..|keys| - 1], keys[|keys| - 1];
    if last == key {
      TotalElsewhere(front, buffers, key, buffer);
    } else {
      TotalAfterUpdate(front, buffers, key, buffer);
    }
  }

  // ----- eviction

  ghost predicate NewestFirst(candles: seq<Candle>) {
    forall i, j :: 0 <= i < j < |candles| ==> candles[i].added >= candles[j].added
  }

  function Copies(candles: seq<Candle>, candle: Candle): nat {
    multiset(candles)[candle]
  }

  /** Eviction removes every expired candle and no other, repetitions included. */
  lemma {:induction false} EvictionIsExact(candles: seq<Candle>, cutoff: real, candle: Candle)
    ensures Copies(Kept(candles, cutoff), candle) == if candle.added > cutoff then Copies(candles, candle) else 0
    decreases candles
  {
    if candles != [] {
      EvictionIsExact(candles[1..], cutoff, candle);
      assert candles == [candles[0]] + candles[1..];
    }
  }

  lemma {:induction false} AllExpired(candles: seq<Candle>, cutoff: real)
    requires forall i :: 0 <= i < |candles| ==> candles[i].added <= cutoff
    ensures Kept(candles, cutoff) == []
    decreases candles
  {
    if candles != [] {
      AllExpired(candles[1..], cutoff);
    }
  }

  /** Under a clock that never runs back the expired candles are the tail. */
  lemma {:induction false} EvictionTakesTheTail(candles: seq<Candle>, cutoff: real)
    requires NewestFirst(candles)
    ensures Kept(candles, cutoff) <= candles
    ensures forall i :: |Kept(candles, cutoff)| <= i < |candles| ==> candles[i].added <= cutoff
    decreases candles
  {
    if candles != [] {
      if candles[0].added > cutoff {
        EvictionTakesTheTail(candles[1..], cutoff);
        assert Kept(candles, cutoff) == [candles[0]] + Kept(candles[1..], cutoff);
      } else {
        AllExpired(candles, cutoff);
      }
    }
  }

  lemma {:induction false} EvictionOfTheNewest(candles: seq<Candle>, n: nat, cutoff: real)
    requires NewestFirst(candles)
    ensures Kept(First(candles, n), cutoff) == First(Kept(candles, cutoff), n)
    decreases candles
  {
    if candles != [] && n > 0 {
      assert First(candles, n) == [candles[0]] + First(candles[1..], n - 1);
      if candles[0].added > cutoff {
        EvictionOfTheNewest(candles[1..], n - 1, cutoff);
      } else {
        AllExpired(candles, cutoff);
        AllExpired(First(candles, n), cutoff);
      }
    }
  }

  // ----- whole runs against an unbounded history

  datatype Call =
    | Add(key: Key, content: int, now: real)
    | Evict(now: real)
    | Get(key: Key)
    | Resize(key: Key, length: nat)

  /** The settings of a cache: the default length and the time to live. */
  datatype Settings = Settings(maxlen: nat, ttl: real)

  function Step(buffers: map<Key, Buffer>, c: Call, s: Settings): map<Key, Buffer> {
    match c
    case Add(key, content, now) =>
      buffers[key := PushLeft(BufferOf(buffers, key, s.maxlen), Candle(content, now))]
    case Evict(now) => Evicted(buffers, now - s.ttl)
    case Get(key) => buffers[key := BufferOf(buffers, key, s.maxlen)]
    case Resize(key, length) => buffers[key := Rebuild(BufferOf(buffers, key, length), length)]
  }

  function Run(calls: seq<Call>, s: Settings): map<Key, Buffer> {
    if calls == [] then map[] else Step(Run(calls[..|calls| - 1], s), calls[|calls| - 1], s)
  }

  function AliveStep(before: seq<Candle>, c: Call, key: Key, s: Settings): seq<Candle> {
    match c
    case Add(k, content, now) => if k == key then [Candle(content, now)] + before else before
    case Evict(now) => Kept(before, now - s.ttl)
    case _ => before
  }

  /** All candles of a key that no eviction has removed, however many, newest first. */
  function Alive(calls: seq<Call>, key: Key, s: Settings): seq<Candle> {
    if calls == [] then [] else AliveStep(Alive(calls[..|calls| - 1], key, s), calls[|calls| - 1], key, s)
  }

  /** The clock as read by additions does not run back. */
  ghost predicate ClockRunsOn(calls: seq<Call>) {
    forall i, j :: 0 <= i < j < |calls| && calls[i].Add? && calls[j].Add? ==> calls[i].now <= calls[j].now
  }

  lemma KeptWereThere(candles: seq<Candle>, cutoff: real, c: Candle)
    ensures c in Kept(candles, cutoff) ==> c in candles
  {
    EvictionIsExact(candles, cutoff, c);
    assert c in multiset(Kept(candles, cutoff)) ==> c in multiset(candles);
  }

  lemma {:induction false} AliveWasAdded(calls: seq<Call>, key: Key, s: Settings, c: Candle)
    requires c in Alive(calls, key, s)
    ensures Add(key, c.content, c.added) in calls
    decreases calls
  {
    var front, last := calls[..|calls| - 1], calls[|calls| - 1];
    var before := Alive(front, key, s);
    if last.Evict? {
      KeptWereThere(before, last.now - s.ttl, c);
    }
    if c in before {
      AliveWasAdded(front, key, s, c);
    } else {
      assert last in calls;
    }
  }

  lemma {:induction false} AliveIsSorted(calls: seq<Call>, key: Key, s: Settings)
    requires ClockRunsOn(calls)
    ensures NewestFirst(Alive(calls, key, s))
    decreases calls
  {
    if calls != [] {
      var front, last := calls[..|calls| - 1], calls[|calls| - 1];
      AliveIsSorted(front, key, s);
      var before := Alive(front, key, s);
      if last.Evict? {
        EvictionTakesTheTail(before, last.now - s.ttl);
      } else if last.Add? {
        forall i | 0 <= i < |before| ensures before[i].added <= last.now {
          AliveWasAdded(front, key, s, before[i]);
          var j :| 0 <= j < |front| && front[j] == Add(key, before[i].content, before[i].added);
          assert calls[j] == front[j];
        }
      }
    }
  }

  /** The buffer of a key has length `n` and holds the newest of `alive`; it may be missing while `n` is the default. */
  ghost predicate HoldsNewestOf(buffers: map<Key, Buffer>, key: Key, s: Settings, n: nat, alive: seq<Candle>) {
    (key in buffers || n == s.maxlen) && BufferOf(buffers, key, n) == Buffer(n, First(alive, n))
  }

  lemma HoldsStep(buffers: map<Key, Buffer>, c: Call, key: Key, s: Settings, n: nat, alive: seq<Candle>)
    requires HoldsNewestOf(buffers, key, s, n, alive) && NewestFirst(alive)
    requires c.Resize? ==> c.key != key
    ensures HoldsNewestOf(Step(buffers, c, s), key, s, n, AliveStep(alive, c, key, s))
  {
    if c.Evict? {
      EvictionOfTheNewest(alive, n, c.now - s.ttl);
    } else if c.Add? && c.key == key {
      PushKeepsTheNewest(Candle(c.content, c.now), alive, n);
    }
  }

  ghost predicate NoResize(calls: seq<Call>, key: Key) {
    forall c :: c in calls && c.Resize? ==> c.key != key
  }

  ghost predicate NoAdd(calls: seq<Call>, key: Key) {
    forall c :: c in calls && c.Add? ==> c.key != key
  }

  lemma {:induction false} HoldsFrom(start: seq<Call>, rest: seq<Call>, key: Key, s: Settings, n: nat)
    requires ClockRunsOn(start + rest) && NoResize(rest, key)
    requires HoldsNewestOf(Run(start, s), key, s, n, Alive(start, key, s))
    ensures HoldsNewestOf(Run(start + rest, s), key, s, n, Alive(start + rest, key, s))
    decreases rest
  {
    var all := start + rest;
    if rest == [] {
      assert all == start;
    } else {
      hide Step, AliveStep, NewestFirst, HoldsNewestOf;
      var front, last := rest[..|rest| - 1], rest[|rest| - 1];
      assert all[..|all| - 1] == start + front && last in rest;
      HoldsFrom(start, front, key, s, n);
      AliveIsSorted(start + front, key, s);
      HoldsStep(Run(start + front, s), last, key, s, n, Alive(start + front, key, s));
    }
  }

  lemma {:induction false} NothingYet(calls: seq<Call>, key: Key, s: Settings)
    requires NoAdd(calls, key)
    ensures Alive(calls, key, s) == []
    ensures key in Run(calls, s) ==> Run(calls, s)[key].candles == []
    decreases calls
  {
    if calls != [] {
      NothingYet(calls[..|calls| - 1], key, s);
      assert calls[|calls| - 1] in calls;
    }
  }

  /** The call at `k` fixed the length of the key before its first candle, and no later call did. */
  ghost predicate FixedAt(calls: seq<Call>, key: Key, n: nat, k: nat) {
    k < |calls| && calls[k] == Resize(key, n) && NoAdd(calls[..k], key) && NoResize(calls[k + 1..], key)
  }

  /** Throughout the run the key has the length `n`: by default, or as fixed before its first candle. */
  ghost predicate FixedLength(calls: seq<Call>, key: Key, s: Settings, n: nat) {
    (n == s.maxlen && NoResize(calls, key)) || exists k: nat :: FixedAt(calls, key, n, k)
  }

  lemma HoldsOnceFixed(calls: seq<Call>, key: Key, s: Settings, n: nat, k: nat)
    requires ClockRunsOn(calls) && FixedAt(calls, key, n, k)
    ensures HoldsNewestOf(Run(calls, s), key, s, n, Alive(calls, key, s))
  {
    var start := calls[..k + 1];
    assert start[..k] == calls[..k] && start[k] == Resize(key, n) && calls == start + calls[k + 1..];
    NothingYet(calls[..k], key, s);
    HoldsFrom(start, calls[k + 1..], key, s, n);
  }

  /**
   The bounded cache refines the unbounded history: a buffer of fixed length
   holds the newest `n` candles alive, newest first, whatever happened to the
   other keys.
   */
  lemma HoldsTheNewest(calls: seq<Call>, key: Key, s: Settings, n: nat)
    requires ClockRunsOn(calls) && FixedLength(calls, key, s, n)
    ensures BufferOf(Run(calls, s), key, n) == Buffer(n, First(Alive(calls, key, s), n))
  {
    if k: nat :| FixedAt(calls, key, n, k) {
      HoldsOnceFixed(calls, key, s, n, k);
    } else {
      assert [] + calls == calls;
      HoldsFrom([], calls, key, s, n);
    }
  }

  lemma PushKeepsTheNewest(candle: Candle, candles: seq<Candle>, n: nat)
    ensures First([candle] + First(candles, n), n) == First([candle] + candles, n)
  {
  }

  /** No length or a zero gives everything, and a negative one leaves out as many of the oldest. */
  lemma OtherLengths(candles: seq<Candle>, n: int)
    requires n < 0
    ensures Slice(candles, None) == Slice(candles, Some(0)) == candles
    ensures -n <= |candles| ==> Slice(candles, Some(n)) + Last(candles, -n) == candles
    ensures -n > |candles| ==> Slice(candles, Some(n)) == []
  {
  }

  /** What a caller sees: the newest `wanted` alive, as far as the buffer reaches. */
  lemma GetsTheNewest(calls: seq<Call>, key: Key, s: Settings, n: nat, wanted: int)
    requires ClockRunsOn(calls) && FixedLength(calls, key, s, n) && wanted > 0
    ensures Slice(BufferOf(Run(calls, s), key, n).candles, Some(wanted)) ==
            First(Alive(calls, key, s), if wanted < n then wanted else n)
  {
    HoldsTheNewest(calls, key, s, n);
  }

  // ----- shrinking

  /** `set_maxlen` keeps the newest candles exactly when it drops none, or all. */
  lemma ShrinkingKeepsTheNewest(b: Buffer, maxlen: nat)
    requires Distinct(b.candles)
    ensures Rebuild(b, maxlen).candles == First(b.candles, maxlen) <==> |b.candles| <= maxlen || maxlen == 0
  {
    if 0 < maxlen < |b.candles| {
      assert Last(b.candles, maxlen)[0] == b.candles[|b.candles| - maxlen];
      assert First(b.candles, maxlen)[0] == b.candles[0];
    }
  }

  function Pushed(b: Buffer, added: seq<Candle>): Buffer {
    if added == [] then b else PushLeft(Pushed(b, added[..|added| - 1]), added[|added| - 1])
  }

  function Reversed(s: seq<Candle>): (r: seq<Candle>)
    ensures |r| == |s|
  {
    if s == [] then [] else [s[|s| - 1]] + Reversed(s[..|s| - 1])
  }

  /** The wrongly kept candles are gone again after as many additions as the new length. */
  lemma {:induction false} ShrinkingHeals(b: Buffer, maxlen: nat, added: seq<Candle>)
    ensures Pushed(Rebuild(b, maxlen), added).candles ==
            First(Reversed(added) + Last(b.candles, maxlen), maxlen)
    ensures |added| >= maxlen ==>
      Pushed(Rebuild(b, maxlen), added).candles == First(Reversed(added), maxlen)
    decreases added
  {
    if added != [] {
      var front, last := added[..|added| - 1], added[|added| - 1];
      ShrinkingHeals(b, maxlen, front);
      PushedLength(Rebuild(b, maxlen), front);
      var older := Reversed(front) + Last(b.candles, maxlen);
      PushKeepsTheNewest(last, older, maxlen);
      assert [last] + older == Reversed(added) + Last(b.candles, maxlen);
    }
  }

  lemma {:induction false} PushedLength(b: Buffer, added: seq<Candle>)
    ensures Pushed(b, added).maxlen == b.maxlen
    decreases added
  {
    if added != [] {
      PushedLength(b, added[..|added| - 1]);
    }
  }
}

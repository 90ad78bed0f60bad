/**
 Expiry times in whole seconds. A timestamp's minute and quarter hour are those
 of UTC, which a local clock shares when its offset is in whole quarter hours.
 */
module Expiration {

  function Minute(t: int): int {
    (t / 60) % 60
  }

  function FloorToMinute(t: int): int {
    t - t % 60
  }

  function AbsInt(x: int): int {
    if x < 0 then -x else x
  }

  // ----- the offered expiries

  function FirstMinute(ts: int): int {
    if FloorToMinute(ts) + 60 - ts > 30 then FloorToMinute(ts) + 60 else FloorToMinute(ts) + 120
  }

  /** The first quarter hour more than five minutes away, counted in quarters and in seconds. */
  function QuarterIndex(ts: int): int {
    (ts + 300) / 900 + 1
  }

  function FirstQuarter(ts: int): int {
    900 * QuarterIndex(ts)
  }

  /** Five consecutive minutes, and then `quarters` consecutive quarter hours. */
  function Offered(ts: int, quarters: nat): (exp: seq<int>)
    ensures |exp| == 5 + quarters
  {
    seq(5 + quarters, i requires 0 <= i < 5 + quarters =>
      if i < 5 then FirstMinute(ts) + 60 * i else FirstQuarter(ts) + 900 * (i - 5))
  }

  lemma MinuteOfMultiple(k: int)
    ensures Minute(60 * k) % 15 == 0 <==> k % 15 == 0
  {
    var q, m := k / 60, k % 60;
    assert (60 * k) / 60 == k && Minute(60 * k) == m;
    assert k == 15 * (4 * q + m / 15) + m % 15;
  }

  lemma QuarterIndexBounds(ts: int)
    ensures ts + 300 < 900 * QuarterIndex(ts) <= ts + 1200
  {
  }

  /** Looking at minute `k`, with quarter `j` the first one still to come. */
  lemma QuarterStep(ts: int, k: int, j: int)
    requires k <= 15 * j && QuarterIndex(ts) <= j && (QuarterIndex(ts) < j ==> 15 * (j - 1) < k)
    ensures Minute(60 * k) % 15 == 0 && 60 * k - ts > 60 * 5 <==> k == 15 * j
  {
    MinuteOfMultiple(k);
    QuarterIndexBounds(ts);
    if k % 15 == 0 {
      var i := k / 15;
      assert k == 15 * i;
    }
  }

  /** The search for quarter hours, minute by minute. */
  method Quarters(ts: int, quarters: nat) returns (exp: seq<int>)
    ensures |exp| == quarters && forall i :: 0 <= i < quarters ==> exp[i] == FirstQuarter(ts) + 900 * i
  {
    ghost var first := QuarterIndex(ts);
    ghost var k := ts / 60;
    QuarterIndexBounds(ts);
    exp := [];
    var index := 0;
    var expDate := FloorToMinute(ts);
    assert FirstQuarter(ts) == 900 * first && expDate == 60 * k && k <= 15 * first;
    hide Minute, FloorToMinute, FirstQuarter, QuarterIndex;
    while index < quarters
      invariant index == |exp| <= quarters && expDate == 60 * k
      invariant forall i :: 0 <= i < index ==> exp[i] == FirstQuarter(ts) + 900 * i
      invariant k <= 15 * (first + index)
      invariant index > 0 ==> 15 * (first + index - 1) < k
      decreases 15 * (first + quarters) - k
    {
      QuarterStep(ts, k, first + index);
      if Minute(expDate) % 15 == 0 && expDate - ts > 60 * 5 {
        exp := exp + [expDate];
        index := index + 1;
      }
      expDate := expDate + 60;
      k := k + 1;
    }
  }

  /** The part that `get_expiration_time` and `get_remaning_time` have in common. */
  method Offer(ts: int, quarters: nat) returns (exp: seq<int>)
    ensures exp == Offered(ts, quarters)
  {
    var expDate := FloorToMinute(ts);
    if expDate + 60 - ts > 30 {
      expDate := expDate + 60;
    } else {
      expDate := expDate + 120;
    }
    exp := [];
    for k := 0 to 5
      invariant |exp| == k && expDate == FirstMinute(ts) + 60 * k
      invariant forall i :: 0 <= i < k ==> exp[i] == FirstMinute(ts) + 60 * i
    {
      exp := exp + [expDate];
      expDate := expDate + 60;
    }
    var later := Quarters(ts, quarters);
    exp := exp + later;
  }

  // ----- the choice

  /** `close.index(min(close))`. */
  function FirstMinimum(s: seq<int>): (i: nat)
    requires s != []
    ensures i < |s| && forall j :: 0 <= j < |s| ==> s[i] <= s[j]
    ensures forall j :: 0 <= j < i ==> s[i] < s[j]
  {
    if |s| == 1 then 0
    else
      var front := FirstMinimum(s[..|s| - 1]);
      assert forall j :: 0 <= j < |s| - 1 ==> s[..|s| - 1][j] == s[j];
      if s[|s| - 1] < s[front] then |s| - 1 else front
  }

  /** How far the remaining time of an expiry is from the wanted one; the clock is read anew for every expiry. */
  function Miss(exp: seq<int>, clock: seq<int>, duration: int, i: int): int
    requires 0 <= i < |exp| == |clock|
  {
    AbsInt(exp[i] - clock[i] - 60 * duration)
  }

  /** `i` is the first of the offered expiries with the smallest miss. */
  ghost predicate FirstClosest(exp: seq<int>, clock: seq<int>, duration: int, i: int) {
    && 0 <= i < |exp| == |clock|
    && (forall j :: 0 <= j < |exp| ==> Miss(exp, clock, duration, i) <= Miss(exp, clock, duration, j))
    && (forall j :: 0 <= j < i ==> Miss(exp, clock, duration, i) < Miss(exp, clock, duration, j))
  }

  const QUARTERS := 50

  method GetExpirationTime(ts: int, duration: int, clock: seq<int>) returns (exp: int, index: int)
    requires |clock| == 5 + QUARTERS
    ensures FirstClosest(Offered(ts, QUARTERS), clock, duration, index)
    ensures exp == Offered(ts, QUARTERS)[index]
  {
    var offered := Offer(ts, QUARTERS);
    var remaining: seq<int> := [];
    for i := 0 to |offered|
      invariant |remaining| == i && forall j :: 0 <= j < i ==> remaining[j] == offered[j] - clock[j]
    {
      remaining := remaining + [offered[i] - clock[i]];
    }
    var close := seq(|remaining|, i requires 0 <= i < |remaining| => AbsInt(remaining[i] - 60 * duration));
    assert forall j :: 0 <= j < |offered| ==> close[j] == Miss(offered, clock, duration, j);
    index := FirstMinimum(close);
    exp := offered[index];
  }

  /** Every read of the clock shows the timestamp. */
  ghost predicate Stands(clock: seq<int>, ts: int) {
    |clock| == 5 + QUARTERS && forall i :: 0 <= i < |clock| ==> clock[i] == ts
  }

  /** The formula that the search replaced. */
  function Retired(ts: int, duration: int): int {
    if ts % 60 > 30 then FloorToMinute(ts) + 60 * (duration + 1) else FloorToMinute(ts) + 60 * duration
  }

  /** How far the offered expiries are from a target up to five minutes away, in terms of the second `ts % 60`. */
  lemma Distances(ts: int, duration: int, i: int)
    requires 1 <= duration <= 5 && 0 <= i < 5 + QUARTERS
    ensures
      var s, lead := ts % 60, Offered(ts, QUARTERS)[i] - ts - 60 * duration;
      if i < 5 then lead == 60 * (i - duration) + (if s < 30 then 60 else 120) - s else lead >= 360 - s - 60 * duration
  {
    QuarterGap(ts);
    assert Offered(ts, QUARTERS)[i] == if i < 5 then FirstMinute(ts) + 60 * i else FirstQuarter(ts) + 900 * (i - 5);
    assert FirstMinute(ts) - ts == if ts % 60 < 30 then 60 - ts % 60 else 120 - ts % 60;
  }

  /** The first quarter hour is at least six whole minutes after the current one began. */
  lemma QuarterGap(ts: int)
    ensures FirstQuarter(ts) - FloorToMinute(ts) >= 360
  {
    QuarterIndexBounds(ts);
    assert FloorToMinute(ts) == 60 * (ts / 60);
  }

  /** The only candidate that can be the first closest one. */
  function TurboIndex(ts: int, duration: int): int {
    if ts % 60 == 30 && duration >= 2 then duration - 2 else duration - 1
  }

  lemma TurboIndexIsFirstClosest(ts: int, clock: seq<int>, duration: int)
    requires 1 <= duration <= 5 && Stands(clock, ts)
    ensures FirstClosest(Offered(ts, QUARTERS), clock, duration, TurboIndex(ts, duration))
  {
    var exp, i := Offered(ts, QUARTERS), TurboIndex(ts, duration);
    Distances(ts, duration, i);
    forall j | 0 <= j < |exp|
      ensures Miss(exp, clock, duration, i) <= Miss(exp, clock, duration, j)
      ensures j < i ==> Miss(exp, clock, duration, i) < Miss(exp, clock, duration, j)
    {
      Distances(ts, duration, j);
    }
  }

  lemma FirstClosestIsUnique(exp: seq<int>, clock: seq<int>, duration: int, i: int, j: int)
    requires FirstClosest(exp, clock, duration, i) && FirstClosest(exp, clock, duration, j)
    ensures i == j
  {
    var x, y := Miss(exp, clock, duration, i), Miss(exp, clock, duration, j);
    assert i < j ==> y < x;
    assert j < i ==> x < y;
  }

  /**
   For one to five minutes, with both clocks equal, the search picks one of the
   five minutes, and it agrees with the retired formula except for one minute at second 30.
   */
  lemma SearchAgainstRetired(ts: int, clock: seq<int>, duration: int, index: int)
    requires 1 <= duration <= 5 && Stands(clock, ts) && FirstClosest(Offered(ts, QUARTERS), clock, duration, index)
    ensures index < 5
    ensures Offered(ts, QUARTERS)[index] == Retired(ts, duration) <==> !(ts % 60 == 30 && duration == 1)
    ensures ts % 60 == 30 && duration == 1 ==> Offered(ts, QUARTERS)[index] == Retired(ts, duration) + 60
  {
    TurboIndexIsFirstClosest(ts, clock, duration);
    FirstClosestIsUnique(Offered(ts, QUARTERS), clock, duration, index, TurboIndex(ts, duration));
    hide Offered;
    Distances(ts, duration, index);
  }

  /**
   From the first quarter hour on, the chosen expiry is at most half a quarter
   hour from the wanted time, up to the fiftieth quarter hour, the last one there is.
   */
  lemma LongDurations(ts: int, clock: seq<int>, duration: int, index: int)
    requires Stands(clock, ts) && FirstClosest(Offered(ts, QUARTERS), clock, duration, index)
    ensures
      var wanted, first, chosen := ts + 60 * duration, FirstQuarter(ts), Offered(ts, QUARTERS)[index];
      && (first <= wanted <= first + 900 * 49 ==> AbsInt(chosen - wanted) <= 450)
      && (wanted >= first + 900 * 49 ==> chosen == first + 900 * 49)
  {
    var wanted, first, exp := ts + 60 * duration, FirstQuarter(ts), Offered(ts, QUARTERS);
    QuarterGap(ts);
    if first <= wanted <= first + 900 * 49 {
      var q := (wanted - first + 450) / 900;
      assert -450 <= wanted - (first + 900 * q) <= 450;
      assert 0 <= q < 50 && exp[5 + q] == first + 900 * q;
      assert Miss(exp, clock, duration, 5 + q) <= 450;
      assert Miss(exp, clock, duration, index) <= Miss(exp, clock, duration, 5 + q);
    }
    if wanted >= first + 900 * 49 {
      LastIsLatest(ts, index);
      assert exp[54] == first + 900 * 49;
      assert Miss(exp, clock, duration, index) <= Miss(exp, clock, duration, 54);
    }
  }

  lemma FirstMinuteBounds(ts: int)
    ensures ts + 30 < FirstMinute(ts) <= ts + 90
  {
  }

  lemma LastIsLatest(ts: int, i: int)
    requires 0 <= i < 5 + QUARTERS
    ensures Offered(ts, QUARTERS)[i] <= FirstQuarter(ts) + 900 * 49
  {
    FirstMinuteBounds(ts);
    QuarterIndexBounds(ts);
    hide FirstMinute, QuarterIndex, Minute;
    assert Offered(ts, QUARTERS)[i] == if i < 5 then FirstMinute(ts) + 60 * i else FirstQuarter(ts) + 900 * (i - 5);
  }

  // ----- remaining times

  const REMAINING_QUARTERS := 11

  function Label(i: int): int {
    if i >= 5 then 15 * (i - 4) else i + 1
  }

  /** Again the clock is read anew for every expiry. */
  method GetRemainingTime(ts: int, clock: seq<int>) returns (remaining: seq<(int, int)>)
    requires |clock| == 5 + REMAINING_QUARTERS
    ensures |remaining| == 5 + REMAINING_QUARTERS == 16
    ensures forall i :: 0 <= i < |remaining| ==>
      remaining[i] == (Label(i), Offered(ts, REMAINING_QUARTERS)[i] - clock[i])
  {
    var exp := Offer(ts, REMAINING_QUARTERS);
    remaining := [];
    for i := 0 to |exp|
      invariant |remaining| == i && forall k :: 0 <= k < i ==> remaining[k] == (Label(k), exp[k] - clock[k])
    {
      var minutes := if i >= 5 then 15 * (i - 4) else i + 1;
      remaining := remaining + [(minutes, exp[i] - clock[i])];
    }
  }

  /** A minute's label is right to half a minute; a quarter hour's is at most five minutes low and under ten high. */
  lemma LabelsAreClose(ts: int, i: nat)
    requires i < 5 + REMAINING_QUARTERS
    ensures
      var off := Offered(ts, REMAINING_QUARTERS)[i] - ts - 60 * Label(i);
      if i < 5 then -30 < off <= 30 else -600 < off <= 300
  {
    FirstMinuteBounds(ts);
    QuarterIndexBounds(ts);
    hide FirstMinute, QuarterIndex, Minute;
    assert Offered(ts, REMAINING_QUARTERS)[i] ==
           if i < 5 then FirstMinute(ts) + 60 * i else FirstQuarter(ts) + 900 * (i - 5);
  }

  /**
   The expiry listed for one to five minutes is the chosen one, except at second
   30 from two minutes on.
   */
  lemma RemainingAgainstSearch(ts: int, clock: seq<int>, duration: int, index: int)
    requires 1 <= duration <= 5 && Stands(clock, ts) && FirstClosest(Offered(ts, QUARTERS), clock, duration, index)
    ensures Label(duration - 1) == duration
    ensures Offered(ts, REMAINING_QUARTERS)[duration - 1] == Offered(ts, QUARTERS)[index]
        <==> !(ts % 60 == 30 && duration >= 2)
  {
    TurboIndexIsFirstClosest(ts, clock, duration);
    FirstClosestIsUnique(Offered(ts, QUARTERS), clock, duration, index, TurboIndex(ts, duration));
    Distances(ts, duration, index);
    assert Offered(ts, REMAINING_QUARTERS)[duration - 1] == Offered(ts, QUARTERS)[duration - 1];
  }
}

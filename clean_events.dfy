/** The event normaliser of helpers/cleanEvents/index.js: keeps the first event and
    every later event whose timestamp exceeds that of its raw predecessor. */
module EventNormalizer {
  import opened Types

  /** Event x survives cleaning: it is the first one, or it is later than event x - 1
      of the input (not the last event kept). */
  predicate Kept(events: seq<Event>, x: int)
    requires 0 <= x < |events|
  {
    x == 0 || events[x - 1].timestamp < events[x].timestamp
  }

  /** The kept events among indices i, i+1, ..., |events| - 1, in order. */
  function SurvivorsFrom(events: seq<Event>, i: nat): (r: seq<Event>)
    requires 1 <= i
    ensures i <= |events| ==> |r| <= |events| - i
    ensures i >= |events| ==> r == []
    decreases |events| - i
  {
    if i >= |events| then []
    else (if Kept(events, i) then [events[i]] else []) + SurvivorsFrom(events, i + 1)
  }

  /** The indices of those kept events, in increasing order. */
  function KeptIndicesFrom(events: seq<Event>, i: nat): seq<nat>
    requires 1 <= i
    decreases |events| - i
  {
    if i >= |events| then []
    else (if Kept(events, i) then [i] else []) + KeptIndicesFrom(events, i + 1)
  }

  /** What cleanEvents returns for a non-empty input. */
  function Cleaned(events: seq<Event>): (r: seq<Event>)
    requires events != []
    ensures 1 <= |r| <= |events| && r[0] == events[0]
  {
    [events[0]] + SurvivorsFrom(events, 1)
  }

  /** The loop of cleanEvents: builds a fresh sequence; the input is a value and is not changed. */
  method CleanEvents(events: seq<Event>) returns (cleaned: seq<Event>)
    requires events != []
    ensures cleaned == Cleaned(events)
  {
    cleaned := [events[0]];
    var x := 1;
    while x < |events|
      invariant 1 <= x <= |events|
      invariant cleaned + SurvivorsFrom(events, x) == Cleaned(events)
    {
      if events[x].timestamp > events[x - 1].timestamp {
        cleaned := cleaned + [events[x]];
      }
      x := x + 1;
    }
  }

  /** The kept indices from i on lie in [i, |events|) and increase strictly. */
  lemma {:induction false} KeptIndicesIncrease(events: seq<Event>, i: nat)
    requires 1 <= i
    ensures forall j :: 0 <= j < |KeptIndicesFrom(events, i)| ==> i <= KeptIndicesFrom(events, i)[j] < |events|
    ensures forall j, k :: 0 <= j < k < |KeptIndicesFrom(events, i)| ==>
      KeptIndicesFrom(events, i)[j] < KeptIndicesFrom(events, i)[k]
    decreases |events| - i
  {
    if i < |events| {
      KeptIndicesIncrease(events, i + 1);
      var rest := KeptIndicesFrom(events, i + 1);
      var head: seq<nat> := if Kept(events, i) then [i] else [];
      var idx := head + rest;
      assert KeptIndicesFrom(events, i) == idx;
      forall j | 0 <= j < |idx| ensures i <= idx[j] < |events| {
        if j >= |head| { assert idx[j] == rest[j - |head|]; }
      }
      forall j, k | 0 <= j < k < |idx| ensures idx[j] < idx[k] {
        assert idx[k] == rest[k - |head|];
        if j >= |head| { assert idx[j] == rest[j - |head|]; }
      }
    }
  }

  /** An index from i on is among the kept indices exactly when it passes Kept. */
  lemma {:induction false} KeptIndicesAreKept(events: seq<Event>, i: nat)
    requires 1 <= i
    ensures forall m :: i <= m < |events| ==> (m in KeptIndicesFrom(events, i) <==> Kept(events, m))
    decreases |events| - i
  {
    if i < |events| {
      KeptIndicesAreKept(events, i + 1);
      KeptIndicesIncrease(events, i + 1);
      var rest := KeptIndicesFrom(events, i + 1);
      var head: seq<nat> := if Kept(events, i) then [i] else [];
      assert KeptIndicesFrom(events, i) == head + rest;
      assert i !in rest;
    }
  }

  /** The survivors are the input read at the kept indices, in order. */
  lemma {:induction false} SurvivorsAtKeptIndices(events: seq<Event>, i: nat)
    requires 1 <= i
    ensures |SurvivorsFrom(events, i)| == |KeptIndicesFrom(events, i)|
    ensures forall j :: 0 <= j < |KeptIndicesFrom(events, i)| ==>
      0 <= KeptIndicesFrom(events, i)[j] < |events| &&
      SurvivorsFrom(events, i)[j] == events[KeptIndicesFrom(events, i)[j]]
    decreases |events| - i
  {
    KeptIndicesIncrease(events, i);
    if i < |events| {
      SurvivorsAtKeptIndices(events, i + 1);
    }
  }

  /** A strictly increasing input comes back unchanged. */
  lemma {:induction false} CleanedStrictlyIncreasing(events: seq<Event>)
    requires events != [] && StrictlyIncreasing(events)
    ensures Cleaned(events) == events
  {
    SurvivorsOfIncreasing(events, 1);
  }

  lemma {:induction false} SurvivorsOfIncreasing(events: seq<Event>, i: nat)
    requires 1 <= i <= |events| && StrictlyIncreasing(events)
    ensures SurvivorsFrom(events, i) == events[i..]
    decreases |events| - i
  {
    if i < |events| {
      SurvivorsOfIncreasing(events, i + 1);
      assert events[i..] == [events[i]] + events[i + 1..];
    }
  }

  /** On a non-decreasing input an event is dropped exactly when it repeats the timestamp
      of the event before it, and the result is strictly increasing. */
  lemma CleanedNonDecreasing(events: seq<Event>)
    requires events != [] && NonDecreasing(events)
    ensures forall m :: 1 <= m < |events| ==> (!Kept(events, m) <==> events[m].timestamp == events[m - 1].timestamp)
    ensures StrictlyIncreasing(Cleaned(events))
  {
    var c := Cleaned(events);
    var idx := KeptIndicesFrom(events, 1);
    KeptIndicesIncrease(events, 1);
    KeptIndicesAreKept(events, 1);
    SurvivorsAtKeptIndices(events, 1);
    // c[j] is events[0] for j == 0 and events[idx[j - 1]] otherwise
    forall a, b | 0 <= a < b < |c| ensures c[a].timestamp < c[b].timestamp {
      var ib := idx[b - 1];
      assert c[b] == events[ib] && Kept(events, ib);
      assert ib in idx;
      if a == 0 {
        assert events[0].timestamp <= events[ib - 1].timestamp;
      } else {
        var ia := idx[a - 1];
        assert c[a] == events[ia] && ia < ib;
        assert events[ia].timestamp <= events[ib - 1].timestamp;
      }
    }
  }

  /** Cleaning a non-decreasing input twice is the same as cleaning it once. */
  lemma CleanedIdempotent(events: seq<Event>)
    requires events != [] && NonDecreasing(events)
    ensures Cleaned(Cleaned(events)) == Cleaned(events)
  {
    CleanedNonDecreasing(events);
    CleanedStrictlyIncreasing(Cleaned(events));
  }

  /** Without ordering, cleaning is not idempotent: [5, 3, 4] cleans to [5, 4], and that
      cleans to [5], because 4 is compared with its raw predecessor 3, not with 5. */
  lemma CleanedNotIdempotentInGeneral()
    ensures var e := [Event(On, 5), Event(Off, 3), Event(On, 4)];
      Cleaned(e) == [Event(On, 5), Event(On, 4)] && Cleaned(Cleaned(e)) == [Event(On, 5)]
  {
    var e := [Event(On, 5), Event(Off, 3), Event(On, 4)];
    assert SurvivorsFrom(e, 3) == [];
    assert SurvivorsFrom(e, 2) == [Event(On, 4)];
    assert SurvivorsFrom(e, 1) == [Event(On, 4)];
    var c := [Event(On, 5), Event(On, 4)];
    assert SurvivorsFrom(c, 2) == [];
    assert SurvivorsFrom(c, 1) == [];
  }
}

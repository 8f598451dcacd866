/** The interval construction shared by the usage and savings calculators of index.js,
    and a minute-by-minute reference it is proved against. */
module Timeline {
  import opened Types

  /** The intervals of a timeline that is in state `cur` from minute `from`, then takes
      the state of each event at its timestamp, up to the end of the day. */
  function Segments(cur: State, from: int, events: seq<Event>): seq<Interval>
    decreases |events|
  {
    if events == [] then [Interval(cur, MaxInPeriod - from)]
    else [Interval(cur, events[0].timestamp - from)] + Segments(events[0].state, events[0].timestamp, events[1..])
  }

  /** The intervals of a day profile: start of day to the first event, event to event,
      and last event to the end of the day. */
  function Intervals(p: Profile): seq<Interval>
  {
    Segments(p.initial, 0, p.events)
  }

  /** Where the interval opened by event k ends: at the next event, or at the end of the day. */
  function EndOf(events: seq<Event>, k: int): int
    requires 0 <= k < |events|
  {
    if k + 1 < |events| then events[k + 1].timestamp else MaxInPeriod
  }

  /** The total duration of the intervals labelled s (a filter followed by a sum). */
  function DurationIn(s: State, iv: seq<Interval>): int
  {
    if iv == [] then 0
    else (if iv[0].state == s then iv[0].duration else 0) + DurationIn(s, iv[1..])
  }

  /** The total duration of all intervals. */
  function TotalDuration(iv: seq<Interval>): int
  {
    if iv == [] then 0 else iv[0].duration + TotalDuration(iv[1..])
  }

  /** The daily usage: the minutes spent in the "on" intervals. */
  function Usage(p: Profile): int
  {
    DurationIn(On, Intervals(p))
  }

  /** The intervals one by one: the first runs from `from` to the first event (or to the
      end of the day), and the one opened by event k runs from it to EndOf(events, k). */
  lemma {:induction false} SegmentsAt(cur: State, from: int, events: seq<Event>)
    ensures |Segments(cur, from, events)| == |events| + 1
    ensures Segments(cur, from, events)[0]
      == Interval(cur, (if events == [] then MaxInPeriod else events[0].timestamp) - from)
    ensures forall k :: 0 <= k < |events| ==>
      Segments(cur, from, events)[k + 1] == Interval(events[k].state, EndOf(events, k) - events[k].timestamp)
    decreases |events|
  {
    if events != [] {
      var rest := events[1..];
      SegmentsAt(events[0].state, events[0].timestamp, rest);
      forall k | 0 <= k < |events|
        ensures Segments(cur, from, events)[k + 1] == Interval(events[k].state, EndOf(events, k) - events[k].timestamp)
      {
        if k > 0 {
          assert EndOf(events, k) == EndOf(rest, k - 1);
        }
      }
    }
  }

  /** The profile's intervals: (initial, first timestamp), then for each event its state
      until the next event or the end of the day. */
  lemma IntervalsAt(p: Profile)
    requires p.events != []
    ensures |Intervals(p)| == |p.events| + 1
    ensures Intervals(p)[0] == Interval(p.initial, p.events[0].timestamp)
    ensures forall k :: 0 <= k < |p.events| - 1 ==>
      Intervals(p)[k + 1] == Interval(p.events[k].state, p.events[k + 1].timestamp - p.events[k].timestamp)
    ensures Intervals(p)[|p.events|] == Interval(Last(p.events).state, MaxInPeriod - Last(p.events).timestamp)
  {
    SegmentsAt(p.initial, 0, p.events);
    assert EndOf(p.events, |p.events| - 1) == MaxInPeriod;
  }

  /** The durations telescope: from `from` to the end of the day. */
  lemma {:induction false} SegmentsTotal(cur: State, from: int, events: seq<Event>)
    ensures TotalDuration(Segments(cur, from, events)) == MaxInPeriod - from
    decreases |events|
  {
    if events != [] {
      var rest := Segments(events[0].state, events[0].timestamp, events[1..]);
      SegmentsTotal(events[0].state, events[0].timestamp, events[1..]);
      assert ([Interval(cur, events[0].timestamp - from)] + rest)[1..] == rest;
    }
  }

  /** Whatever the events, the intervals of a profile add up to exactly one day. */
  lemma IntervalsCoverDay(p: Profile)
    ensures TotalDuration(Intervals(p)) == MaxInPeriod
  {
    SegmentsTotal(p.initial, 0, p.events);
  }

  /** In a well-formed day no interval has a negative duration. */
  lemma IntervalsNonNegative(p: Profile)
    requires WellFormedDay(p)
    ensures forall i :: 0 <= i < |Intervals(p)| ==> 0 <= Intervals(p)[i].duration
  {
    SegmentsAt(p.initial, 0, p.events);
    forall i | 0 <= i < |Intervals(p)| ensures 0 <= Intervals(p)[i].duration {
      if i > 0 {
        var k := i - 1;
        assert Intervals(p)[i].duration == EndOf(p.events, k) - p.events[k].timestamp;
      }
    }
  }

  /** With non-negative durations, the time in one state lies between 0 and the total. */
  lemma {:induction false} DurationInBounded(s: State, iv: seq<Interval>)
    requires forall i :: 0 <= i < |iv| ==> 0 <= iv[i].duration
    ensures 0 <= DurationIn(s, iv) <= TotalDuration(iv)
  {
    if iv != [] {
      DurationInBounded(s, iv[1..]);
    }
  }

  /** Every interval is "on", "off" or "auto-off", so the three totals add up to the whole. */
  lemma {:induction false} DurationPartition(iv: seq<Interval>)
    ensures DurationIn(On, iv) + DurationIn(Off, iv) + DurationIn(AutoOff, iv) == TotalDuration(iv)
  {
    if iv != [] {
      DurationPartition(iv[1..]);
    }
  }

  /** Relabelling intervals without changing durations only adds to the time in s when
      every interval labelled s keeps that label and durations are non-negative. */
  lemma {:induction false} DurationInMonotone(s: State, a: seq<Interval>, b: seq<Interval>)
    requires |a| == |b|
    requires forall i :: 0 <= i < |a| ==> a[i].duration == b[i].duration && 0 <= a[i].duration
    requires forall i :: 0 <= i < |a| ==> a[i].state == s ==> b[i].state == s
    ensures DurationIn(s, a) <= DurationIn(s, b)
  {
    if a != [] {
      DurationInMonotone(s, a[1..], b[1..]);
    }
  }

  /** Two interval lists with the same durations that agree on which intervals are
      labelled s spend the same time in s. */
  lemma {:induction false} DurationInSameLabels(s: State, a: seq<Interval>, b: seq<Interval>)
    requires |a| == |b|
    requires forall i :: 0 <= i < |a| ==> a[i].duration == b[i].duration
    requires forall i :: 0 <= i < |a| ==> (a[i].state == s <==> b[i].state == s)
    ensures DurationIn(s, a) == DurationIn(s, b)
  {
    if a != [] {
      DurationInSameLabels(s, a[1..], b[1..]);
    }
  }

  /** A day's usage lies in [0, MaxInPeriod] when its events are ordered inside the day. */
  lemma UsageBounded(p: Profile)
    requires WellFormedDay(p)
    ensures 0 <= Usage(p) <= MaxInPeriod
  {
    IntervalsNonNegative(p);
    DurationInBounded(On, Intervals(p));
    IntervalsCoverDay(p);
  }

  /** With no events, the day is wholly "on" or wholly not. */
  lemma UsageNoEvents(p: Profile)
    requires p.events == []
    ensures Usage(p) == if p.initial == On then MaxInPeriod else 0
  {
    var iv := Intervals(p);
    assert iv == [Interval(p.initial, MaxInPeriod)];
    assert DurationIn(On, iv) == (if iv[0].state == On then iv[0].duration else 0) + DurationIn(On, iv[1..]);
    assert iv[1..] == [];
  }

  /** Usage of the example profile in the comment of index.js: "on" from 0 to 50 and
      from 304 to 600, so 50 + 296 minutes. */
  lemma UsageOfDocumentedProfile()
    ensures Usage(Profile(On, [Event(Off, 50), Event(On, 304), Event(Off, 600)])) == 346
  {
    var p := Profile(On, [Event(Off, 50), Event(On, 304), Event(Off, 600)]);
    IntervalsAt(p);
    assert Intervals(p) == [Interval(On, 50), Interval(Off, 254), Interval(On, 296), Interval(Off, 840)];
  }

  // Minute-by-minute reference.

  /** The state at minute t of a timeline that is in state `cur` and then takes the state
      of each event whose timestamp has been reached; for ordered events, the state of the
      last event at or before t, or `cur` when there is none. */
  function StateAfter(cur: State, events: seq<Event>, t: int): State
    decreases |events|
  {
    if events == [] || t < events[0].timestamp then cur
    else StateAfter(events[0].state, events[1..], t)
  }

  /** The state of a profile's appliance at minute t. */
  function StateAt(p: Profile, t: int): State
  {
    StateAfter(p.initial, p.events, t)
  }

  /** The number of minutes t in [lo, hi) at which the timeline is in state s. */
  function CountIn(s: State, cur: State, events: seq<Event>, lo: int, hi: int): nat
    decreases hi - lo
  {
    if hi <= lo then 0
    else CountIn(s, cur, events, lo, hi - 1) + (if StateAfter(cur, events, hi - 1) == s then 1 else 0)
  }

  /** The number of minutes t in [lo, hi) at which the profile's appliance is in state s. */
  function MinutesIn(s: State, p: Profile, lo: int, hi: int): nat
  {
    CountIn(s, p.initial, p.events, lo, hi)
  }

  lemma {:induction false} CountSplit(s: State, cur: State, events: seq<Event>, lo: int, mid: int, hi: int)
    requires lo <= mid <= hi
    ensures CountIn(s, cur, events, lo, hi) == CountIn(s, cur, events, lo, mid) + CountIn(s, cur, events, mid, hi)
    decreases hi - mid
  {
    if mid < hi {
      CountSplit(s, cur, events, lo, mid, hi - 1);
    }
  }

  /** Two timelines that agree minute by minute, one shifted by `off`, count the same. */
  lemma {:induction false} CountShift(s: State, c1: State, e1: seq<Event>, c2: State, e2: seq<Event>, lo: int, hi: int, off: int)
    requires forall t :: lo <= t < hi ==> StateAfter(c1, e1, t) == StateAfter(c2, e2, t + off)
    ensures CountIn(s, c1, e1, lo, hi) == CountIn(s, c2, e2, lo + off, hi + off)
    decreases hi - lo
  {
    if lo < hi {
      CountShift(s, c1, e1, c2, e2, lo, hi - 1, off);
      assert StateAfter(c1, e1, hi - 1) == StateAfter(c2, e2, hi - 1 + off);
    }
  }

  /** Two timelines that agree minute by minute, the second shifted by off, spend the same
      minutes in every state. */
  lemma MinutesShifted(s: State, p: Profile, q: Profile, lo: int, hi: int, off: int)
    requires forall t :: lo <= t < hi ==> StateAt(p, t) == StateAt(q, t + off)
    ensures MinutesIn(s, p, lo, hi) == MinutesIn(s, q, lo + off, hi + off)
  {
    forall t | lo <= t < hi
      ensures StateAfter(p.initial, p.events, t) == StateAfter(q.initial, q.events, t + off)
    {
      assert StateAt(p, t) == StateAt(q, t + off);
    }
    CountShift(s, p.initial, p.events, q.initial, q.events, lo, hi, off);
  }

  /** A timeline that stays in state x over [lo, hi) spends all of it, or none of it, in s. */
  lemma {:induction false} CountConstant(s: State, cur: State, events: seq<Event>, lo: int, hi: int, x: State)
    requires lo <= hi
    requires forall t :: lo <= t < hi ==> StateAfter(cur, events, t) == x
    ensures CountIn(s, cur, events, lo, hi) == if x == s then hi - lo else 0
    decreases hi - lo
  {
    if lo < hi {
      CountConstant(s, cur, events, lo, hi - 1, x);
      assert StateAfter(cur, events, hi - 1) == x;
    }
  }

  /** The intervals from `from` on measure exactly the minutes the timeline spends in each state. */
  lemma {:induction false} SegmentsAreMinutes(s: State, cur: State, from: int, events: seq<Event>)
    requires from <= MaxInPeriod
    requires NonDecreasing(events)
    requires forall i :: 0 <= i < |events| ==> from <= events[i].timestamp <= MaxInPeriod
    ensures DurationIn(s, Segments(cur, from, events)) == CountIn(s, cur, events, from, MaxInPeriod)
    decreases |events|
  {
    if events == [] {
      CountConstant(s, cur, events, from, MaxInPeriod, cur);
    } else {
      var t0 := events[0].timestamp;
      var rest := events[1..];
      var tail := Segments(events[0].state, t0, rest);
      SegmentsAreMinutes(s, events[0].state, t0, rest);
      CountSplit(s, cur, events, from, t0, MaxInPeriod);
      assert CountIn(s, cur, events, from, t0) == if cur == s then t0 - from else 0 by {
        forall t | from <= t < t0 ensures StateAfter(cur, events, t) == cur { }
        CountConstant(s, cur, events, from, t0, cur);
      }
      assert CountIn(s, cur, events, t0, MaxInPeriod) == CountIn(s, events[0].state, rest, t0 + 0, MaxInPeriod + 0) by {
        forall t | t0 <= t < MaxInPeriod
          ensures StateAfter(cur, events, t) == StateAfter(events[0].state, rest, t + 0) { }
        CountShift(s, cur, events, events[0].state, rest, t0, MaxInPeriod, 0);
      }
      assert ([Interval(cur, t0 - from)] + tail)[1..] == tail;
    }
  }

  /** The interval durations of a well-formed day count exactly the minutes in each state. */
  lemma IntervalsAreMinutes(s: State, p: Profile)
    requires WellFormedDay(p)
    ensures DurationIn(s, Intervals(p)) == MinutesIn(s, p, 0, MaxInPeriod)
  {
    SegmentsAreMinutes(s, p.initial, 0, p.events);
  }

  /** The daily usage is the number of minutes of the day during which the appliance is on. */
  lemma UsageIsMinutesOn(p: Profile)
    requires WellFormedDay(p)
    ensures Usage(p) == MinutesIn(On, p, 0, MaxInPeriod)
  {
    IntervalsAreMinutes(On, p);
  }
}

/** The day slicer of index.js, as specification: how a month profile falls apart into
    per-day profiles, and what the usage of one day means on the month's timeline. */
module DaySlices {
  import opened Types
  import opened Timeline

  /** The 0-based day of a timestamp, Math.floor(ts / 1440) for ts >= 0. */
  function DayOf(ts: int): int
  {
    ts / MaxInPeriod
  }

  /** Math.ceil(ts / 1440) for ts >= 0. */
  function CeilDay(ts: int): int
  {
    (ts + MaxInPeriod - 1) / MaxInPeriod
  }

  /** The event with its timestamp rebased into its own day, ts % 1440. */
  function Rebase(e: Event): Event
  {
    Event(e.state, e.timestamp % MaxInPeriod)
  }

  /** The events that fall on day k, in order, rebased into the day. */
  function DayEvents(events: seq<Event>, k: int): seq<Event>
    decreases |events|
  {
    if events == [] then []
    else (if DayOf(events[0].timestamp) == k then [Rebase(events[0])] else []) + DayEvents(events[1..], k)
  }

  /** The state in effect when day k begins, i.e. at the last minute of day k - 1. */
  function DayInitial(month: Profile, k: int): State
  {
    StateAt(month, MaxInPeriod * k - 1)
  }

  /** The profile of day k (0-based) of a month. */
  function SliceDay(month: Profile, k: int): Profile
  {
    Profile(DayInitial(month, k), DayEvents(month.events, k))
  }

  /** The minutes that day d (1-based) of the month's timeline spends "on". */
  function DayUsage(month: Profile, d: int): nat
  {
    MinutesIn(On, month, MaxInPeriod * (d - 1), MaxInPeriod * d)
  }

  /** Timestamps of a month profile as the slicer expects them. */
  predicate MonthOrdered(month: Profile)
  {
    NonNegative(month.events) && NonDecreasing(month.events)
  }

  /** DayOf is the floor and CeilDay the ceiling of ts / 1440. */
  lemma DayRounding(ts: int)
    requires 0 <= ts
    ensures MaxInPeriod * DayOf(ts) <= ts < MaxInPeriod * (DayOf(ts) + 1)
    ensures MaxInPeriod * (CeilDay(ts) - 1) < ts <= MaxInPeriod * CeilDay(ts)
    ensures DayOf(ts) <= CeilDay(ts) <= DayOf(ts) + 1
  {
  }

  lemma DayOfMonotone(a: int, b: int)
    requires a <= b
    ensures DayOf(a) <= DayOf(b)
  {
  }

  /** Slicing distributes over concatenation. */
  lemma {:induction false} DayEventsConcat(a: seq<Event>, b: seq<Event>, k: int)
    ensures DayEvents(a + b, k) == DayEvents(a, k) + DayEvents(b, k)
    decreases |a|
  {
    if a == [] {
      assert a + b == b;
    } else {
      DayEventsConcat(a[1..], b, k);
      var head := if DayOf(a[0].timestamp) == k then [Rebase(a[0])] else [];
      assert (a + b)[0] == a[0] && (a + b)[1..] == a[1..] + b;
      calc {
        DayEvents(a + b, k);
        head + DayEvents(a[1..] + b, k);
        head + (DayEvents(a[1..], k) + DayEvents(b, k));
        (head + DayEvents(a[1..], k)) + DayEvents(b, k);
      }
    }
  }

  /** No event on day k, no events in its slice. */
  lemma {:induction false} DayEventsNone(events: seq<Event>, k: int)
    requires forall i :: 0 <= i < |events| ==> DayOf(events[i].timestamp) != k
    ensures DayEvents(events, k) == []
    decreases |events|
  {
    if events != [] {
      DayEventsNone(events[1..], k);
    }
  }

  /** Rebased timestamps lie in [0, MaxInPeriod), and an event at or after minute lo of
      the month is at or after minute lo - MaxInPeriod * k of day k. */
  lemma {:induction false} DayEventsBounds(events: seq<Event>, k: int, lo: int)
    requires forall i :: 0 <= i < |events| ==> lo <= events[i].timestamp
    ensures forall j :: 0 <= j < |DayEvents(events, k)| ==>
      && 0 <= DayEvents(events, k)[j].timestamp < MaxInPeriod
      && lo - MaxInPeriod * k <= DayEvents(events, k)[j].timestamp
    decreases |events|
  {
    if events != [] {
      DayEventsBounds(events[1..], k, lo);
    }
  }

  /** A day's slice of ordered month events is ordered and lies inside the day. */
  lemma {:induction false} DayEventsOrdered(events: seq<Event>, k: int)
    requires NonDecreasing(events)
    ensures NonDecreasing(DayEvents(events, k))
    ensures forall j :: 0 <= j < |DayEvents(events, k)| ==> 0 <= DayEvents(events, k)[j].timestamp < MaxInPeriod
    decreases |events|
  {
    if events != [] {
      var rest := events[1..];
      DayEventsOrdered(rest, k);
      DayEventsBounds(rest, k, events[0].timestamp);
      DayEventsBounds(events, k, events[0].timestamp);
    }
  }

  /** Day k's slice is well-formed single-day input for the usage calculator. */
  lemma SliceWellFormed(month: Profile, k: int)
    requires NonDecreasing(month.events)
    ensures WellFormedDay(SliceDay(month, k))
  {
    DayEventsOrdered(month.events, k);
  }

  /** When event x is on a later day than k, the events before x already hold all of day k. */
  lemma DayEventsUpTo(events: seq<Event>, x: nat, k: int)
    requires NonDecreasing(events)
    requires x < |events| && k < DayOf(events[x].timestamp)
    ensures DayEvents(events[..x], k) == DayEvents(events, k)
  {
    assert events == events[..x] + events[x..];
    DayEventsConcat(events[..x], events[x..], k);
    forall m | 0 <= m < |events[x..]| ensures DayOf(events[x..][m].timestamp) != k {
      DayOfMonotone(events[x].timestamp, events[x + m].timestamp);
    }
    DayEventsNone(events[x..], k);
  }

  /** Closing day k before event x (a later day): what was gathered from the events before
      x is day k's whole slice, the next day starts as the carry-over rule says, and no event
      before x belongs to day k + 1. */
  lemma CloseDay(month: Profile, x: nat, k: int, daily: seq<Event>, initial: State)
    requires MonthOrdered(month)
    requires x < |month.events| && k < DayOf(month.events[x].timestamp)
    requires forall i :: 0 <= i < x ==> DayOf(month.events[i].timestamp) <= k
    requires daily == DayEvents(month.events[..x], k) && initial == DayInitial(month, k)
    ensures Profile(initial, daily) == SliceDay(month, k)
    ensures (if |daily| > 0 then daily[|daily| - 1].state else initial) == DayInitial(month, k + 1)
    ensures DayEvents(month.events[..x], k + 1) == []
  {
    DayEventsUpTo(month.events, x, k);
    DayInitialCarriesOver(month, k);
    DayEventsNone(month.events[..x], k + 1);
  }

  /** Taking one more event of day k appends it, rebased, to day k's slice. */
  lemma DayEventsAppend(events: seq<Event>, x: nat, k: int)
    requires x < |events| && DayOf(events[x].timestamp) == k
    ensures DayEvents(events[..x + 1], k) == DayEvents(events[..x], k) + [Rebase(events[x])]
  {
    assert events[..x + 1] == events[..x] + [events[x]];
    DayEventsConcat(events[..x], [events[x]], k);
    assert [events[x]][1..] == [];
  }

  /** The first n profiles built are those of days 0 .. n - 1. */
  predicate SlicedDays(month: Profile, profiles: seq<Profile>, n: int)
  {
    |profiles| == n && forall k :: 0 <= k < n ==> profiles[k] == SliceDay(month, k)
  }

  /** The slicer's state after reading events[..x] while day k is open: days before k are
      built, day k holds its events among events[..x] and starts in its initial state, and
      no event read so far lies after day k. */
  predicate SlicerAt(month: Profile, x: int, k: int, profiles: seq<Profile>, daily: seq<Event>, initial: State)
  {
    && 0 <= x <= |month.events|
    && 0 <= k
    && (forall i :: 0 <= i < x ==> DayOf(month.events[i].timestamp) <= k)
    && SlicedDays(month, profiles, k)
    && daily == DayEvents(month.events[..x], k)
    && initial == DayInitial(month, k)
  }

  /** Nothing is built before the first event is read. */
  lemma SlicerStart(month: Profile)
    requires MonthOrdered(month)
    ensures SlicerAt(month, 0, 0, [], [], month.initial)
  {
    assert month.events[..0] == [];
    DayInitialCarriesOver(month, 0);
  }

  /** The state the next day starts in: that of the day's last event, or, with none, the
      day's own initial state. */
  function CarryOver(day: Profile): State
  {
    if |day.events| > 0 then day.events[|day.events| - 1].state else day.initial
  }

  /** Closing day k when event x lies on a later day: pushing (initial, daily) builds day
      k, and day k + 1 opens empty, in the state of day k's last event or, with none, in
      day k's initial state. */
  lemma SlicerCloseDay(month: Profile, x: int, k: int, profiles: seq<Profile>, daily: seq<Event>, initial: State)
    requires MonthOrdered(month)
    requires SlicerAt(month, x, k, profiles, daily, initial)
    requires x < |month.events| && k < DayOf(month.events[x].timestamp)
    ensures SlicerAt(month, x, k + 1, profiles + [Profile(initial, daily)], [], CarryOver(Profile(initial, daily)))
  {
    CloseDay(month, x, k, daily, initial);
  }

  /** Reading event x of the open day k appends it, rebased, to the day's events. */
  lemma SlicerTakeEvent(month: Profile, x: int, k: int, profiles: seq<Profile>, daily: seq<Event>, initial: State)
    requires SlicerAt(month, x, k, profiles, daily, initial)
    requires x < |month.events| && DayOf(month.events[x].timestamp) == k
    ensures SlicerAt(month, x + 1, k, profiles, daily + [Rebase(month.events[x])], initial)
  {
    DayEventsAppend(month.events, x, k);
  }

  /** Once every event is read, pushing the open day builds days 0 .. k. */
  lemma SlicerFinish(month: Profile, k: int, profiles: seq<Profile>, daily: seq<Event>, initial: State)
    requires SlicerAt(month, |month.events|, k, profiles, daily, initial)
    ensures SlicedDays(month, profiles + [Profile(initial, daily)], k + 1)
  {
    assert month.events[..|month.events|] == month.events;
  }

  /** Once days 0 .. n - 1 are built, profile d - 1 of a day 1 <= d <= n is that day's
      slice, and its usage is day d's minutes "on". */
  lemma SlicedDayUsage(month: Profile, profiles: seq<Profile>, n: int, d: int)
    requires MonthOrdered(month) && SlicedDays(month, profiles, n) && 1 <= d <= n
    ensures profiles[d - 1] == SliceDay(month, d - 1)
    ensures Usage(profiles[d - 1]) == DayUsage(month, d)
  {
    SliceUsage(month, d - 1);
  }

  /** When events[i..j] are exactly the events of day k, the slice is that block, rebased,
      in order. */
  lemma {:induction false} DayEventsBlock(events: seq<Event>, k: int, i: nat, j: nat)
    requires i <= j <= |events|
    requires forall m :: 0 <= m < i ==> DayOf(events[m].timestamp) < k
    requires forall m :: i <= m < j ==> DayOf(events[m].timestamp) == k
    requires forall m :: j <= m < |events| ==> DayOf(events[m].timestamp) > k
    ensures |DayEvents(events, k)| == j - i
    ensures forall m :: 0 <= m < j - i ==> DayEvents(events, k)[m] == Rebase(events[i + m])
    decreases |events|
  {
    if events == [] {
    } else if i > 0 {
      DayEventsBlock(events[1..], k, i - 1, j - 1);
      assert DayEvents(events, k) == DayEvents(events[1..], k);
      forall m | 0 <= m < j - i ensures DayEvents(events, k)[m] == Rebase(events[i + m]) {
        assert events[1..][i - 1 + m] == events[i + m];
      }
    } else if j > 0 {
      DayEventsBlock(events[1..], k, 0, j - 1);
      var rest := DayEvents(events[1..], k);
      assert DayEvents(events, k) == [Rebase(events[0])] + rest;
      forall m | 0 <= m < j ensures DayEvents(events, k)[m] == Rebase(events[m]) {
        if m > 0 {
          assert DayEvents(events, k)[m] == rest[m - 1];
          assert events[1..][m - 1] == events[m];
        }
      }
    } else {
      DayEventsNone(events, k);
    }
  }

  /** The slice of day k behaves like the month during day k: minute t of the slice (started
      in the state in effect before the day) is minute MaxInPeriod * k + t of the month. */
  lemma {:induction false} SliceStateAfter(init: State, events: seq<Event>, k: int, t: int)
    requires NonDecreasing(events)
    requires 0 <= t < MaxInPeriod
    ensures StateAfter(StateAfter(init, events, MaxInPeriod * k - 1), DayEvents(events, k), t)
      == StateAfter(init, events, MaxInPeriod * k + t)
    decreases |events|
  {
    if events != [] {
      var e0, rest := events[0], events[1..];
      if DayOf(e0.timestamp) < k {
        assert e0.timestamp <= MaxInPeriod * k - 1;
        assert DayEvents(events, k) == DayEvents(rest, k);
        SliceStateAfter(e0.state, rest, k, t);
      } else if DayOf(e0.timestamp) == k {
        assert DayEvents(events, k) == [Rebase(e0)] + DayEvents(rest, k);
        SliceStateAfter(e0.state, rest, k, t);
      } else {
        forall m | 0 <= m < |rest| ensures DayOf(rest[m].timestamp) != k {
          DayOfMonotone(e0.timestamp, rest[m].timestamp);
        }
        DayEventsNone(rest, k);
      }
    }
  }

  lemma SliceStateAt(month: Profile, k: int, t: int)
    requires NonDecreasing(month.events)
    requires 0 <= t < MaxInPeriod
    ensures StateAt(SliceDay(month, k), t) == StateAt(month, MaxInPeriod * k + t)
  {
    SliceStateAfter(month.initial, month.events, k, t);
  }

  /** Every minute of day k's profile is the month timeline's minute 1440k + t. */
  lemma SliceStatesShifted(month: Profile, k: int)
    requires NonDecreasing(month.events)
    ensures forall t :: 0 <= t < MaxInPeriod ==> StateAt(SliceDay(month, k), t) == StateAt(month, t + MaxInPeriod * k)
  {
    forall t | 0 <= t < MaxInPeriod
      ensures StateAt(SliceDay(month, k), t) == StateAt(month, t + MaxInPeriod * k)
    {
      SliceStateAt(month, k, t);
    }
  }

  /** The usage of day k's slice is the number of minutes day k + 1 (1-based) of the
      month's timeline spends "on". */
  lemma SliceUsage(month: Profile, k: int)
    requires NonDecreasing(month.events)
    ensures Usage(SliceDay(month, k)) == DayUsage(month, k + 1)
  {
    var day := SliceDay(month, k);
    SliceWellFormed(month, k);
    UsageIsMinutesOn(day);
    SliceMinutes(month, k);
    assert MaxInPeriod * (k + 1 - 1) == 0 + MaxInPeriod * k && MaxInPeriod * (k + 1) == MaxInPeriod + MaxInPeriod * k;
  }

  /** Day k's profile spends as many minutes "on" as the month's timeline does during
      minutes [1440k, 1440k + 1440). */
  lemma SliceMinutes(month: Profile, k: int)
    requires NonDecreasing(month.events)
    ensures MinutesIn(On, SliceDay(month, k), 0, MaxInPeriod)
      == MinutesIn(On, month, 0 + MaxInPeriod * k, MaxInPeriod + MaxInPeriod * k)
  {
    var day := SliceDay(month, k);
    var off := MaxInPeriod * k;
    SliceStatesShifted(month, k);
    assert forall t :: 0 <= t < MaxInPeriod ==> StateAt(day, t) == StateAt(month, t + off);
    MinutesShifted(On, day, month, 0, MaxInPeriod, off);
  }

  /** Once every event has happened, the timeline stays in the last event's state. */
  lemma {:induction false} StateAfterPastAll(cur: State, events: seq<Event>, t: int)
    requires forall i :: 0 <= i < |events| ==> events[i].timestamp <= t
    ensures StateAfter(cur, events, t) == if events == [] then cur else Last(events).state
    decreases |events|
  {
    if events != [] {
      StateAfterPastAll(events[0].state, events[1..], t);
    }
  }

  /** The carry-over rule: day 0 starts in the month's initial state, and day k + 1 starts
      in the state of day k's last event, or in day k's initial state when day k had none. */
  lemma DayInitialCarriesOver(month: Profile, k: int)
    requires MonthOrdered(month)
    ensures SliceDay(month, 0).initial == month.initial
    ensures SliceDay(month, k + 1).initial
      == if SliceDay(month, k).events != [] then Last(SliceDay(month, k).events).state
         else SliceDay(month, k).initial
  {
    var day := SliceDay(month, k);
    SliceStateAt(month, k, MaxInPeriod - 1);
    assert MaxInPeriod * (k + 1) - 1 == MaxInPeriod * k + (MaxInPeriod - 1);
    DayEventsOrdered(month.events, k);
    StateAfterPastAll(day.initial, day.events, MaxInPeriod - 1);
  }

  /** With no events, every day is wholly "on" or wholly not. */
  lemma NoEventsDayUsage(month: Profile, d: int)
    requires month.events == []
    ensures DayUsage(month, d) == if month.initial == On then MaxInPeriod else 0
  {
    CountConstant(On, month.initial, [], MaxInPeriod * (d - 1), MaxInPeriod * d, month.initial);
  }

  /** A day that starts after the day of the last event is wholly in the last event's state. */
  lemma AfterLastEventDayUsage(month: Profile, d: int)
    requires MonthOrdered(month) && month.events != []
    requires d > CeilDay(Last(month.events).timestamp)
    ensures DayUsage(month, d) == if Last(month.events).state == On then MaxInPeriod else 0
  {
    var events := month.events;
    DayRounding(Last(events).timestamp);
    forall t | MaxInPeriod * (d - 1) <= t < MaxInPeriod * d
      ensures StateAfter(month.initial, events, t) == Last(events).state
    {
      StateAfterPastAll(month.initial, events, t);
    }
    CountConstant(On, month.initial, events, MaxInPeriod * (d - 1), MaxInPeriod * d, Last(events).state);
  }

  /** A month that starts "on" and switches off at minute 2000: day 1 is wholly "on". */
  lemma SlicerExampleFirstDay()
    ensures DayUsage(Profile(On, [Event(Off, 2000)]), 1) == 1440
  {
    var events := [Event(Off, 2000)];
    forall t | 0 <= t < MaxInPeriod ensures StateAfter(On, events, t) == On {
      assert t < events[0].timestamp;
    }
    CountConstant(On, On, events, 0, MaxInPeriod, On);
  }

  /** Day 2 of that month is "on" until minute 560 of the day. */
  lemma SlicerExampleSecondDay()
    ensures DayUsage(Profile(On, [Event(Off, 2000)]), 2) == 560
  {
    var month := Profile(On, [Event(Off, 2000)]);
    SliceUsage(month, 1);
    assert SliceDay(month, 1) == Profile(On, [Event(Off, 560)]);
    IntervalsAt(SliceDay(month, 1));
    assert Intervals(SliceDay(month, 1)) == [Interval(On, 560), Interval(Off, 880)];
  }

  /** Day 3 of that month, after the last event, is wholly "off". */
  lemma SlicerExampleThirdDay()
    ensures DayUsage(Profile(On, [Event(Off, 2000)]), 3) == 0
  {
    AfterLastEventDayUsage(Profile(On, [Event(Off, 2000)]), 3);
  }
}

/** The savings calculator's override of index.js: an "off" interval that directly follows
    an "auto-off" interval (after relabelling) is counted as "auto-off". */
module EnergySavings {
  import opened Types
  import opened Timeline

  /** The label of an interval opened by a change to s when the interval before it is
      labelled prev. */
  function Relabel(prev: State, s: State): State
  {
    if prev == AutoOff && s == Off then AutoOff else s
  }

  /** The events with their states relabelled left to right, `prev` being the label of the
      interval before the first event. */
  function RelabelFrom(prev: State, events: seq<Event>): seq<Event>
    decreases |events|
  {
    if events == [] then []
    else
      var e := Event(Relabel(prev, events[0].state), events[0].timestamp);
      [e] + RelabelFrom(e.state, events[1..])
  }

  /** The profile with every event carrying the label its interval is counted under. */
  function Relabelled(p: Profile): Profile
  {
    Profile(p.initial, RelabelFrom(p.initial, p.events))
  }

  /** The daily savings: the minutes in intervals labelled "auto-off" after relabelling. */
  function Savings(p: Profile): int
  {
    DurationIn(AutoOff, Intervals(Relabelled(p)))
  }

  /** With no events, only an initial "auto-off" saves anything, and then the whole day. */
  lemma SavingsNoEvents(p: Profile)
    requires p.events == []
    ensures Savings(p) == if p.initial == AutoOff then MaxInPeriod else 0
  {
    var iv := Intervals(Relabelled(p));
    assert iv == [Interval(p.initial, MaxInPeriod)];
    assert DurationIn(AutoOff, iv)
      == (if iv[0].state == AutoOff then iv[0].duration else 0) + DurationIn(AutoOff, iv[1..]);
    assert iv[1..] == [];
  }

  /** Relabelling keeps every timestamp, and relabels event i against the label of event
      i - 1 (or against `prev` for the first event). */
  lemma {:induction false} RelabelFromAt(prev: State, events: seq<Event>)
    ensures |RelabelFrom(prev, events)| == |events|
    ensures forall i :: 0 <= i < |events| ==> RelabelFrom(prev, events)[i].timestamp == events[i].timestamp
    ensures forall i :: 0 <= i < |events| ==>
      RelabelFrom(prev, events)[i].state
        == Relabel(if i == 0 then prev else RelabelFrom(prev, events)[i - 1].state, events[i].state)
    decreases |events|
  {
    if events != [] {
      var e := Event(Relabel(prev, events[0].state), events[0].timestamp);
      RelabelFromAt(e.state, events[1..]);
      assert RelabelFrom(prev, events) == [e] + RelabelFrom(e.state, events[1..]);
    }
  }

  /** The relabelled intervals one step at a time: the first is (initial, first timestamp),
      and the one opened by event x is relabelled against the interval before it. */
  lemma RelabelledIntervalStep(p: Profile, x: nat)
    requires x < |p.events|
    ensures |Intervals(Relabelled(p))| == |p.events| + 1
    ensures Intervals(Relabelled(p))[0] == Interval(p.initial, p.events[0].timestamp)
    ensures Intervals(Relabelled(p))[x + 1]
      == Interval(Relabel(Intervals(Relabelled(p))[x].state, p.events[x].state), EndOf(p.events, x) - p.events[x].timestamp)
  {
    var q := Relabelled(p);
    RelabelFromAt(p.initial, p.events);
    SegmentsAt(q.initial, 0, q.events);
    assert EndOf(q.events, x) == EndOf(p.events, x);
    assert Intervals(q)[x].state == if x == 0 then p.initial else q.events[x - 1].state;
    assert q.events[x].state == Relabel(if x == 0 then p.initial else q.events[x - 1].state, p.events[x].state);
  }

  /** The state of the most recent event that is not a manual "off", or `initial` when
      every event is a manual "off". */
  function LatestNonOff(initial: State, events: seq<Event>): State
    decreases |events|
  {
    if events == [] then initial
    else if Last(events).state != Off then Last(events).state
    else LatestNonOff(initial, events[..|events| - 1])
  }

  /** The interval before event i is labelled "auto-off" exactly when the most recent
      change before i that is not a manual "off" is an "auto-off". */
  lemma {:induction false} LabelBeforeEvent(p: Profile, i: nat)
    requires i <= |p.events|
    ensures |Relabelled(p).events| == |p.events|
    ensures (if i == 0 then p.initial else Relabelled(p).events[i - 1].state) == AutoOff
        <==> LatestNonOff(p.initial, p.events[..i]) == AutoOff
  {
    RelabelFromAt(p.initial, p.events);
    if i > 0 {
      LabelBeforeEvent(p, i - 1);
      assert p.events[..i][..i - 1] == p.events[..i - 1];
      assert Last(p.events[..i]) == p.events[i - 1];
    }
  }

  /** An event keeps its recorded state, except that a manual "off" is counted as
      "auto-off" when the most recent change before it that is not a manual "off" is an
      "auto-off" (or, failing one, the initial state is). So the override chains through
      consecutive "off" events, and an "on" breaks the chain. */
  lemma RelabelledState(p: Profile, i: nat)
    requires i < |p.events|
    ensures |Relabelled(p).events| == |p.events|
    ensures Relabelled(p).events[i].state
      == if p.events[i].state == Off && LatestNonOff(p.initial, p.events[..i]) == AutoOff
         then AutoOff else p.events[i].state
  {
    RelabelFromAt(p.initial, p.events);
    LabelBeforeEvent(p, i);
  }

  /** The intervals before and after relabelling, side by side: the same durations, and
      each label is either kept or turned from "off" into "auto-off". */
  lemma RelabelledIntervals(p: Profile)
    ensures |Intervals(Relabelled(p))| == |Intervals(p)|
    ensures forall i :: 0 <= i < |Intervals(p)| ==>
      && Intervals(Relabelled(p))[i].duration == Intervals(p)[i].duration
      && (Intervals(Relabelled(p))[i].state == Intervals(p)[i].state
          || (Intervals(p)[i].state == Off && Intervals(Relabelled(p))[i].state == AutoOff))
  {
    var q := Relabelled(p);
    RelabelFromAt(p.initial, p.events);
    SegmentsAt(p.initial, 0, p.events);
    SegmentsAt(q.initial, 0, q.events);
    forall i | 0 <= i < |Intervals(p)|
      ensures Intervals(q)[i].duration == Intervals(p)[i].duration
      ensures Intervals(q)[i].state == Intervals(p)[i].state
              || (Intervals(p)[i].state == Off && Intervals(q)[i].state == AutoOff)
    {
      if i > 0 {
        var k := i - 1;
        assert EndOf(q.events, k) == EndOf(p.events, k);
        assert Intervals(q)[i].state == q.events[k].state && Intervals(p)[i].state == p.events[k].state;
        assert q.events[k].state == Relabel(if k == 0 then p.initial else q.events[k - 1].state, p.events[k].state);
      }
    }
  }

  lemma {:induction false} RelabelFromWithoutAutoOff(prev: State, events: seq<Event>)
    requires prev != AutoOff
    requires forall i :: 0 <= i < |events| ==> events[i].state != AutoOff
    ensures RelabelFrom(prev, events) == events
    decreases |events|
  {
    if events != [] {
      RelabelFromWithoutAutoOff(events[0].state, events[1..]);
    }
  }

  /** No "auto-off" anywhere, initial state included, means no savings. */
  lemma SavingsWithoutAutoOff(p: Profile)
    requires p.initial != AutoOff
    requires forall i :: 0 <= i < |p.events| ==> p.events[i].state != AutoOff
    ensures Savings(p) == 0
  {
    RelabelFromWithoutAutoOff(p.initial, p.events);
    SegmentsAt(p.initial, 0, p.events);
    forall i | 0 <= i < |Intervals(p)| ensures Intervals(p)[i].state != AutoOff {
      if i > 0 {
        assert Intervals(p)[i].state == p.events[i - 1].state;
      }
    }
    DurationInAbsent(AutoOff, Intervals(p));
  }

  lemma {:induction false} DurationInAbsent(s: State, iv: seq<Interval>)
    requires forall i :: 0 <= i < |iv| ==> iv[i].state != s
    ensures DurationIn(s, iv) == 0
  {
    if iv != [] {
      DurationInAbsent(s, iv[1..]);
    }
  }

  /** The override only adds: savings are at least the time in intervals recorded as "auto-off". */
  lemma SavingsAtLeastRawAutoOff(p: Profile)
    requires WellFormedDay(p)
    ensures DurationIn(AutoOff, Intervals(p)) <= Savings(p)
  {
    RelabelledIntervals(p);
    IntervalsNonNegative(p);
    DurationInMonotone(AutoOff, Intervals(p), Intervals(Relabelled(p)));
  }

  /** The relabelled profile is still a well-formed day: only states change. */
  lemma RelabelledWellFormed(p: Profile)
    requires WellFormedDay(p)
    ensures WellFormedDay(Relabelled(p))
  {
    RelabelFromAt(p.initial, p.events);
  }

  /** Savings lie in [0, MaxInPeriod] for events ordered inside the day. */
  lemma SavingsBounded(p: Profile)
    requires WellFormedDay(p)
    ensures 0 <= Savings(p) <= MaxInPeriod
  {
    RelabelledWellFormed(p);
    IntervalsNonNegative(Relabelled(p));
    DurationInBounded(AutoOff, Intervals(Relabelled(p)));
    IntervalsCoverDay(Relabelled(p));
  }

  /** Every minute of the day is counted exactly once: as used (Part 1), as saved, or as
      manually off; relabelling never touches the "on" intervals. */
  lemma UsageSavingsPartition(p: Profile)
    ensures Usage(p) + Savings(p) + DurationIn(Off, Intervals(Relabelled(p))) == MaxInPeriod
  {
    RelabelledIntervals(p);
    DurationInSameLabels(On, Intervals(p), Intervals(Relabelled(p)));
    DurationPartition(Intervals(Relabelled(p)));
    IntervalsCoverDay(Relabelled(p));
  }

  /** The savings are the number of minutes the relabelled timeline spends in "auto-off". */
  lemma SavingsIsMinutesAutoOff(p: Profile)
    requires WellFormedDay(p)
    ensures Savings(p) == MinutesIn(AutoOff, Relabelled(p), 0, MaxInPeriod)
  {
    RelabelledWellFormed(p);
    IntervalsAreMinutes(AutoOff, Relabelled(p));
  }

  /** The override example: "auto-off" at 100, then "off" at 200 counted as "auto-off"
      to the end of the day: 100 + 1240 minutes. */
  lemma SavingsOfOverrideExample()
    ensures Savings(Profile(On, [Event(AutoOff, 100), Event(Off, 200)])) == 1340
  {
    var p := Profile(On, [Event(AutoOff, 100), Event(Off, 200)]);
    assert Relabelled(p).events == [Event(AutoOff, 100), Event(AutoOff, 200)];
    IntervalsAt(Relabelled(p));
    assert Intervals(Relabelled(p)) == [Interval(On, 100), Interval(AutoOff, 100), Interval(AutoOff, 1240)];
  }

  /** An "on" breaks the chain: the "off" at 300 follows the "on" at 200 and is not counted,
      so only 0 to 200 (initial "auto-off", then the relabelled "off") is saved. */
  lemma SavingsChainBrokenByOn()
    ensures Savings(Profile(AutoOff, [Event(Off, 100), Event(On, 200), Event(Off, 300)])) == 200
  {
    var p := Profile(AutoOff, [Event(Off, 100), Event(On, 200), Event(Off, 300)]);
    assert Relabelled(p).events == [Event(AutoOff, 100), Event(On, 200), Event(Off, 300)];
    IntervalsAt(Relabelled(p));
    assert Intervals(Relabelled(p))
      == [Interval(AutoOff, 100), Interval(AutoOff, 100), Interval(On, 100), Interval(Off, 1140)];
  }
}

/** The three calculators of index.js, written as the step-by-step code they are and
    proved against the specifications of Timeline, Savings and DaySlices. */
module Energy {
  import opened Types
  import opened Validation
  import opened Timeline
  import opened EnergySavings
  import opened DaySlices

  /** Part 1, calculateEnergyUsageSimple: the minutes the appliance is on during a day. */
  method CalculateEnergyUsageSimple(profile: Option<Profile>) returns (r: Result<int>)
    ensures profile.None? ==> r == Failure(InvalidProfile)
    ensures profile.Some? ==> r == Success(Usage(profile.value))
    ensures profile.Some? && profile.value.events == [] ==>
      r == Success(if profile.value.initial == On then MaxInPeriod else 0)
  {
    var check := ValidateDailyVariables(profile);
    if check.Fail? {
      return Failure(check.error);
    }
    var p := profile.value;
    if |p.events| == 0 {
      UsageNoEvents(p);
      if p.initial == On {
        return Success(MaxInPeriod);
      }
      return Success(0);
    }

    var eventsData := p.events;
    IntervalsAt(p);
    var energyEvents := [Interval(p.initial, eventsData[0].timestamp)];
    var x := 0;
    while x < |eventsData| - 1
      invariant 0 <= x <= |eventsData| - 1
      invariant energyEvents == Intervals(p)[..x + 1]
    {
      energyEvents := energyEvents
        + [Interval(eventsData[x].state, eventsData[x + 1].timestamp - eventsData[x].timestamp)];
      x := x + 1;
    }
    var last := eventsData[|eventsData| - 1];
    energyEvents := energyEvents + [Interval(last.state, MaxInPeriod - last.timestamp)];
    assert energyEvents == Intervals(p);
    // filter the "on" intervals and add up their durations
    r := Success(DurationIn(On, energyEvents));
  }

  /** Part 2, calculateEnergySavings: the minutes saved by the device's automatic shutoffs. */
  method CalculateEnergySavings(profile: Option<Profile>) returns (r: Result<int>)
    ensures profile.None? ==> r == Failure(InvalidProfile)
    ensures profile.Some? ==> r == Success(Savings(profile.value))
    ensures profile.Some? && profile.value.events == [] ==>
      r == Success(if profile.value.initial == AutoOff then MaxInPeriod else 0)
  {
    var check := ValidateDailyVariables(profile);
    if check.Fail? {
      return Failure(check.error);
    }
    var p := profile.value;
    var events := p.events;
    if |p.events| == 0 {
      SavingsNoEvents(p);
      if p.initial == On {
        return Success(0);
      } else if p.initial == Off {
        return Success(0);
      } else {
        return Success(MaxInPeriod);
      }
    }

    ghost var q := Relabelled(p);
    RelabelledIntervalStep(p, 0);
    var energyEvents := [Interval(p.initial, events[0].timestamp)];
    var x := 0;
    while x < |events| - 1
      invariant 0 <= x <= |events| - 1
      invariant energyEvents == Intervals(q)[..x + 1]
    {
      var eventState := events[x].state;
      // an "off" directly after an "auto-off" interval is counted as "auto-off"
      if energyEvents[|energyEvents| - 1].state == AutoOff && events[x].state == Off {
        eventState := AutoOff;
      }
      RelabelledIntervalStep(p, x);
      energyEvents := energyEvents + [Interval(eventState, events[x + 1].timestamp - events[x].timestamp)];
      assert Intervals(q)[..x + 2] == Intervals(q)[..x + 1] + [Intervals(q)[x + 1]];
      x := x + 1;
    }

    var n := |events|;
    var finalEventState := events[n - 1].state;
    if energyEvents[|energyEvents| - 1].state == AutoOff && events[n - 1].state == Off {
      finalEventState := AutoOff;
    }
    RelabelledIntervalStep(p, n - 1);
    energyEvents := energyEvents + [Interval(finalEventState, MaxInPeriod - events[n - 1].timestamp)];
    assert energyEvents == Intervals(q);
    // filter the "auto-off" intervals and add up their durations
    r := Success(DurationIn(AutoOff, energyEvents));
  }

  /** The list of day profiles that pushDayProfile appends to in place. */
  class DayProfileList {
    var profiles: seq<Profile>

    constructor ()
      ensures profiles == []
    {
      profiles := [];
    }
  }

  /** pushDayProfile: appends one day's profile to the list it is given. */
  method PushDayProfile(energyEventsByDay: DayProfileList, energyEvents: seq<Event>, initialEnergyState: State)
    modifies energyEventsByDay
    ensures energyEventsByDay.profiles == old(energyEventsByDay.profiles) + [Profile(initialEnergyState, energyEvents)]
  {
    energyEventsByDay.profiles := energyEventsByDay.profiles + [Profile(initialEnergyState, energyEvents)];
  }

  /** Part 3, calculateEnergyUsageForDay: the usage of one day (1-based) of a month profile. */
  method CalculateEnergyUsageForDay(month: Profile, day: real) returns (r: Result<int>)
    requires MonthOrdered(month)
    ensures ValidateMonthUsageVariables(day).Fail? ==> r == Failure(ValidateMonthUsageVariables(day).error)
    ensures ValidateMonthUsageVariables(day).Pass? ==> r == Success(DayUsage(month, day.Floor))
  {
    var check := ValidateMonthUsageVariables(day);
    if check.Fail? {
      return Failure(check.error);
    }
    AcceptedDayIsIndex(day);
    var d := day.Floor;

    var energyEventsByDay := new DayProfileList();
    var dailyEnergyEvents: seq<Event> := [];
    var initialDailyEnergyState := month.initial;
    var currentDay := 0;
    var monthlyEvents := month.events;

    if |monthlyEvents| == 0 {
      NoEventsDayUsage(month, d);
      r := CalculateEnergyUsageSimple(Some(Profile(initialDailyEnergyState, [])));
      return;
    } else if d > CeilDay(monthlyEvents[|monthlyEvents| - 1].timestamp) {
      AfterLastEventDayUsage(month, d);
      r := CalculateEnergyUsageSimple(Some(Profile(monthlyEvents[|monthlyEvents| - 1].state, [])));
      return;
    }

    var x := 0;
    SlicerStart(month);
    while x < |monthlyEvents|
      invariant 0 <= x <= |monthlyEvents|
      invariant x == 0 ==> currentDay == 0
      invariant x > 0 ==> currentDay == DayOf(monthlyEvents[x - 1].timestamp)
      invariant SlicerAt(month, x, currentDay, energyEventsByDay.profiles, dailyEnergyEvents, initialDailyEnergyState)
    {
      if x > 0 {
        DayOfMonotone(monthlyEvents[x - 1].timestamp, monthlyEvents[x].timestamp);
      }
      // the while loop closes the days that pass before event x, empty ones included
      while DayOf(monthlyEvents[x].timestamp) > currentDay
        invariant currentDay <= DayOf(monthlyEvents[x].timestamp)
        invariant SlicerAt(month, x, currentDay, energyEventsByDay.profiles, dailyEnergyEvents, initialDailyEnergyState)
        decreases DayOf(monthlyEvents[x].timestamp) - currentDay
      {
        SlicerCloseDay(month, x, currentDay, energyEventsByDay.profiles, dailyEnergyEvents, initialDailyEnergyState);
        ghost var closed := Profile(initialDailyEnergyState, dailyEnergyEvents);
        currentDay := currentDay + 1;
        PushDayProfile(energyEventsByDay, dailyEnergyEvents, initialDailyEnergyState);

        // the next day starts in the state of the latest event, or carries this day's over
        var latest := energyEventsByDay.profiles[|energyEventsByDay.profiles| - 1];
        assert latest == closed;
        if |dailyEnergyEvents| > 0 {
          initialDailyEnergyState := latest.events[|latest.events| - 1].state;
        } else {
          initialDailyEnergyState := latest.initial;
        }
        assert initialDailyEnergyState == CarryOver(closed);
        dailyEnergyEvents := [];
      }
      SlicerTakeEvent(month, x, currentDay, energyEventsByDay.profiles, dailyEnergyEvents, initialDailyEnergyState);
      dailyEnergyEvents := dailyEnergyEvents
        + [Event(monthlyEvents[x].state, monthlyEvents[x].timestamp % MaxInPeriod)];
      x := x + 1;
    }

    // push the last day, the one of the final event
    SlicerFinish(month, currentDay, energyEventsByDay.profiles, dailyEnergyEvents, initialDailyEnergyState);
    PushDayProfile(energyEventsByDay, dailyEnergyEvents, initialDailyEnergyState);

    DayRounding(monthlyEvents[|monthlyEvents| - 1].timestamp);
    SlicedDayUsage(month, energyEventsByDay.profiles, currentDay + 1, d);
    r := CalculateEnergyUsageSimple(Some(energyEventsByDay.profiles[d - 1]));
  }
}

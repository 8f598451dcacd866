/** Data carriers shared by the energy calculators: appliance states, state-change
    events, derived intervals, profiles, and the three error kinds. */
module Types {

  /** The number of minutes in one period (a day). */
  const MaxInPeriod: int := 1440

  /** The closed set of appliance states: "on", "off" (manual) and "auto-off" (device). */
  datatype State = On | Off | AutoOff

  /** A state change at a timestamp, in minutes (EnergyEventInProfileFormat). */
  datatype Event = Event(state: State, timestamp: int)

  /** A derived interval: a state held for a number of minutes (EnergyEvent). */
  datatype Interval = Interval(state: State, duration: int)

  /** The state in effect at minute 0 plus the ordered state changes of the window. */
  datatype Profile = Profile(initial: State, events: seq<Event>)

  /** The three errors the library throws. */
  datatype Error = InvalidProfile | NonIntegerDay | DayOutOfRange

  datatype Option<T> = None | Some(value: T)

  datatype Result<T> = Success(value: T) | Failure(error: Error)

  /** The outcome of a validation that returns nothing or throws. */
  datatype Outcome = Pass | Fail(error: Error)

  /** The last element of a non-empty sequence of events. */
  function Last(events: seq<Event>): Event
    requires events != []
  {
    events[|events| - 1]
  }

  predicate NonNegative(events: seq<Event>)
  {
    forall i :: 0 <= i < |events| ==> 0 <= events[i].timestamp
  }

  predicate NonDecreasing(events: seq<Event>)
  {
    forall i, j :: 0 <= i < j < |events| ==> events[i].timestamp <= events[j].timestamp
  }

  predicate StrictlyIncreasing(events: seq<Event>)
  {
    forall i, j :: 0 <= i < j < |events| ==> events[i].timestamp < events[j].timestamp
  }

  /** Every timestamp lies in [0, MaxInPeriod]. */
  predicate WithinDay(events: seq<Event>)
  {
    forall i :: 0 <= i < |events| ==> 0 <= events[i].timestamp <= MaxInPeriod
  }

  /** A single-day profile whose events arrive in order inside the day. */
  predicate WellFormedDay(p: Profile)
  {
    NonDecreasing(p.events) && WithinDay(p.events)
  }
}

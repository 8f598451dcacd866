# Appliance energy usage, modelled in Dafny

This project models a small JavaScript library that works out how long an appliance
spent in a given state. Its input is a profile: an initial state plus an ordered list of
`(state, timestamp)` change events, with timestamps in minutes. The library has four
parts:

- **Daily usage** (`calculateEnergyUsageSimple`). It cuts the day into intervals and
  returns the minutes spent "on". The intervals run from minute 0 to the first event,
  from event to event, and from the last event to minute 1440.
- **Daily savings** (`calculateEnergySavings`). It builds the same intervals, then relabels
  a manual "off" interval as "auto-off" whenever the interval before it is "auto-off". It
  returns the minutes spent "auto-off".
- **Day slicer** (`calculateEnergyUsageForDay`, `pushDayProfile`). It validates the day
  number first. It then splits a month of events into per-day profiles: each timestamp
  is rebased with `% 1440`, and each day starts in the state the previous day ended in.
  It returns the usage of the requested day.
- **Validation and the event normaliser.** Validation rejects an absent profile and
  checks the day number: first that it is an integer, then that it is in 1 to 365. The
  normaliser (`cleanEvents`) drops every event that is not later than its raw
  predecessor. The library exports it, but the calculators never call it.

Files:

- `types.dfy`: the data carriers. These are states, events
  (`EnergyEventInProfileFormat`), intervals (`EnergyEvent`), profiles, the three error
  kinds and the constant `MaxInPeriod = 1440`.
- `validation.dfy`: `validation/index.js`, as pure functions.
- `clean_events.dfy`: `helpers/cleanEvents/index.js`. The loop method is proved equal to
  a recursive specification. Lemmas give that specification's meaning.
- `timeline.dfy`: the interval construction and its sums. It also defines a
  minute-by-minute reference: `StateAt` gives the state at a minute, and `MinutesIn`
  counts the minutes spent in a state. The intervals are proved to measure exactly those
  minutes.
- `savings.dfy`: the relabelling fold, and what it means.
- `day_slices.dfy`: what the slicer builds, with each day profile defined by its own
  function. Lemmas show that the usage of a day profile equals the minutes "on" during
  that day of the month's timeline.
- `energy.dfy`: the four functions of `index.js` as imperative methods. Each shows the
  loops and array pushes of the source, with loop invariants. The `ensures` clauses tie
  each method to the specifications above. `pushDayProfile` changes, in place,
  the list it is given. That list is a small class with a `seq` field.

What must be true of the input:

- The usage and savings methods accept any integer timestamps, as the source does.
- The bounds lemmas and the minute-count lemmas need a well-formed day: non-decreasing
  timestamps in `[0, 1440]`.
- The slicer requires non-negative, non-decreasing timestamps. Under that condition, the
  day's result is exactly the number of minutes "on" in
  `[1440 * (day - 1), 1440 * day)` of the month's timeline.

Two consequences of the code that are easy to miss:

- **Usage of the doc-comment profile.** The profile in the doc comment of
  `calculateEnergyUsageSimple` starts "on", with events off@50, on@304 and off@600. It
  uses 346 minutes: 50, plus 296 from 304 to 600 (`Timeline.UsageOfDocumentedProfile`).
- **Which event `cleanEvents` compares against.** Each event is compared with its raw
  predecessor `events[x - 1]`, not with the last event kept. So cleaning twice equals
  cleaning once only for non-decreasing input: `[5, 3, 4]` cleans to `[5, 4]`, and
  `[5, 4]` cleans to `[5]` (`EventNormalizer.CleanedNotIdempotentInGeneral`).

## Model

| member | source | states |
|---|---|---|
| Energy.CalculateEnergyUsageSimple | index.js:47-95 | An absent profile gives the invalid-profile error. With no events the result is 1440 for "on" and 0 otherwise. Otherwise the loop builds exactly `Intervals(p)` and returns the total of its "on" intervals, `Usage(p)` |
| Timeline.IntervalsAt | index.js:59-84 | There are one more intervals than events: (initial, first timestamp), then (state of event k, next timestamp minus its own), then (last state, 1440 minus the last timestamp) |
| Timeline.IntervalsCoverDay | index.js:63-84 | For any events, the interval durations telescope to exactly 1440 |
| Timeline.UsageNoEvents | index.js:52-57 | With no events, usage is 1440 when the initial state is "on" and 0 otherwise |
| Timeline.UsageBounded | index.js:86-94 | For a well-formed day, usage lies in [0, 1440] |
| Timeline.UsageIsMinutesOn | index.js:20-29 | For a well-formed day, usage equals the number of minutes t in [0, 1440) at which the appliance is "on" |
| Timeline.SegmentsAreMinutes | index.js:63-94 | The duration of the intervals in any state s, counted from minute `from` on, equals the minutes the timeline spends in s from `from` to the end of the day |
| Timeline.UsageOfDocumentedProfile | index.js:35-45 | The doc-comment profile uses 346 minutes |
| Energy.CalculateEnergySavings | index.js:129-195 | An absent profile gives the invalid-profile error. With no events the result is 1440 for "auto-off" and 0 for "on" and "off". Otherwise the loop, with its override, builds exactly the intervals of `Relabelled(p)` and returns their "auto-off" total, `Savings(p)` |
| EnergySavings.SavingsNoEvents | index.js:135-144 | With no events, savings are 1440 when the initial state is "auto-off" and 0 otherwise |
| EnergySavings.RelabelledIntervalStep | index.js:155-183 | Each loop interval, and the final boundary interval, takes its event's state, except that "off" becomes "auto-off" when the interval before it (already relabelled) is "auto-off" |
| EnergySavings.RelabelledState | index.js:156-164 | An event's label is its state, except that an "off" counts as "auto-off" when the latest earlier change that is not "off" is "auto-off" (or, with none, the initial state is). So the override chains through consecutive "off" events, and an "on" breaks the chain |
| EnergySavings.SavingsWithoutAutoOff | index.js:185-192 | When neither the initial state nor any event is "auto-off", savings are 0 |
| EnergySavings.SavingsAtLeastRawAutoOff | index.js:159-192 | For a well-formed day, savings are at least the total of the intervals recorded as "auto-off" |
| EnergySavings.SavingsBounded | index.js:159-192 | For a well-formed day, savings lie in [0, 1440] |
| EnergySavings.UsageSavingsPartition | index.js:146-192 | Usage, savings and the time counted as manually "off" add up to exactly 1440, because relabelling never touches an "on" interval |
| EnergySavings.SavingsIsMinutesAutoOff | index.js:119-126 | For a well-formed day, savings equal the minutes the relabelled timeline spends "auto-off" |
| EnergySavings.SavingsOfOverrideExample | index.js:158-178 | For initial "on" with events auto-off@100 and off@200, savings are 100 + 1240 = 1340 |
| EnergySavings.SavingsChainBrokenByOn | index.js:155-168 | For initial "auto-off" with events off@100, on@200 and off@300, the off@300 is not relabelled, so savings are 200 |
| Energy.PushDayProfile | index.js:223-232 | Appends `{initial, events}` to the list it is given, in place, and changes nothing else |
| Energy.CalculateEnergyUsageForDay | index.js:234-305 | The day is validated first, and its error is returned unchanged. A valid day returns the number of minutes "on" during that day (1-based) of the month's timeline. This covers both early exits and the path through the loops, which build the day profiles in order and read profile `day - 1` |
| DaySlices.NoEventsDayUsage | index.js:245-249 | With no month events, every day's minutes "on" are 1440 or 0, by the initial state |
| DaySlices.AfterLastEventDayUsage | index.js:250-258 | Every day after `ceil(lastTs / 1440)` is wholly in the last event's state |
| DaySlices.DayRounding | index.js:252-264 | For non-negative timestamps, `DayOf` is `floor(ts / 1440)`, `CeilDay` is `ceil(ts / 1440)`, and the ceiling is at most the floor plus one. So `day - 1` is a valid profile index once the early exit has been passed |
| DaySlices.DayEventsOrdered | index.js:287-292 | A day's rebased events keep their order, and their timestamps lie in [0, 1440) |
| DaySlices.DayEventsBlock | index.js:261-293 | When `events[i..j]` are exactly the events on day k, day k's profile holds that block, in order, rebased with `% 1440` |
| DaySlices.SlicerCloseDay | index.js:263-286 | Closing day k when the next event lies on a later day pushes exactly day k's profile. Day k + 1 then opens with no events, in the state of day k's last event, or in day k's initial state when day k had none |
| DaySlices.SlicerTakeEvent | index.js:287-292 | Reading an event of the open day appends it, rebased with `% 1440`, to what that day has gathered; the built days stay unchanged |
| DaySlices.SlicedDayUsage | index.js:297-304 | Once days 0 to n - 1 are built, profile `d - 1` for 1 <= d <= n is day d's slice, and its usage is day d's minutes "on" |
| DaySlices.DayInitialCarriesOver | index.js:240-283 | Day 0 starts in the month's initial state. Day k+1 starts in the state of day k's last event, or in day k's initial state when day k had no events |
| DaySlices.SliceStateAt | index.js:261-296 | At minute t of day k's profile, the state is the month timeline's state at minute 1440k + t |
| DaySlices.SliceUsage | index.js:303-304 | The usage of day k's profile equals the minutes "on" during day k+1 (1-based) of the month |
| DaySlices.SlicerExampleFirstDay | index.js:234-305 | For initial "on" and one event off@2000, day 1 is "on" for all 1440 minutes |
| DaySlices.SlicerExampleSecondDay | index.js:234-305 | For the same month, day 2 is "on" for 560 minutes (2000 % 1440) |
| DaySlices.SlicerExampleThirdDay | index.js:250-258 | For the same month, day 3, after the last event, is "on" for 0 minutes |
| Validation.IsInteger | validation/index.js:1 | A day counts as an integer exactly when some int denotes it (Number.isInteger on an exact real) |
| Validation.ValidateDailyVariables | validation/index.js:3-7 | Fails with the invalid-profile error exactly when the profile is absent |
| Validation.ValidateMonthUsageVariables | validation/index.js:9-16 | A non-integer day gives the non-integer error. An integer outside [1, 365] gives the out-of-range error. Every other day passes |
| Validation.AcceptedDayIsIndex | validation/index.js:9-16 | A day that passes validation is an integer in [1, 365] |
| Validation.AcceptsExactlyDaysOfYear | validation/index.js:12-15 | An integer n passes exactly when 1 <= n <= 365 |
| Validation.IntegerCheckBeforeRangeCheck | validation/index.js:10-13 | 400.5 and 3.5 give the non-integer error, and 400 gives the out-of-range error |
| Validation.RangeBoundaries | validation/index.js:12-15 | 0 and 366 are rejected, and 1 and 365 are accepted |
| EventNormalizer.CleanEvents | helpers/cleanEvents/index.js:1-10 | The loop returns exactly `Cleaned(events)`. It builds a new sequence, and the input is left unchanged |
| EventNormalizer.Cleaned | helpers/cleanEvents/index.js:2-3 | The output starts with `events[0]` and has between 1 and `\|events\|` elements |
| EventNormalizer.SurvivorsAtKeptIndices | helpers/cleanEvents/index.js:4-8 | The output after the first element is the input read at the kept indices, in order |
| EventNormalizer.KeptIndicesIncrease | helpers/cleanEvents/index.js:4-8 | The kept indices increase strictly and are in range, so the output is an order-preserving subsequence |
| EventNormalizer.KeptIndicesAreKept | helpers/cleanEvents/index.js:5-6 | An index x >= 1 is kept exactly when `events[x].timestamp > events[x - 1].timestamp`, comparing with the raw predecessor |
| EventNormalizer.CleanedStrictlyIncreasing | helpers/cleanEvents/index.js:4-8 | A strictly increasing input is returned unchanged |
| EventNormalizer.CleanedNonDecreasing | helpers/cleanEvents/index.js:4-8 | For non-decreasing input, an event is dropped exactly when it repeats the previous timestamp, and the output is strictly increasing |
| EventNormalizer.CleanedIdempotent | helpers/cleanEvents/index.js:4-8 | For non-decreasing input, cleaning twice equals cleaning once |
| EventNormalizer.CleanedNotIdempotentInGeneral | helpers/cleanEvents/index.js:5-6 | `[5, 3, 4]` cleans to `[5, 4]`, and that cleans to `[5]` |

## Left out

- JavaScript's dynamic typing: the profile argument of Parts 1 and 2 is an `Option`, and every other input has a fixed type. Truthiness beyond absent/present is not modelled.
- Floating point: the day number is an exact `real`, and "is an integer" means "equals its floor". IEEE doubles and `Number.isInteger` are not modelled, and timestamps are integers.
- Unknown state strings: states form a closed three-valued enumeration. Part 1 treats every state other than "on" as not on.
- Error message text: the three thrown errors are the variants of a datatype, returned through a `Result`.
- CalculateEnergyUsageForDay: requires non-negative, non-decreasing timestamps. The source accepts other input, putting an event that belongs to an earlier day into the current bucket, and JavaScript's `%` gives negative values for negative timestamps. That behaviour is not modelled.
- CalculateEnergyUsageForDay: takes the month profile as a plain value. The source never validates it, and an absent month profile makes JavaScript throw a TypeError, which is not modelled.
- CleanEvents: requires a non-empty input. For an empty input, the source returns `[undefined]`.
- The updates of `initialDailyEnergyState` and `currentDay` after the final push (index.js:297-301) are never read again, so they are left out.
- Each day's event array is pushed by reference and then replaced by a fresh array, never mutated again. Sequences capture this as values, so no aliasing is modelled.
- The bodies of `types/EnergyEvent` and `types/EnergyEventInProfileFormat` are not part of this model. They are treated as plain carriers, the datatypes `Interval` and `Event`.
- The `require` wiring and `module.exports` are left out. `cleanEvents` is not imported by `index.js`, and the model's calculators do not call it either.

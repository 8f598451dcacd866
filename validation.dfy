/** Argument checks that run before the calculators (validation/index.js). */
module Validation {
  import opened Types

  /** The real number an integer denotes. */
  function AsReal(n: int): real
  {
    n as real
  }

  /** isInteger on an exact real: it holds exactly for the reals that some int denotes. */
  predicate IsInteger(d: real): (b: bool)
    ensures b <==> exists n: int :: AsReal(n) == d
  {
    assert AsReal(d.Floor) == d.Floor as real;
    d.Floor as real == d
  }

  /** Rejects an absent profile; a present one passes with no effect. */
  function ValidateDailyVariables(profile: Option<Profile>): (r: Outcome)
    ensures r.Fail? <==> profile.None?
    ensures r.Fail? ==> r.error == InvalidProfile
  {
    if profile.None? then Fail(InvalidProfile) else Pass
  }

  /** Checks the day number: first that it is an integer, then that it lies in [1, 365]. */
  function ValidateMonthUsageVariables(day: real): (r: Outcome)
    ensures r == Fail(NonIntegerDay) <==> !IsInteger(day)
    ensures r == Fail(DayOutOfRange) <==> IsInteger(day) && (day < 1.0 || 365.0 < day)
    ensures r == Pass <==> IsInteger(day) && 1.0 <= day <= 365.0
  {
    if !IsInteger(day) then Fail(NonIntegerDay)
    else if day < 1.0 || day > 365.0 then Fail(DayOutOfRange)
    else Pass
  }

  /** A day that passes validation is an integer in [1, 365], usable as a 1-based index. */
  lemma AcceptedDayIsIndex(day: real)
    requires ValidateMonthUsageVariables(day) == Pass
    ensures 1 <= day.Floor <= 365 && day.Floor as real == day
  {
  }

  /** Exactly the integers 1 to 365 pass. */
  lemma AcceptsExactlyDaysOfYear(n: int)
    ensures ValidateMonthUsageVariables(n as real) == Pass <==> 1 <= n <= 365
  {
  }

  /** The integer check comes first: 400.5 is out of range but reported as a non-integer. */
  lemma IntegerCheckBeforeRangeCheck()
    ensures ValidateMonthUsageVariables(400.5) == Fail(NonIntegerDay)
    ensures ValidateMonthUsageVariables(3.5) == Fail(NonIntegerDay)
    ensures ValidateMonthUsageVariables(400.0) == Fail(DayOutOfRange)
  {
  }

  /** The boundaries: 0 and 366 are rejected, 1 and 365 accepted. */
  lemma RangeBoundaries()
    ensures ValidateMonthUsageVariables(0.0) == Fail(DayOutOfRange)
    ensures ValidateMonthUsageVariables(366.0) == Fail(DayOutOfRange)
    ensures ValidateMonthUsageVariables(1.0) == Pass
    ensures ValidateMonthUsageVariables(365.0) == Pass
  {
  }
}

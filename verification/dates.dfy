/** Entry dates are instants in milliseconds since the epoch. The two date
    inputs of the program show an instant as a local calendar day
    (`format(date, 'yyyy-MM-dd')` from date-fns works in local time) and
    turn the day back into an instant with `new Date('yyyy-MM-dd')`, which
    ECMAScript reads as midnight UTC. The local time zone is a fixed offset,
    in milliseconds east of UTC. */
module Dates {

  const DayMs: int := 86_400_000

  /** The local calendar day (days since 1970-01-01) an instant falls on. */
  function LocalDay(t: int, offset: int): (d: int)
    ensures d * DayMs <= t + offset < (d + 1) * DayMs
  {
    (t + offset) / DayMs
  }

  /** `new Date(day)` for a date-only string: midnight UTC of the day. */
  function DayStartUtc(day: int): (t: int)
    ensures t % DayMs == 0
  {
    day * DayMs
  }

  /** Local midnight of the day: the instant the program means by the day. */
  function DayStartLocal(day: int, offset: int): (t: int)
    ensures LocalDay(t, offset) == day
  {
    day * DayMs - offset
  }

  /** With the local start of the day the round trip day -> instant -> day
      is the identity in every time zone. */
  lemma LocalRoundTrip(day: int, offset: int)
    ensures LocalDay(DayStartLocal(day, offset), offset) == day
  {
  }

  /** With midnight UTC the round trip goes back one day in every time zone
      west of UTC. */
  lemma {:induction false} UtcRoundTripWest(day: int, offset: int)
    requires -DayMs < offset < 0
    ensures LocalDay(DayStartUtc(day), offset) == day - 1
  {
    assert day * DayMs + offset == (day - 1) * DayMs + (DayMs + offset);
    assert (day * DayMs + offset) / DayMs == day - 1;
  }

  /** East of UTC (and at UTC) midnight UTC is still on the same local day. */
  lemma {:induction false} UtcRoundTripEast(day: int, offset: int)
    requires 0 <= offset < DayMs
    ensures LocalDay(DayStartUtc(day), offset) == day
  {
    assert (day * DayMs + offset) / DayMs == day;
  }
}

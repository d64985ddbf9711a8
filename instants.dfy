/** Instants as the server computes them. A calendar date is a day number and
    an instant is a count of milliseconds; `new Date(date)` is the start of the
    day and `setHours(h, m, s, ms)` adds the time of day to it. */
module Instants {
  import opened Wrappers
  import opened JsText

  const SECOND_MS: int := 1000
  const DAY_MS: int := 86_400_000

  /** The first millisecond of day `day`. */
  function DayStart(day: int): int { day * DAY_MS }

  /** A Date holds at most 8.64e15 milliseconds either side of the epoch
      (100 000 000 days); past that, `setHours` leaves an invalid Date. */
  const MAX_TIME_MS: int := 8_640_000_000_000_000

  /** ECMAScript's TimeClip on a whole number of milliseconds: None (NaN) out
      of range. Every value in range is below 2^53, so the floating-point
      arithmetic of `setHours` on whole fields is exact wherever the result
      is valid. */
  function TimeClip(t: int): (r: Option<int>)
    ensures r.Some? <==> -MAX_TIME_MS <= t <= MAX_TIME_MS
    ensures r.Some? ==> r.value == t
  {
    if -MAX_TIME_MS <= t <= MAX_TIME_MS then Some(t) else None
  }

  /** `const [h, m, s] = t.split(":").map(Number)` followed by
      `setHours(h, m, s, 0)`, as an offset from the start of the day. A part
      that is not a number, or a missing part (fewer than three pieces), makes
      the date invalid (None). Hours past 23 roll over into the next days, as
      `setHours` does. */
  function TimeOfDayMs(t: string): (r: Option<int>)
    ensures r.Some? ==> r.value >= 0
    ensures |Split(t, ':')| < 3 ==> r.None?
  {
    var parts := Split(t, ':');
    if |parts| < 3 then None
    else
      match (NumberOf(parts[0]), NumberOf(parts[1]), NumberOf(parts[2]))
      case (Some(h), Some(m), Some(s)) => Some((h * 3600 + m * 60 + s) * SECOND_MS)
      case _ => None
  }

  /** A well-formed `HH:MM:SS` text is read back as its hours, minutes and
      seconds. */
  lemma TimeOfDayOfClockText(h: nat, m: nat, s: nat)
    ensures TimeOfDayMs(TwoDigits(h) + ":" + TwoDigits(m) + ":" + TwoDigits(s))
         == Some((h * 3600 + m * 60 + s) * SECOND_MS)
  {
    NumberOfTwoDigits(h);
    NumberOfTwoDigits(m);
    NumberOfTwoDigits(s);
    SplitThree(TwoDigits(h), TwoDigits(m), TwoDigits(s));
  }

  /** A time without its seconds (`HH:MM`) fails closed: `s` is undefined, so
      the date is invalid. */
  lemma TimeWithoutSecondsIsInvalid(a: string, b: string)
    requires ':' !in a && ':' !in b
    ensures TimeOfDayMs(a + ":" + b) == None
  {
    SplitWhole(b, ':');
    SplitCons(a, ':', b);
    assert a + ":" + b == a + [':'] + b;
  }
}

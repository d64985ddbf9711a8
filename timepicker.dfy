/** The time picker (src/app/timepicker/TimePicker.tsx): it shows a 24-hour
    `HH:MM:SS` value as a 12-hour clock with AM/PM, and writes the 24-hour text
    back to its parent whenever a field changes. */
module TimePicker {
  import opened Wrappers
  import opened JsText
  import opened Instants

  datatype Period = AM | PM

  /** The 24-hour to 12-hour step of the init effect: from 12 up the period is
      PM and 12 is taken off hours past 12; below 12 it is AM and 0 reads 12. */
  function TwelveHour(h: int): (r: (int, Period))
    ensures r.1 == PM <==> h >= 12
    ensures 0 <= h <= 23 ==> 1 <= r.0 <= 12
    ensures r.0 == h || r.0 == h - 12 || (h == 0 && r.0 == 12)
  {
    if h >= 12 then (if h > 12 then h - 12 else h, PM)
    else (if h == 0 then 12 else h, AM)
  }

  /** The 12-hour to 24-hour step of the update effect: PM adds 12 below 12,
      and 12 AM is hour 0. */
  function TwentyFourHour(hour: int, p: Period): (h: int)
    ensures 1 <= hour <= 12 ==> 0 <= h <= 23
    ensures 1 <= hour <= 12 && p == AM ==> h < 12
    ensures 1 <= hour <= 12 && p == PM ==> h >= 12
    ensures h == hour || h == hour + 12 || (hour == 12 && h == 0)
  {
    if p == PM && hour < 12 then hour + 12
    else if p == AM && hour == 12 then 0
    else hour
  }

  /** Every hour of the day survives the trip to the 12-hour clock and back. */
  lemma TwentyFourOfTwelve(h: int)
    requires 0 <= h <= 23
    ensures TwentyFourHour(TwelveHour(h).0, TwelveHour(h).1) == h
  {
  }

  /** Every 12-hour reading survives the trip to the 24-hour clock and back. */
  lemma TwelveOfTwentyFour(hour: int, p: Period)
    requires 1 <= hour <= 12
    ensures TwelveHour(TwentyFourHour(hour, p)) == (hour, p)
  {
  }

  /** The picker's four pieces of state; `minutes` is `undefined` (None) when
      the initial value held no ':'. */
  datatype Fields = Fields(hours: string, minutes: Option<string>, seconds: string, period: Period)

  /** What `new Date()` reports when the picker starts without a value. */
  datatype ClockReading = ClockReading(hours: nat, minutes: nat, seconds: nat)

  /** The init effect, from `value` when it is not empty and from the clock
      otherwise. An hour that `parseInt` cannot read stays NaN, with period AM.
      A missing or empty seconds part becomes "00". */
  function InitialFields(value: string, clock: ClockReading): Fields
  {
    if value != "" then
      var parts := Split(value, ':');
      var hourNum := ParseInt(parts[0]);
      var hour12: Option<int> := if hourNum.Some? then Some(TwelveHour(hourNum.value).0) else None;
      var period := if hourNum.Some? then TwelveHour(hourNum.value).1 else AM;
      var minutes := if |parts| > 1 then Some(parts[1]) else None;
      var seconds := if |parts| > 2 && parts[2] != "" then parts[2] else "00";
      Fields(PadStart2(NumberToString(hour12)), minutes, seconds, period)
    else
      var (hour12, period) := TwelveHour(clock.hours);
      Fields(PadStart2(IntToString(hour12)), Some(TwoDigits(clock.minutes)), TwoDigits(clock.seconds), period)
  }

  /** A template literal renders `undefined` as the text "undefined". */
  function Show(x: Option<string>): string
  {
    if x.Some? then x.value else "undefined"
  }

  /** The text the update effect passes to `onChange`. */
  function Compose(f: Fields): string
  {
    var hourNum := ParseInt(f.hours);
    var hour24: Option<int> := if hourNum.Some? then Some(TwentyFourHour(hourNum.value, f.period)) else None;
    PadStart2(NumberToString(hour24)) + ":" + Show(f.minutes) + ":" + f.seconds
  }

  /** Whatever 12-hour reading the selects hold, the output is the two-digit
      24-hour hour, then the minutes and seconds as they are. */
  lemma ComposeOfSelection(hour: nat, minutes: string, seconds: string, p: Period)
    requires 1 <= hour <= 12
    ensures Compose(Fields(TwoDigits(hour), Some(minutes), seconds, p))
         == TwoDigits(TwentyFourHour(hour, p)) + ":" + minutes + ":" + seconds
    ensures |TwoDigits(TwentyFourHour(hour, p))| == 2
  {
    ParseIntOfPadded(hour);
  }

  /** An `HH:MM:SS` value, with HH from 00 to 23, goes through the picker
      unchanged: initialising from it and composing gives it back. */
  lemma ValueRoundTrip(h: nat, minutes: string, seconds: string, clock: ClockReading)
    requires h <= 23 && ':' !in minutes && ':' !in seconds && seconds != ""
    ensures Compose(InitialFields(TwoDigits(h) + ":" + minutes + ":" + seconds, clock))
         == TwoDigits(h) + ":" + minutes + ":" + seconds
  {
    var hh := TwoDigits(h);
    var value := hh + ":" + minutes + ":" + seconds;
    NumberOfTwoDigits(h);
    SplitThree(hh, minutes, seconds);
    ParseIntOfPadded(h);
    var (hour12, p) := TwelveHour(h);
    ParseIntOfPadded(hour12);
    assert InitialFields(value, clock) == Fields(TwoDigits(hour12), Some(minutes), seconds, p);
    ComposeOfSelection(hour12, minutes, seconds, p);
  }

  /** A value without seconds starts the seconds select at "00". */
  lemma MissingSecondsDefault(hh: string, minutes: string, clock: ClockReading)
    requires hh != "" && ':' !in hh && ':' !in minutes
    ensures InitialFields(hh + ":" + minutes, clock).seconds == "00"
    ensures InitialFields(hh + ":" + minutes, clock).minutes == Some(minutes)
  {
    SplitWhole(minutes, ':');
    SplitCons(hh, ':', minutes);
    assert hh + ":" + minutes == hh + [':'] + minutes;
  }

  /** What the picker hands its parent is what the server reads: composed from
      the selects, the text parses to that time of day on the 24-hour clock. */
  lemma ServerReadsComposedTime(hour: nat, m: nat, s: nat, p: Period)
    requires 1 <= hour <= 12
    ensures TimeOfDayMs(Compose(Fields(TwoDigits(hour), Some(TwoDigits(m)), TwoDigits(s), p)))
         == Some((TwentyFourHour(hour, p) * 3600 + m * 60 + s) * SECOND_MS)
  {
    ComposeOfSelection(hour, TwoDigits(m), TwoDigits(s), p);
    TimeOfDayOfClockText(TwentyFourHour(hour, p), m, s);
  }

  /** The picker component: its select fields and the `initialized` flag. */
  class Picker {
    var fields: Fields
    var initialized: bool

    constructor ()
      ensures fields == Fields("12", Some("00"), "00", AM) && !initialized
    {
      fields := Fields("12", Some("00"), "00", AM);
      initialized := false;
    }

    /** The init effect: it runs once; later calls change nothing. */
    method Initialize(value: string, clock: ClockReading)
      modifies this
      ensures old(initialized) ==> fields == old(fields)
      ensures !old(initialized) ==> fields == InitialFields(value, clock)
      ensures initialized
    {
      if initialized {
        return;
      }
      initialized := true;
      fields := InitialFields(value, clock);
    }
  }
}

/** The scheduling form (src/app/schedule/page.tsx): track durations, the song,
    weekday and month-date pickers, deleting a track, and the submit that
    validates the form, posts it and clears it. */
module ScheduleForm {
  import opened Wrappers
  import opened JsText
  import opened Songs
  import opened Schedules
  import opened Toggles

  /** A JavaScript number that may be `undefined` or NaN. */
  datatype JsNumber = Undefined | NaN | Finite(x: real)

  /** `!seconds || isNaN(seconds)`. */
  predicate NoDuration(seconds: JsNumber)
  {
    seconds.Undefined? || seconds.NaN? || seconds == Finite(0.0)
  }

  /** `Math.trunc`. */
  function Trunc(r: real): int
  {
    if r >= 0.0 then r.Floor else -((-r).Floor)
  }

  /** The JavaScript remainder `x % d` on numbers: it keeps the sign of `x`. */
  function RealRem(x: real, d: real): real
    requires d != 0.0
  {
    x - (Trunc(x / d) as real) * d
  }

  /** `formatDuration(seconds)`: "N/A" when there is no duration, otherwise
      whole minutes, a colon and the whole seconds past the minute padded to
      two characters. */
  function FormatDuration(seconds: JsNumber): (r: string)
    ensures r == "N/A" <==> NoDuration(seconds)
  {
    if NoDuration(seconds) then "N/A"
    else
      var minutes := IntToString((seconds.x / 60.0).Floor);
      var secs := PadStart2(IntToString(RealRem(seconds.x, 60.0).Floor));
      var r := minutes + ":" + secs;
      assert r[|minutes|] == ':';
      assert ':' !in "N/A";
      r
  }

  /** On any positive duration the text is the whole minutes, then the whole
      seconds past the minute as two digits. */
  lemma FormatPositive(x: real)
    requires x > 0.0
    ensures FormatDuration(Finite(x)) == NatToString(x.Floor / 60) + ":" + TwoDigits(x.Floor % 60)
  {
    var n := x.Floor;
    var q, r := n / 60, n % 60;
    var f := x - n as real;
    assert 0.0 <= f < 1.0;
    assert n == 60 * q + r && 0 <= r < 60;
    assert x / 60.0 == q as real + (r as real + f) / 60.0;
    assert 0.0 <= (r as real + f) / 60.0 < 1.0;
    assert (x / 60.0).Floor == q;
    assert Trunc(x / 60.0) == q;
    assert RealRem(x, 60.0) == r as real + f;
    assert RealRem(x, 60.0).Floor == r;
  }

  /** Two minutes and five seconds read "2:05". */
  lemma FormatTwoMinutesFive()
    ensures FormatDuration(Finite(125.0)) == "2:05"
  {
    FormatPositive(125.0);
    assert (125.0).Floor == 125;
    assert 125 / 60 == 2 && 125 % 60 == 5;
    assert NatToString(2) == [DigitChar(2)] == "2";
    assert NatToString(5) == [DigitChar(5)] == "5";
    assert TwoDigits(5) == "0" + "5" == "05";
    assert "2" + ":" + "05" == "2:05";
  }

  /** The weekday choices of the repeat dialog. */
  const WEEKDAY_OPTIONS: seq<string> := ["Mon", "Tue", "Wed", "Thu", "Fri", "Sat", "Sun"]

  /** `[...Array(31)].map((_, i) => i + 1)`: the month-date choices, in
      ascending order. */
  function MonthDateOptions(): (r: seq<int>)
    ensures |r| == 31
    ensures forall i, j :: 0 <= i < j < |r| ==> r[i] < r[j]
  {
    seq(31, i => i + 1)
  }

  /** The month-date choices are exactly the days 1 to 31. */
  lemma MonthDateOptionsAreDays()
    ensures forall d :: d in MonthDateOptions() <==> 1 <= d <= 31
  {
    var r := MonthDateOptions();
    forall d | 1 <= d <= 31 ensures d in r {
      assert r[d - 1] == d;
    }
  }

  /** The fields of the form that the submit reads and clears. `startDate`
      and `endDate` are the picked days, None until one is picked. */
  datatype FormFields = FormFields(
    name: string, startDate: Option<int>, endDate: Option<int>,
    startTime: string, endTime: string, songs: seq<Song>,
    repeat: RepeatType, days: seq<string>, dates: seq<int>)

  /** The form as it starts and as a successful save leaves it. */
  const EMPTY_FORM: FormFields := FormFields("", None, None, "", "", [], NoRepeat, [], [])

  /** The submit guard: a name, both dates, both times and at least one song. */
  predicate FormComplete(f: FormFields)
  {
    f.name != "" && f.startDate.Some? && f.endDate.Some? && f.startTime != "" && f.endTime != "" && f.songs != []
  }

  /** `schedulePayload`, the body posted to `/schedules`. The songs go under
      the key `songs`, the recurrence choices only for their repeat type. */
  function SchedulePayload(f: FormFields): (b: ScheduleBody)
    requires FormComplete(f)
    ensures CreateAccepted(b)
    ensures b.songs == Some(f.songs) && b.playlist == None
    ensures b.repeatType == Some(f.repeat)
    ensures f.repeat != Weekly ==> b.weekdays == Some([])
    ensures f.repeat != Monthly ==> b.monthDates == Some([])
  {
    ScheduleBody(Some(f.name), f.startDate, f.endDate, Some(f.startTime), Some(f.endTime),
                 None, Some(f.songs), Some(f.repeat),
                 Some(if f.repeat == Weekly then f.days else []),
                 Some(if f.repeat == Monthly then f.dates else []))
  }

  /** The payload with the songs under `playlist`, the key the server reads. */
  function CorrectedPayload(f: FormFields): (b: ScheduleBody)
    requires FormComplete(f)
    ensures CreateAccepted(b)
    ensures b.playlist == Some(f.songs)
    ensures f.repeat != Weekly ==> b.weekdays == Some([])
    ensures f.repeat != Monthly ==> b.monthDates == Some([])
  {
    SchedulePayload(f).(playlist := Some(f.songs))
  }

  /** As written, a schedule made on this page is stored without its songs:
      however many are selected, the created row's playlist is empty. */
  lemma SubmittedPlaylistIsDropped(id: int, f: FormFields)
    requires FormComplete(f)
    ensures NewRow(id, SchedulePayload(f)).playlist == []
    ensures NewRow(id, SchedulePayload(f)).playlist != f.songs
  {
  }

  /** With the songs under `playlist`, the created row holds exactly what the
      form held. */
  lemma CorrectedPayloadKeepsSongs(id: int, f: FormFields)
    requires FormComplete(f)
    ensures NewRow(id, CorrectedPayload(f))
         == Schedule(id, f.name, f.startDate.value, f.endDate.value, f.startTime, f.endTime, f.songs)
  {
  }

  /** Toggling a weekday or month date never repeats one. */
  lemma DayToggleKeepsDistinct<V(!new)>(chosen: seq<V>, v: V)
    requires KeysDistinct(chosen, Same)
    ensures KeysDistinct(Toggle(chosen, Same, v), Same)
  {
    ToggleKeepsDistinct(chosen, Same, v);
  }

  /** The checkboxes offer only the seven weekdays and the days 1 to 31, so
      the chosen weekdays and dates stay among them whatever is toggled. */
  lemma ChoicesStayOptions(days: seq<string>, day: string, dates: seq<int>, date: int)
    requires forall d :: d in days ==> d in WEEKDAY_OPTIONS
    requires forall d :: d in dates ==> d in MonthDateOptions()
    requires day in WEEKDAY_OPTIONS && date in MonthDateOptions()
    ensures forall d :: d in Toggle(days, Same, day) ==> d in WEEKDAY_OPTIONS
    ensures forall d :: d in Toggle(dates, Same, date) ==> d in MonthDateOptions()
  {
    ToggleStaysAmong(days, Same, day, WEEKDAY_OPTIONS);
    var options := MonthDateOptions();
    assert forall d :: d in dates ==> d in options;
    ToggleStaysAmong(dates, Same, date, options);
  }

  const FILL_ALL_WARNING: string := "\U{26A0}\U{FE0F} Please fill in all fields and select at least one music"
  const SAVED_MESSAGE: string := "Schedule saved successfully!"
  const SAVE_FAILED_MESSAGE: string := "Failed to save schedule."
  const DELETE_FAILED_MESSAGE: string := "Failed to delete song."

  function DeletedMessage(song: Song): string { "\U{1F5D1}\U{FE0F} Deleted: " + song.name }

  /** The form's state. */
  class SchedulePage {
    var scheduleName: string
    var startDateValue: Option<int>
    var endDateValue: Option<int>
    var startTime: string
    var endTime: string
    var selectedSongs: seq<Song>
    var saving: bool
    var repeatType: RepeatType
    var selectedDays: seq<string>
    var selectedDates: seq<int>
    var availableMusics: seq<Song>
    var message: string

    /** The picked weekdays and month dates hold no repeats. */
    ghost predicate Valid()
      reads this
    {
      KeysDistinct(selectedDays, Same) && KeysDistinct(selectedDates, Same)
    }

    constructor ()
      ensures Valid()
      ensures scheduleName == "" && startDateValue == None && endDateValue == None
      ensures startTime == "" && endTime == "" && selectedSongs == [] && !saving
      ensures repeatType == NoRepeat && selectedDays == [] && selectedDates == []
      ensures availableMusics == [] && message == ""
    {
      scheduleName, startDateValue, endDateValue := "", None, None;
      startTime, endTime, selectedSongs, saving := "", "", [], false;
      repeatType, selectedDays, selectedDates := NoRepeat, [], [];
      availableMusics, message := [], "";
    }

    /** `toggleSongSelection`, by `songSrc`. */
    method ToggleSongSelection(song: Song)
      modifies this`selectedSongs
      ensures selectedSongs == Toggle(old(selectedSongs), SongSrc, song)
    {
      selectedSongs := Toggle(selectedSongs, SongSrc, song);
    }

    /** A weekday checkbox. */
    method ToggleDay(day: string)
      requires Valid()
      modifies this`selectedDays
      ensures Valid()
      ensures selectedDays == Toggle(old(selectedDays), Same, day)
    {
      DayToggleKeepsDistinct(selectedDays, day);
      selectedDays := Toggle(selectedDays, Same, day);
    }

    /** A month-date checkbox. */
    method ToggleDate(date: int)
      requires Valid()
      modifies this`selectedDates
      ensures Valid()
      ensures selectedDates == Toggle(old(selectedDates), Same, date)
    {
      DayToggleKeepsDistinct(selectedDates, date);
      selectedDates := Toggle(selectedDates, Same, date);
    }

    /** `handleDeleteSong`: nothing unless the user confirms; when the delete
        request succeeds the song leaves both lists, by `songSrc`, and when it
        fails only the message changes. */
    method DeleteSong(song: Song, confirmed: bool, deleted: bool)
      modifies this`availableMusics, this`selectedSongs, this`message
      ensures !confirmed ==>
        availableMusics == old(availableMusics) && selectedSongs == old(selectedSongs) && message == old(message)
      ensures confirmed && deleted ==>
        availableMusics == RemoveKey(old(availableMusics), SongSrc, song.src) &&
        selectedSongs == RemoveKey(old(selectedSongs), SongSrc, song.src) &&
        message == DeletedMessage(song)
      ensures confirmed && !deleted ==>
        availableMusics == old(availableMusics) && selectedSongs == old(selectedSongs) &&
        message == DELETE_FAILED_MESSAGE
    {
      if !confirmed {
        return;
      }
      if deleted {
        availableMusics := RemoveKey(availableMusics, SongSrc, song.src);
        selectedSongs := RemoveKey(selectedSongs, SongSrc, song.src);
        message := DeletedMessage(song);
      } else {
        message := DELETE_FAILED_MESSAGE;
      }
    }

    /** The fields the submit reads and clears. */
    function Form(): FormFields
      reads this
    {
      FormFields(scheduleName, startDateValue, endDateValue, startTime, endTime,
                 selectedSongs, repeatType, selectedDays, selectedDates)
    }

    /** The resets after a successful save. */
    method ClearForm()
      modifies this`scheduleName, this`startDateValue, this`endDateValue, this`startTime, this`endTime
      modifies this`selectedSongs, this`selectedDays, this`selectedDates, this`repeatType
      ensures Valid()
      ensures Form() == EMPTY_FORM
    {
      scheduleName, startDateValue, endDateValue := "", None, None;
      startTime, endTime, selectedSongs := "", "", [];
      selectedDays, selectedDates, repeatType := [], [], NoRepeat;
    }

    /** `handleScheduleSubmit`: an incomplete form only shows the warning;
        otherwise the payload is posted and, once it is saved, every field is
        cleared and the repeat type returns to none. */
    method Submit(saved: bool) returns (sent: Option<ScheduleBody>)
      requires Valid()
      modifies this
      ensures Valid()
      ensures availableMusics == old(availableMusics)
      ensures !FormComplete(old(Form())) ==>
        sent == None && message == FILL_ALL_WARNING && Form() == old(Form()) && saving == old(saving)
      ensures FormComplete(old(Form())) ==> sent == Some(SchedulePayload(old(Form()))) && !saving
      ensures FormComplete(old(Form())) && saved ==> message == SAVED_MESSAGE && Form() == EMPTY_FORM
      ensures FormComplete(old(Form())) && !saved ==> message == SAVE_FAILED_MESSAGE && Form() == old(Form())
    {
      if !FormComplete(Form()) {
        message := FILL_ALL_WARNING;
        return None;
      }
      saving := true;
      sent := Some(SchedulePayload(Form()));
      if saved {
        message := SAVED_MESSAGE;
        ClearForm();
      } else {
        message := SAVE_FAILED_MESSAGE;
      }
      saving := false;
    }
  }
}

/** The week view (src/app/schedulemusic/page.tsx): the Monday-to-Sunday
    range of the week `offset` weeks from today, the schedules whose dates meet
    it in start order, and the edit dialog that replaces a schedule's
    playlist. */
module WeekView {
  import opened Wrappers
  import opened JsText
  import opened Songs
  import opened Instants
  import opened Schedules
  import opened Toggles

  /** `getDay()` of day `day`: 0 is Sunday and 6 Saturday; day 0 of the count,
      1 January 1970, was a Thursday. */
  function Weekday(day: int): (w: int)
    ensures 0 <= w < 7
  {
    (day + 4) % 7
  }

  /** `currentDay === 0 ? -6 : 1 - currentDay`: the days back to this week's
      Monday, a week starting on Monday. */
  function DistanceToMonday(currentDay: int): (d: int)
    requires 0 <= currentDay < 7
    ensures -6 <= d <= 0
    ensures (currentDay + d) % 7 == 1
  {
    if currentDay == 0 then -6 else 1 - currentDay
  }

  /** The last millisecond of a day, `setHours(23, 59, 59, 999)`. */
  const END_OF_DAY_MS: int := ((23 * 60 + 59) * 60 + 59) * SECOND_MS + 999

  /** The day number of the Monday of the week `offset` weeks from the day of
      `now`. */
  function MondayDay(now: int, offset: int): int
  {
    var today := now / DAY_MS;
    today + DistanceToMonday(Weekday(today)) + 7 * offset
  }

  function MondayOf(now: int, offset: int): int { DayStart(MondayDay(now, offset)) }

  function SundayOf(now: int, offset: int): int { DayStart(MondayDay(now, offset) + 6) + END_OF_DAY_MS }

  /** `getWeekRange(offset)` with `new Date()` read as `now`: step the date to
      Monday, clear its time, step six days on and set the last millisecond. */
  method GetWeekRange(now: int, offset: int) returns (monday: int, sunday: int)
    ensures monday == MondayOf(now, offset)
    ensures sunday == SundayOf(now, offset)
  {
    var today := now;
    var currentDay := Weekday(today / DAY_MS);
    var distanceToMonday := if currentDay == 0 then -6 else 1 - currentDay;
    monday := today + (distanceToMonday + offset * 7) * DAY_MS;
    monday := monday / DAY_MS * DAY_MS;
    sunday := monday + 6 * DAY_MS;
    sunday := sunday / DAY_MS * DAY_MS + END_OF_DAY_MS;
    DayArithmetic(today, distanceToMonday + offset * 7);
    DayArithmetic(monday, 6);
  }

  lemma DayArithmetic(ms: int, days: int)
    ensures (ms + days * DAY_MS) / DAY_MS == ms / DAY_MS + days
  {
    var q, r := ms / DAY_MS, ms % DAY_MS;
    assert ms + days * DAY_MS == (q + days) * DAY_MS + r;
  }

  /** Adding whole weeks keeps the day of the week. */
  lemma WeekdayPlusWeeks(day: int, weeks: int, d: int)
    ensures Weekday(day + d + 7 * weeks) == (Weekday(day) + d) % 7
  {
    var q := (day + 4) / 7;
    assert day + 4 == 7 * q + Weekday(day);
    assert day + d + 7 * weeks + 4 == 7 * (q + weeks) + (Weekday(day) + d);
  }

  /** The range starts on a Monday and ends on the following Sunday. */
  lemma WeekRunsMondayToSunday(now: int, offset: int)
    ensures Weekday(MondayDay(now, offset)) == 1
    ensures Weekday(MondayDay(now, offset) + 6) == 0
    ensures SundayOf(now, offset) - MondayOf(now, offset) + 1 == 7 * DAY_MS
  {
    var today := now / DAY_MS;
    var d := DistanceToMonday(Weekday(today));
    WeekdayPlusWeeks(today, offset, d);
    WeekdayPlusWeeks(today, offset, d + 6);
  }

  /** The current week (offset 0) holds `now`. */
  lemma CurrentWeekHoldsNow(now: int)
    ensures MondayOf(now, 0) <= now <= SundayOf(now, 0)
  {
    var today := now / DAY_MS;
    assert today * DAY_MS <= now < today * DAY_MS + DAY_MS;
  }

  /** Each step of the offset moves the range by exactly one week, so the
      weeks follow each other with neither gap nor overlap. */
  lemma NextWeekFollows(now: int, offset: int)
    ensures MondayOf(now, offset + 1) == SundayOf(now, offset) + 1
    ensures MondayOf(now, offset + 1) == MondayOf(now, offset) + 7 * DAY_MS
  {
  }

  /** The filter of `fetchSchedules`: the start date's midnight is not after
      Sunday's last millisecond and the end date's midnight is not before
      Monday. */
  predicate OverlapsWeek(s: Schedule, monday: int, sunday: int)
  {
    DayStart(s.startDate) <= sunday && DayStart(s.endDate) >= monday
  }

  /** `res.data.filter(...)`, in the order of the response. */
  function SchedulesInWeek(rows: seq<Schedule>, monday: int, sunday: int): (r: seq<Schedule>)
    ensures |r| <= |rows|
    ensures forall s :: s in r <==> s in rows && OverlapsWeek(s, monday, sunday)
  {
    if rows == [] then []
    else if OverlapsWeek(rows[0], monday, sunday) then [rows[0]] + SchedulesInWeek(rows[1..], monday, sunday)
    else SchedulesInWeek(rows[1..], monday, sunday)
  }

  /** The filter keeps each schedule as many times as the input holds it when
      it passes, and not at all otherwise. */
  lemma {:induction false} SchedulesInWeekCounts(rows: seq<Schedule>, monday: int, sunday: int)
    ensures forall s :: multiset(SchedulesInWeek(rows, monday, sunday))[s] == if OverlapsWeek(s, monday, sunday) then multiset(rows)[s] else 0
  {
    if rows != [] {
      SchedulesInWeekCounts(rows[1..], monday, sunday);
      assert rows == [rows[0]] + rows[1..];
    }
  }

  /** The filter works schedule by schedule: filtering a concatenation filters
      each part and keeps them in order. */
  lemma {:induction false} SchedulesInWeekConcat(a: seq<Schedule>, b: seq<Schedule>, monday: int, sunday: int)
    ensures SchedulesInWeek(a + b, monday, sunday) == SchedulesInWeek(a, monday, sunday) + SchedulesInWeek(b, monday, sunday)
  {
    if a == [] {
      assert a + b == b;
      assert SchedulesInWeek(a, monday, sunday) == [];
    } else {
      var ab := a + b;
      assert ab[0] == a[0] && ab[1..] == a[1..] + b;
      SchedulesInWeekConcat(a[1..], b, monday, sunday);
      var rest := SchedulesInWeek(ab[1..], monday, sunday);
      assert rest == SchedulesInWeek(a[1..], monday, sunday) + SchedulesInWeek(b, monday, sunday);
      if OverlapsWeek(a[0], monday, sunday) {
        assert SchedulesInWeek(ab, monday, sunday) == [a[0]] + rest;
        assert SchedulesInWeek(a, monday, sunday) == [a[0]] + SchedulesInWeek(a[1..], monday, sunday);
        var x, y := SchedulesInWeek(a[1..], monday, sunday), SchedulesInWeek(b, monday, sunday);
        assert [a[0]] + (x + y) == ([a[0]] + x) + y;
      } else {
        assert SchedulesInWeek(ab, monday, sunday) == rest;
        assert SchedulesInWeek(a, monday, sunday) == SchedulesInWeek(a[1..], monday, sunday);
      }
    }
  }

  /** In day numbers: a schedule is shown exactly when it starts on or before
      the week's Sunday and ends on or after its Monday. */
  lemma OverlapsWeekInDays(s: Schedule, now: int, offset: int)
    ensures OverlapsWeek(s, MondayOf(now, offset), SundayOf(now, offset)) <==>
      s.startDate <= MondayDay(now, offset) + 6 && s.endDate >= MondayDay(now, offset)
  {
    var m := MondayDay(now, offset);
    assert s.startDate <= m + 6 <==> s.startDate * DAY_MS <= (m + 6) * DAY_MS + END_OF_DAY_MS;
    assert s.endDate >= m <==> s.endDate * DAY_MS >= m * DAY_MS;
  }

  predicate IsTwoDigits(p: string) { |p| == 2 && AllDigits(p) }

  /** The seconds of an ISO 8601 time, `ss` or `ss.sss`, as seconds and
      milliseconds. */
  function IsoSeconds(p: string): (r: Option<(int, int)>)
    ensures r.Some? ==> 0 <= r.value.0 && 0 <= r.value.1 <= 999
  {
    if IsTwoDigits(p) then Some((DigitsValue(p), 0))
    else if |p| == 6 && IsTwoDigits(p[..2]) && p[2] == '.' && AllDigits(p[3..]) then
      Some((DigitsValue(p[..2]), DigitValue(p[3]) * 100 + DigitValue(p[4]) * 10 + DigitValue(p[5])))
    else None
  }

  /** `new Date(`${date}T${time}`)` reads the time as the ECMAScript date-time
      format does: `HH:mm`, `HH:mm:ss` or `HH:mm:ss.sss` within the clock's
      ranges, or `24:00` (with zero seconds and milliseconds), the end of the
      day; anything else is an invalid date (None). */
  function IsoTimeMs(t: string): (r: Option<int>)
    ensures r.Some? ==> 0 <= r.value <= DAY_MS
  {
    var parts := Split(t, ':');
    if |parts| != 2 && |parts| != 3 then None
    else if !IsTwoDigits(parts[0]) || !IsTwoDigits(parts[1]) then None
    else
      var sec := if |parts| == 3 then IsoSeconds(parts[2]) else Some((0, 0));
      if sec.None? then None
      else
        var h, m, s, ms := DigitsValue(parts[0]), DigitsValue(parts[1]), sec.value.0, sec.value.1;
        if (h <= 23 && m <= 59 && s <= 59) || (h == 24 && m == 0 && s == 0 && ms == 0) then
          Some((h * 3600 + m * 60 + s) * SECOND_MS + ms)
        else None
  }

  /** The value of a two-digit field, digit by digit. */
  lemma TwoDigitsValue(p: string)
    requires IsTwoDigits(p)
    ensures DigitsValue(p) == DigitValue(p[0]) * 10 + DigitValue(p[1])
  {
    assert p[..1] == [p[0]];
    assert DigitsValue(p[..1]) == DigitsValue(p[..1][..0]) * 10 + DigitValue(p[0]);
    assert p[..1][..0] == [];
  }

  /** An `HH:mm:ss` or `HH:mm:ss.sss` text read field by field. */
  lemma IsoOfFields(a: string, b: string, c: string)
    requires IsTwoDigits(a) && IsTwoDigits(b) && ':' !in c && IsoSeconds(c).Some?
    ensures ':' !in a && ':' !in b
    ensures var (h, m) := (DigitsValue(a), DigitsValue(b));
      var (s, ms) := IsoSeconds(c).value;
      IsoTimeMs(a + ":" + b + ":" + c) ==
        if (h <= 23 && m <= 59 && s <= 59) || (h == 24 && m == 0 && s == 0 && ms == 0)
        then Some((h * 3600 + m * 60 + s) * SECOND_MS + ms) else None
  {
    assert ':' !in a by { assert forall i :: 0 <= i < |a| ==> IsDigit(a[i]); }
    assert ':' !in b by { assert forall i :: 0 <= i < |b| ==> IsDigit(b[i]); }
    SplitThree(a, b, c);
  }

  /** `24:00` is the first instant of the next day. */
  lemma IsoEndOfDay()
    ensures IsoTimeMs("24:00") == Some(DAY_MS)
  {
    var t := "24:00";
    SplitWhole("00", ':');
    SplitCons("24", ':', "00");
    assert t == "24" + [':'] + "00";
    var parts := Split(t, ':');
    assert parts == ["24", "00"];
    assert IsTwoDigits(parts[0]) && IsTwoDigits(parts[1]);
    TwoDigitsValue("24");
    TwoDigitsValue("00");
    assert DigitsValue(parts[0]) == 24 && DigitsValue(parts[1]) == 0;
  }

  /** A fraction of a second after a clock time counts its milliseconds. */
  lemma IsoClockWithFraction(h: nat, m: nat, sec: nat, f: string)
    requires h <= 23 && m <= 59 && sec <= 59
    requires |f| == 3 && AllDigits(f)
    ensures IsoTimeMs(TwoDigits(h) + ":" + TwoDigits(m) + ":" + (TwoDigits(sec) + "." + f))
         == Some((h * 3600 + m * 60 + sec) * SECOND_MS +
                 DigitValue(f[0]) * 100 + DigitValue(f[1]) * 10 + DigitValue(f[2]))
  {
    ClockFieldShape(h);
    ClockFieldShape(m);
    ClockFieldShape(sec);
    var c := TwoDigits(sec) + "." + f;
    assert c[..2] == TwoDigits(sec) && c[2] == '.' && c[3..] == f;
    assert IsoSeconds(c) == Some((sec, DigitValue(f[0]) * 100 + DigitValue(f[1]) * 10 + DigitValue(f[2])));
    assert ':' !in c by {
      NumberOfTwoDigits(sec);
      assert forall i :: 0 <= i < |f| ==> IsDigit(f[i]);
    }
    IsoOfFields(TwoDigits(h), TwoDigits(m), c);
  }

  /** On the picker's `HH:MM:SS` text the page's reading and the server's
      agree. */
  lemma IsoTimeOfClockText(h: nat, m: nat, s: nat)
    requires h <= 23 && m <= 59 && s <= 59
    ensures IsoTimeMs(TwoDigits(h) + ":" + TwoDigits(m) + ":" + TwoDigits(s))
         == TimeOfDayMs(TwoDigits(h) + ":" + TwoDigits(m) + ":" + TwoDigits(s))
         == Some((h * 3600 + m * 60 + s) * SECOND_MS)
  {
    TimeOfDayOfClockText(h, m, s);
    ClockFieldShape(h);
    ClockFieldShape(m);
    ClockFieldShape(s);
    NumberOfTwoDigits(h);
    NumberOfTwoDigits(m);
    NumberOfTwoDigits(s);
    SplitThree(TwoDigits(h), TwoDigits(m), TwoDigits(s));
  }

  /** A clock field below 100 is two digits holding its value. */
  lemma ClockFieldShape(n: nat)
    requires n < 100
    ensures |TwoDigits(n)| == 2 && AllDigits(TwoDigits(n)) && DigitsValue(TwoDigits(n)) == n
  {
    NumberOfTwoDigits(n);
    if n >= 10 {
      assert NatToString(n) == NatToString(n / 10) + [DigitChar(n % 10)];
    }
  }

  /** The sort key of a schedule: its start date and time, to the
      millisecond. A time ISO 8601 cannot read counts as midnight. */
  function SortKey(s: Schedule): int
  {
    match IsoTimeMs(s.startTime)
    case Some(t) => DayStart(s.startDate) + t
    case None => DayStart(s.startDate)
  }

  /** Ascending in `key`. */
  predicate SortedBy<T>(ss: seq<T>, key: T -> int)
  {
    forall i, j :: 0 <= i < j < |ss| ==> key(ss[i]) <= key(ss[j])
  }

  predicate SortedByStart(ss: seq<Schedule>) { SortedBy(ss, SortKey) }

  /** Schedules on an earlier day sort first, whatever their times; the one
      tie is `24:00` against midnight of the next day, the same instant. */
  lemma EarlierDayFirst(a: Schedule, b: Schedule)
    requires a.startDate < b.startDate
    ensures SortKey(a) <= SortKey(b)
    ensures SortKey(a) == SortKey(b) ==>
      b.startDate == a.startDate + 1 && IsoTimeMs(a.startTime) == Some(DAY_MS) &&
      SortKey(b) == DayStart(b.startDate)
  {
  }

  /** The first `n` elements are ascending in `key`. */
  ghost predicate SortedPrefix<T>(s: seq<T>, n: int, key: T -> int)
    requires 0 <= n <= |s|
  {
    forall p, q :: 0 <= p < q < n ==> key(s[p]) <= key(s[q])
  }

  /** While `s[i]` sinks, sitting at `j`: the first `i + 1` elements are
      ascending except around `j`, and its neighbours are in order. */
  ghost predicate Sinking<T>(s: seq<T>, i: int, j: int, key: T -> int)
    requires 0 <= j <= i < |s|
  {
    (forall p, q :: 0 <= p < q <= i && q != j ==> key(s[p]) <= key(s[q])) &&
    (0 < j < i ==> key(s[j - 1]) <= key(s[j + 1]))
  }

  function Swap<T>(s: seq<T>, x: int, y: int): (r: seq<T>)
    requires 0 <= x < |s| && 0 <= y < |s|
    ensures |r| == |s| && multiset(r) == multiset(s)
  {
    s[x := s[y]][y := s[x]]
  }

  /** Swapping the sinking element with a larger left neighbour moves it one
      place left and keeps the rest in order. */
  lemma SinkStep<T>(s: seq<T>, i: int, j: int, key: T -> int)
    requires 0 < j <= i < |s| && Sinking(s, i, j, key) && key(s[j - 1]) > key(s[j])
    ensures Sinking(Swap(s, j - 1, j), i, j - 1, key)
  {
  }

  /** Once the sinking element stops, the first `i + 1` elements are sorted. */
  lemma SinkDone<T>(s: seq<T>, i: int, j: int, key: T -> int)
    requires 0 <= j <= i < |s| && Sinking(s, i, j, key)
    requires j == 0 || key(s[j - 1]) <= key(s[j])
    ensures SortedPrefix(s, i + 1, key)
  {
  }

  /** One pass of the insertion sort: sink `a[i]` into the sorted `a[..i]`,
      past every element with a larger key. */
  method InsertAt<T>(a: array<T>, i: int, key: T -> int)
    requires 0 <= i < a.Length && SortedPrefix(a[..], i, key)
    modifies a
    ensures SortedPrefix(a[..], i + 1, key)
    ensures multiset(a[..]) == multiset(old(a[..]))
  {
    var j := i;
    while j > 0 && key(a[j - 1]) > key(a[j])
      invariant 0 <= j <= i
      invariant Sinking(a[..], i, j, key)
      invariant multiset(a[..]) == multiset(old(a[..]))
    {
      ghost var before := a[..];
      SinkStep(before, i, j, key);
      a[j - 1], a[j] := a[j], a[j - 1];
      assert a[..] == Swap(before, j - 1, j);
      j := j - 1;
    }
    SinkDone(a[..], i, j, key);
  }

  /** An insertion sort by `key`: stable, ascending, and a permutation. */
  method SortBy<T>(a: array<T>, key: T -> int)
    modifies a
    ensures SortedBy(a[..], key)
    ensures multiset(a[..]) == multiset(old(a[..]))
  {
    var i := 0;
    while i < a.Length
      invariant 0 <= i <= a.Length
      invariant SortedPrefix(a[..], i, key)
      invariant multiset(a[..]) == multiset(old(a[..]))
    {
      InsertAt(a, i, key);
      i := i + 1;
    }
  }

  /** `filtered.sort((a, b) => startOf(a) - startOf(b))`. */
  method SortByStart(a: array<Schedule>)
    modifies a
    ensures SortedByStart(a[..])
    ensures multiset(a[..]) == multiset(old(a[..]))
  {
    SortBy(a, SortKey);
  }

  /** What `fetchSchedules` puts on screen for the week `offset` weeks from
      `now`: exactly the schedules of the response that meet the week, in
      start order. */
  method ShownSchedules(rows: seq<Schedule>, now: int, offset: int) returns (shown: seq<Schedule>)
    ensures SortedByStart(shown)
    ensures multiset(shown) == multiset(SchedulesInWeek(rows, MondayOf(now, offset), SundayOf(now, offset)))
    ensures forall s :: s in shown <==> s in rows && OverlapsWeek(s, MondayOf(now, offset), SundayOf(now, offset))
    ensures forall s :: multiset(shown)[s] == (if OverlapsWeek(s, MondayOf(now, offset), SundayOf(now, offset))
                                             then multiset(rows)[s] else 0)
  {
    var monday, sunday := GetWeekRange(now, offset);
    var filtered := SchedulesInWeek(rows, monday, sunday);
    SchedulesInWeekCounts(rows, monday, sunday);
    var a := new Schedule[|filtered|](k requires 0 <= k < |filtered| => filtered[k]);
    assert a[..] == filtered;
    SortByStart(a);
    shown := a[..];
    forall s ensures s in shown <==> s in filtered {
      assert s in shown <==> s in multiset(shown);
      assert s in filtered <==> s in multiset(filtered);
    }
  }

  /** `{ ...selectedSchedule, playlist: selectedSongs }`: the schedule as the
      page fetched it, with the selected songs as its playlist. */
  function EditBody(s: Schedule, selected: seq<Song>): (b: ScheduleBody)
    ensures UpdateBindable(b)
    ensures Overwritten(s, b) == s.(playlist := selected)
  {
    ScheduleBody(Some(s.name), Some(s.startDate), Some(s.endDate), Some(s.startTime), Some(s.endTime),
                 Some(selected), None, None, None, None)
  }

  /** Saving the edit dialog changes the edited schedule's playlist and
      nothing else in the table. */
  lemma EditReplacesOnlyPlaylist(rows: seq<Schedule>, k: int, selected: seq<Song>)
    requires IdsIncreasing(rows) && 0 <= k < |rows|
    ensures var r := UpdateRows(rows, rows[k].id, EditBody(rows[k], selected));
      |r| == |rows| && r[k] == rows[k].(playlist := selected) &&
      forall i :: 0 <= i < |rows| && i != k ==> r[i] == rows[i]
  {
    var r := UpdateRows(rows, rows[k].id, EditBody(rows[k], selected));
    forall i | 0 <= i < |rows| && i != k ensures r[i] == rows[i] {
      assert rows[i].id != rows[k].id by {
        if i < k { assert rows[i].id < rows[k].id; } else { assert rows[k].id < rows[i].id; }
      }
    }
  }

  /** The edit dialog's state. */
  class EditDialog {
    var isOpen: bool
    var selectedSchedule: Option<Schedule>
    var selectedSongs: seq<Song>
    var availableMusics: seq<Song>

    constructor ()
      ensures !isOpen && selectedSchedule == None && selectedSongs == [] && availableMusics == []
    {
      isOpen, selectedSchedule, selectedSongs, availableMusics := false, None, [], [];
    }

    /** `handleEdit`: with the song list fetched, open the dialog on the
        schedule with its own playlist selected. */
    method HandleEdit(schedule: Schedule, songs: seq<Song>)
      modifies this
      ensures isOpen && selectedSchedule == Some(schedule)
      ensures selectedSongs == schedule.playlist && availableMusics == songs
    {
      availableMusics := songs;
      selectedSchedule := Some(schedule);
      selectedSongs := schedule.playlist;
      isOpen := true;
    }

    /** `toggleSongSelection`, by `songSrc`. */
    method ToggleSongSelection(song: Song)
      modifies this`selectedSongs
      ensures selectedSongs == Toggle(old(selectedSongs), SongSrc, song)
      ensures KeysDistinct(old(selectedSongs), SongSrc) ==> KeysDistinct(selectedSongs, SongSrc)
    {
      if KeysDistinct(selectedSongs, SongSrc) {
        ToggleKeepsDistinct(selectedSongs, SongSrc, song);
      }
      selectedSongs := Toggle(selectedSongs, SongSrc, song);
    }

    /** `handleUpdateSchedule`: nothing without a schedule; otherwise the
        body sent with the PUT, and when it is answered the dialog closes and
        its selection is cleared. */
    method HandleUpdateSchedule(answered: bool) returns (sent: Option<(int, ScheduleBody)>)
      modifies this
      ensures old(selectedSchedule).None? ==> sent == None && unchanged(this)
      ensures old(selectedSchedule).Some? ==>
        sent == Some((old(selectedSchedule).value.id, EditBody(old(selectedSchedule).value, old(selectedSongs))))
      ensures old(selectedSchedule).Some? && answered ==>
        !isOpen && selectedSchedule == None && selectedSongs == []
      ensures old(selectedSchedule).Some? && !answered ==>
        isOpen == old(isOpen) && selectedSchedule == old(selectedSchedule) && selectedSongs == old(selectedSongs)
      ensures availableMusics == old(availableMusics)
    {
      if selectedSchedule.None? {
        return None;
      }
      var s := selectedSchedule.value;
      sent := Some((s.id, EditBody(s, selectedSongs)));
      if answered {
        isOpen := false;
        selectedSchedule := None;
        selectedSongs := [];
      }
    }
  }
}

/** The `schedules` table of src/backend/server.js and what `POST`, `PUT` and
    `DELETE /schedules` do to it, as functions on the sequence of rows in
    table order. */
module Schedules {
  import opened Wrappers
  import opened Songs
  import opened Instants
  import opened JsText

  /** A row of the `schedules` table, its playlist decoded from the JSON text
      column. The table has no recurrence columns. */
  datatype Schedule = Schedule(
    id: int, name: string,
    startDate: int, endDate: int,
    startTime: string, endTime: string,
    playlist: seq<Song>)

  datatype RepeatType = NoRepeat | Weekly | Monthly

  /** The JSON body of `POST /schedules` and `PUT /schedules/:id`; a key the
      client did not send is None. The server destructures only the first six
      keys; the schedule page also sends `songs`, `repeatType`, `weekdays` and
      `monthDates`. */
  datatype ScheduleBody = ScheduleBody(
    scheduleName: Option<string>,
    startDate: Option<int>, endDate: Option<int>,
    startTime: Option<string>, endTime: Option<string>,
    playlist: Option<seq<Song>>,
    songs: Option<seq<Song>>,
    repeatType: Option<RepeatType>,
    weekdays: Option<seq<string>>,
    monthDates: Option<seq<int>>)

  /** `startDate` at `startTime`, to the millisecond; None when the time does
      not parse or lands past the Date range (an invalid Date). */
  function StartInstant(s: Schedule): (r: Option<int>)
    ensures TimeOfDayMs(s.startTime).None? ==> r.None?
    ensures r.Some? ==> DayStart(s.startDate) <= r.value <= MAX_TIME_MS
  {
    match TimeOfDayMs(s.startTime)
    case None => None
    case Some(t) => TimeClip(DayStart(s.startDate) + t)
  }

  /** `endDate` at `endTime` and 999 milliseconds. */
  function EndInstant(s: Schedule): Option<int>
  {
    match TimeOfDayMs(s.endTime)
    case None => None
    case Some(t) => TimeClip(DayStart(s.endDate) + t + 999)
  }

  /** A clock time on a day within the Date range gives the instant of that
      day and time. */
  lemma {:induction false} StartOfClockTime(s: Schedule, h: nat, m: nat, sec: nat)
    requires h <= 23 && m <= 59 && sec <= 59
    requires s.startTime == TwoDigits(h) + ":" + TwoDigits(m) + ":" + TwoDigits(sec)
    requires -100_000_000 <= s.startDate < 100_000_000
    ensures StartInstant(s) == Some(DayStart(s.startDate) + (h * 3600 + m * 60 + sec) * SECOND_MS)
  {
    TimeOfDayOfClockText(h, m, sec);
  }

  /** An hour field large enough to carry the end past the Date range makes
      the end an invalid Date, however the text was accepted when stored. */
  lemma EndPastRangeIsInvalid(s: Schedule, t: int)
    requires TimeOfDayMs(s.endTime) == Some(t)
    requires DayStart(s.endDate) + t + 999 > MAX_TIME_MS
    ensures EndInstant(s) == None
  {
  }

  /** The 400 check of `POST /schedules`: name, both dates and both times
      present and not empty. The playlist is not required. */
  predicate CreateAccepted(b: ScheduleBody)
  {
    Filled(b.scheduleName) && b.startDate.Some? && b.endDate.Some? &&
    Filled(b.startTime) && Filled(b.endTime)
  }

  /** `playlist || []`. */
  function PlaylistOrEmpty(b: ScheduleBody): seq<Song>
  {
    if b.playlist.Some? then b.playlist.value else []
  }

  /** The row `POST /schedules` inserts under the fresh id `id`. */
  function NewRow(id: int, b: ScheduleBody): Schedule
    requires CreateAccepted(b)
  {
    Schedule(id, b.scheduleName.value, b.startDate.value, b.endDate.value,
             b.startTime.value, b.endTime.value, PlaylistOrEmpty(b))
  }

  /** `POST /schedules` stores what its body says under `playlist` and nothing
      of what it says under `songs` or about recurrence: two bodies that agree
      on the six columns give the same row. */
  lemma NewRowIgnoresExtraKeys(id: int, b: ScheduleBody, c: ScheduleBody)
    requires CreateAccepted(b)
    requires c == b.(songs := c.songs, repeatType := c.repeatType,
                     weekdays := c.weekdays, monthDates := c.monthDates)
    ensures CreateAccepted(c) && NewRow(id, c) == NewRow(id, b)
    ensures NewRow(id, b).playlist == (if b.playlist.Some? then b.playlist.value else [])
  {
  }

  /** `PUT` binds every column; an absent key binds NULL, which the NOT NULL
      columns reject, so the update fails and no row changes. */
  predicate UpdateBindable(b: ScheduleBody)
  {
    b.scheduleName.Some? && b.startDate.Some? && b.endDate.Some? &&
    b.startTime.Some? && b.endTime.Some?
  }

  /** A row after `SET scheduleName=?, startDate=?, ..., playlist=?`. */
  function Overwritten(row: Schedule, b: ScheduleBody): Schedule
    requires UpdateBindable(b)
  {
    Schedule(row.id, b.scheduleName.value, b.startDate.value, b.endDate.value,
             b.startTime.value, b.endTime.value, PlaylistOrEmpty(b))
  }

  /** `UPDATE schedules SET ... WHERE id=?`: every row whose id is `id` gets all
      six columns from the body, every other row is left as it was, and the
      order of the table is kept. */
  function UpdateRows(rows: seq<Schedule>, id: int, b: ScheduleBody): (r: seq<Schedule>)
    requires UpdateBindable(b)
    ensures |r| == |rows|
    ensures forall i :: 0 <= i < |rows| && rows[i].id != id ==> r[i] == rows[i]
    ensures forall i :: 0 <= i < |rows| && rows[i].id == id ==>
      r[i].id == id && Some(r[i].name) == b.scheduleName &&
      Some(r[i].startDate) == b.startDate && Some(r[i].endDate) == b.endDate &&
      Some(r[i].startTime) == b.startTime && Some(r[i].endTime) == b.endTime &&
      r[i].playlist == PlaylistOrEmpty(b)
  {
    if rows == [] then []
    else
      var head := if rows[0].id == id then Overwritten(rows[0], b) else rows[0];
      [head] + UpdateRows(rows[1..], id, b)
  }

  /** The two forms of `DELETE /schedules/:id`: the id `all`, or one id. The
      `mode` query parameter only appears in the response message. */
  datatype DeleteTarget = AllRows | RowWithId(id: int)

  /** `DELETE FROM schedules WHERE id=?`: the rows with another id, in order. */
  function WithoutId(rows: seq<Schedule>, id: int): (r: seq<Schedule>)
    ensures |r| <= |rows|
    ensures forall s :: s in r <==> s in rows && s.id != id
    ensures IdsIncreasing(rows) ==> IdsIncreasing(r)
  {
    if rows == [] then []
    else if rows[0].id == id then WithoutId(rows[1..], id)
    else [rows[0]] + WithoutId(rows[1..], id)
  }

  function DeleteRows(rows: seq<Schedule>, target: DeleteTarget): seq<Schedule>
  {
    match target
    case AllRows => []
    case RowWithId(id) => WithoutId(rows, id)
  }

  /** Rows in id order with no id repeated, as AUTOINCREMENT appends them. */
  predicate IdsIncreasing(rows: seq<Schedule>)
  {
    forall i, j :: 0 <= i < j < |rows| ==> rows[i].id < rows[j].id
  }

  predicate HasId(rows: seq<Schedule>, id: int)
  {
    exists i :: 0 <= i < |rows| && rows[i].id == id
  }

  /** With distinct ids, deleting one id removes exactly one row when that id is
      in the table and none otherwise. */
  lemma {:induction false} DeleteOneRemovesOneRow(rows: seq<Schedule>, id: int)
    requires IdsIncreasing(rows)
    ensures |DeleteRows(rows, RowWithId(id))| == |rows| - (if HasId(rows, id) then 1 else 0)
  {
    if rows != [] {
      var tail := rows[1..];
      TailIdsIncreasing(rows);
      HasIdCons(rows, id);
      DeleteOneRemovesOneRow(tail, id);
      if rows[0].id == id {
        HeadIdNotInTail(rows);
        assert WithoutId(rows, id) == WithoutId(tail, id);
      } else {
        assert WithoutId(rows, id) == [rows[0]] + WithoutId(tail, id);
      }
    }
  }

  lemma TailIdsIncreasing(rows: seq<Schedule>)
    requires rows != [] && IdsIncreasing(rows)
    ensures IdsIncreasing(rows[1..])
  {
    var tail := rows[1..];
    forall i, j | 0 <= i < j < |tail| ensures tail[i].id < tail[j].id {
      assert rows[i + 1].id < rows[j + 1].id;
    }
  }

  lemma HasIdCons(rows: seq<Schedule>, id: int)
    requires rows != []
    ensures HasId(rows, id) <==> rows[0].id == id || HasId(rows[1..], id)
  {
    var tail := rows[1..];
    if HasId(rows, id) && rows[0].id != id {
      var i :| 0 <= i < |rows| && rows[i].id == id;
      assert tail[i - 1].id == id;
    }
    if HasId(tail, id) {
      var i :| 0 <= i < |tail| && tail[i].id == id;
      assert rows[i + 1].id == id;
    }
  }

  /** With ids in increasing order, the first id does not come back. */
  lemma HeadIdNotInTail(rows: seq<Schedule>)
    requires rows != [] && IdsIncreasing(rows)
    ensures !HasId(rows[1..], rows[0].id)
  {
    var tail := rows[1..];
    forall i | 0 <= i < |tail| ensures tail[i].id != rows[0].id {
      assert rows[0].id < rows[i + 1].id;
    }
  }
}

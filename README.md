# A verified model of the nextjs-musicplayer scheduler

This project is a Dafny model of the music player's scheduling core.

- **The Express server** (`src/backend/server.js`) keeps three tables: songs, schedules and schedule logs. Its `GET /schedules/active` endpoint does three things:
  - It picks the schedule whose date-and-time window holds the current instant.
  - When several are active, it picks the one that started last.
  - It logs that schedule's start once.
- **Four client pages** hold small, self-contained pieces of logic:
  - The time picker converts 24-hour text to a 12-hour clock and back.
  - The playback page steps around its song list and toggles play/pause.
  - The week view computes Monday to Sunday, filters the schedules that meet that week and sorts them by start.
  - The scheduling form formats durations, keeps the checkbox lists, validates and posts the schedule, and clears itself.

Instants are whole milliseconds. A calendar date is a day number, and `startDate` at `startTime` is `day * 86400000 + (h*3600 + m*60 + s) * 1000`. An end instant adds 999 milliseconds. As in ECMAScript, an instant more than 8.64e15 milliseconds from the epoch makes the Date invalid.

A time that JavaScript reads as NaN makes the Date invalid. Every comparison with an invalid Date is false, so such a schedule is never active.

Recurrence (`repeatType`, `weekdays`, `monthDates`) reaches the server in the request body. The server never reads it and has no column for it, so a `Schedule` row has no recurrence field and the resolver cannot consult one.

Where the server takes input from the outside, it becomes a parameter:
- the clock is `now`;
- the user's confirmation is `confirmed`;
- the outcome of an HTTP request is `saved`, `deleted` or `answered`;
- the audio element is `AudioElement`.

Modules, one per file:
- `Wrappers` holds `Option`.
- `JsText` holds the JavaScript string and number primitives the code relies on: `split`, `Number`, `parseInt`, `toString`, `padStart` and `%`.
- `Songs`, `Instants`, `Schedules` and `Resolver` cover the server's data and its pure logic.
- `Server` holds the tables as a class whose methods are the routes.
- `TimePicker`, `Player`, `Toggles`, `WeekView` and `ScheduleForm` cover the client.

## Model

| member | source | states |
|---|---|---|
| JsText.Split | src/backend/server.js:210-211 | `split(":")` gives at least one piece, no piece contains the separator, and joining the pieces with it gives the text back |
| JsText.PadStart2 | src/app/timepicker/TimePicker.tsx:62 | `padStart(2, "0")` leaves text of two or more characters as it is, and otherwise gives two characters: the text preceded by zeros |
| JsText.DigitPrefix | src/app/timepicker/TimePicker.tsx:58 | the digits `parseInt` reads are the longest run of decimal digits at the start of the text: a prefix made of digits, followed by a non-digit or by the end |
| JsText.NumberOf | src/backend/server.js:210-211 | `Number` of a time field is NaN exactly when the field holds a character that is not a decimal digit, and otherwise is non-negative |
| JsText.ParseIntOfPadded | src/app/timepicker/TimePicker.tsx:58 | `parseInt(_, 10)` reads back what `toString()` wrote, with or without the zero that `padStart(2, "0")` adds |
| JsText.NumberOfTwoDigits | src/backend/server.js:210 | `Number` reads a two-digit clock field back as its value, and the field holds no `:` |
| JsText.JsRem | src/app/playlist/page.tsx:105 | the JS `%` is NaN exactly when the divisor is 0, is smaller than the divisor in magnitude, has the sign of the dividend, and equals the mathematical remainder for a non-negative dividend and positive divisor |
| JsText.RemBelowTwice | src/app/playlist/page.tsx:111 | a non-negative value below twice the divisor wraps around at most once |
| Instants.TimeOfDayMs | src/backend/server.js:210-214 | the time of day is never negative, and text with fewer than three `:`-separated parts gives an invalid Date |
| Instants.TimeClip | src/backend/server.js:213-217 | a time value is kept exactly when it lies within 8.64e15 ms of the epoch, and is NaN otherwise |
| Schedules.StartInstant | src/backend/server.js:213-214 | an unparseable start time gives an invalid Date; a valid start lies between the start of its date and the end of the Date range |
| Instants.TimeOfDayOfClockText | src/backend/server.js:210-214 | `HH:MM:SS` text is read as `(h*3600+m*60+s)*1000` milliseconds after midnight |
| Instants.TimeWithoutSecondsIsInvalid | src/backend/server.js:210-214 | a time without seconds gives an invalid Date, because `setHours` gets `undefined` seconds |
| Schedules.StartOfClockTime | src/backend/server.js:210-214 | an `HH:MM:SS` start time on a date within the Date range gives the instant of that day and time |
| Schedules.EndPastRangeIsInvalid | src/backend/server.js:211-220 | an end time whose hours carry the instant past 8.64e15 ms gives an invalid end Date, so the schedule is never active |
| Songs.SongsList | src/backend/server.js:98-103 | `GET /songs` maps rows one to one and in order; each song keeps the row's name and artist, has source `/uploads/files/` + file path and the default avatar |
| Schedules.NewRowIgnoresExtraKeys | src/backend/server.js:146-157 | the inserted row depends only on the six destructured keys: `songs` and the recurrence keys are ignored, and an absent playlist is stored as `[]` |
| Schedules.UpdateRows | src/backend/server.js:170-174 | `UPDATE ... WHERE id=?` overwrites all six columns of every row with that id from the body (an absent playlist as `[]`), leaves every other row as it was, and keeps the table's length and order |
| Schedules.WithoutId | src/backend/server.js:192 | `DELETE ... WHERE id=?` keeps exactly the rows with another id, and keeps ids in increasing order |
| Schedules.DeleteOneRemovesOneRow | src/backend/server.js:192 | with distinct ids, deleting an id removes exactly one row when it is present and none otherwise |
| Resolver.ActiveSchedules | src/backend/server.js:209-226 | a row is in the active set exactly when its start and end instants are valid and `start <= now <= end.999` |
| Resolver.ActiveSchedulesCounts | src/backend/server.js:209-226 | the filter keeps an active row as many times as the table holds it, and an inactive one not at all |
| Resolver.ActiveSchedulesConcat | src/backend/server.js:209-226 | the filter works row by row: filtering a concatenation filters each part and keeps them in order, which fixes the result's order |
| Resolver.LatestFrom | src/backend/server.js:233-243 | the reduce returns its seed or one of the rows it folds over |
| Resolver.LatestFromActive | src/backend/server.js:233-243 | folding from an active accumulator has two outcomes: the accumulator is kept when no active row starts later, or the fold ends on the earliest of the active rows with the latest start, which starts strictly later than the accumulator |
| Resolver.ResolveIsWinner | src/backend/server.js:228-243 | the answer is inactive exactly when no row is active; otherwise it is an active row that no active row starts after, and every active row before it in the table starts strictly earlier (the earlier row wins a tie) |
| Resolver.ResolvedIsActiveRow | src/backend/server.js:233-243 | the chosen schedule is a row of the table and is active |
| Resolver.LogStartOnce | src/backend/server.js:246-264 | once a start log stamped on or after the start date exists, the check-then-insert adds nothing; one step adds at most one row |
| Resolver.ResolveTwiceLogsOnce | src/backend/server.js:228-265 | two calls that pick the same schedule add at most one log row in all, and a call with nothing active adds none |
| Server.Database.constructor | src/backend/server.js:37-69 | the three tables start empty with their counters at 1 |
| Server.Database.Upload | src/backend/server.js:73-92 | a missing name, artist or file gives 400 and no change; otherwise exactly one song row is appended under a fresh id |
| Server.Database.ListSongs | src/backend/server.js:94-122 | `GET /songs` answers the mapped song list |
| Server.Database.ListSchedules | src/backend/server.js:128-144 | `GET /schedules` answers the rows as stored |
| Server.Database.CreateSchedule | src/backend/server.js:146-163 | a missing required field gives 400 and no change; otherwise exactly one row is appended under an id no row has, and the other tables are unchanged |
| Server.Database.UpdateSchedule | src/backend/server.js:165-180 | an id with no row changes nothing and answers "Schedule updated" whatever the body; for an id with a row, an absent column fails the NOT NULL constraint and changes nothing; a complete body makes the table `UpdateRows`, and ids stay increasing |
| Server.Database.DeleteSchedules | src/backend/server.js:182-197 | the table becomes `DeleteRows` of the target: `all` empties it, and an id keeps exactly the rows with another id |
| Server.Database.ActiveSchedule | src/backend/server.js:199-293 | the answer is the resolver's choice, the log table is the check-then-insert applied to it, and the log counter advances by the rows added |
| TimePicker.TwelveHour | src/app/timepicker/TimePicker.tsx:25-31 | from 12 up the period is PM, below it AM; an hour of the day maps into 1..12 |
| TimePicker.TwentyFourHour | src/app/timepicker/TimePicker.tsx:58-60 | a 12-hour reading maps into 0..23, below 12 for AM and from 12 up for PM |
| TimePicker.TwentyFourOfTwelve | src/app/timepicker/TimePicker.tsx:25-31 | every hour 0..23 survives the trip to the 12-hour clock and back |
| TimePicker.TwelveOfTwentyFour | src/app/timepicker/TimePicker.tsx:58-60 | every reading (1..12, AM or PM) survives the trip to the 24-hour clock and back |
| TimePicker.ComposeOfSelection | src/app/timepicker/TimePicker.tsx:57-64 | the output is the two-digit 24-hour hour, then the minutes and seconds as they are |
| TimePicker.ValueRoundTrip | src/app/timepicker/TimePicker.tsx:21-35 | initialising from an `HH:MM:SS` value (HH 00..23) and composing gives the same value back |
| TimePicker.MissingSecondsDefault | src/app/timepicker/TimePicker.tsx:34-35 | a value without seconds starts the seconds at `"00"` and keeps its minutes |
| TimePicker.ServerReadsComposedTime | src/app/timepicker/TimePicker.tsx:62-63 | the picker's output parses on the server to the chosen time of day on the 24-hour clock |
| TimePicker.Picker.constructor | src/app/timepicker/TimePicker.tsx:9-13 | the fields start at 12:00:00 AM, not yet initialised |
| TimePicker.Picker.Initialize | src/app/timepicker/TimePicker.tsx:17-54 | the first call sets the fields from the value (or from the clock when the value is empty); later calls change nothing |
| Player.NextIndex | src/app/playlist/page.tsx:105 | on a non-empty list an index in range steps to an index in range; an empty list gives NaN |
| Player.PrevIndex | src/app/playlist/page.tsx:111 | on a non-empty list an index in range steps to an index in range; an empty list gives NaN |
| Player.NextPrevInverse | src/app/playlist/page.tsx:104-114 | next and previous undo each other on every index of a non-empty list |
| Player.IndexWrapsAround | src/app/playlist/page.tsx:104-114 | next from the last song is the first, previous from the first is the last, and with one song both stay put |
| Player.NextAvatarClass | src/app/playlist/page.tsx:86-88 | the avatar style index stays among the three styles and always changes |
| Player.AvatarCycle | src/app/playlist/page.tsx:52-88 | three presses bring the avatar style back; each press moves to the next style, from the last to the first |
| Player.SongAt | src/app/playlist/page.tsx:116-118 | `musicAPI[index]` is a song exactly when the index is a number within the list |
| Player.PlaylistPage.constructor | src/app/playlist/page.tsx:24-47 | an empty list, the placeholder song, index 0, not playing, first avatar style, no dialog and no override |
| Player.PlaylistPage.LoadSongs | src/app/playlist/page.tsx:55-70 | the list is stored; a non-empty list makes its first song current and points a mounted audio element at it |
| Player.PlaylistPage.UpdateCurrentMusicDetails | src/app/playlist/page.tsx:116-127 | an index with no song changes nothing; otherwise the song becomes current and a mounted audio element plays it |
| Player.PlaylistPage.HandleNextSong | src/app/playlist/page.tsx:104-108 | the index advances circularly; when it has a song, that song becomes current and a mounted audio element is pointed at it and plays; when it has none, the song, the element and `isAudioPlaying` stay as they were |
| Player.PlaylistPage.HandlePrevSong | src/app/playlist/page.tsx:110-114 | the index steps back circularly; when it has a song, that song becomes current and a mounted audio element is pointed at it and plays; when it has none, the song, the element and `isAudioPlaying` stay as they were |
| Player.PlaylistPage.HandleAvatar | src/app/playlist/page.tsx:86-88 | the avatar style advances by one, circularly |
| Player.PlaylistPage.HandleAudioPlay | src/app/playlist/page.tsx:90-102 | a paused element plays and `isAudioPlaying` becomes true; a playing one pauses and it becomes false; without an element nothing changes |
| Player.PlaylistPage.OpenOverrideModal | src/app/playlist/page.tsx:218 | the override dialog opens |
| Player.PlaylistPage.PickOverride | src/app/playlist/page.tsx:236-240 | the picked song becomes current, override mode is on and the dialog closes |
| Toggles.RemoveKey | src/app/schedule/page.tsx:115-120 | the filter keeps exactly the entries with another key as members, so no entry has the removed key afterwards |
| Toggles.RemoveKeyConcat | src/app/schedule/page.tsx:115-120 | the filter works entry by entry: filtering a concatenation filters each part and keeps them in order |
| Toggles.RemoveKeyOne | src/app/schedule/page.tsx:115-120 | one entry is dropped when it has the key and kept otherwise; with `RemoveKeyConcat` this fixes the order and multiplicity of the result |
| Toggles.RemoveAbsentKey | src/app/schedule/page.tsx:115-120 | removing a key no entry has leaves the list as it was |
| Toggles.ToggleAbsentAppends | src/app/schedulemusic/page.tsx:103-109 | toggling a song whose `songSrc` is absent appends it at the end |
| Toggles.TogglePresentRemoves | src/app/schedulemusic/page.tsx:103-109 | toggling a present song is the filter by its `songSrc`: every entry with it goes and the others stay, in order |
| Toggles.ToggleTwiceRestores | src/app/schedulemusic/page.tsx:103-109 | toggling an absent song twice gives the list back |
| Toggles.ToggleKeepsDistinct | src/app/schedulemusic/page.tsx:103-109 | a toggle keeps a list free of repeated keys |
| WeekView.Weekday | src/app/schedulemusic/page.tsx:48 | `getDay()` lies in 0..6 |
| WeekView.DistanceToMonday | src/app/schedulemusic/page.tsx:49 | the distance lies in -6..0 and lands on Monday: `(currentDay + distance) mod 7 = 1` |
| WeekView.GetWeekRange | src/app/schedulemusic/page.tsx:46-60 | the step-by-step Date updates give midnight of that week's Monday and the last millisecond of its Sunday |
| WeekView.WeekRunsMondayToSunday | src/app/schedulemusic/page.tsx:51-57 | the range starts on a Monday, ends on the Sunday six days later, and spans exactly seven days |
| WeekView.CurrentWeekHoldsNow | src/app/schedulemusic/page.tsx:46-60 | with offset 0 the range holds the current instant |
| WeekView.NextWeekFollows | src/app/schedulemusic/page.tsx:52-53 | each offset step moves Monday by exactly seven days, and a week begins one millisecond after the previous one ends |
| WeekView.SchedulesInWeek | src/app/schedulemusic/page.tsx:69-73 | a schedule is kept exactly when its start date is not after Sunday and its end date is not before Monday |
| WeekView.SchedulesInWeekCounts | src/app/schedulemusic/page.tsx:69-73 | the filter keeps a schedule that meets the week as many times as the response holds it, and any other not at all |
| WeekView.SchedulesInWeekConcat | src/app/schedulemusic/page.tsx:69-73 | the filter works schedule by schedule: filtering a concatenation filters each part and keeps them in order |
| WeekView.OverlapsWeekInDays | src/app/schedulemusic/page.tsx:69-73 | in day numbers, a schedule is kept exactly when its start date is at most the week's Sunday and its end date at least its Monday |
| WeekView.IsoSeconds | src/app/schedulemusic/page.tsx:77-78 | an ISO seconds field, `ss` or `ss.sss`, reads as non-negative seconds and milliseconds in 0..999 |
| WeekView.IsoTimeMs | src/app/schedulemusic/page.tsx:77-78 | a time the ECMAScript date-time format accepts lies within the day or is `24:00`, the end of the day |
| WeekView.IsoOfFields | src/app/schedulemusic/page.tsx:77-78 | `HH:mm:ss` and `HH:mm:ss.sss` are read field by field: hours up to 23, minutes and seconds up to 59, or 24 with everything else zero; any other value is an invalid date |
| WeekView.IsoEndOfDay | src/app/schedulemusic/page.tsx:77-78 | `24:00` is the first instant of the next day |
| WeekView.IsoClockWithFraction | src/app/schedulemusic/page.tsx:77-78 | a clock time with a three-digit fraction of a second adds its milliseconds |
| WeekView.IsoTimeOfClockText | src/app/schedulemusic/page.tsx:75-79 | on the picker's `HH:MM:SS` text, the page's ISO reading and the server's reading agree |
| WeekView.EarlierDayFirst | src/app/schedulemusic/page.tsx:75-79 | a schedule starting on an earlier day never sorts after a later day's; the only tie is `24:00` against midnight of the next day, the same instant |
| WeekView.SortBy | src/app/schedulemusic/page.tsx:75-79 | the in-place sort leaves the array ascending in the key and a permutation of what it was |
| WeekView.SortByStart | src/app/schedulemusic/page.tsx:75-79 | the schedules end ascending by start instant, as a permutation of the filtered list |
| WeekView.ShownSchedules | src/app/schedulemusic/page.tsx:62-81 | the list shown for a week is sorted by start, is a permutation of the filtered response, holds exactly the schedules that meet the week, and shows each as many times as the response holds it |
| WeekView.EditBody | src/app/schedulemusic/page.tsx:114 | the edit payload can be bound by the PUT, and applied to the schedule it came from it changes only the playlist |
| WeekView.EditReplacesOnlyPlaylist | src/app/schedulemusic/page.tsx:111-118 | saving the edit dialog replaces the edited schedule's playlist and leaves every other column and every other row unchanged |
| WeekView.EditDialog.constructor | src/app/schedulemusic/page.tsx:35-40 | the dialog starts closed with nothing selected |
| WeekView.EditDialog.HandleEdit | src/app/schedulemusic/page.tsx:91-101 | the dialog opens on the schedule, with its own playlist selected and the fetched songs offered |
| WeekView.EditDialog.ToggleSongSelection | src/app/schedulemusic/page.tsx:103-109 | the selection is toggled by `songSrc` and stays free of repeated sources |
| WeekView.EditDialog.HandleUpdateSchedule | src/app/schedulemusic/page.tsx:111-126 | nothing happens without a schedule; otherwise the schedule's id and the edit payload are sent, and an answered request closes the dialog and clears the selection |
| ScheduleForm.FormatDuration | src/app/schedule/page.tsx:56-63 | the text is "N/A" exactly when the duration is undefined, NaN or 0 |
| ScheduleForm.FormatPositive | src/app/schedule/page.tsx:56-63 | for any positive duration, fractional or whole, the text is the whole minutes, a colon and the whole seconds past the minute as two digits |
| ScheduleForm.FormatTwoMinutesFive | src/app/schedule/page.tsx:56-63 | 125 seconds read "2:05" |
| ScheduleForm.MonthDateOptions | src/app/schedule/page.tsx:372-373 | there are 31 month-date options, in ascending order |
| ScheduleForm.MonthDateOptionsAreDays | src/app/schedule/page.tsx:372-373 | the month-date options are exactly the days 1 to 31 |
| ScheduleForm.SchedulePayload | src/app/schedule/page.tsx:172-182 | a complete form's payload passes the server's required-field check and carries the songs under `songs`, not `playlist`; `weekdays` is empty unless the repeat type is weekly, and `monthDates` empty unless it is monthly |
| ScheduleForm.CorrectedPayload | src/app/schedule/page.tsx:172-182 | the same payload with the songs under `playlist` |
| ScheduleForm.SubmittedPlaylistIsDropped | src/app/schedule/page.tsx:178 | as written, a schedule created from a complete form is stored with an empty playlist, which is not the selected songs |
| ScheduleForm.CorrectedPayloadKeepsSongs | src/app/schedule/page.tsx:178 | with the songs under `playlist`, the created row holds exactly the form's name, dates, times and selected songs |
| ScheduleForm.DayToggleKeepsDistinct | src/app/schedule/page.tsx:355-384 | toggling a weekday or a month date never repeats one |
| ScheduleForm.ChoicesStayOptions | src/app/schedule/page.tsx:347-384 | the chosen weekdays stay among Mon to Sun and the chosen dates among 1 to 31, whatever is toggled |
| ScheduleForm.SchedulePage.constructor | src/app/schedule/page.tsx:33-51 | every field starts empty and the repeat type is none |
| ScheduleForm.SchedulePage.ToggleSongSelection | src/app/schedule/page.tsx:95-102 | the selection is toggled by `songSrc` |
| ScheduleForm.SchedulePage.ToggleDay | src/app/schedule/page.tsx:355-360 | the weekday is toggled and the weekdays stay free of repeats |
| ScheduleForm.SchedulePage.ToggleDate | src/app/schedule/page.tsx:379-384 | the month date is toggled and the dates stay free of repeats |
| ScheduleForm.SchedulePage.DeleteSong | src/app/schedule/page.tsx:109-126 | without confirmation nothing changes; after a successful delete the song leaves both the offered and the selected lists by `songSrc`; a failed delete only sets the message |
| ScheduleForm.SchedulePage.ClearForm | src/app/schedule/page.tsx:189-197 | every form field is cleared and the repeat type returns to none |
| ScheduleForm.SchedulePage.Submit | src/app/schedule/page.tsx:154-210 | an incomplete form only shows the warning and sends nothing; a complete one sends its payload, a save clears the form, a failure keeps it, and `saving` ends false |

## Left out

- Express routing, CORS, multer storage, static files and the sqlite3 driver are not modelled: they are I/O. The tables are sequences of rows in a class, and a route is a method that runs to completion.
- A database error answering 500 is not modelled, except for the NOT NULL failure of `PUT`.
- JSON encoding and decoding of the playlist column is taken as the identity.
- The log step's SELECT and INSERT are one atomic step. Concurrent requests, which could interleave them and log twice, are not modelled.
- Dates are day numbers in a single zone. `new Date("YYYY-MM-DD")` is UTC midnight while `setHours` and the week view use local time; this model takes them to be the same.
- `Number` is modelled only on what a time field can hold. The empty text is 0, decimal digits are their value, and anything else is NaN; signs, spaces, fractions and hexadecimal are not modelled.
- `parseInt` leading whitespace is not modelled.
- The "ENDED" loop (src/backend/server.js:268-278) is not modelled. It only prints, and it never fires, because every active schedule ends at or after `now`.
- The console logging is not modelled.
- `DELETE /schedules/:id`'s `mode` only appears in the response message, so it is not modelled.
- `POST /schedules` never answers 409. The page's conflict message (src/app/schedule/page.tsx:202-203) is folded into the failure outcome, which always shows "Failed to save schedule.".
- The server has no `DELETE /songs/:filename` route, so the page's song delete always fails against it. `DeleteSong` takes the request's outcome as a parameter.
- Media playback, `load()`/`play()` promises, the progress bar, time display and durations read from `loadedmetadata` are not modelled: they are media APIs and floating point. Playing a song is modelled as the element's `paused` flag turning false.
- FormatDuration: infinite durations are not modelled (`JsNumber` has no Infinity), and nor is the exponent notation `toString` uses for huge numbers. The text for a negative duration is not stated, because `audio.duration` is never negative.
- Timers, the idle navigation, the message auto-dismiss, the clock, the scheduled-playlist polling and `scheduleStore.ts` are not modelled. `isScheduledPlaying` is never set to true in the page, so loading the list always applies.
- `src/app/layout.tsx`, `src/app/page.tsx` and `src/app/addmusic/page.tsx` are not part of this model. They hold menus, a clock and an upload form whose check is the server's.
- The page's ISO reading does not model a time-zone suffix (`Z`, `+HH:mm`) in a stored time, nor the engine's fallback parser for text outside the ECMAScript format. Both give `None` here.
- Dates are day numbers of `yyyy-MM-dd` text, so years 0000 to 9999. These lie well inside the Date range, which bounds only the time added to them.
- `SortByStart` is specified by a key rather than by the page's comparator. When a start time does not parse as ISO 8601, the comparator returns NaN and the order `sort` then produces is engine-defined; the model ranks such a schedule at midnight of its start date. The sort is stable like `Array.prototype.sort`, but stability is not stated as a contract.
- The week view's delete dialogs and occurrence selection (src/app/schedulemusic/page.tsx:128 onwards) are not modelled.
- A selected date's `format(..., "yyyy-MM-dd")` is taken as its day number.

## Findings

| source | as written | input that shows it | evidently intended | confidence | as-written member | corrected member |
|---|---|---|---|---|---|---|
| src/app/schedule/page.tsx:178 | the form posts the selected songs under the key `songs`; the server reads `playlist` and stores `playlist \|\| []` (src/backend/server.js:157) | any complete form with at least one selected song: the created row's playlist is `[]` | the selected songs are stored as the schedule's playlist | high (not executed) | ScheduleForm.SubmittedPlaylistIsDropped | ScheduleForm.CorrectedPayloadKeepsSongs |

/** The server's state and routes (src/backend/server.js): the `songs`,
    `schedules` and `schedule_logs` tables, each with its AUTOINCREMENT
    counter, and the handlers that read and change them. Each handler runs to
    completion before the next starts; HTTP, the database driver and the file
    storage are not modelled. */
module Server {
  import opened Wrappers
  import opened Songs
  import opened Schedules
  import opened Resolver

  datatype UploadResponse = UploadMissingFields | Uploaded(songId: int)
  datatype CreateResponse = CreateMissingFields | Created(scheduleId: int)
  datatype UpdateResponse = UpdateFailed | ScheduleUpdated

  class Database {
    var songs: seq<SongRow>
    var nextSongId: int
    var schedules: seq<Schedule>
    var nextScheduleId: int
    var logs: seq<LogEntry>
    var nextLogId: int

    /** Every id is below its table's counter, and schedules sit in id order. */
    ghost predicate Valid()
      reads this
    {
      1 <= nextSongId && 1 <= nextScheduleId && 1 <= nextLogId &&
      (forall i :: 0 <= i < |songs| ==> songs[i].id < nextSongId) &&
      (forall i :: 0 <= i < |schedules| ==> schedules[i].id < nextScheduleId) &&
      (forall i :: 0 <= i < |logs| ==> logs[i].id < nextLogId) &&
      IdsIncreasing(schedules)
    }

    constructor ()
      ensures Valid()
      ensures songs == [] && schedules == [] && logs == []
      ensures nextSongId == 1 && nextScheduleId == 1 && nextLogId == 1
    {
      songs, schedules, logs := [], [], [];
      nextSongId, nextScheduleId, nextLogId := 1, 1, 1;
    }

    /** `POST /uploads`: 400 unless name, artist and file are given; otherwise
        one song row under the next id. */
    method Upload(songName: Option<string>, songArtist: Option<string>, fileName: Option<string>)
      returns (r: UploadResponse)
      requires Valid()
      modifies this`songs, this`nextSongId
      ensures Valid()
      ensures !UploadAccepted(songName, songArtist, fileName) ==>
        r == UploadMissingFields && songs == old(songs) && nextSongId == old(nextSongId)
      ensures UploadAccepted(songName, songArtist, fileName) ==>
        r == Uploaded(old(nextSongId)) && nextSongId == old(nextSongId) + 1 &&
        songs == old(songs) + [SongRow(old(nextSongId), songName.value, songArtist.value, fileName.value)]
      ensures forall i :: 0 <= i < |old(songs)| ==> old(songs)[i].id != old(nextSongId)
    {
      if !UploadAccepted(songName, songArtist, fileName) {
        return UploadMissingFields;
      }
      songs := songs + [SongRow(nextSongId, songName.value, songArtist.value, fileName.value)];
      r := Uploaded(nextSongId);
      nextSongId := nextSongId + 1;
    }

    /** `GET /songs` and `GET /songs-list`. */
    method ListSongs() returns (list: seq<Song>)
      ensures list == SongsList(songs)
    {
      list := SongsList(songs);
    }

    /** `GET /schedules`. */
    method ListSchedules() returns (rows: seq<Schedule>)
      ensures rows == schedules
    {
      rows := schedules;
    }

    /** `POST /schedules`: 400 and no change when a required field is missing;
        otherwise exactly one row is appended, under an id no row has. */
    method CreateSchedule(b: ScheduleBody) returns (r: CreateResponse)
      requires Valid()
      modifies this`schedules, this`nextScheduleId
      ensures Valid()
      ensures !CreateAccepted(b) ==>
        r == CreateMissingFields && schedules == old(schedules) && nextScheduleId == old(nextScheduleId)
      ensures CreateAccepted(b) ==>
        r == Created(old(nextScheduleId)) && nextScheduleId == old(nextScheduleId) + 1 &&
        schedules == old(schedules) + [NewRow(old(nextScheduleId), b)]
      ensures forall i :: 0 <= i < |old(schedules)| ==> old(schedules)[i].id != old(nextScheduleId)
    {
      if !CreateAccepted(b) {
        return CreateMissingFields;
      }
      schedules := schedules + [NewRow(nextScheduleId, b)];
      r := Created(nextScheduleId);
      nextScheduleId := nextScheduleId + 1;
    }

    /** `PUT /schedules/:id`: the row with that id gets all six columns from
        the body. An absent column binds NULL, which fails the NOT NULL
        constraint only on a row the statement writes: an id with no row
        changes nothing and answers "Schedule updated" whatever the body. */
    method UpdateSchedule(id: int, b: ScheduleBody) returns (r: UpdateResponse)
      requires Valid()
      modifies this`schedules
      ensures Valid()
      ensures !HasId(old(schedules), id) ==> r == ScheduleUpdated && schedules == old(schedules)
      ensures HasId(old(schedules), id) && !UpdateBindable(b) ==> r == UpdateFailed && schedules == old(schedules)
      ensures UpdateBindable(b) ==> r == ScheduleUpdated && schedules == UpdateRows(old(schedules), id, b)
    {
      if !HasId(schedules, id) {
        if UpdateBindable(b) {
          assert UpdateRows(schedules, id, b) == schedules;
        }
        return ScheduleUpdated;
      }
      if !UpdateBindable(b) {
        return UpdateFailed;
      }
      schedules := UpdateRows(schedules, id, b);
      r := ScheduleUpdated;
      assert IdsIncreasing(schedules) by {
        forall i, j | 0 <= i < j < |schedules| ensures schedules[i].id < schedules[j].id {
          assert schedules[i].id == old(schedules)[i].id && schedules[j].id == old(schedules)[j].id;
        }
      }
    }

    /** `DELETE /schedules/all` empties the table; `DELETE /schedules/:id`
        removes the rows with that id. */
    method DeleteSchedules(target: DeleteTarget)
      requires Valid()
      modifies this`schedules
      ensures Valid()
      ensures schedules == DeleteRows(old(schedules), target)
      ensures target == AllRows ==> schedules == []
    {
      schedules := DeleteRows(schedules, target);
    }

    /** `GET /schedules/active` at instant `now`: answer the resolver's choice
        and, when a schedule is active and no log row of it started on or after
        its start date, append one stamped `now`. */
    method ActiveSchedule(now: int) returns (r: ActiveResponse)
      requires Valid()
      modifies this`logs, this`nextLogId
      ensures Valid()
      ensures r == Resolve(schedules, now)
      ensures logs == LogsAfter(schedules, old(logs), old(nextLogId), now)
      ensures nextLogId == old(nextLogId) + |logs| - |old(logs)|
    {
      r := Resolve(schedules, now);
      if r.Active? {
        var s := r.schedule;
        var found := HasStartLog(logs, s);
        if !found {
          logs := logs + [LogEntry(nextLogId, s.id, s.name, now, None)];
          nextLogId := nextLogId + 1;
        }
      }
    }
  }
}

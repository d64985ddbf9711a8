/** `GET /schedules/active` (src/backend/server.js): keep the schedules whose
    instant window holds `now`, reduce them to the one that started last, and
    log its start once. Recurrence plays no part: a Schedule has no recurrence
    field to consult. */
module Resolver {
  import opened Wrappers
  import opened Instants
  import opened Schedules

  /** `now >= startDateTime && now <= endDateTime`; a comparison with an
      invalid Date is false, so a schedule whose times do not parse is never
      active. */
  predicate IsActive(s: Schedule, now: int)
  {
    StartInstant(s).Some? && EndInstant(s).Some? &&
    StartInstant(s).value <= now <= EndInstant(s).value
  }

  /** `rows.filter(...)`: the active schedules, in table order. */
  function ActiveSchedules(rows: seq<Schedule>, now: int): (active: seq<Schedule>)
    ensures |active| <= |rows|
    ensures forall s :: s in active <==> s in rows && IsActive(s, now)
  {
    if rows == [] then []
    else if IsActive(rows[0], now) then [rows[0]] + ActiveSchedules(rows[1..], now)
    else ActiveSchedules(rows[1..], now)
  }

  /** The filter keeps each row as many times as the input holds it when
      it passes, and not at all otherwise. */
  lemma {:induction false} ActiveSchedulesCounts(rows: seq<Schedule>, now: int)
    ensures forall s :: multiset(ActiveSchedules(rows, now))[s] == if IsActive(s, now) then multiset(rows)[s] else 0
  {
    if rows != [] {
      ActiveSchedulesCounts(rows[1..], now);
      assert rows == [rows[0]] + rows[1..];
    }
  }

  /** The filter works row by row: filtering a concatenation filters each part
      and keeps them in order. */
  lemma {:induction false} ActiveSchedulesConcat(a: seq<Schedule>, b: seq<Schedule>, now: int)
    ensures ActiveSchedules(a + b, now) == ActiveSchedules(a, now) + ActiveSchedules(b, now)
  {
    if a == [] {
      assert a + b == b;
      assert ActiveSchedules(a, now) == [];
    } else {
      var ab := a + b;
      assert ab[0] == a[0] && ab[1..] == a[1..] + b;
      ActiveSchedulesConcat(a[1..], b, now);
      var rest := ActiveSchedules(ab[1..], now);
      assert rest == ActiveSchedules(a[1..], now) + ActiveSchedules(b, now);
      if IsActive(a[0], now) {
        assert ActiveSchedules(ab, now) == [a[0]] + rest;
        assert ActiveSchedules(a, now) == [a[0]] + ActiveSchedules(a[1..], now);
        var x, y := ActiveSchedules(a[1..], now), ActiveSchedules(b, now);
        assert [a[0]] + (x + y) == ([a[0]] + x) + y;
      } else {
        assert ActiveSchedules(ab, now) == rest;
        assert ActiveSchedules(a, now) == ActiveSchedules(a[1..], now);
      }
    }
  }

  /** `currStart > prevStart` on Dates: false when either is invalid. */
  predicate StartsLater(curr: Schedule, prev: Schedule)
  {
    StartInstant(curr).Some? && StartInstant(prev).Some? &&
    StartInstant(curr).value > StartInstant(prev).value
  }

  /** The `reduce` callback folded from the left over `rest` with `acc` as the
      accumulator: only a strictly later start replaces it. */
  function LatestFrom(acc: Schedule, rest: seq<Schedule>): (r: Schedule)
    ensures r == acc || r in rest
    decreases |rest|
  {
    if rest == [] then acc
    else LatestFrom(if StartsLater(rest[0], acc) then rest[0] else acc, rest[1..])
  }

  /** The JSON answer: `{active: false}` or `{active: true, schedule}`. */
  datatype ActiveResponse = Inactive | Active(schedule: Schedule)

  /** The resolver: `reduce` without a seed starts from the first active row. */
  function Resolve(rows: seq<Schedule>, now: int): ActiveResponse
  {
    var active := ActiveSchedules(rows, now);
    if |active| == 0 then Inactive else Active(LatestFrom(active[0], active[1..]))
  }

  function Start(s: Schedule): int
    requires StartInstant(s).Some?
  {
    StartInstant(s).value
  }

  /** Row `k` is active, no active row starts later, and every active row
      before it starts strictly earlier: the latest start, earliest row on a
      tie. */
  predicate IsWinner(rows: seq<Schedule>, now: int, k: int)
  {
    0 <= k < |rows| && IsActive(rows[k], now) &&
    forall j :: 0 <= j < |rows| && IsActive(rows[j], now) ==>
      Start(rows[j]) <= Start(rows[k]) && (j < k ==> Start(rows[j]) < Start(rows[k]))
  }

  /** A winner of the tail is the winner of the whole when the head is not an
      active row starting as late. */
  lemma WinnerShift(xs: seq<Schedule>, now: int, k: int)
    requires xs != [] && IsWinner(xs[1..], now, k)
    requires IsActive(xs[0], now) ==> Start(xs[0]) < Start(xs[1..][k])
    ensures IsWinner(xs, now, k + 1)
  {
    var tail := xs[1..];
    forall j | 0 <= j < |xs| && IsActive(xs[j], now)
      ensures Start(xs[j]) <= Start(xs[k + 1]) && (j < k + 1 ==> Start(xs[j]) < Start(xs[k + 1]))
    {
      if j > 0 {
        assert xs[j] == tail[j - 1];
      }
    }
  }

  /** An active head that no active row of the tail starts after wins. */
  lemma WinnerHead(xs: seq<Schedule>, now: int)
    requires xs != [] && IsActive(xs[0], now)
    requires forall j :: 0 <= j < |xs[1..]| && IsActive(xs[1..][j], now) ==> Start(xs[1..][j]) <= Start(xs[0])
    ensures IsWinner(xs, now, 0)
  {
    forall j | 0 <= j < |xs| && IsActive(xs[j], now) ensures Start(xs[j]) <= Start(xs[0]) {
      if j > 0 {
        assert xs[j] == xs[1..][j - 1];
      }
    }
  }

  /** The two outcomes of a fold over the active rows of `xs` from an active
      accumulator. */
  ghost predicate FoldOutcome(acc: Schedule, xs: seq<Schedule>, now: int, r: Schedule)
    requires IsActive(acc, now)
  {
    (r == acc && forall j :: 0 <= j < |xs| && IsActive(xs[j], now) ==> Start(xs[j]) <= Start(acc)) ||
    (exists k :: IsWinner(xs, now, k) && xs[k] == r && Start(xs[k]) > Start(acc))
  }

  /** A head that is inactive, or active but not starting after the
      accumulator, leaves the outcome of the fold over the tail standing. */
  lemma ExtendKeep(acc: Schedule, xs: seq<Schedule>, now: int, r: Schedule)
    requires xs != [] && IsActive(acc, now)
    requires IsActive(xs[0], now) ==> Start(xs[0]) <= Start(acc)
    requires FoldOutcome(acc, xs[1..], now, r)
    ensures FoldOutcome(acc, xs, now, r)
  {
    var tail := xs[1..];
    if exists k :: IsWinner(tail, now, k) && tail[k] == r && Start(tail[k]) > Start(acc) {
      var k :| IsWinner(tail, now, k) && tail[k] == r && Start(tail[k]) > Start(acc);
      WinnerShift(xs, now, k);
    } else {
      forall j | 0 <= j < |xs| && IsActive(xs[j], now) ensures Start(xs[j]) <= Start(acc) {
        if j > 0 {
          assert xs[j] == tail[j - 1];
        }
      }
    }
  }

  /** An active head starting after the accumulator replaces it: the fold
      over the tail from the head ends on the winner of the whole. */
  lemma ExtendReplace(acc: Schedule, xs: seq<Schedule>, now: int, r: Schedule)
    requires xs != [] && IsActive(acc, now) && IsActive(xs[0], now)
    requires Start(xs[0]) > Start(acc)
    requires FoldOutcome(xs[0], xs[1..], now, r)
    ensures FoldOutcome(acc, xs, now, r)
  {
    var tail := xs[1..];
    if exists k :: IsWinner(tail, now, k) && tail[k] == r && Start(tail[k]) > Start(xs[0]) {
      var k :| IsWinner(tail, now, k) && tail[k] == r && Start(tail[k]) > Start(xs[0]);
      WinnerShift(xs, now, k);
    } else {
      WinnerHead(xs, now);
    }
  }

  /** Folding over the active rows of `xs` from an active accumulator either
      keeps the accumulator, when no active row of `xs` starts later, or ends on
      the winner of `xs`, which starts strictly later than the accumulator. */
  lemma {:induction false} LatestFromActive(acc: Schedule, xs: seq<Schedule>, now: int)
    requires IsActive(acc, now)
    ensures FoldOutcome(acc, xs, now, LatestFrom(acc, ActiveSchedules(xs, now)))
    decreases |xs|
  {
    if xs != [] {
      var x, tail := xs[0], xs[1..];
      var r := LatestFrom(acc, ActiveSchedules(xs, now));
      if !IsActive(x, now) {
        assert ActiveSchedules(xs, now) == ActiveSchedules(tail, now);
        LatestFromActive(acc, tail, now);
        ExtendKeep(acc, xs, now, r);
      } else if StartsLater(x, acc) {
        assert ActiveSchedules(xs, now) == [x] + ActiveSchedules(tail, now);
        assert r == LatestFrom(x, ActiveSchedules(tail, now));
        LatestFromActive(x, tail, now);
        ExtendReplace(acc, xs, now, r);
      } else {
        assert ActiveSchedules(xs, now) == [x] + ActiveSchedules(tail, now);
        assert r == LatestFrom(acc, ActiveSchedules(tail, now));
        LatestFromActive(acc, tail, now);
        ExtendKeep(acc, xs, now, r);
      }
    }
  }

  /** The resolver's contract: inactive exactly when no row is active, and
      otherwise the answer is the winning row of the table. */
  lemma {:induction false} ResolveIsWinner(rows: seq<Schedule>, now: int)
    ensures Resolve(rows, now).Inactive? <==> forall j :: 0 <= j < |rows| ==> !IsActive(rows[j], now)
    ensures Resolve(rows, now).Active? ==>
      exists k :: IsWinner(rows, now, k) && rows[k] == Resolve(rows, now).schedule
  {
    if rows != [] {
      var x, tail := rows[0], rows[1..];
      if !IsActive(x, now) {
        assert ActiveSchedules(rows, now) == ActiveSchedules(tail, now);
        ResolveIsWinner(tail, now);
        assert Resolve(rows, now) == Resolve(tail, now);
        if Resolve(rows, now).Active? {
          var k :| IsWinner(tail, now, k) && tail[k] == Resolve(rows, now).schedule;
          WinnerShift(rows, now, k);
        } else {
          forall j | 0 <= j < |rows| ensures !IsActive(rows[j], now) {
            if j > 0 {
              assert rows[j] == tail[j - 1];
            }
          }
        }
      } else {
        var active := ActiveSchedules(rows, now);
        assert active == [x] + ActiveSchedules(tail, now);
        assert active[0] == x && active[1..] == ActiveSchedules(tail, now);
        LatestFromActive(x, tail, now);
        var r := Resolve(rows, now).schedule;
        assert r == LatestFrom(x, ActiveSchedules(tail, now));
        if exists k :: IsWinner(tail, now, k) && tail[k] == r && Start(tail[k]) > Start(x) {
          var k :| IsWinner(tail, now, k) && tail[k] == r && Start(tail[k]) > Start(x);
          WinnerShift(rows, now, k);
        } else {
          WinnerHead(rows, now);
        }
      }
    }
  }

  /** The answer is one of the table's rows and is active. */
  lemma ResolvedIsActiveRow(rows: seq<Schedule>, now: int)
    requires Resolve(rows, now).Active?
    ensures Resolve(rows, now).schedule in rows
    ensures IsActive(Resolve(rows, now).schedule, now)
  {
    ResolveIsWinner(rows, now);
  }

  /** A row of the `schedule_logs` table; `endedAt` is never written. */
  datatype LogEntry = LogEntry(id: int, scheduleId: int, scheduleName: string, startedAt: int, endedAt: Option<int>)

  /** `SELECT * FROM schedule_logs WHERE scheduleId=? AND startedAt >= ?`
      with the schedule's id and start date: some log row of this schedule
      started on or after its start date. */
  predicate HasStartLog(logs: seq<LogEntry>, s: Schedule)
  {
    exists i :: 0 <= i < |logs| && logs[i].scheduleId == s.id && logs[i].startedAt >= DayStart(s.startDate)
  }

  /** The check-then-insert of the start log, run as one step: append a row
      with id `logId` stamped `now` unless such a row exists. */
  function LogStart(logs: seq<LogEntry>, logId: int, s: Schedule, now: int): seq<LogEntry>
  {
    if HasStartLog(logs, s) then logs
    else logs + [LogEntry(logId, s.id, s.name, now, None)]
  }

  /** The log table after one call of the endpoint. */
  function LogsAfter(rows: seq<Schedule>, logs: seq<LogEntry>, logId: int, now: int): seq<LogEntry>
  {
    match Resolve(rows, now)
    case Inactive => logs
    case Active(s) => LogStart(logs, logId, s, now)
  }

  /** Once the start of `s` is logged at an instant on or after its start
      date, logging it again changes nothing. */
  lemma LogStartOnce(logs: seq<LogEntry>, id1: int, id2: int, s: Schedule, now1: int, now2: int)
    requires now1 >= DayStart(s.startDate)
    ensures var once := LogStart(logs, id1, s, now1);
      LogStart(once, id2, s, now2) == once && |once| <= |logs| + 1
  {
    var once := LogStart(logs, id1, s, now1);
    if !HasStartLog(logs, s) {
      assert once[|logs|].scheduleId == s.id && once[|logs|].startedAt >= DayStart(s.startDate);
    }
  }

  /** Calling the endpoint twice, the two calls choosing the same schedule,
      adds at most one log row in all; with nothing active no row is added. */
  lemma ResolveTwiceLogsOnce(rows: seq<Schedule>, logs: seq<LogEntry>, id1: int, id2: int, now1: int, now2: int)
    requires Resolve(rows, now2) == Resolve(rows, now1)
    ensures var once := LogsAfter(rows, logs, id1, now1);
      LogsAfter(rows, once, id2, now2) == once && |once| <= |logs| + 1
    ensures Resolve(rows, now1).Inactive? ==> LogsAfter(rows, logs, id1, now1) == logs
  {
    if Resolve(rows, now1).Active? {
      var s := Resolve(rows, now1).schedule;
      ResolvedIsActiveRow(rows, now1);
      LogStartOnce(logs, id1, id2, s, now1, now2);
    }
  }
}

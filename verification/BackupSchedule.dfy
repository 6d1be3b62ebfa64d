/**
 The backup scheduler: a task with a daily, weekly or monthly schedule is started at most once
 per period (backend/internal/httpapi/backup_scheduler.go). Times are UTC nanoseconds since
 1970; the tables keep whole seconds (backend/internal/store/sqlite.go).
 */
module BackupSchedule {
  import opened Calendar
  import opened Clock

  datatype Kind = Daily | Weekly | Monthly

  datatype Schedule = Schedule(kind: Kind, hour: int, minute: int)

  function Day(t: int): int {
    t / DAY
  }

  function Clamp(v: int, top: int): int {
    if v < 0 then 0 else if v > top then top else v
  }

  /** `backupScheduledAt`: the clock time on the day of `t`, out-of-range fields clamped. */
  function At(t: int, hour: int, minute: int): int {
    Day(t) * DAY + Clamp(hour, 23) * HOUR + Clamp(minute, 59) * MINUTE
  }

  /** `backupScheduledAtForKind`. */
  function ScheduledAt(now: int, s: Schedule): int {
    match s.kind
    case Daily => At(now, s.hour, s.minute)
    case Weekly => At(now - ((Weekday(Day(now)) + 6) % 7) * DAY, s.hour, s.minute)
    case Monthly => At(MonthStart(MonthOf(Day(now))) * DAY, s.hour, s.minute)
  }

  // ---------------------------------------------------------------- periods

  /** `p` is a UTC day, a Monday-to-Sunday week, or a calendar month, as the day numbers `[p.0, p.1)`. */
  ghost predicate IsPeriod(kind: Kind, first: int, past: int) {
    match kind
    case Daily => past == first + 1
    case Weekly => Weekday(first) == 1 && past == first + 7
    case Monthly => exists k :: first == MonthStart(k) && past == MonthStart(k + 1)
  }

  ghost predicate InPeriod(t: int, first: int, past: int) {
    first <= Day(t) < past
  }

  lemma DayOf(t: int, n: int)
    ensures Day(t - n * DAY) == Day(t) - n
    ensures Day(n * DAY) == n
    ensures Day(t) * DAY <= t < (Day(t) + 1) * DAY
  {
  }

  lemma WeekStartIsUnique(day: int, monday: int)
    requires Weekday(monday) == 1 && monday <= day < monday + 7
    ensures day - (Weekday(day) + 6) % 7 == monday
  {
    assert (monday + 4) % 7 == 1;
    assert (day + 4) % 7 == (1 + (day - monday)) % 7;
  }

  /** Wherever in a period `now` is, the scheduled instant is the clock time on the period's first day. */
  lemma ScheduledOnFirstDay(now: int, s: Schedule, first: int, past: int)
    requires IsPeriod(s.kind, first, past) && InPeriod(now, first, past)
    ensures ScheduledAt(now, s) == first * DAY + Clamp(s.hour, 23) * HOUR + Clamp(s.minute, 59) * MINUTE
  {
    match s.kind
    case Daily =>
    case Weekly =>
      DayOf(now, (Weekday(Day(now)) + 6) % 7);
      WeekStartIsUnique(Day(now), first);
    case Monthly =>
      var k :| first == MonthStart(k) && past == MonthStart(k + 1);
      MonthIsUnique(Day(now), k);
      DayOf(0, first);
  }

  function Distance(a: int, b: int): nat {
    if a < b then b - a else a - b
  }

  /** `chosen` is the value from 0 to `top` that lies nearest to `v`. */
  ghost predicate Nearest(v: int, top: int, chosen: int) {
    0 <= chosen <= top && forall w :: 0 <= w <= top ==> Distance(v, chosen) <= Distance(v, w)
  }

  /** The scheduled instant has the hour and minute of the schedule, or the nearest that exist. */
  lemma ScheduledClockTime(now: int, s: Schedule) returns (hour: int, minute: int)
    ensures ScheduledAt(now, s) == Day(ScheduledAt(now, s)) * DAY + hour * HOUR + minute * MINUTE
    ensures Nearest(s.hour, 23, hour) && Nearest(s.minute, 59, minute)
    ensures 0 <= s.hour <= 23 ==> hour == s.hour
    ensures 0 <= s.minute <= 59 ==> minute == s.minute
  {
    hour, minute := Clamp(s.hour, 23), Clamp(s.minute, 59);
    var period, time := ClockOnFirstDay(now, s);
    DayOfParts(period.0, time);
  }

  /** Every instant lies in a period of each kind. */
  lemma PeriodOf(now: int, kind: Kind) returns (first: int, past: int)
    ensures IsPeriod(kind, first, past) && InPeriod(now, first, past)
  {
    var day := Day(now);
    match kind
    case Daily => first, past := day, day + 1;
    case Weekly =>
      first := day - (Weekday(day) + 6) % 7;
      past := first + 7;
    case Monthly => first, past := MonthStart(MonthOf(day)), MonthStart(MonthOf(day) + 1);
  }

  /** The scheduled instant is the same throughout a period and lies inside it. */
  lemma ScheduledInstantIsConstant(a: int, b: int, s: Schedule, first: int, past: int)
    requires IsPeriod(s.kind, first, past) && InPeriod(a, first, past) && InPeriod(b, first, past)
    ensures ScheduledAt(a, s) == ScheduledAt(b, s)
    ensures InPeriod(ScheduledAt(a, s), first, past)
    ensures Day(ScheduledAt(a, s)) == first && ScheduledAt(a, s) % SECOND == 0
  {
    ScheduledOnFirstDay(a, s, first, past);
    ScheduledOnFirstDay(b, s, first, past);
    WholeSecondsOfDay(first, Clamp(s.hour, 23), Clamp(s.minute, 59));
  }

  lemma WholeSecondsOfDay(day: int, hour: int, minute: int)
    requires 0 <= hour <= 23 && 0 <= minute <= 59
    ensures var t := day * DAY + hour * HOUR + minute * MINUTE;
            Day(t) == day && t % SECOND == 0
  {
    WholeSeconds(day * 86400 + hour * 3600 + minute * 60);
    assert 0 <= hour * HOUR + minute * MINUTE < DAY;
    DayOfParts(day, hour * HOUR + minute * MINUTE);
  }

  lemma WholeSeconds(n: int)
    ensures (n * SECOND) % SECOND == 0
  {
  }

  lemma DayOfParts(day: int, time: int)
    requires 0 <= time < DAY
    ensures Day(day * DAY + time) == day
  {
  }

  lemma DaysInOrder(a: int, b: int)
    requires a <= b
    ensures Day(a) <= Day(b)
  {
  }

  lemma FirstDaysInOrder(kind: Kind, a: int, b: int, first: int, past: int, first': int, past': int)
    requires Day(a) <= Day(b)
    requires IsPeriod(kind, first, past) && InPeriod(a, first, past)
    requires IsPeriod(kind, first', past') && InPeriod(b, first', past')
    ensures first <= first'
  {
    if first' < first { PeriodsDoNotOverlap(kind, first', past', first, past); }
  }

  /** A later instant never has an earlier scheduled instant. */
  lemma ScheduledInstantIsMonotone(a: int, b: int, s: Schedule)
    requires a <= b
    ensures ScheduledAt(a, s) <= ScheduledAt(b, s)
  {
    var first, time := ClockOnFirstDay(a, s);
    var first', time' := ClockOnFirstDay(b, s);
    DaysInOrder(a, b);
    FirstDaysInOrder(s.kind, a, b, first.0, first.1, first'.0, first'.1);
    DaysScale(first.0, first'.0, time);
  }

  /** The period of `now`, and the clock time its scheduled instant has on the period's first day. */
  lemma ClockOnFirstDay(now: int, s: Schedule) returns (period: (int, int), time: int)
    ensures IsPeriod(s.kind, period.0, period.1) && InPeriod(now, period.0, period.1)
    ensures time == Clamp(s.hour, 23) * HOUR + Clamp(s.minute, 59) * MINUTE
    ensures ScheduledAt(now, s) == period.0 * DAY + time
  {
    var first, past := PeriodOf(now, s.kind);
    ScheduledOnFirstDay(now, s, first, past);
    period, time := (first, past), Clamp(s.hour, 23) * HOUR + Clamp(s.minute, 59) * MINUTE;
  }

  lemma DaysScale(a: int, b: int, time: int)
    requires a <= b
    ensures a * DAY + time <= b * DAY + time
  {
  }

  lemma PeriodsDoNotOverlap(kind: Kind, first: int, past: int, later: int, past': int)
    requires IsPeriod(kind, first, past) && IsPeriod(kind, later, past') && first < later
    ensures past <= later
  {
    match kind
    case Daily =>
    case Weekly =>
      if later < first + 7 { WeekStartIsUnique(later, first); WeekStartIsUnique(later, later); }
    case Monthly =>
      var k :| first == MonthStart(k) && past == MonthStart(k + 1);
      var j :| later == MonthStart(j) && past' == MonthStart(j + 1);
      if j < k { MonthStartsIncrease(j, k); }
      if k + 1 < j { MonthStartsIncrease(k + 1, j); }
  }

  // ---------------------------------------------------------------- one task's runs

  /** A stored run; `active` is queued or running. */
  datatype Run = Run(createdAt: int, active: bool)

  /** The task's runs, newest first, and (as history) the ticks that started one. */
  datatype World = World(runs: seq<Run>, starts: seq<int>)

  predicate NewestFirst(runs: seq<Run>) {
    forall i, j :: 0 <= i < j < |runs| ==> runs[i].createdAt >= runs[j].createdAt
  }

  /** A new row takes its place in the listing order. */
  function Insert(runs: seq<Run>, r: Run): (inserted: seq<Run>) {
    if runs == [] || runs[0].createdAt <= r.createdAt then [r] + runs else [runs[0]] + Insert(runs[1..], r)
  }

  predicate Due(s: Schedule, w: World, now: int) {
    && (w.runs != [] ==> !w.runs[0].active)
    && now >= ScheduledAt(now, s)
    && (w.runs != [] ==> w.runs[0].createdAt < ScheduledAt(now, s))
  }

  /**
   With the newest run first: due exactly if the instant has come, no run is from it or later, and
   the latest is over.
   */
  lemma DueExactlyWhen(s: Schedule, w: World, now: int)
    requires NewestFirst(w.runs)
    ensures Due(s, w, now) <==>
            && now >= ScheduledAt(now, s)
            && (forall i :: 0 <= i < |w.runs| ==> w.runs[i].createdAt < ScheduledAt(now, s))
            && (w.runs != [] ==> !w.runs[0].active)
  {
  }

  /** A tick at `now`; `created` is when the run was stored, absent if the start failed. */
  datatype Event =
    | Tick(now: int, started: bool, createdAt: int)
    | Manual(createdAt: int)
    | Finish(index: nat)

  function Apply(s: Schedule, w: World, e: Event): World {
    match e
    case Tick(now, started, createdAt) =>
      if Due(s, w, now) && started then World(Insert(w.runs, Run(Stored(createdAt), true)), w.starts + [now]) else w
    case Manual(createdAt) => w.(runs := Insert(w.runs, Run(Stored(createdAt), true)))
    case Finish(k) => if k < |w.runs| then w.(runs := w.runs[k := w.runs[k].(active := false)]) else w
  }

  datatype History = Origin | Then(before: History, event: Event)

  function After(s: Schedule, h: History): World {
    match h
    case Origin => World([], [])
    case Then(before, e) => Apply(s, After(s, before), e)
  }

  /** A run is never stored before the tick that starts it. */
  predicate StoredAfterTick(h: History) {
    h.Then? ==> StoredAfterTick(h.before) && (h.event.Tick? ==> h.event.createdAt >= h.event.now)
  }

  lemma {:induction false} InsertKeepsOrder(runs: seq<Run>, r: Run)
    requires NewestFirst(runs)
    ensures NewestFirst(Insert(runs, r))
    ensures Insert(runs, r) != [] && Insert(runs, r)[0].createdAt >= r.createdAt
    ensures runs != [] ==> Insert(runs, r)[0].createdAt >= runs[0].createdAt
    ensures runs != [] ==> Insert(runs, r)[0].createdAt <= runs[0].createdAt || Insert(runs, r)[0] == r
    decreases |runs|
  {
    if runs != [] && runs[0].createdAt > r.createdAt { InsertKeepsOrder(runs[1..], r); }
  }

  lemma {:induction false} InsertAdds(runs: seq<Run>, r: Run)
    ensures multiset(Insert(runs, r)) == multiset(runs) + multiset{r}
    decreases |runs|
  {
    if runs != [] && runs[0].createdAt > r.createdAt {
      InsertAdds(runs[1..], r);
      assert runs == [runs[0]] + runs[1..];
    }
  }

  /** A due tick whose start succeeds stores one active run, at its own second, and no other tick does. */
  lemma DueTickStarts(s: Schedule, w: World, now: int, started: bool, createdAt: int)
    ensures var next := Apply(s, w, Tick(now, started, createdAt));
            if Due(s, w, now) && started then
              && multiset(next.runs) == multiset(w.runs) + multiset{Run(createdAt - createdAt % SECOND, true)}
              && next.starts == w.starts + [now]
            else next == w
  {
    InsertAdds(w.runs, Run(Stored(createdAt), true));
  }

  /** The scheduled instant of every start is covered by the newest run. */
  predicate Covered(s: Schedule, w: World) {
    && NewestFirst(w.runs)
    && forall i :: 0 <= i < |w.starts| ==>
         w.runs != [] && w.runs[0].createdAt >= ScheduledAt(w.starts[i], s)
  }

  lemma ScheduledAtWholeSeconds(now: int, s: Schedule)
    ensures ScheduledAt(now, s) % SECOND == 0
  {
    var first, past := PeriodOf(now, s.kind);
    ScheduledInstantIsConstant(now, now, s, first, past);
  }

  lemma StepKeepsCovered(s: Schedule, w: World, e: Event)
    requires Covered(s, w) && (e.Tick? ==> e.createdAt >= e.now)
    ensures Covered(s, Apply(s, w, e))
  {
    match e
    case Tick(now, started, createdAt) =>
      ScheduledAtWholeSeconds(now, s);
      if Due(s, w, now) { WholeSecondsStayBelow(ScheduledAt(now, s), createdAt); }
      InsertKeepsOrder(w.runs, Run(Stored(createdAt), true));
    case Manual(createdAt) => InsertKeepsOrder(w.runs, Run(Stored(createdAt), true));
    case Finish(_) =>
  }

  /** No two starts share a scheduled instant. */
  predicate InstantsDistinct(s: Schedule, starts: seq<int>) {
    forall i, j :: 0 <= i < j < |starts| ==> ScheduledAt(starts[i], s) < ScheduledAt(starts[j], s)
  }

  lemma {:induction false} HistoryKeepsDistinct(s: Schedule, h: History)
    requires StoredAfterTick(h)
    ensures Covered(s, After(s, h)) && InstantsDistinct(s, After(s, h).starts)
    decreases h
  {
    if h.Then? {
      HistoryKeepsDistinct(s, h.before);
      StepKeepsCovered(s, After(s, h.before), h.event);
    }
  }

  /** Whatever happens, a task is started by the schedule at most once in any period. */
  lemma AtMostOneStartPerPeriod(s: Schedule, h: History, first: int, past: int, i: nat, j: nat)
    requires StoredAfterTick(h) && IsPeriod(s.kind, first, past)
    requires i < j < |After(s, h).starts|
    ensures !(InPeriod(After(s, h).starts[i], first, past) && InPeriod(After(s, h).starts[j], first, past))
  {
    HistoryKeepsDistinct(s, h);
    var starts := After(s, h).starts;
    if InPeriod(starts[i], first, past) && InPeriod(starts[j], first, past) {
      ScheduledInstantIsConstant(starts[i], starts[j], s, first, past);
    }
  }

  predicate NoManualRuns(h: History) {
    h.Then? ==> NoManualRuns(h.before) && !h.event.Manual?
  }

  predicate OnlyNewestActive(runs: seq<Run>) {
    forall i :: 0 < i < |runs| ==> !runs[i].active
  }

  lemma StepKeepsOneActive(s: Schedule, w: World, e: Event)
    requires OnlyNewestActive(w.runs) && !e.Manual? && (e.Tick? ==> e.createdAt >= e.now)
    ensures OnlyNewestActive(Apply(s, w, e).runs)
  {
    if e.Tick? && Due(s, w, e.now) {
      ScheduledAtWholeSeconds(e.now, s);
      WholeSecondsStayBelow(ScheduledAt(e.now, s), e.createdAt);
      var r := Run(Stored(e.createdAt), true);
      assert Insert(w.runs, r) == [r] + w.runs;
    }
  }

  /** Without manual runs no start happens while a run is active: only the newest ever is. */
  lemma {:induction false} AtMostOneRunIsActive(s: Schedule, h: History)
    requires NoManualRuns(h) && StoredAfterTick(h)
    ensures OnlyNewestActive(After(s, h).runs)
    decreases h
  {
    if h.Then? {
      AtMostOneRunIsActive(s, h.before);
      StepKeepsOneActive(s, After(s, h.before), h.event);
    }
  }

  // ---------------------------------------------------------------- the scheduler

  datatype Task = Task(id: string, enabled: bool, schedule: Schedule)

  /** What `startBackupTaskRun` does for a task: fail, or store a run at some instant. */
  datatype Outcome = Refused | Created(at: int)

  class Scheduler {
    var worlds: map<string, World>

    constructor (worlds: map<string, World>)
      ensures this.worlds == worlds
    {
      this.worlds := worlds;
    }

    method TaskDue(t: Task, now: int) returns (due: bool)
      requires t.id in worlds
      ensures due <==> Due(t.schedule, worlds[t.id], now)
    {
      var runs := worlds[t.id].runs;
      if |runs| > 0 && runs[0].active { return false; }
      var scheduledAt := ScheduledAt(now, t.schedule);
      if now < scheduledAt { return false; }
      if |runs| > 0 && runs[0].createdAt >= scheduledAt { return false; }
      return true;
    }

    /** `runBackupScheduleTick`. */
    method RunScheduleTick(tasks: seq<Task>, now: int, outcome: string -> Outcome)
      requires forall i :: 0 <= i < |tasks| ==> tasks[i].id in worlds
      requires forall i, j :: 0 <= i < j < |tasks| ==> tasks[i].id != tasks[j].id
      modifies this
      ensures worlds.Keys == old(worlds).Keys
      ensures forall i :: 0 <= i < |tasks| ==>
                worlds[tasks[i].id] == Ticked(tasks[i], old(worlds)[tasks[i].id], now, outcome(tasks[i].id))
      ensures forall i :: 0 <= i < |tasks| ==>
                var w := old(worlds)[tasks[i].id];
                if tasks[i].enabled && Due(tasks[i].schedule, w, now) && outcome(tasks[i].id).Created? then
                  worlds[tasks[i].id].starts == w.starts + [now]
                else worlds[tasks[i].id] == w
      ensures forall id :: id in worlds && (forall i :: 0 <= i < |tasks| ==> tasks[i].id != id) ==>
                worlds[id] == old(worlds)[id]
    {
      for k := 0 to |tasks|
        invariant worlds.Keys == old(worlds).Keys
        invariant forall i :: 0 <= i < k ==>
                    worlds[tasks[i].id] == Ticked(tasks[i], old(worlds)[tasks[i].id], now, outcome(tasks[i].id))
        invariant forall i :: k <= i < |tasks| ==> worlds[tasks[i].id] == old(worlds)[tasks[i].id]
        invariant forall id :: id in worlds && (forall i :: 0 <= i < |tasks| ==> tasks[i].id != id) ==>
                    worlds[id] == old(worlds)[id]
      {
        var t := tasks[k];
        if t.enabled {
          var due := TaskDue(t, now);
          if due && outcome(t.id).Created? {
            var w := worlds[t.id];
            worlds := worlds[t.id := World(Insert(w.runs, Run(Stored(outcome(t.id).at), true)), w.starts + [now])];
          }
        }
      }
    }
  }

  function Ticked(t: Task, w: World, now: int, o: Outcome): World {
    if !t.enabled then w
    else Apply(t.schedule, w, Tick(now, o.Created?, if o.Created? then o.at else now))
  }
}

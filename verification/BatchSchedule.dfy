/**
 The batch script scheduler: one tick evaluates every template's schedule
 (backend/internal/httpapi/batch_script_scheduler.go). Times are nanoseconds; the tables keep
 whole seconds (backend/internal/store/sqlite.go), so what is stored is rounded down.
 */
module BatchSchedule {
  import opened Text
  import opened Clock
  import opened Arithmetic

  datatype Template = Template(id: string, enabled: bool, scheduleEnabled: bool, intervalSeconds: int, skipMissed: bool)

  function Interval(t: Template): int {
    t.intervalSeconds * SECOND
  }

  predicate Configured(t: Template) {
    t.enabled && t.scheduleEnabled && t.intervalSeconds > 0
  }

  datatype Noop = MissedRun | StartFailed | NoReadyTargets

  datatype Schedule = Schedule(
    nextRunAt: Option<int>, lastEvaluatedAt: Option<int>, lastStartedRun: Option<nat>,
    lastNoop: Option<Noop>, missedRuns: nat
  )

  const NO_SCHEDULE := Schedule(None, None, None, None, 0)

  /** `active` is queued or running. */
  datatype Run = Run(id: nat, createdAt: int, active: bool)

  /** A scheduled start: the tick's instant, and the `NextRunAt` it was due by. */
  datatype Start = Start(at: int, due: int)

  /** One template's rows, runs newest first, and (as history) its scheduled starts. */
  datatype World = World(row: Option<Schedule>, runs: seq<Run>, starts: seq<Start>)

  /** What `startBatchScriptRun` does when it is called. */
  datatype Outcome = Fails | NoTargets | Starts(id: nat, createdAt: int)

  // ---------------------------------------------------------------- one evaluation

  predicate Blocked(w: World) {
    w.runs != [] && w.runs[0].active
  }

  function Loaded(w: World): Schedule {
    if w.row.Some? then w.row.value else NO_SCHEDULE
  }

  /** The instant from which the template is due; without a schedule it follows the latest run. */
  function DueFrom(t: Template, w: World, now: int): int {
    if Loaded(w).nextRunAt.Some? then Loaded(w).nextRunAt.value
    else if w.runs != [] then w.runs[0].createdAt + Interval(t)
    else now
  }

  predicate Due(t: Template, w: World, now: int) {
    Configured(t) && !Blocked(w) && now >= DueFrom(t, w, now)
  }

  predicate Missed(t: Template, w: World, now: int) {
    t.skipMissed && now - DueFrom(t, w, now) >= Interval(t)
  }

  /** `nextBatchScriptScheduleState`, as it reads back from the table. */
  function Next(t: Template, s: Schedule, now: int, run: Option<nat>, noop: Option<Noop>): Schedule {
    s.(nextRunAt := Some(Stored(now + Interval(t))), lastEvaluatedAt := Some(Stored(now)),
       lastStartedRun := run, lastNoop := noop)
  }

  function Evaluate(t: Template, w: World, now: int, outcome: Outcome): World {
    var s := Loaded(w);
    if !Due(t, w, now) then w
    else if Missed(t, w, now) then
      w.(row := Some(Next(t, s, now, None, Some(MissedRun)).(missedRuns := s.missedRuns + 1)))
    else
      match outcome
      case Fails => w.(row := Some(Next(t, s, now, None, Some(StartFailed))))
      case NoTargets => w.(row := Some(Next(t, s, now, None, Some(NoReadyTargets))))
      case Starts(id, createdAt) =>
        World(Some(Next(t, s, now, Some(id), None)),
              [Run(id, Stored(createdAt), true)] + w.runs,
              w.starts + [Start(now, DueFrom(t, w, now))])
  }

  // ---------------------------------------------------------------- what an evaluation does

  /** When the schedule wants the template: by its row, or an interval after the latest run, or at once. */
  predicate Wanted(t: Template, w: World, now: int) {
    if w.row.Some? && w.row.value.nextRunAt.Some? then w.row.value.nextRunAt.value <= now
    else w.runs != [] ==> w.runs[0].createdAt + t.intervalSeconds * SECOND <= now
  }

  /** Under `skip_missed`, the template was wanted a whole interval ago. */
  predicate TooLate(t: Template, w: World, now: int) {
    && t.skipMissed
    && (if w.row.Some? && w.row.value.nextRunAt.Some? then
          w.row.value.nextRunAt.value + t.intervalSeconds * SECOND <= now
        else w.runs != [] && w.runs[0].createdAt + 2 * t.intervalSeconds * SECOND <= now)
  }

  /** The evaluations of a template that was evaluated before keep its counts. */
  function MissedSoFar(w: World): nat {
    if w.row.Some? then w.row.value.missedRuns else 0
  }

  /** The row after an evaluation: the next is wanted an interval on, and what came of this one is noted. */
  predicate Noted(t: Template, row: Option<Schedule>, now: int, run: Option<nat>, noop: Option<Noop>, missed: nat) {
    && row.Some?
    && row.value.nextRunAt == Some(Stored(now + t.intervalSeconds * SECOND))
    && row.value.lastEvaluatedAt == Some(Stored(now))
    && row.value.lastStartedRun == run && row.value.lastNoop == noop && row.value.missedRuns == missed
  }

  /** Exactly when an evaluation starts a run, counts one as missed, or does nothing. */
  lemma EvaluationSays(t: Template, w: World, now: int, outcome: Outcome)
    ensures var next := Evaluate(t, w, now, outcome);
            if !(t.enabled && t.scheduleEnabled && t.intervalSeconds > 0)
               || (w.runs != [] && w.runs[0].active) || !Wanted(t, w, now) then next == w
            else if TooLate(t, w, now) then
              next.runs == w.runs && next.starts == w.starts
              && Noted(t, next.row, now, None, Some(MissedRun), MissedSoFar(w) + 1)
            else match outcome
              case Fails => next.runs == w.runs && next.starts == w.starts
                            && Noted(t, next.row, now, None, Some(StartFailed), MissedSoFar(w))
              case NoTargets => next.runs == w.runs && next.starts == w.starts
                                && Noted(t, next.row, now, None, Some(NoReadyTargets), MissedSoFar(w))
              case Starts(id, createdAt) =>
                && next.runs == [Run(id, Stored(createdAt), true)] + w.runs
                && |next.starts| == |w.starts| + 1 && next.starts[..|w.starts|] == w.starts
                && next.starts[|w.starts|].at == now
                && Noted(t, next.row, now, Some(id), None, MissedSoFar(w))
  {
  }

  // ---------------------------------------------------------------- histories

  /** Ticks, and what happens to the template's runs between them. */
  datatype Event =
    | Tick(now: int, outcome: Outcome)
    | Manual(id: nat, createdAt: int)
    | Finish(index: nat)
    | Prune(index: nat)

  function Apply(t: Template, w: World, e: Event): World {
    match e
    case Tick(now, outcome) => Evaluate(t, w, now, outcome)
    case Manual(id, createdAt) => w.(runs := [Run(id, Stored(createdAt), true)] + w.runs)
    case Finish(k) => if k < |w.runs| then w.(runs := w.runs[k := w.runs[k].(active := false)]) else w
    case Prune(k) => if k < |w.runs| && !w.runs[k].active then w.(runs := w.runs[..k] + w.runs[k + 1..]) else w
  }

  datatype History = Origin | Then(before: History, event: Event)

  function After(t: Template, w: World, h: History): World {
    match h
    case Origin => w
    case Then(before, e) => Apply(t, After(t, w, before), e)
  }

  /** The instant of the latest tick. */
  function LastTick(h: History, from: int): int {
    match h
    case Origin => from
    case Then(_, Tick(now, _)) => now
    case Then(before, _) => LastTick(before, from)
  }

  // ---------------------------------------------------------------- what is stored

  predicate RowConsistent(t: Template, w: World) {
    w.row.Some? ==>
      && w.row.value.nextRunAt.Some? && w.row.value.lastEvaluatedAt.Some?
      && w.row.value.nextRunAt.value == w.row.value.lastEvaluatedAt.value + Interval(t)
  }

  /** Every stored `NextRunAt` is `LastEvaluatedAt` plus the interval. */
  lemma {:induction false} NextFollowsEvaluation(t: Template, w: World, h: History)
    requires RowConsistent(t, w)
    ensures RowConsistent(t, After(t, w, h))
    decreases h
  {
    if h.Then? {
      NextFollowsEvaluation(t, w, h.before);
      if h.event.Tick? { StoredPlusWholeSeconds(h.event.now, t.intervalSeconds); }
    }
  }

  // ---------------------------------------------------------------- spacing of starts

  /** Starts are in order with their stored seconds an interval apart, and the row lies an interval past the last. */
  predicate Spaced(t: Template, w: World) {
    && (forall i, j :: 0 <= i < j < |w.starts| ==> Stored(w.starts[j].at) >= Stored(w.starts[i].at) + Interval(t))
    && (w.starts != [] ==>
          && w.row.Some? && w.row.value.nextRunAt.Some?
          && forall i :: 0 <= i < |w.starts| ==> w.row.value.nextRunAt.value >= Stored(w.starts[i].at) + Interval(t))
  }

  lemma TickKeepsSpacing(t: Template, w: World, now: int, outcome: Outcome)
    requires Spaced(t, w)
    ensures Spaced(t, Evaluate(t, w, now, outcome))
  {
    var next := Evaluate(t, w, now, outcome);
    StoredPlusWholeSeconds(now, t.intervalSeconds);
    assert next != w ==> forall i :: 0 <= i < |w.starts| ==> Stored(now) >= Stored(w.starts[i].at) + Interval(t);
  }

  lemma {:induction false} StartsStaySpaced(t: Template, w: World, h: History)
    requires Spaced(t, w)
    ensures Spaced(t, After(t, w, h))
    decreases h
  {
    if h.Then? {
      StartsStaySpaced(t, w, h.before);
      if h.event.Tick? { TickKeepsSpacing(t, After(t, w, h.before), h.event.now, h.event.outcome); }
    }
  }

  /** Over any history, two scheduled starts are more than the interval less one second apart. */
  lemma StartsAreAnIntervalApart(t: Template, h: History, i: nat, j: nat)
    requires i < j < |After(t, World(None, [], []), h).starts|
    ensures var starts := After(t, World(None, [], []), h).starts;
            && Stored(starts[j].at) - Stored(starts[i].at) >= Interval(t)
            && starts[j].at - starts[i].at > Interval(t) - SECOND
  {
    StartsStaySpaced(t, World(None, [], []), h);
    var starts := After(t, World(None, [], []), h).starts;
    StoredPlusWholeSeconds(starts[i].at, 0);
    StoredPlusWholeSeconds(starts[j].at, 0);
  }

  /** A run that starts when the template is ticked at `now`. */
  predicate StartsAt(t: Template, w: World, now: int) {
    Due(t, w, now) && !Missed(t, w, now)
  }

  /**
   The full interval is kept between a start and every possible next one exactly when the
   start's tick fell on a whole second.
   */
  lemma FullIntervalExactlyOnWholeSeconds(t: Template, w: World, at: int, id: nat, createdAt: int)
    requires t.intervalSeconds >= 1 && StartsAt(t, w, at)
    ensures var later := Apply(t, Evaluate(t, w, at, Starts(id, createdAt)), Finish(0));
            (forall now :: StartsAt(t, later, now) ==> now - at >= Interval(t)) <==> at % SECOND == 0
  {
    var later := Apply(t, Evaluate(t, w, at, Starts(id, createdAt)), Finish(0));
    StoredPlusWholeSeconds(at, t.intervalSeconds);
    var next := Stored(at) + Interval(t);
    assert later.row.value.nextRunAt == Some(next);
    assert StartsAt(t, later, next);
  }

  /** Two starts 59.2 seconds apart on a 60-second schedule. */
  lemma IntervalCanFallShort()
    ensures var t := Template("t", true, true, 60, false);
            var h := Then(Then(Then(Origin, Tick(10_900_000_000, Starts(1, 10_900_000_000))), Finish(0)),
                          Tick(70_100_000_000, Starts(2, 70_100_000_000)));
            var starts := After(t, World(None, [], []), h).starts;
            |starts| == 2 && starts[1].at - starts[0].at == 59_200_000_000 < Interval(t)
  {
    var t := Template("t", true, true, 60, false);
    var first := Evaluate(t, World(None, [], []), 10_900_000_000, Starts(1, 10_900_000_000));
    assert first.row.value.nextRunAt == Some(70_000_000_000);
    assert first.starts == [Start(10_900_000_000, 10_900_000_000)];
    var finished := Apply(t, first, Finish(0));
    assert StartsAt(t, finished, 70_100_000_000);
  }

  // ---------------------------------------------------------------- starts in a span

  /** The scheduled starts at instants in `[from, to)`. */
  function StartsIn(starts: seq<Start>, from: int, to: int): nat {
    if starts == [] then 0
    else
      var last := starts[|starts| - 1];
      StartsIn(starts[..|starts| - 1], from, to) + (if from <= last.at < to then 1 else 0)
  }

  ghost predicate SecondsApart(starts: seq<Start>, interval: int) {
    forall i, j :: 0 <= i < j < |starts| ==> Stored(starts[j].at) >= Stored(starts[i].at) + interval
  }

  /** Some counted start lies as many intervals after `from` as there are others. */
  lemma {:induction false} CountedStartsReachOut(starts: seq<Start>, interval: int, from: int, to: int) returns (i: int)
    requires interval > 0 && SecondsApart(starts, interval)
    requires StartsIn(starts, from, to) > 0
    ensures 0 <= i < |starts| && from <= starts[i].at < to
    ensures Stored(starts[i].at) >= Stored(from) + (StartsIn(starts, from, to) - 1) * interval
    decreases |starts|
  {
    var k := |starts| - 1;
    var before := starts[..k];
    var n := StartsIn(before, from, to);
    i := k;
    if n > 0 {
      i := CountedStartsReachOut(before, interval, from, to);
      if from <= starts[k].at < to {
        IntervalMore(Stored(starts[i].at), Stored(starts[k].at), Stored(from), n, interval);
        i := k;
      }
    } else {
      StoredIsMonotone(from, starts[k].at);
    }
  }

  lemma IntervalMore(at: int, later: int, from: int, n: nat, interval: int)
    requires at >= from + (n - 1) * interval && later >= at + interval
    ensures later >= from + n * interval
  {
    assert n * interval == (n - 1) * interval + interval;
  }

  /** How many starts a span can hold: the stored seconds stretch it by almost a second. */
  function MostStarts(t: Template, length: int): int
    requires t.intervalSeconds >= 1
  {
    (length + SECOND - 2) / Interval(t) + 1
  }

  /** No span of any length holds more starts. */
  lemma SpanHoldsFewStarts(t: Template, h: History, from: int, length: int)
    requires t.intervalSeconds >= 1 && length >= 1
    ensures StartsIn(After(t, World(None, [], []), h).starts, from, from + length) <= MostStarts(t, length)
  {
    StartsStaySpaced(t, World(None, [], []), h);
    SpacedStartsInSpan(After(t, World(None, [], []), h).starts, Interval(t), from, length);
  }

  lemma SpacedStartsInSpan(starts: seq<Start>, interval: int, from: int, length: int)
    requires interval > 0 && length >= 1 && SecondsApart(starts, interval)
    ensures StartsIn(starts, from, from + length) <= (length + SECOND - 2) / interval + 1
  {
    var n := StartsIn(starts, from, from + length);
    if n > 0 {
      var i := CountedStartsReachOut(starts, interval, from, from + length);
      StoredPlusWholeSeconds(from, 0);
      StoredPlusWholeSeconds(starts[i].at, 0);
      CountFromSpan(n - 1, interval, length + SECOND - 2);
    }
  }

  lemma CountFromSpan(m: nat, interval: int, length: int)
    requires interval >= 1 && m * interval <= length
    ensures m <= length / interval
  {
    var q := length / interval;
    assert length < (q + 1) * interval;
    if q + 1 <= m { Scale(q + 1, m, interval); }
  }

  /**
   That is `length / interval + 1`, and one more exactly if the span falls short of a multiple of
   the interval by less than a second less a nanosecond.
   */
  lemma OneMoreExactlyWhen(t: Template, length: int)
    requires t.intervalSeconds >= 1 && length >= 1
    ensures MostStarts(t, length)
            == length / Interval(t) + 1 + if length % Interval(t) > Interval(t) - (SECOND - 1) then 1 else 0
  {
    var i, q, r := Interval(t), length / Interval(t), length % Interval(t);
    assert length == q * i + r;
    if r > i - (SECOND - 1) {
      assert length + SECOND - 2 == (q + 1) * i + (r + SECOND - 2 - i);
      QuotientIs(length + SECOND - 2, i, q + 1);
    } else {
      QuotientIs(length + SECOND - 2, i, q);
    }
  }

  lemma QuotientIs(n: int, d: int, q: int)
    requires d > 0 && q * d <= n < q * d + d
    ensures n / d == q
  {
    if n / d < q { Scale(n / d + 1, q, d); }
    if n / d > q { Scale(q + 1, n / d, d); }
  }

  /** `k` more starts, each on the whole second it is due by. */
  function Punctually(t: Template, k: nat): History {
    if k == 0 then Then(Then(Origin, Tick(SECOND - 1, Starts(0, SECOND - 1))), Finish(0))
    else Then(Then(Punctually(t, k - 1), Tick(k * Interval(t), Starts(k, k * Interval(t)))), Finish(0))
  }

  lemma {:induction false} PunctualStarts(t: Template, k: nat, to: int)
    requires Configured(t) && k * Interval(t) < to && SECOND <= to
    ensures var w := After(t, World(None, [], []), Punctually(t, k));
            && w.row.Some? && w.row.value.nextRunAt == Some((k + 1) * Interval(t))
            && w.runs != [] && !w.runs[0].active
            && StartsIn(w.starts, SECOND - 1, to) == k + 1
  {
    if k == 0 {
      FirstStart(t, to);
    } else {
      assert (k - 1) * Interval(t) < k * Interval(t) by { Scale(k - 1, k, Interval(t)); }
      PunctualStarts(t, k - 1, to);
      NextStart(t, After(t, World(None, [], []), Punctually(t, k - 1)), k, to);
    }
  }

  lemma FirstStart(t: Template, to: int)
    requires Configured(t) && SECOND <= to
    ensures var w := After(t, World(None, [], []), Punctually(t, 0));
            && w.row.Some? && w.row.value.nextRunAt == Some(Interval(t))
            && w.runs != [] && !w.runs[0].active
            && StartsIn(w.starts, SECOND - 1, to) == 1
  {
    var now, empty := SECOND - 1, World(None, [], []);
    var started := Evaluate(t, empty, now, Starts(0, now));
    StoredPlusWholeSeconds(now, t.intervalSeconds);
    assert Stored(now) == 0;
    assert started.starts == [Start(now, now)];
    assert started.starts[..0] == [];
    assert After(t, empty, Origin) == empty;
    assert After(t, empty, Then(Origin, Tick(now, Starts(0, now)))) == started;
    assert After(t, empty, Punctually(t, 0)) == Apply(t, started, Finish(0));
  }

  lemma NextStart(t: Template, w: World, k: nat, to: int)
    requires Configured(t) && k >= 1 && k * Interval(t) < to
    requires w.row.Some? && w.row.value.nextRunAt == Some(k * Interval(t)) && w.runs != [] && !w.runs[0].active
    ensures var now := k * Interval(t);
            var next := Apply(t, Evaluate(t, w, now, Starts(k, now)), Finish(0));
            && next.row.Some? && next.row.value.nextRunAt == Some((k + 1) * Interval(t))
            && next.runs != [] && !next.runs[0].active
            && StartsIn(next.starts, SECOND - 1, to) == StartsIn(w.starts, SECOND - 1, to) + 1
  {
    var now := k * Interval(t);
    WholeIntervals(t, k);
    Scale(1, k, Interval(t));
    var started := Evaluate(t, w, now, Starts(k, now));
    StoredPlusWholeSeconds(now, t.intervalSeconds);
    assert (k + 1) * Interval(t) == now + Interval(t);
    assert started.starts == w.starts + [Start(now, now)];
    assert started.starts[..|started.starts| - 1] == w.starts;
  }

  lemma WholeIntervals(t: Template, k: nat)
    ensures Stored(k * Interval(t)) == k * Interval(t)
  {
    var n := k * t.intervalSeconds;
    assert k * Interval(t) == n * SECOND;
    StoredPlusWholeSeconds(0, n);
  }

  /** For every configured template and every length, some history fills a span to the most it can hold. */
  lemma SpanBoundIsReached(t: Template, length: int) returns (h: History)
    requires Configured(t) && length >= 1
    ensures StartsIn(After(t, World(None, [], []), h).starts, SECOND - 1, SECOND - 1 + length) == MostStarts(t, length)
  {
    var k := (length + SECOND - 2) / Interval(t);
    assert k * Interval(t) <= length + SECOND - 2;
    h := Punctually(t, k);
    PunctualStarts(t, k, SECOND - 1 + length);
  }

  // ---------------------------------------------------------------- catching up

  predicate AllTicksBefore(h: History, until: int) {
    match h
    case Origin => true
    case Then(before, Tick(now, _)) => AllTicksBefore(before, until) && now < until
    case Then(before, _) => AllTicksBefore(before, until)
  }

  lemma {:induction false} NothingStartsBeforeTheRow(t: Template, w: World, h: History, until: int)
    requires w.row.Some? && w.row.value.nextRunAt == Some(until) && AllTicksBefore(h, until)
    ensures After(t, w, h).starts == w.starts && After(t, w, h).row == w.row
    decreases h
  {
    if h.Then? { NothingStartsBeforeTheRow(t, w, h.before, until); }
  }

  /**
   Under `run_once`, however overdue an unblocked template is, the next tick that can start
   starts one run, counts nothing as missed, and whatever follows starts none until a full
   interval (in stored seconds) has passed.
   */
  lemma OutageCausesOneCatchUp(t: Template, w: World, now: int, id: nat, createdAt: int, h: History)
    requires Configured(t) && !t.skipMissed && !Blocked(w)
    requires w.row.Some? && w.row.value.nextRunAt.Some? && w.row.value.nextRunAt.value <= now
    requires AllTicksBefore(h, Stored(now) + Interval(t))
    ensures var after := After(t, Evaluate(t, w, now, Starts(id, createdAt)), h);
            && after.starts == w.starts + [Start(now, w.row.value.nextRunAt.value)]
            && after.row.Some? && after.row.value.missedRuns == w.row.value.missedRuns
  {
    StoredPlusWholeSeconds(now, t.intervalSeconds);
    NothingStartsBeforeTheRow(t, Evaluate(t, w, now, Starts(id, createdAt)), h, Stored(now) + Interval(t));
  }

  // ---------------------------------------------------------------- one run at a time

  predicate NoManualRuns(h: History) {
    h.Then? ==> NoManualRuns(h.before) && !h.event.Manual?
  }

  predicate OnlyLatestActive(runs: seq<Run>) {
    forall i :: 0 < i < |runs| ==> !runs[i].active
  }

  /** Without manual runs, no more than one run of a template is ever active: the latest. */
  lemma {:induction false} AtMostOneRunIsActive(t: Template, w: World, h: History)
    requires OnlyLatestActive(w.runs) && NoManualRuns(h)
    ensures OnlyLatestActive(After(t, w, h).runs)
    ensures forall i, j :: 0 <= i < j < |After(t, w, h).runs| ==>
              !(After(t, w, h).runs[i].active && After(t, w, h).runs[j].active)
    decreases h
  {
    if h.Then? { AtMostOneRunIsActive(t, w, h.before); }
  }

  // ---------------------------------------------------------------- the skip policy

  predicate StartsPunctual(t: Template, w: World) {
    forall i :: 0 <= i < |w.starts| ==> 0 <= w.starts[i].at - w.starts[i].due < Interval(t)
  }

  /** Under `skip_missed` every start is less than an interval late, and the missed count only grows. */
  lemma {:induction false} SkippingStartsPunctually(t: Template, w: World, h: History)
    requires t.skipMissed && StartsPunctual(t, w)
    ensures StartsPunctual(t, After(t, w, h))
    ensures Loaded(w).missedRuns <= Loaded(After(t, w, h)).missedRuns
    decreases h
  {
    if h.Then? { SkippingStartsPunctually(t, w, h.before); }
  }

  /** Every tick comes at most `gap` after the one before it and finds no active run. */
  predicate Brisk(t: Template, w: World, h: History, from: int, gap: int) {
    match h
    case Origin => true
    case Then(before, Tick(now, _)) =>
      && Brisk(t, w, before, from, gap)
      && LastTick(before, from) <= now <= LastTick(before, from) + gap
      && !Blocked(After(t, w, before))
    case Then(before, _) => Brisk(t, w, before, from, gap)
  }

  /**
   As long as the schedule has not been evaluated, so that it follows the latest run: manual runs
   are stored no earlier than the latest tick, and the latest run is not pruned.
   */
  predicate Orderly(t: Template, w: World, h: History, from: int) {
    match h
    case Origin => true
    case Then(before, e) =>
      && Orderly(t, w, before, from)
      && (Loaded(After(t, w, before)).nextRunAt.None? ==>
            && (e.Manual? ==> e.createdAt >= LastTick(before, from))
            && (e.Prune? ==> e.index > 0))
  }

  /** At `now` the template is overdue by less than the interval less `gap`. */
  predicate InTime(t: Template, w: World, now: int, gap: int) {
    now - DueFrom(t, w, now) < Interval(t) - gap
  }

  /**
   With ticks at most `gap` apart, `gap` below the interval, nothing is counted as missed from a
   template that is not already overdue by the interval less `gap`, evaluated before or not.
   */
  lemma {:induction false} BriskTicksMissNothing(t: Template, w: World, h: History, from: int, gap: int)
    requires Configured(t) && 0 <= gap < Interval(t) && InTime(t, w, from, gap)
    requires Brisk(t, w, h, from, gap) && Orderly(t, w, h, from)
    ensures InTime(t, After(t, w, h), LastTick(h, from), gap)
    ensures Loaded(After(t, w, h)).missedRuns == Loaded(w).missedRuns
    ensures w.row.Some? ==> After(t, w, h).row.Some?
    decreases h
  {
    if h.Then? {
      BriskTicksMissNothing(t, w, h.before, from, gap);
      var before, last := After(t, w, h.before), LastTick(h.before, from);
      if h.event.Tick? { StoredPlusWholeSeconds(h.event.now, t.intervalSeconds); }
      if h.event.Manual? { StoredPlusWholeSeconds(h.event.createdAt, 0); }
    }
  }

  /** A new template misses nothing as long as the ticks keep coming. */
  lemma NewTemplatesMissNothing(t: Template, h: History, from: int, gap: int)
    requires Configured(t) && 0 <= gap < Interval(t)
    requires Brisk(t, World(None, [], []), h, from, gap) && Orderly(t, World(None, [], []), h, from)
    ensures Loaded(After(t, World(None, [], []), h)).missedRuns == 0
  {
    BriskTicksMissNothing(t, World(None, [], []), h, from, gap);
  }

  // ---------------------------------------------------------------- the scheduler

  class Scheduler {
    var worlds: map<string, World>

    constructor (worlds: map<string, World>)
      ensures this.worlds == worlds
    {
      this.worlds := worlds;
    }

    /** One template of a tick, in the order of the source: due, missed, failed, empty, started. */
    method EvaluateTemplate(t: Template, now: int, outcome: Outcome)
      requires t.id in worlds
      modifies this
      ensures worlds == old(worlds)[t.id := Evaluate(t, old(worlds)[t.id], now, outcome)]
    {
      var w := worlds[t.id];
      if !Configured(t) || Blocked(w) { return; }
      var s := Loaded(w);
      var due := now;
      if s.nextRunAt.Some? {
        due := s.nextRunAt.value;
      } else if w.runs != [] {
        due := w.runs[0].createdAt + Interval(t);
      }
      if now < due { return; }
      if t.skipMissed && now - due >= Interval(t) {
        s := Next(t, s, now, None, Some(MissedRun));
        s := s.(missedRuns := s.missedRuns + 1);
        worlds := worlds[t.id := w.(row := Some(s))];
        return;
      }
      match outcome {
        case Fails =>
          worlds := worlds[t.id := w.(row := Some(Next(t, s, now, None, Some(StartFailed))))];
        case NoTargets =>
          worlds := worlds[t.id := w.(row := Some(Next(t, s, now, None, Some(NoReadyTargets))))];
        case Starts(id, createdAt) =>
          worlds := worlds[t.id := World(Some(Next(t, s, now, Some(id), None)),
                                         [Run(id, Stored(createdAt), true)] + w.runs,
                                         w.starts + [Start(now, due)])];
      }
    }

    /** `runBatchScriptScheduleTick`: every listed template once, at one instant, nothing else touched. */
    method RunScheduleTick(templates: seq<Template>, now: int, outcome: string -> Outcome)
      requires forall i :: 0 <= i < |templates| ==> templates[i].id in worlds
      requires forall i, j :: 0 <= i < j < |templates| ==> templates[i].id != templates[j].id
      modifies this
      ensures worlds.Keys == old(worlds).Keys
      ensures forall i :: 0 <= i < |templates| ==>
                var t := templates[i];
                worlds[t.id] == Evaluate(t, old(worlds)[t.id], now, outcome(t.id))
      ensures forall id :: id in worlds && (forall i :: 0 <= i < |templates| ==> templates[i].id != id) ==>
                worlds[id] == old(worlds)[id]
    {
      for k := 0 to |templates|
        invariant worlds.Keys == old(worlds).Keys
        invariant forall i :: 0 <= i < k ==>
                    var t := templates[i];
                    worlds[t.id] == Evaluate(t, old(worlds)[t.id], now, outcome(t.id))
        invariant forall i :: k <= i < |templates| ==> worlds[templates[i].id] == old(worlds)[templates[i].id]
        invariant forall id :: id in worlds && (forall i :: 0 <= i < |templates| ==> templates[i].id != id) ==>
                    worlds[id] == old(worlds)[id]
      {
        EvaluateTemplate(templates[k], now, outcome(templates[k].id));
      }
    }
  }
}

/**
 A Send To job: a worker moves bytes between two managed servers while the operator may cancel
 at any moment; every job ends with one audit attempt
 (backend/internal/httpapi/file_manager_send_to.go). The single-file and the archive runner
 take the same steps.
 */
module SendToJob {
  import opened Text

  datatype Status = Queued | Running | Completed | Failed | Cancelled

  predicate Terminal(s: Status) {
    s.Completed? || s.Failed? || s.Cancelled?
  }

  datatype AuditKind = CompletedEvent | FailedEvent | CancelledEvent

  /** One `append` to the audit log: what it reports, and the event's identifier if it was recorded. */
  datatype Attempt = Attempt(kind: AuditKind, bytes: int, recorded: Option<nat>)

  /** The job's mutable fields. */
  datatype Job = Job(status: Status, bytes: int, finishedAt: Option<int>, auditEvent: Option<nat>)

  // ---------------------------------------------------------------- the job's own methods

  function MarkRunning(j: Job): Job {
    if j.status.Cancelled? then j else j.(status := Running)
  }

  function AddBytes(j: Job, n: int): Job {
    j.(bytes := j.bytes + n)
  }

  function MarkFailed(j: Job, now: int): Job {
    if j.status.Cancelled? then j else j.(status := Failed, finishedAt := Some(now))
  }

  function MarkCompleted(j: Job, event: nat, now: int): Job {
    if j.status.Cancelled? then j else j.(status := Completed, auditEvent := Some(event), finishedAt := Some(now))
  }

  function CancelJob(j: Job, now: int): Job {
    if Terminal(j.status) then j else j.(status := Cancelled, finishedAt := Some(now))
  }

  class FileManagerSendToJob {
    var status: Status
    var bytesTransferred: int
    var finishedAt: Option<int>
    var auditEventID: Option<nat>

    function View(): Job
      reads this
    {
      Job(status, bytesTransferred, finishedAt, auditEventID)
    }

    constructor ()
      ensures View() == Job(Queued, 0, None, None)
    {
      status, bytesTransferred, finishedAt, auditEventID := Queued, 0, None, None;
    }

    method MarkJobRunning()
      modifies this
      ensures View() == MarkRunning(old(View()))
    {
      if status == Cancelled { return; }
      status := Running;
    }

    method AddJobBytes(count: int)
      modifies this
      ensures View() == AddBytes(old(View()), count)
    {
      bytesTransferred := bytesTransferred + count;
    }

    method MarkJobFailed(now: int)
      modifies this
      ensures View() == MarkFailed(old(View()), now)
    {
      if status == Cancelled { return; }
      status := Failed;
      finishedAt := Some(now);
    }

    method MarkJobCompleted(event: nat, now: int)
      modifies this
      ensures View() == MarkCompleted(old(View()), event, now)
    {
      if status == Cancelled { return; }
      status := Completed;
      auditEventID := Some(event);
      finishedAt := Some(now);
    }

    method Cancel(now: int)
      modifies this
      ensures View() == CancelJob(old(View()), now)
    {
      if status == Completed || status == Failed || status == Cancelled { return; }
      status := Cancelled;
      finishedAt := Some(now);
    }
  }

  // ---------------------------------------------------------------- worker, pipeline, operator

  /** How the transfer ended: an upload or stream error, an unconfirmed upload, or a confirmed one. */
  datatype Transfer = Broken | Unconfirmed | Confirmed

  /** Where the worker stands. `ToFail(true)` still owes the audit log a failure event. */
  datatype PC =
    | Fresh
    | Opening
    | Transferring
    | Judging
    | ToFail(owesAudit: bool)
    | AuditFailure
    | AuditCancellation
    | AuditCompletion
    | ToComplete(event: nat)
    | Done

  /** `inFlight` bytes are written to the pipe and not yet added to the job; `streaming`: the pipeline runs. */
  datatype State = State(
    job: Job, pc: PC, streaming: bool, inFlight: int, written: int, audits: seq<Attempt>
  )

  const INITIAL := State(Job(Queued, 0, None, None), Fresh, false, 0, 0, [])

  datatype Step =
    | Begin
    | Open(ok: bool)
    | Write(count: nat)
    | Account
    | EndStream
    | Settle(t: Transfer)
    | Judge
    | Fail(now: int)
    | Audit(recorded: Option<nat>)
    | Complete(now: int)
    | OperatorCancel(now: int)

  function Report(s: State, kind: AuditKind, recorded: Option<nat>): seq<Attempt> {
    s.audits + [Attempt(kind, s.job.bytes, recorded)]
  }

  /** One step; a step that is not enabled does nothing. */
  function Apply(s: State, step: Step): State {
    match step
    case Begin => if s.pc.Fresh? then s.(pc := Opening, job := MarkRunning(s.job)) else s
    case Open(ok) =>
      if !s.pc.Opening? then s
      else if ok then s.(pc := Transferring, streaming := true) else s.(pc := ToFail(true))
    case Write(count) =>
      if s.streaming && s.inFlight == 0 then s.(inFlight := count, written := s.written + count) else s
    case Account => if s.streaming then s.(job := AddBytes(s.job, s.inFlight), inFlight := 0) else s
    case EndStream => if s.streaming && s.inFlight == 0 then s.(streaming := false) else s
    case Settle(t) =>
      if !s.pc.Transferring? || s.streaming then s
      else s.(pc := match t case Broken => Judging case Unconfirmed => ToFail(true) case Confirmed => AuditCompletion)
    case Judge =>
      if !s.pc.Judging? then s
      else s.(pc := if s.job.status.Cancelled? then AuditCancellation else ToFail(true))
    case Fail(now) =>
      if s.pc.ToFail? then s.(job := MarkFailed(s.job, now), pc := if s.pc.owesAudit then AuditFailure else Done) else s
    case Audit(recorded) =>
      (match s.pc
       case AuditFailure => s.(audits := Report(s, FailedEvent, recorded), pc := Done)
       case AuditCancellation => s.(audits := Report(s, CancelledEvent, recorded), pc := Done)
       case AuditCompletion =>
         s.(audits := Report(s, CompletedEvent, recorded),
            pc := if recorded.Some? then ToComplete(recorded.value) else ToFail(false))
       case _ => s)
    case Complete(now) => if s.pc.ToComplete? then s.(job := MarkCompleted(s.job, s.pc.event, now), pc := Done) else s
    case OperatorCancel(now) => s.(job := CancelJob(s.job, now))
  }

  /** An interleaving of worker, pipeline and operator. */
  datatype Trace = Start | Then(before: Trace, step: Step)

  function After(s: State, t: Trace): State {
    match t
    case Start => s
    case Then(before, step) => Apply(After(s, before), step)
  }

  // ---------------------------------------------------------------- what every step keeps

  /** The job status each point of the worker allows. */
  predicate StatusFits(s: State) {
    match s.pc
    case Fresh => s.job.status.Queued? || s.job.status.Cancelled?
    case AuditFailure => s.job.status.Failed? || s.job.status.Cancelled?
    case AuditCancellation => s.job.status.Cancelled?
    case Done => Terminal(s.job.status)
    case _ => s.job.status.Running? || s.job.status.Cancelled?
  }

  predicate AuditsDue(s: State) {
    |s.audits| == if s.pc.Done? || s.pc.ToComplete? || s.pc == ToFail(false) then 1 else 0
  }

  /** The recorded completion event a completed (or completing) job points at. */
  predicate CompletionBacked(s: State) {
    && (s.job.status.Completed? ==>
          s.job.auditEvent.Some? && |s.audits| == 1
          && s.audits[0].kind == CompletedEvent && s.audits[0].recorded == s.job.auditEvent)
    && (s.pc.ToComplete? ==>
          |s.audits| == 1 && s.audits[0].kind == CompletedEvent && s.audits[0].recorded == Some(s.pc.event))
    && (s.pc == ToFail(false) ==> |s.audits| == 1 && s.audits[0].kind == CompletedEvent && s.audits[0].recorded.None?)
  }

  predicate BytesAccounted(s: State) {
    && s.job.bytes + s.inFlight == s.written
    && (s.streaming ==> s.pc.Transferring?)
    && (!s.streaming ==> s.inFlight == 0)
    && (forall i :: 0 <= i < |s.audits| ==> s.audits[i].bytes == s.written)
  }

  /** At the end, what the audit log was told and what the job says. */
  predicate Verdicts(s: State) {
    s.pc.Done? && |s.audits| == 1 ==>
      var a := s.audits[0];
      match s.job.status
      case Completed => a.kind.CompletedEvent? && a.recorded.Some?
      case Failed => a.kind.FailedEvent? || (a.kind.CompletedEvent? && a.recorded.None?)
      case _ => true
  }

  predicate Inv(s: State) {
    && (s.job.finishedAt.Some? <==> Terminal(s.job.status))
    && StatusFits(s)
    && AuditsDue(s)
    && CompletionBacked(s)
    && BytesAccounted(s)
    && Verdicts(s)
  }

  lemma StepKeepsInv(s: State, step: Step)
    requires Inv(s)
    ensures Inv(Apply(s, step))
  {
  }

  lemma {:induction false} TraceKeepsInv(s: State, t: Trace)
    requires Inv(s)
    ensures Inv(After(s, t))
    decreases t
  {
    if t.Then? {
      TraceKeepsInv(s, t.before);
      StepKeepsInv(After(s, t.before), t.step);
    }
  }

  /** The states some interleaving leads to. */
  ghost predicate Reachable(s: State) {
    exists t :: After(INITIAL, t) == s
  }

  lemma ReachableKeepsInv(s: State)
    requires Reachable(s)
    ensures Inv(s)
  {
    var t :| After(INITIAL, t) == s;
    TraceKeepsInv(INITIAL, t);
  }

  /**
   Over any interleaving: the finishing time is set exactly in the terminal states, and a
   completed job points at the one completion event, which was recorded.
   */
  lemma EveryInterleavingIsSound(s: State)
    requires Reachable(s)
    ensures s.job.finishedAt.Some? <==> Terminal(s.job.status)
    ensures s.job.status.Completed? ==>
              |s.audits| == 1 && s.audits[0].kind.CompletedEvent?
              && s.audits[0].recorded.Some? && s.audits[0].recorded == s.job.auditEvent
  {
    ReachableKeepsInv(s);
  }

  /** A worker that is done leaves a terminal job and has made one audit attempt, over every byte written. */
  lemma DoneMeansAuditedOnce(s: State)
    requires Reachable(s)
    ensures |s.audits| <= 1 && s.job.bytes + s.inFlight == s.written
    ensures s.pc.Done? ==> Terminal(s.job.status) && |s.audits| == 1 && s.audits[0].bytes == s.written == s.job.bytes
  {
    ReachableKeepsInv(s);
  }

  /** How a transfer ended decides where the worker goes; it looks for a cancel only after a broken one. */
  lemma TransferSays(s: State, t: Transfer, ok: bool)
    requires Inv(s)
    ensures s.pc.Transferring? && !s.streaming ==>
              match t
              case Broken => Apply(s, Settle(t)).pc == Judging
              case Unconfirmed => Apply(s, Settle(t)).pc == ToFail(true)
              case Confirmed => Apply(s, Settle(t)).pc == AuditCompletion
    ensures s.pc.Opening? ==> Apply(s, Open(ok)).pc == if ok then Transferring else ToFail(true)
    ensures Apply(s, Settle(t)).job == s.job && Apply(s, Open(ok)).job == s.job
  {
  }

  /** A job ends in one of three ways, and its finishing time is the instant of the step that ends it. */
  lemma EndingSays(s: State, step: Step)
    requires Inv(s) && !Terminal(s.job.status) && Terminal(Apply(s, step).job.status)
    ensures var j := Apply(s, step).job;
            match j.status
            case Completed => step.Complete? && j.finishedAt == Some(step.now) && s.pc == ToComplete(j.auditEvent.value)
            case Failed => step.Fail? && j.finishedAt == Some(step.now) && s.pc.ToFail?
            case _ => step.OperatorCancel? && j.finishedAt == Some(step.now)
  {
  }

  /** A cancel ends every job that has not ended; beginning makes a job run unless it was cancelled before. */
  lemma CancelAndBeginSay(s: State, now: int)
    requires Inv(s)
    ensures !Terminal(s.job.status) ==>
              Apply(s, OperatorCancel(now)).job == s.job.(status := Cancelled, finishedAt := Some(now))
    ensures s.pc.Fresh? ==>
              Apply(s, Begin).job == if s.job.status == Cancelled then s.job else s.job.(status := Running)
  {
  }

  /** Completed, failed and cancelled are final, together with the finishing time and the audit event. */
  lemma {:induction false} TerminalIsAbsorbing(s: State, t: Trace)
    requires Inv(s) && Terminal(s.job.status)
    ensures var j := After(s, t).job;
            j.status == s.job.status && j.finishedAt == s.job.finishedAt && j.auditEvent == s.job.auditEvent
    decreases t
  {
    if t.Then? {
      TerminalIsAbsorbing(s, t.before);
      TraceKeepsInv(s, t.before);
    }
  }

  // ---------------------------------------------------------------- when log and job disagree

  predicate LogAgrees(s: State)
    requires |s.audits| == 1
  {
    var a := s.audits[0];
    match s.job.status
    case Completed => a.kind.CompletedEvent?
    case Cancelled => a.kind.CancelledEvent?
    case _ => a.kind.FailedEvent? || (a.kind.CompletedEvent? && a.recorded.None?)
  }

  /** The worker looked for a cancel, after a broken transfer, and found the job cancelled. */
  predicate FoundCancelled(s: State, step: Step) {
    step.Judge? && s.pc.Judging? && s.job.status.Cancelled?
  }

  /** At some point of the interleaving from `s` it did. */
  predicate JudgedCancelled(s: State, t: Trace) {
    t.Then? && (JudgedCancelled(s, t.before) || FoundCancelled(After(s, t.before), t.step))
  }

  /** The worker is on its way to a cancellation event, or has made it. */
  predicate OnCancelPath(s: State) {
    s.pc.AuditCancellation? || (s.pc.Done? && |s.audits| == 1 && s.audits[0].kind.CancelledEvent?)
  }

  /** The worker is on that path exactly if it `judged` the job cancelled. */
  predicate PathTracked(s: State, judged: bool) {
    && Inv(s)
    && (OnCancelPath(s) <==> judged)
    && (|s.audits| == 1 && s.audits[0].kind.CancelledEvent? ==> s.pc.Done?)
  }

  lemma StepTracksPath(s: State, step: Step, judged: bool)
    requires PathTracked(s, judged)
    ensures PathTracked(Apply(s, step), judged || FoundCancelled(s, step))
  {
    StepKeepsInv(s, step);
  }

  lemma {:induction false} PathIsTracked(s: State, t: Trace)
    requires Inv(s) && s.pc.Fresh?
    ensures PathTracked(After(s, t), JudgedCancelled(s, t))
    decreases t
  {
    if t.Then? {
      PathIsTracked(s, t.before);
      StepTracksPath(After(s, t.before), t.step, JudgedCancelled(s, t.before));
    }
  }

  lemma DoneVerdict(start: State, t: Trace, s: State)
    requires Inv(start) && start.pc.Fresh? && s == After(start, t) && s.pc.Done?
    ensures |s.audits| == 1 && (LogAgrees(s) <==> (s.job.status.Cancelled? ==> JudgedCancelled(start, t)))
  {
    PathIsTracked(start, t);
  }

  /**
   When the worker is done, log and job agree exactly if the job was not cancelled, or the worker
   looked after a broken transfer and found it cancelled.
   */
  lemma LogAgreesExactlyWhen(t: Trace, s: State)
    requires s == After(INITIAL, t) && s.pc.Done?
    ensures |s.audits| == 1 && (LogAgrees(s) <==> (s.job.status.Cancelled? ==> JudgedCancelled(INITIAL, t)))
  {
    DoneVerdict(INITIAL, t, s);
  }

  /** Only a cancelled job can end with another verdict in the log. */
  lemma OnlyCancelsAreMisreported(s: State)
    requires Reachable(s) && s.pc.Done?
    ensures |s.audits| == 1 && (!LogAgrees(s) ==> s.job.status.Cancelled?)
  {
    ReachableKeepsInv(s);
  }

  /** The worker no longer looks for a cancel and is bound for another verdict. */
  predicate PastTheLook(pc: PC) {
    pc.ToFail? || pc.AuditFailure? || pc.AuditCompletion? || pc.ToComplete?
  }

  predicate BoundToMisreport(s: State) {
    && s.job.status.Cancelled?
    && (PastTheLook(s.pc) || s.pc.Done?)
    && (s.pc.Done? ==> |s.audits| == 1)
    && (|s.audits| == 1 ==> !LogAgrees(s))
  }

  predicate BoundToReport(s: State) {
    && s.job.status.Cancelled?
    && (s.pc.Judging? || s.pc.AuditCancellation? || s.pc.Done?)
    && (s.pc.Done? ==> |s.audits| == 1)
    && (|s.audits| == 1 ==> LogAgrees(s))
  }

  /** A job cancelled by the time a broken transfer is judged is always logged as cancelled. */
  lemma {:induction false} TimelyCancelIsReported(s: State, t: Trace)
    requires Inv(s) && s.job.status.Cancelled? && s.pc.Judging?
    ensures BoundToReport(After(s, t))
    decreases t
  {
    if t.Then? {
      TimelyCancelIsReported(s, t.before);
      TraceKeepsInv(s, t.before);
    }
  }

  /** A job cancelled past that look is never logged as cancelled. */
  lemma {:induction false} LateCancelIsMisreported(s: State, t: Trace)
    requires Inv(s) && s.job.status.Cancelled? && PastTheLook(s.pc)
    ensures BoundToMisreport(After(s, t))
    decreases t
  {
    if t.Then? {
      LateCancelIsMisreported(s, t.before);
      TraceKeepsInv(s, t.before);
    }
  }

  /** The steps of a transfer of seven bytes, up to the end of the stream. */
  lemma TransferOfSeven() returns (t: Trace)
    ensures After(INITIAL, t) == State(Job(Running, 7, None, None), Transferring, false, 0, 7, [])
  {
    t := Then(Then(Start, Begin), Open(true));
    assert After(INITIAL, t) == State(Job(Running, 0, None, None), Transferring, true, 0, 0, []);
    t := Then(Then(Then(t, Write(7)), Account), EndStream);
  }

  /** A cancelled job whose transfer was confirmed and logged as completed. */
  lemma CancelledButLoggedCompleted() returns (t: Trace)
    ensures After(INITIAL, t) ==
            State(Job(Cancelled, 7, Some(3), None), Done, false, 0, 7, [Attempt(CompletedEvent, 7, Some(1))])
  {
    t := TransferOfSeven();
    t := Then(Then(t, Settle(Confirmed)), OperatorCancel(3));
    assert After(INITIAL, t) == State(Job(Cancelled, 7, Some(3), None), AuditCompletion, false, 0, 7, []);
    t := Then(Then(t, Audit(Some(1))), Complete(4));
  }

  /** A job cancelled while its source is being opened, logged as failed: the worker never looks. */
  lemma CancelledButLoggedFailed() returns (t: Trace)
    ensures After(INITIAL, t) ==
            State(Job(Cancelled, 0, Some(1), None), Done, false, 0, 0, [Attempt(FailedEvent, 0, Some(1))])
  {
    t := Then(Then(Then(Start, Begin), OperatorCancel(1)), Open(false));
    assert After(INITIAL, t) == State(Job(Cancelled, 0, Some(1), None), ToFail(true), false, 0, 0, []);
    t := Then(Then(t, Fail(2)), Audit(Some(1)));
  }

  /** A job cancelled before its transfer breaks, and logged as cancelled. */
  lemma CancelledAndLoggedCancelled() returns (t: Trace)
    ensures After(INITIAL, t) ==
            State(Job(Cancelled, 7, Some(1), None), Done, false, 0, 7, [Attempt(CancelledEvent, 7, Some(1))])
    ensures JudgedCancelled(INITIAL, t)
  {
    t := TransferOfSeven();
    t := Then(Then(t, OperatorCancel(1)), Settle(Broken));
    assert After(INITIAL, t) == State(Job(Cancelled, 7, Some(1), None), Judging, false, 0, 7, []);
    t := Then(t, Judge);
    assert After(INITIAL, t) == State(Job(Cancelled, 7, Some(1), None), AuditCancellation, false, 0, 7, []);
    t := Then(t, Audit(Some(1)));
  }
}

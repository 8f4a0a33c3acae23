/** Safety of whole worker runs: no blind re-apply, crash safety, exclusive targets. */
module WorkerSafety {
  import opened Wrappers
  import opened Jobs
  import opened WorkerProtocol
  import opened WorkerInvariants

  // ---- reading a trace ----

  predicate IsApplyStart(e: Event, id: JobId) {
    e.PlaybookStarted? && e.id == id && e.mode == Apply
  }

  /** The last Apply start of `id` has not been followed by a finished reconciliation of `id`. */
  predicate Unsettled(trace: seq<Event>, id: JobId) {
    if trace == [] then false
    else
      var last := trace[|trace| - 1];
      if IsApplyStart(last, id) then true
      else if last.SourceSettled? && last.id == id then false
      else Unsettled(trace[..|trace| - 1], id)
  }

  /** An Apply of `id` started after its last claim. */
  predicate StartedInAttempt(trace: seq<Event>, id: JobId) {
    if trace == [] then false
    else
      var last := trace[|trace| - 1];
      if IsApplyStart(last, id) then true
      else if last == JobClaimed(id) then false
      else StartedInAttempt(trace[..|trace| - 1], id)
  }

  predicate EverApplied(trace: seq<Event>, id: JobId) {
    exists i :: 0 <= i < |trace| && IsApplyStart(trace[i], id)
  }

  lemma Extended(trace: seq<Event>, e: Event, id: JobId)
    ensures Unsettled(trace + [e], id) ==
              (IsApplyStart(e, id) || (!(e.SourceSettled? && e.id == id) && Unsettled(trace, id)))
    ensures StartedInAttempt(trace + [e], id) ==
              (IsApplyStart(e, id) || (e != JobClaimed(id) && StartedInAttempt(trace, id)))
    ensures EverApplied(trace + [e], id) == (IsApplyStart(e, id) || EverApplied(trace, id))
  {
    var longer := trace + [e];
    assert longer[..|longer| - 1] == trace;
    assert forall i :: 0 <= i < |trace| ==> longer[i] == trace[i];
    if IsApplyStart(e, id) { assert IsApplyStart(longer[|trace|], id); }
  }

  /** What each new entry of a trace is allowed to follow. */
  ghost predicate Follows(trace: seq<Event>, e: Event) {
    match e
    case PlaybookStarted(id, mode, operation) =>
      mode == Apply ==> !Unsettled(trace, id) && (operation == UpdatePackages ==> !EverApplied(trace, id))
    case FailedByRestart(id) => !StartedInAttempt(trace, id)
    case _ => true
  }

  ghost predicate HistoryOk(trace: seq<Event>) {
    forall i :: 0 <= i < |trace| ==> Follows(trace[..i], trace[i])
  }

  lemma HistoryExtends(trace: seq<Event>, e: Event)
    requires HistoryOk(trace) && Follows(trace, e)
    ensures HistoryOk(trace + [e])
  {
    var longer := trace + [e];
    forall i | 0 <= i < |longer| ensures Follows(longer[..i], longer[i]) {
      assert longer[..i] == trace[..i];
    }
  }

  // ---- the invariant that ties the trace to the table ----

  ghost predicate RowTraceOk(trace: seq<Event>, row: Job) {
    && (EverApplied(trace, row.id) ==> row.mode == Apply)
    && (Unsettled(trace, row.id) ==> row.status in {Applying, ReconcileRequired, Succeeded})
    && (row.operation == UpdatePackages && EverApplied(trace, row.id) ==>
          row.status in {Applying, ReconcileRequired, Succeeded, Failed})
    && (row.status == Checking || row.status == Planned ==> !StartedInAttempt(trace, row.id))
  }

  predicate BeforeStart(phase: Phase) {
    phase.Claimed? || phase.PlanStored? || phase.SourceLoaded? || phase.ApplyStored?
  }

  ghost predicate WorkerTraceOk(trace: seq<Event>, worker: Worker) {
    worker.Busy? ==>
      var job := worker.job;
      && (BeforeStart(worker.phase) ==>
            && !Unsettled(trace, job.id)
            && !StartedInAttempt(trace, job.id)
            && (job.operation == UpdatePackages ==> !EverApplied(trace, job.id)))
      && (worker.phase.Finishing? && Unsettled(trace, job.id) ==> job.status == Applying)
  }

  ghost predicate TraceOk(s: State) {
    && HistoryOk(s.trace)
    && (forall id :: id in s.store ==> RowTraceOk(s.trace, s.store[id]))
    && (forall id :: EverApplied(s.trace, id) ==> id in s.store)
    && (forall id :: Unsettled(s.trace, id) ==> id in s.store)
    && (forall id :: StartedInAttempt(s.trace, id) ==> id in s.store)
    && WorkerTraceOk(s.trace, s.worker)
  }

  lemma ExtendedForAll(trace: seq<Event>, e: Event)
    ensures forall id :: Unsettled(trace + [e], id) ==
              (IsApplyStart(e, id) || (!(e.SourceSettled? && e.id == id) && Unsettled(trace, id)))
    ensures forall id :: StartedInAttempt(trace + [e], id) ==
              (IsApplyStart(e, id) || (e != JobClaimed(id) && StartedInAttempt(trace, id)))
    ensures forall id :: EverApplied(trace + [e], id) == (IsApplyStart(e, id) || EverApplied(trace, id))
  {
    forall id
      ensures Unsettled(trace + [e], id) ==
                (IsApplyStart(e, id) || (!(e.SourceSettled? && e.id == id) && Unsettled(trace, id)))
      ensures StartedInAttempt(trace + [e], id) ==
                (IsApplyStart(e, id) || (e != JobClaimed(id) && StartedInAttempt(trace, id)))
      ensures EverApplied(trace + [e], id) == (IsApplyStart(e, id) || EverApplied(trace, id))
    {
      Extended(trace, e, id);
    }
  }

  lemma ApiKeepsTrace(s: State, l: Label)
    requires Base(s) && TraceOk(s) && (l.Enqueue? || l.EnqueueReconcile? || l.Retry?) && Next(s, l).Some?
    ensures TraceOk(Next(s, l).value)
  {
  }

  /** Storing one row together with an entry that is not a start. */
  lemma RowAndEntry(s: State, row: Job, e: Event)
    requires RowsOk(s.store) && TraceOk(s)
    requires row.id in s.store && SameJob(s.store[row.id], row)
    requires !e.PlaybookStarted? && Follows(s.trace, e)
    requires row.status == Failed || row.status == Succeeded
    requires Unsettled(s.trace, row.id) ==> e.SourceSettled? && e.id == row.id
    ensures TraceOk(s.(store := s.store[row.id := row], worker := Down, trace := s.trace + [e]))
  {
    ExtendedForAll(s.trace, e);
    HistoryExtends(s.trace, e);
  }

  lemma RecoveryKeepsTrace(s: State, write: Write, logged: bool)
    requires Base(s) && TraceOk(s) && s.worker.Recovering? && s.worker.todo != []
    ensures TraceOk(RecoverStep(s, write, logged))
  {
    var row := s.worker.todo[0];
    if Executing(row.status) && row.status != Applying {
      assert RowTraceOk(s.trace, s.store[row.id]);
      RowAndEntry(s, row.(status := Failed), FailedByRestart(row.id));
    }
  }

  lemma ClaimKeepsTrace(s: State, id: JobId)
    requires Base(s) && TraceOk(s) && Next(s, Claim(id)).Some?
    ensures TraceOk(Next(s, Claim(id)).value)
  {
    ExtendedForAll(s.trace, JobClaimed(id));
    HistoryExtends(s.trace, JobClaimed(id));
  }

  lemma PlanningKeepsTrace(s: State, l: Label)
    requires Base(s) && TraceOk(s) && s.worker.Busy? && (l.StorePlanned? || l.StoreApplying?) && Next(s, l).Some?
    ensures TraceOk(Next(s, l).value)
  {
  }

  lemma FinishingKeepsTrace(s: State, l: Label)
    requires Base(s) && TraceOk(s) && s.worker.Busy? && l.Finish? && Next(s, l).Some?
    ensures TraceOk(Next(s, l).value)
  {
  }

  /** Starting a playbook that may start: the entry may follow, and no row is in the way. */
  lemma StartExtends(store: Store, trace: seq<Event>, job: Job)
    requires HistoryOk(trace) && job.id in store && store[job.id] == job && RowsOk(store)
    requires job.mode == Apply ==> job.status == Applying && !Unsettled(trace, job.id)
    requires job.mode == Apply && job.operation == UpdatePackages ==> !EverApplied(trace, job.id)
    requires job.mode != Apply ==> !EverApplied(trace, job.id)
    requires forall id :: id in store ==> RowTraceOk(trace, store[id])
    ensures var longer := trace + [PlaybookStarted(job.id, job.mode, job.operation)];
            HistoryOk(longer) && forall id :: id in store ==> RowTraceOk(longer, store[id])
  {
    var e := PlaybookStarted(job.id, job.mode, job.operation);
    HistoryExtends(trace, e);
    forall id | id in store ensures RowTraceOk(trace + [e], store[id]) {
      Extended(trace, e, id);
    }
  }

  lemma StartKeepsTrace(s: State)
    requires Base(s) && TraceOk(s) && Next(s, StartPlaybook).Some?
    ensures TraceOk(Next(s, StartPlaybook).value)
  {
    var job := s.worker.job;
    assert RowTraceOk(s.trace, s.store[job.id]);
    StartExtends(s.store, s.trace, job);
    ExtendedForAll(s.trace, PlaybookStarted(job.id, job.mode, job.operation));
  }

  lemma SettleKeepsTrace(s: State, next: Status, write: Write, logged: bool)
    requires Base(s) && TraceOk(s) && s.worker.Busy? && s.worker.phase.Settling?
    requires next == Succeeded || next == Failed
    ensures TraceOk(SettleStep(s, s.worker.job, s.worker.phase.source, next, write, logged))
  {
    var source := s.worker.phase.source;
    var entry := SourceSettled(source.id, next, s.worker.job.id, write == Acknowledged && logged);
    SourceFacts(s.store, s.worker.job, source);
    RowAndEntry(s, source.(status := next), entry);
    assert RowTraceOk(s.trace, s.store[s.worker.job.id]);
    Extended(s.trace, entry, s.worker.job.id);
  }

  /** An entry that is neither a start nor a claim nor a settlement. */
  lemma PlainEntryKeepsTrace(s: State, e: Event)
    requires TraceOk(s) && e.PlaybookExited?
    ensures TraceOk(s.(trace := s.trace + [e]))
  {
    ExtendedForAll(s.trace, e);
    HistoryExtends(s.trace, e);
  }

  lemma OtherWorkerKeepsTrace(s: State, s': State)
    requires TraceOk(s) && s'.store == s.store && s'.trace == s.trace && WorkerTraceOk(s.trace, s'.worker)
    ensures TraceOk(s')
  {
  }

  /** A job that ran to the exit of its playbook is unsettled only under Applying. */
  lemma ExitedWorkerOk(trace: seq<Event>, row: Job, phase: Phase)
    requires RowTraceOk(trace, row) && row.status == (if row.mode == Apply then Applying else Planned)
    requires phase.Settling? || phase.Finishing?
    ensures WorkerTraceOk(trace, Busy(row, phase))
  {
  }

  lemma ExitKeepsTrace(s: State, l: Label)
    requires Base(s) && TraceOk(s) && l.PlaybookExit? && Next(s, l).Some?
    ensures TraceOk(Next(s, l).value)
  {
    var s', e := Next(s, l).value, PlaybookExited(s.worker.job.id, l.success, l.logged);
    var logged := s.(trace := s.trace + [e]);
    PlainEntryKeepsTrace(s, e);
    assert RowTraceOk(logged.trace, s.store[s.worker.job.id]);
    ExitedWorkerOk(logged.trace, s.worker.job, s'.worker.phase);
    OtherWorkerKeepsTrace(logged, s');
  }

  /** Steps that write neither rows nor entries. */
  predicate IsSilent(l: Label) {
    l.Crash? || l.PlaybookEnds? || l.Restart? || l.RecoveryDone? || l.Fail? || l.LoadSource?
  }

  lemma SilentKeepsTrace(s: State, l: Label)
    requires Base(s) && TraceOk(s) && IsSilent(l) && Next(s, l).Some?
    ensures TraceOk(Next(s, l).value)
  {
    var s' := Next(s, l).value;
    assert s'.store == s.store && s'.trace == s.trace;
    assert WorkerTraceOk(s.trace, s'.worker) by {
      if s.worker.Busy? {
        assert RowTraceOk(s.trace, s.store[s.worker.job.id]);
      }
    }
  }

  lemma StepKeepsTrace(s: State, l: Label)
    requires Base(s) && TraceOk(s) && Next(s, l).Some?
    ensures TraceOk(Next(s, l).value)
  {
    match l
    case Enqueue(_) => ApiKeepsTrace(s, l);
    case EnqueueReconcile(_, _) => ApiKeepsTrace(s, l);
    case Retry(_) => ApiKeepsTrace(s, l);
    case RecoverNext(write, logged) => RecoveryKeepsTrace(s, write, logged);
    case Claim(id) => ClaimKeepsTrace(s, id);
    case StartPlaybook => StartKeepsTrace(s);
    case SettleSource(write, logged) => SettleKeepsTrace(s, Verdict(s.worker.phase.stdout), write, logged);
    case StorePlanned(_, _) => PlanningKeepsTrace(s, l);
    case StoreApplying(_, _) => PlanningKeepsTrace(s, l);
    case Finish(_) => FinishingKeepsTrace(s, l);
    case PlaybookExit(_, _, _) => ExitKeepsTrace(s, l);
    case _ => SilentKeepsTrace(s, l);
  }
}

/** How a run ends and what is stored for it: the row says what the playbook did. */
module WorkerOutcome {
  import opened Wrappers
  import opened Jobs
  import opened WorkerProtocol
  import opened WorkerInvariants
  import opened WorkerTheorems

  // ---- reading the trace ----

  datatype Exit = Exit(success: bool, logged: bool)

  /** How the playbook of the current attempt of `id` exited, if it did. */
  function LastExit(trace: seq<Event>, id: JobId): (exit: Option<Exit>) {
    if trace == [] then None
    else
      var last := trace[|trace| - 1];
      if last == JobClaimed(id) then None
      else if last.PlaybookExited? && last.id == id then Some(Exit(last.success, last.logged))
      else LastExit(trace[..|trace| - 1], id)
  }

  /** In the current attempt of the reconciliation `id` its verdict was stored and logged. */
  predicate Confirmed(trace: seq<Event>, id: JobId) {
    if trace == [] then false
    else
      var last := trace[|trace| - 1];
      if last == JobClaimed(id) then false
      else if last.SourceSettled? && last.judge == id && last.confirmed then true
      else Confirmed(trace[..|trace| - 1], id)
  }

  /** The last verdict on `id`, if there is one. */
  function LastVerdict(trace: seq<Event>, id: JobId): (status: Option<Status>) {
    if trace == [] then None
    else
      var last := trace[|trace| - 1];
      if last.SourceSettled? && last.id == id then Some(last.status)
      else LastVerdict(trace[..|trace| - 1], id)
  }

  /** The playbook exited successfully, its output was logged, and a reconciliation passed its verdict. */
  predicate EndedWell(trace: seq<Event>, job: Job) {
    LastExit(trace, job.id) == Some(Exit(true, true)) && (job.mode == Reconcile ==> Confirmed(trace, job.id))
  }

  lemma Longer(trace: seq<Event>, e: Event, id: JobId)
    ensures LastExit(trace + [e], id) ==
              if e == JobClaimed(id) then None
              else if e.PlaybookExited? && e.id == id then Some(Exit(e.success, e.logged))
              else LastExit(trace, id)
    ensures Confirmed(trace + [e], id) <==>
              e != JobClaimed(id) && ((e.SourceSettled? && e.judge == id && e.confirmed) || Confirmed(trace, id))
    ensures LastVerdict(trace + [e], id) ==
              if e.SourceSettled? && e.id == id then Some(e.status) else LastVerdict(trace, id)
  {
    assert (trace + [e])[..|trace|] == trace;
  }

  // ---- the invariant ----

  /** What the phase of the worker knows about the exit of its playbook. */
  ghost predicate PhaseKnows(trace: seq<Event>, job: Job, phase: Phase) {
    match phase
    case Settling(_, _) =>
      job.mode == Reconcile && LastExit(trace, job.id) == Some(Exit(true, true)) && !Confirmed(trace, job.id)
    case Finishing(ok) => ok <==> EndedWell(trace, job)
    case _ => LastExit(trace, job.id).None? && !Confirmed(trace, job.id)
  }

  ghost predicate WorkerKnows(trace: seq<Event>, worker: Worker) {
    worker.Busy? ==> PhaseKnows(trace, worker.job, worker.phase)
  }

  /** A success was earned by the job's own run or by the verdict of its reconciliation. */
  predicate Earned(trace: seq<Event>, row: Job) {
    EndedWell(trace, row) || LastVerdict(trace, row.id) == Some(Succeeded)
  }

  ghost predicate SuccessesEarned(trace: seq<Event>, store: Store) {
    forall id :: id in store && store[id].status == Succeeded ==> Earned(trace, store[id])
  }

  ghost predicate OutcomeOk(s: State) {
    WorkerKnows(s.trace, s.worker) && SuccessesEarned(s.trace, s.store)
  }

  /** An entry about other jobs changes nothing about a success. */
  lemma EarnedStays(trace: seq<Event>, e: Event, row: Job)
    requires Earned(trace, row) && e != JobClaimed(row.id) && !(e.PlaybookExited? && e.id == row.id)
    requires e.SourceSettled? && e.id == row.id ==> e.status == Succeeded
    ensures Earned(trace + [e], row)
  {
    Longer(trace, e, row.id);
  }

  lemma ClaimKeepsOutcome(s: State, id: JobId)
    requires Base(s) && OutcomeOk(s) && Next(s, Claim(id)).Some?
    ensures OutcomeOk(Next(s, Claim(id)).value)
  {
    Longer(s.trace, JobClaimed(id), id);
    forall other | other in s.store && s.store[other].status == Succeeded
      ensures Earned(s.trace + [JobClaimed(id)], s.store[other])
    {
      EarnedStays(s.trace, JobClaimed(id), s.store[other]);
    }
  }

  lemma StartKeepsOutcome(s: State)
    requires Base(s) && OutcomeOk(s) && Next(s, StartPlaybook).Some?
    ensures OutcomeOk(Next(s, StartPlaybook).value)
  {
    var e := PlaybookStarted(s.worker.job.id, s.worker.job.mode, s.worker.job.operation);
    Longer(s.trace, e, s.worker.job.id);
    forall other | other in s.store && s.store[other].status == Succeeded
      ensures Earned(s.trace + [e], s.store[other])
    {
      EarnedStays(s.trace, e, s.store[other]);
    }
  }

  lemma ExitKeepsOutcome(s: State, l: Label)
    requires Base(s) && OutcomeOk(s) && l.PlaybookExit? && Next(s, l).Some?
    ensures OutcomeOk(Next(s, l).value)
  {
    var e := PlaybookExited(s.worker.job.id, l.success, l.logged);
    Longer(s.trace, e, s.worker.job.id);
    forall other | other in s.store && s.store[other].status == Succeeded
      ensures Earned(s.trace + [e], s.store[other])
    {
      EarnedStays(s.trace, e, s.store[other]);
    }
  }

  lemma SettleKeepsOutcome(s: State, next: Status, write: Write, logged: bool)
    requires Base(s) && OutcomeOk(s) && s.worker.Busy? && s.worker.phase.Settling? && next in {Succeeded, Failed}
    ensures OutcomeOk(SettleStep(s, s.worker.job, s.worker.phase.source, next, write, logged))
  {
    var job, source := s.worker.job, s.worker.phase.source;
    SourceFacts(s.store, job, source);
    if write != Lost {
      var e := SourceSettled(source.id, next, job.id, write == Acknowledged && logged);
      Longer(s.trace, e, job.id);
      Longer(s.trace, e, source.id);
      var store' := s.store[source.id := source.(status := next)];
      forall other | other in store' && store'[other].status == Succeeded ensures Earned(s.trace + [e], store'[other]) {
        if other != source.id {
          EarnedStays(s.trace, e, s.store[other]);
        }
      }
    }
  }

  lemma RecoveryKeepsOutcome(s: State, write: Write, logged: bool)
    requires Base(s) && OutcomeOk(s) && s.worker.Recovering? && s.worker.todo != []
    ensures OutcomeOk(RecoverStep(s, write, logged))
  {
    var row := s.worker.todo[0];
    var e := FailedByRestart(row.id);
    forall other | other in s.store && s.store[other].status == Succeeded
      ensures Earned(s.trace + [e], s.store[other])
    {
      EarnedStays(s.trace, e, s.store[other]);
    }
  }

  lemma FinishKeepsOutcome(s: State, write: Write)
    requires Base(s) && OutcomeOk(s) && Next(s, Finish(write)).Some?
    ensures OutcomeOk(Next(s, Finish(write)).value)
  {
  }

  lemma StoringKeepsOutcome(s: State, l: Label)
    requires Base(s) && OutcomeOk(s) && (l.StorePlanned? || l.StoreApplying?) && Next(s, l).Some?
    ensures OutcomeOk(Next(s, l).value)
  {
  }

  lemma QuietKeepsOutcome(s: State, l: Label)
    requires Base(s) && OutcomeOk(s) && Next(s, l).Some?
    requires l.Enqueue? || l.EnqueueReconcile? || l.Retry? || l.Crash? || l.PlaybookEnds? || l.Restart?
             || l.RecoveryDone? || l.Fail? || l.LoadSource?
    ensures OutcomeOk(Next(s, l).value)
  {
  }

  lemma StepKeepsOutcome(s: State, l: Label)
    requires Base(s) && OutcomeOk(s) && Next(s, l).Some?
    ensures OutcomeOk(Next(s, l).value)
  {
    match l
    case Claim(id) => ClaimKeepsOutcome(s, id);
    case StartPlaybook => StartKeepsOutcome(s);
    case PlaybookExit(_, _, _) => ExitKeepsOutcome(s, l);
    case SettleSource(write, logged) => SettleKeepsOutcome(s, Verdict(s.worker.phase.stdout), write, logged);
    case RecoverNext(write, logged) => RecoveryKeepsOutcome(s, write, logged);
    case Finish(write) => FinishKeepsOutcome(s, write);
    case StorePlanned(_, _) => StoringKeepsOutcome(s, l);
    case StoreApplying(_, _) => StoringKeepsOutcome(s, l);
    case _ => QuietKeepsOutcome(s, l);
  }

  lemma {:induction false} StepsKeepOutcome(s: State, labels: seq<Label>)
    requires Invariant(s) && OutcomeOk(s) && RunFrom(s, labels).Some?
    ensures Invariant(RunFrom(s, labels).value) && OutcomeOk(RunFrom(s, labels).value)
  {
    if labels != [] {
      var before := RunFrom(s, labels[..|labels| - 1]).value;
      StepsKeepOutcome(s, labels[..|labels| - 1]);
      StepKeepsInvariant(before, labels[|labels| - 1]);
      StepKeepsOutcome(before, labels[|labels| - 1]);
    }
  }

  lemma RunKeepsOutcome(labels: seq<Label>, s: State)
    requires Run(labels) == Some(s)
    ensures Invariant(s) && OutcomeOk(s)
  {
    StepsKeepOutcome(INIT, labels);
  }

  // ---- what is stored at the end of a run ----

  /** The end of a run, said from its history alone: success, uncertainty or failure. */
  function EndStatus(trace: seq<Event>, job: Job): (status: Status) {
    if EndedWell(trace, job) then Succeeded
    else if job.mode == Apply && job.status == Applying then ReconcileRequired
    else Failed
  }

  lemma EndIsStored(s: State, write: Write)
    requires Base(s) && OutcomeOk(s) && Next(s, Finish(write)).Some?
    ensures var job, s' := s.worker.job, Next(s, Finish(write)).value;
            && s'.worker == Idle
            && s'.store == if write == Lost then s.store else s.store[job.id := job.(status := EndStatus(s.trace, job))]
  {
  }

  /**
   A run ends as Succeeded exactly if its playbook exited successfully, its output was logged and a reconciliation
   passed its verdict; otherwise as ReconcileRequired exactly if it is an Apply that went to Applying, and else as
   Failed. Only a lost write leaves the row as it was.
   */
  lemma EndExactly(labels: seq<Label>, s: State, write: Write)
    requires Run(labels) == Some(s) && Next(s, Finish(write)).Some?
    ensures var job, s' := s.worker.job, Next(s, Finish(write)).value;
            && s'.worker == Idle
            && s'.store == if write == Lost then s.store else s.store[job.id := job.(status := EndStatus(s.trace, job))]
    ensures var job := s.worker.job;
            job.id in s.store && (s.store[job.id].status == Applying ==> job.mode == Apply && job.status == Applying)
  {
    RunKeepsOutcome(labels, s);
    EndIsStored(s, write);
  }

  /** The job ends its own run well, or the verdict of its reconciliation says so. */
  ghost predicate SucceedsBy(s: State, l: Label, id: JobId) {
    && s.worker.Busy?
    && ((l.Finish? && l.write != Lost && s.worker.job.id == id && s.worker.phase.Finishing? &&
         EndedWell(s.trace, s.worker.job))
        || (l.SettleSource? && l.write != Lost && s.worker.phase.Settling? && s.worker.phase.source.id == id &&
            Verdict(s.worker.phase.stdout) == Succeeded))
  }

  lemma SettledRow(s: State, write: Write, logged: bool)
    requires Base(s) && Next(s, SettleSource(write, logged)).Some?
    ensures var source, s' := s.worker.phase.source, Next(s, SettleSource(write, logged)).value;
            s'.store == if write == Lost then s.store
                        else s.store[source.id := source.(status := Verdict(s.worker.phase.stdout))]
  {
    SettledStore(s, Verdict(s.worker.phase.stdout), write, logged);
  }

  lemma SettledStore(s: State, next: Status, write: Write, logged: bool)
    requires Base(s) && s.worker.Busy? && s.worker.phase.Settling? && next in {Succeeded, Failed}
    ensures var source := s.worker.phase.source;
            SettleStep(s, s.worker.job, source, next, write, logged).store ==
              if write == Lost then s.store else s.store[source.id := source.(status := next)]
  {
    SourceFacts(s.store, s.worker.job, s.worker.phase.source);
  }

  lemma StoredSucceeds(store: Store, store': Store, row: Job, write: Write, id: JobId)
    requires store' == if write == Lost then store else store[row.id := row]
    requires id in store && store[id].status != Succeeded
    ensures id in store'
    ensures store'[id].status == Succeeded <==> write != Lost && row.id == id && row.status == Succeeded
  {
  }

  lemma FinishSucceeds(s: State, write: Write, id: JobId)
    requires Base(s) && OutcomeOk(s) && Next(s, Finish(write)).Some?
    requires id in s.store && s.store[id].status != Succeeded
    ensures var store' := Next(s, Finish(write)).value.store;
            id in store' && (store'[id].status == Succeeded <==> SucceedsBy(s, Finish(write), id))
  {
    EndIsStored(s, write);
  }

  lemma SettleSucceeds(s: State, write: Write, logged: bool, id: JobId)
    requires Base(s) && Next(s, SettleSource(write, logged)).Some?
    requires id in s.store && s.store[id].status != Succeeded
    ensures var store' := Next(s, SettleSource(write, logged)).value.store;
            id in store' && (store'[id].status == Succeeded <==> SucceedsBy(s, SettleSource(write, logged), id))
  {
    SettledRow(s, write, logged);
    var source, next := s.worker.phase.source, Verdict(s.worker.phase.stdout);
    StoredSucceeds(s.store, Next(s, SettleSource(write, logged)).value.store, source.(status := next), write, id);
  }

  /** A row becomes Succeeded in no other way. */
  lemma SucceedsExactly(labels: seq<Label>, s: State, l: Label, id: JobId)
    requires Run(labels) == Some(s) && Next(s, l).Some? && id in s.store && s.store[id].status != Succeeded
    ensures id in Next(s, l).value.store
    ensures Next(s, l).value.store[id].status == Succeeded <==> SucceedsBy(s, l, id)
  {
    RunKeepsOutcome(labels, s);
    if l.Finish? {
      FinishSucceeds(s, l.write, id);
    } else if l.SettleSource? {
      SettleSucceeds(s, l.write, l.logged, id);
    } else {
      OthersDoNotSucceed(s, l, id);
    }
  }

  lemma OthersDoNotSucceed(s: State, l: Label, id: JobId)
    requires Base(s) && Next(s, l).Some? && !l.Finish? && !l.SettleSource?
    requires id in s.store && s.store[id].status != Succeeded
    ensures id in Next(s, l).value.store && Next(s, l).value.store[id].status != Succeeded
  {
    StepKeepsRows(s, l);
    if Next(s, l).value.store[id] != s.store[id] {
      ChangedRowIsWritten(s, l, id);
    }
  }

  /** In every run each stored success was earned. */
  lemma EverySuccessIsEarned(labels: seq<Label>, s: State, id: JobId)
    requires Run(labels) == Some(s) && id in s.store && s.store[id].status == Succeeded
    ensures EndedWell(s.trace, s.store[id]) || LastVerdict(s.trace, id) == Some(Succeeded)
  {
    RunKeepsOutcome(labels, s);
  }
}

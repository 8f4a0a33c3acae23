/** Playbook processes: which of them run, and which of them the worker still waits for. */
module WorkerPlaybooks {
  import opened Wrappers
  import opened Jobs
  import opened WorkerProtocol

  ghost predicate Names(trace: seq<Event>, process: nat, job: Job) {
    process < |trace| && trace[process] == PlaybookStarted(job.id, job.mode, job.operation)
  }

  ghost predicate AttendedOk(trace: seq<Event>, worker: Worker, abandoned: set<nat>) {
    worker.Busy? && worker.phase.Running? ==>
      Names(trace, worker.phase.process, worker.job) && worker.phase.process !in abandoned
  }

  /** Every live process is a recorded start that the worker waits for or has abandoned. */
  ghost predicate PlaybooksOk(s: State) {
    && (forall k :: k in s.live ==> k < |s.trace| && s.trace[k].PlaybookStarted?)
    && (forall k :: k in s.live ==> k in s.abandoned || k in Attended(s.worker))
    && (forall k :: k in s.abandoned ==> k < |s.trace|)
    && AttendedOk(s.trace, s.worker, s.abandoned)
  }

  lemma StartKeepsPlaybooks(s: State)
    requires PlaybooksOk(s) && Next(s, StartPlaybook).Some?
    ensures PlaybooksOk(Next(s, StartPlaybook).value)
  {
  }

  lemma BusyKeepsPlaybooks(s: State, l: Label)
    requires PlaybooksOk(s) && s.worker.Busy? && l != StartPlaybook
    requires BusyStep(s, s.worker.job, s.worker.phase, l).Some?
    ensures PlaybooksOk(BusyStep(s, s.worker.job, s.worker.phase, l).value)
  {
  }

  lemma StepKeepsPlaybooks(s: State, l: Label)
    requires PlaybooksOk(s) && Next(s, l).Some?
    ensures PlaybooksOk(Next(s, l).value)
  {
    match l
    case StartPlaybook => StartKeepsPlaybooks(s);
    case Enqueue(_) =>
    case EnqueueReconcile(_, _) =>
    case Retry(_) =>
    case Crash =>
    case PlaybookEnds(_) =>
    case Restart(_) =>
    case RecoverNext(_, _) =>
    case RecoveryDone =>
    case Claim(_) =>
    case _ => BusyKeepsPlaybooks(s, l);
  }
}

/**
 The worker's claim / apply / recover / reconcile protocol as a step system.

 One worker process and the API share a persisted job table. Every database write of the worker is a
 step of its own, the process may die between any two of them, and each write may be acknowledged, lost,
 or stored without the worker learning of it. A playbook is a process of its own: the worker waits for it at
 most 900 seconds and never kills it, so it may outlive both its run and the worker.
 */
module WorkerProtocol {
  import opened Wrappers
  import opened Jobs
  import Recap

  /** Outcome of one database update. */
  datatype Write = Acknowledged | Lost | StoredUnacknowledged

  /** What the trace of a run records. */
  datatype Event =
    | JobClaimed(id: JobId)
    | PlaybookStarted(id: JobId, mode: Mode, operation: Operation)
    | PlaybookExited(id: JobId, success: bool, logged: bool)
    | SourceSettled(id: JobId, status: Status, judge: JobId, confirmed: bool)
    | FailedByRestart(id: JobId)

  /** Where the worker stands with its claimed job. */
  datatype Phase =
    | Claimed
    | PlanStored
    | SourceLoaded(source: Job)
    | ApplyStored
    | Running(reconciles: Option<Job>, process: nat)
    | Settling(source: Job, stdout: string)
    | Finishing(ok: bool)

  /** `Panicked` is where a failing `expect` on a status transition would lead. */
  datatype Worker =
    | Down
    | Recovering(todo: seq<Job>)
    | Idle
    | Busy(job: Job, phase: Phase)
    | Panicked

  type Store = map<JobId, Job>

  /**
   A playbook process is named by the position of its start in the trace. `live` holds those that still run,
   `abandoned` those that the worker stopped waiting for.
   */
  datatype State = State(store: Store, worker: Worker, trace: seq<Event>, live: set<nat>, abandoned: set<nat>)

  datatype Label =
    | Enqueue(job: Job)
    | EnqueueReconcile(source: JobId, id: JobId)
    | Retry(id: JobId)
    | Crash
    | Restart(listed: seq<JobId>)
    | RecoverNext(write: Write, logged: bool)
    | RecoveryDone
    | Claim(id: JobId)
    | Fail
    | StorePlanned(write: Write, logged: bool)
    | LoadSource
    | StoreApplying(write: Write, logged: bool)
    | StartPlaybook
    | PlaybookExit(success: bool, stdout: string, logged: bool)
    | PlaybookEnds(process: nat)
    | SettleSource(write: Write, logged: bool)
    | Finish(write: Write)

  const INIT := State(map[], Down, [], {}, {})

  // ---- the pure tables of the worker ----

  /** Command line arguments of a playbook run; `None` is a rejected combination. */
  function ModeArgs(operation: Operation, mode: Mode): (args: Option<seq<string>>)
  {
    if !SupportsMode(operation, mode) && !(mode == Reconcile && CanReconcileApply(operation)) then None
    else
      match mode
      case Check =>
        Some(if operation in {HealthCheck, CollectPackageInventory} then [] else ["--check"])
      case Apply => Some([])
      case _ =>
        match operation
        case DeployAgent => Some(["--check", "--diff"])
        case UpdateAgent => Some(["--check", "--diff"])
        case RepairAgent => Some(["--check", "--diff"])
        case UpdatePackages => Some(["--diff"])
        case _ => None
  }

  /** The table of playbooks for hosts that are not Windows servers. */
  predicate HasPlaybook(operation: Operation) {
    operation != ConfigureTarget
  }

  /** The claim query: no executing job on the target, and only the linked reconciliation beside an unresolved one. */
  predicate Claimable(store: Store, id: JobId) {
    && id in store
    && store[id].status == Queued
    && forall other :: other in store && store[other].target == store[id].target ==>
         && !Executing(store[other].status)
         && (store[other].status == ReconcileRequired ==>
               store[id].mode == Reconcile && store[id].key == ReconcileKey(other))
  }

  /** `load_reconciliation_source`: the source named by the key, if it still is what this job was made for. */
  function FindSource(store: Store, job: Job): (source: Option<Job>) {
    match ReconciliationSource(job.key)
    case None => None
    case Some(id) =>
      if && id in store
         && CanBeReconciled(store[id])
         && store[id].target == job.target
         && store[id].operation == job.operation
         && store[id].parameters == job.parameters
         && store[id].secretRefs == job.secretRefs
      then Some(store[id])
      else None
  }

  function Updated(store: Store, job: Job, write: Write): (r: Store) {
    if write == Lost then store else store[job.id := job]
  }

  function Record(trace: seq<Event>, write: Write, event: Event): (r: seq<Event>) {
    if write == Lost then trace else trace + [event]
  }

  // ---- steps; `None` means that the step is not enabled ----

  function Next(s: State, l: Label): (r: Option<State>) {
    match l
    case Enqueue(job) =>
      if Acceptable(s.store, job) then Some(s.(store := s.store[job.id := job])) else None
    case EnqueueReconcile(source, id) =>
      if MayReconcile(s.store, source, id)
      then Some(s.(store := s.store[id := Reconciliation(s.store[source], id)])) else None
    case Retry(id) => RetryStep(s, id)
    case Crash => Some(s.(worker := Down, abandoned := s.abandoned + Attended(s.worker)))
    case PlaybookEnds(process) =>
      if process in s.live then Some(s.(live := s.live - {process})) else None
    case Restart(listed) =>
      if s.worker == Down && Lists(s.store, listed)
      then Some(s.(worker := Recovering(Rows(s.store, listed)))) else None
    case RecoverNext(write, logged) =>
      if s.worker.Recovering? && s.worker.todo != [] then Some(RecoverStep(s, write, logged)) else None
    case RecoveryDone =>
      if s.worker == Recovering([]) then Some(s.(worker := Idle)) else None
    case Claim(id) =>
      if s.worker == Idle && Claimable(s.store, id) then
        var job := s.store[id].(status := Checking);
        Some(s.(store := s.store[id := job], worker := Busy(job, Claimed), trace := s.trace + [JobClaimed(id)]))
      else None
    case _ =>
      if s.worker.Busy? then BusyStep(s, s.worker.job, s.worker.phase, l) else None
  }

  /** The table holds one row per target and idempotency key. */
  predicate KeyFree(store: Store, target: Target, key: string) {
    forall other :: other in store ==> !(store[other].target == target && store[other].key == key)
  }

  /** An ordinary request: the contract accepts no reconciliation from outside. */
  predicate Acceptable(store: Store, job: Job) {
    && job.id !in store && job.status == Queued
    && SupportsMode(job.operation, job.mode)
    && KeyFree(store, job.target, job.key)
  }

  function Reconciliation(source: Job, id: JobId): (job: Job) {
    source.(id := id, mode := Reconcile, key := ReconcileKey(source.id), status := Queued)
  }

  /** The reconciliation route. Its source was unresolved when it was read; the row may have moved on since. */
  predicate MayReconcile(store: Store, source: JobId, id: JobId) {
    && id !in store && source in store
    && store[source].mode == Apply && CanReconcileApply(store[source].operation)
    && KeyFree(store, store[source].target, ReconcileKey(store[source].id))
  }

  /** The process that the worker waits for. */
  function Attended(worker: Worker): (processes: set<nat>) {
    if worker.Busy? && worker.phase.Running? then {worker.phase.process} else {}
  }

  /** The API's retry: failed jobs only, and never a package update that was meant to apply. */
  function RetryStep(s: State, id: JobId): (r: Option<State>) {
    if id !in s.store || s.store[id].status != Failed
       || (s.store[id].operation == UpdatePackages && s.store[id].mode == Apply)
    then None
    else Some(s.(store := s.store[id := s.store[id].(status := Queued)]))
  }

  /** `listed` enumerates the rows of the table in some order. */
  predicate Lists(store: Store, listed: seq<JobId>) {
    && (forall id :: id in listed ==> id in store)
    && (forall id :: id in store ==> id in listed)
    && forall i, j :: 0 <= i < j < |listed| ==> listed[i] != listed[j]
  }

  function Rows(store: Store, listed: seq<JobId>): (rows: seq<Job>)
    requires forall id :: id in listed ==> id in store
  {
    seq(|listed|, i requires 0 <= i < |listed| => store[listed[i]])
  }

  /** What recovery makes of an interrupted job. */
  function RecoveredStatus(status: Status): (r: Status) {
    if status == Applying then ReconcileRequired else Failed
  }

  /** One row of the recovery loop. A failed write ends the process. */
  function RecoverStep(s: State, write: Write, logged: bool): (r: State)
    requires s.worker.Recovering? && s.worker.todo != []
  {
    var row, rest := s.worker.todo[0], s.worker.todo[1..];
    if !Executing(row.status) then s.(worker := Recovering(rest))
    else
      var next := RecoveredStatus(row.status);
      match Advance(row, next)
      case None => s.(worker := Panicked)
      case Some(recovered) =>
        s.(store := Updated(s.store, recovered, write),
           worker := if write == Acknowledged && logged then Recovering(rest) else Down,
           trace := if next == Failed then Record(s.trace, write, FailedByRestart(row.id)) else s.trace)
  }

  /** Stores a volatile transition of the claimed job and goes on, or gives the run up. */
  function StoreStep(s: State, job: Job, next: Status, write: Write, logged: bool, then_: Phase): (r: State) {
    match Advance(job, next)
    case None => s.(worker := Busy(job, Finishing(false)))
    case Some(moved) =>
      s.(store := Updated(s.store, moved, write),
         worker := Busy(moved, if write == Acknowledged && logged then then_ else Finishing(false)))
  }

  /** The verdict that a reconciliation run passes on its source. */
  function Verdict(stdout: string): (status: Status)
    ensures status == Succeeded || status == Failed
  {
    if Recap.Decide(stdout) == Recap.Completed then Succeeded else Failed
  }

  function SettleStep(s: State, job: Job, source: Job, next: Status, write: Write, logged: bool): (r: State) {
    match Advance(source, next)
    case None => s.(worker := Busy(job, Finishing(false)))
    case Some(settled) =>
      s.(store := Updated(s.store, settled, write),
         worker := Busy(job, Finishing(write == Acknowledged && logged)),
         trace := Record(s.trace, write, SourceSettled(source.id, next, job.id, write == Acknowledged && logged)))
  }

  function OutcomeStatus(job: Job, ok: bool): (next: Status) {
    if ok then Succeeded
    else if job.mode == Apply && job.status == Applying then ReconcileRequired
    else Failed
  }

  function FinishStep(s: State, job: Job, ok: bool, write: Write): (r: State) {
    match Advance(job, OutcomeStatus(job, ok))
    case None => s.(worker := Panicked)
    case Some(finished) => s.(store := Updated(s.store, finished, write), worker := Idle)
  }

  predicate MayStart(job: Job, phase: Phase) {
    && HasPlaybook(job.operation)
    && (|| phase == ApplyStored
        || phase.SourceLoaded?
        || (phase == PlanStored && job.mode in {Check, Plan} && ModeArgs(job.operation, job.mode).Some?))
  }

  /**
   Only hosts are planned. An exit counts only if its output could be logged. `Fail` gives the run up; a playbook that
   it was waiting for, for instance beyond the timeout, runs on.
   */
  function BusyStep(s: State, job: Job, phase: Phase, l: Label): (r: Option<State>) {
    match l
    case Fail =>
      if phase.Finishing? then None
      else Some(s.(worker := Busy(job, Finishing(false)), abandoned := s.abandoned + Attended(s.worker)))
    case StorePlanned(write, logged) =>
      if phase == Claimed && job.target.Host? then Some(StoreStep(s, job, Planned, write, logged, PlanStored)) else None
    case LoadSource =>
      if phase == PlanStored && job.mode == Reconcile && ModeArgs(job.operation, job.mode).Some? then
        match FindSource(s.store, job)
        case None => Some(s.(worker := Busy(job, Finishing(false))))
        case Some(source) => Some(s.(worker := Busy(job, SourceLoaded(source))))
      else None
    case StoreApplying(write, logged) =>
      if phase == PlanStored && job.mode == Apply && ModeArgs(job.operation, job.mode).Some?
      then Some(StoreStep(s, job, Applying, write, logged, ApplyStored)) else None
    case StartPlaybook =>
      if MayStart(job, phase) then
        var source := if phase.SourceLoaded? then Some(phase.source) else None;
        Some(s.(worker := Busy(job, Running(source, |s.trace|)),
                trace := s.trace + [PlaybookStarted(job.id, job.mode, job.operation)],
                live := s.live + {|s.trace|}))
      else None
    case PlaybookExit(success, stdout, logged) =>
      if !phase.Running? then None
      else
        var ok := success && logged;
        var next := if ok && phase.reconciles.Some? then Settling(phase.reconciles.value, stdout) else Finishing(ok);
        Some(s.(worker := Busy(job, next), live := s.live - {phase.process},
                trace := s.trace + [PlaybookExited(job.id, success, logged)]))
    case SettleSource(write, logged) =>
      if phase.Settling? then Some(SettleStep(s, job, phase.source, Verdict(phase.stdout), write, logged)) else None
    case Finish(write) =>
      if phase.Finishing? then Some(FinishStep(s, job, phase.ok, write)) else None
    case _ => None
  }

  /** The state after some steps, if every one of them is enabled. */
  function RunFrom(s: State, labels: seq<Label>): (r: Option<State>) {
    if labels == [] then Some(s)
    else
      match RunFrom(s, labels[..|labels| - 1])
      case None => None
      case Some(before) => Next(before, labels[|labels| - 1])
  }

  /** The state after a whole run. */
  function Run(labels: seq<Label>): (r: Option<State>) {
    RunFrom(INIT, labels)
  }

  /** Neither crash nor failure: nothing is given up. */
  predicate Calm(labels: seq<Label>) {
    forall i :: 0 <= i < |labels| ==> labels[i] != Crash && labels[i] != Fail
  }

  lemma CalmJoin(a: seq<Label>, b: seq<Label>)
    requires Calm(a) && Calm(b)
    ensures Calm(a + b)
  {
  }

  lemma RunOne(s: State, l: Label)
    ensures RunFrom(s, [l]) == Next(s, l)
  {
    assert [l][..0] == [];
  }

  lemma RunLonger(s: State, labels: seq<Label>, l: Label)
    ensures RunFrom(s, labels + [l]) == if RunFrom(s, labels).None? then None else Next(RunFrom(s, labels).value, l)
  {
    assert (labels + [l])[..|labels|] == labels;
  }

  lemma {:induction false} RunOn(s: State, labels: seq<Label>, later: seq<Label>)
    requires RunFrom(s, labels).Some?
    ensures RunFrom(s, labels + later) == RunFrom(RunFrom(s, labels).value, later)
  {
    if later == [] {
      assert labels + later == labels;
    } else {
      var earlier, last := later[..|later| - 1], later[|later| - 1];
      RunOn(s, labels, earlier);
      assert labels + later == (labels + earlier) + [last];
      RunLonger(s, labels + earlier, last);
    }
  }

  /**
   Exactly the combinations of the mode contract and dedicated reconciliations have arguments, and every run but an
   Apply is a dry run, except for the operations that only read and for package updates, which plan inside their
   playbook. Plans and reconciliations show their differences.
   */
  lemma ModeArgsExactly(operation: Operation, mode: Mode)
    ensures ModeArgs(operation, mode).Some? <==>
              SupportsMode(operation, mode) || (mode == Reconcile && CanReconcileApply(operation))
    ensures ModeArgs(operation, mode).Some? ==>
              ("--check" in ModeArgs(operation, mode).value <==>
               mode != Apply && operation !in {HealthCheck, CollectPackageInventory, UpdatePackages})
              && ("--diff" in ModeArgs(operation, mode).value <==> mode == Plan || mode == Reconcile)
              && forall arg :: arg in ModeArgs(operation, mode).value ==> arg == "--check" || arg == "--diff"
  {
    assert |"--check"| == 7 && |"--diff"| == 6;
  }
}

/** The in-process job coordinator: four maps changed by every call. */
module Coordinator {
  import opened Wrappers
  import opened Jobs
  import opened Requests

  datatype FailureCode =
    | WorkerUnavailable | InvalidCredentials | HostKeyChanged | Unreachable | Timeout | PlaybookFailed | WorkerRestarted

  datatype EventKind =
    | QueuedEvent
    | StatusChanged(status: Status)
    | TaskStarted(task: string)
    | TaskFinished(task: string, changed: bool)
    | FailedWith(code: FailureCode)
    | ReconcileRequiredEvent
    | WorkerLog(source: string, message: string)

  datatype JobEvent = JobEvent(sequence: nat, jobId: JobId, kind: EventKind)

  datatype Submission = Created(job: Job) | Duplicate(job: Job)

  datatype CoordinatorError =
    | TargetBusy | NotFound | RetryNotAllowed | ReconcileNotAllowed | InvalidTransition | AlreadyTerminal
    | Contract(error: ContractError)

  type Index = map<(Target, string), JobId>

  datatype State = State(
    jobs: map<JobId, Job>, idempotency: Index, locks: map<Target, JobId>, events: map<JobId, seq<JobEvent>>)

  const EMPTY := State(map[], map[], map[], map[])

  function Recorded(events: map<JobId, seq<JobEvent>>, id: JobId, kind: EventKind): (r: map<JobId, seq<JobEvent>>) {
    var log := if id in events then events[id] else [];
    events[id := log + [JobEvent(|log| + 1, id, kind)]]
  }

  function Log(c: State, id: JobId): (log: seq<JobEvent>) {
    if id in c.events then c.events[id] else []
  }

  /** The lock of the job's target is held by some other job. */
  predicate LockedByOther(c: State, target: Target, id: JobId) {
    target in c.locks && c.locks[target] != id
  }

  /** A new queued job enters the index, the job map and the log. */
  function Registered(c: State, job: Job): (r: State) {
    c.(idempotency := c.idempotency[(job.target, job.key) := job.id],
       events := Recorded(c.events, job.id, QueuedEvent),
       jobs := c.jobs[job.id := job])
  }

  function Submit(c: State, request: Request, id: JobId): (r: (State, Result<Submission, CoordinatorError>)) {
    var key := (request.target, request.key);
    if key in c.idempotency then
      if c.idempotency[key] in c.jobs then (c, Ok(Duplicate(c.jobs[c.idempotency[key]]))) else (c, Err(NotFound))
    else
      match FromRequest(request, id)
      case Err(e) => (c, Err(Contract(e)))
      case Ok(job) => (Registered(c, job), Ok(Created(job)))
  }

  /** With `enforceLock` false this is the route for persisted jobs, which ignores the in-memory lock. */
  function SubmitReconciliation(c: State, source: Job, enforceLock: bool, id: JobId)
    : (r: (State, Result<Submission, CoordinatorError>))
  {
    var key := (source.target, ReconcileKey(source.id));
    if !CanBeReconciled(source) then (c, Err(ReconcileNotAllowed))
    else if key in c.idempotency then
      if c.idempotency[key] in c.jobs then (c, Ok(Duplicate(c.jobs[c.idempotency[key]]))) else (c, Err(NotFound))
    else if enforceLock && LockedByOther(c, source.target, source.id) then (c, Err(TargetBusy))
    else
      var job := source.(id := id, mode := Reconcile, key := ReconcileKey(source.id), status := Queued);
      (Registered(c.(locks := c.locks[job.target := id]), job), Ok(Created(job)))
  }

  function LocksAfter(locks: map<Target, JobId>, target: Target, id: JobId, next: Status): (r: map<Target, JobId>) {
    if next == Checking then locks[target := id]
    else if Terminal(next) then locks - {target}
    else locks
  }

  function Transition(c: State, id: JobId, next: Status): (r: (State, Result<Job, CoordinatorError>)) {
    if id !in c.jobs then (c, Err(NotFound))
    else
      var job := c.jobs[id];
      if next == Checking && LockedByOther(c, job.target, id) then (c, Err(TargetBusy))
      else
        match Advance(job, next)
        case None => (c, Err(InvalidTransition))
        case Some(moved) =>
          var logged := Recorded(c.events, id, StatusChanged(next));
          (State(c.jobs[id := moved], c.idempotency, LocksAfter(c.locks, job.target, id, next),
                 if next == ReconcileRequired then Recorded(logged, id, ReconcileRequiredEvent) else logged),
           Ok(moved))
  }

  function RecordEvent(c: State, id: JobId, kind: EventKind): (r: (State, Result<(), CoordinatorError>)) {
    if id !in c.jobs then (c, Err(NotFound))
    else if Terminal(c.jobs[id].status) then (c, Err(AlreadyTerminal))
    else (c.(events := Recorded(c.events, id, kind)), Ok(()))
  }

  function Retry(c: State, id: JobId): (r: (State, Result<Job, CoordinatorError>)) {
    if id !in c.jobs then (c, Err(NotFound))
    else
      var job := c.jobs[id];
      if LockedByOther(c, job.target, id) then (c, Err(TargetBusy))
      else if job.status != Failed || (job.operation == UpdatePackages && job.mode == Apply) then
        (c, Err(RetryNotAllowed))
      else
        var queued := job.(status := Queued);
        (c.(jobs := c.jobs[id := queued], events := Recorded(c.events, id, StatusChanged(Queued))), Ok(queued))
  }

  predicate HasActiveJobs(c: State, target: Target) {
    || target in c.locks
    || exists id :: id in c.jobs && c.jobs[id].target == target
                 && (Executing(c.jobs[id].status) || c.jobs[id].status == ReconcileRequired)
  }

  function RemoveTargetJobs(c: State, host: string): (r: (State, Result<(), CoordinatorError>)) {
    var target := Host(host);
    if HasActiveJobs(c, target) then (c, Err(TargetBusy))
    else
      var removed := set id | id in c.jobs && c.jobs[id].target == target;
      (State(c.jobs - removed,
             map key | key in c.idempotency && key.0 != target && c.idempotency[key] !in removed :: c.idempotency[key],
             c.locks,
             c.events - removed),
       Ok(()))
  }

  // ---- calls and runs ----

  datatype Call =
    | SubmitCall(request: Request, freshId: JobId)
    | ReconcileCall(source: Job, enforceLock: bool, freshId: JobId)
    | TransitionCall(id: JobId, next: Status)
    | RecordCall(id: JobId, kind: EventKind)
    | RetryCall(id: JobId)
    | RemoveCall(host: string)

  /** Generated ids are unused; nothing else is asked of a caller. */
  predicate Fresh(c: State, call: Call) {
    call.SubmitCall? || call.ReconcileCall? ==> call.freshId !in c.jobs
  }

  function After(c: State, call: Call): (c': State) {
    match call
    case SubmitCall(request, id) => Submit(c, request, id).0
    case ReconcileCall(source, enforceLock, id) => SubmitReconciliation(c, source, enforceLock, id).0
    case TransitionCall(id, next) => Transition(c, id, next).0
    case RecordCall(id, kind) => RecordEvent(c, id, kind).0
    case RetryCall(id) => Retry(c, id).0
    case RemoveCall(host) => RemoveTargetJobs(c, host).0
  }

  function AfterAll(c: State, calls: seq<Call>): (c': State) {
    if calls == [] then c else After(AfterAll(c, calls[..|calls| - 1]), calls[|calls| - 1])
  }

  /** Every generated id of the run was unused when it was drawn. */
  ghost predicate FreshRun(c: State, calls: seq<Call>) {
    forall i :: 0 <= i < |calls| ==> Fresh(AfterAll(c, calls[..i]), calls[i])
  }

  // ---- the object itself ----

  class AnsibleJobCoordinator {
    var jobs: map<JobId, Job>
    var idempotency: Index
    var activeTargets: map<Target, JobId>
    var events: map<JobId, seq<JobEvent>>

    function View(): (c: State)
      reads this
    {
      State(jobs, idempotency, activeTargets, events)
    }

    constructor ()
      ensures View() == EMPTY
    {
      jobs, idempotency, activeTargets, events := map[], map[], map[], map[];
    }

    method RecordInternal(id: JobId, kind: EventKind)
      modifies this
      ensures View() == old(View()).(events := Recorded(old(events), id, kind))
    {
      var log := if id in events then events[id] else [];
      log := log + [JobEvent(|log| + 1, id, kind)];
      events := events[id := log];
    }

    method SubmitJob(request: Request, freshId: JobId) returns (r: Result<Submission, CoordinatorError>)
      modifies this
      ensures (View(), r) == Submit(old(View()), request, freshId)
    {
      var key := (request.target, request.key);
      if key in idempotency {
        var existing := idempotency[key];
        if existing !in jobs {
          return Err(NotFound);
        }
        return Ok(Duplicate(jobs[existing]));
      }
      var accepted := FromRequest(request, freshId);
      if accepted.Err? {
        return Err(Contract(accepted.error));
      }
      var job := accepted.value;
      idempotency := idempotency[key := job.id];
      RecordInternal(job.id, QueuedEvent);
      jobs := jobs[job.id := job];
      r := Ok(Created(job));
    }

    method SubmitReconciliationWithLock(source: Job, enforceLock: bool, freshId: JobId)
      returns (r: Result<Submission, CoordinatorError>)
      modifies this
      ensures (View(), r) == SubmitReconciliation(old(View()), source, enforceLock, freshId)
    {
      if !CanBeReconciled(source) {
        return Err(ReconcileNotAllowed);
      }
      var key := ReconcileKey(source.id);
      if (source.target, key) in idempotency {
        var existing := idempotency[(source.target, key)];
        if existing !in jobs {
          return Err(NotFound);
        }
        return Ok(Duplicate(jobs[existing]));
      }
      if enforceLock && source.target in activeTargets && activeTargets[source.target] != source.id {
        return Err(TargetBusy);
      }
      var job := source.(id := freshId, mode := Reconcile, key := key, status := Queued);
      activeTargets := activeTargets[job.target := job.id];
      idempotency := idempotency[(job.target, key) := job.id];
      RecordInternal(job.id, QueuedEvent);
      jobs := jobs[job.id := job];
      r := Ok(Created(job));
    }

    method MoveJob(id: JobId, next: Status) returns (r: Result<Job, CoordinatorError>)
      modifies this
      ensures (View(), r) == Transition(old(View()), id, next)
    {
      if id !in jobs {
        return Err(NotFound);
      }
      var job := jobs[id];
      var target := job.target;
      if next == Checking && target in activeTargets && activeTargets[target] != id {
        return Err(TargetBusy);
      }
      if !CanTransition(job.status, next) {
        return Err(InvalidTransition);
      }
      job := job.(status := next);
      jobs := jobs[id := job];
      if next == Checking {
        activeTargets := activeTargets[target := id];
      }
      if next == Succeeded || next == Failed || next == Aborted {
        activeTargets := activeTargets - {target};
      }
      RecordInternal(id, StatusChanged(next));
      if next == ReconcileRequired {
        RecordInternal(id, ReconcileRequiredEvent);
      }
      r := Ok(job);
    }

    method RecordJobEvent(id: JobId, kind: EventKind) returns (r: Result<(), CoordinatorError>)
      modifies this
      ensures (View(), r) == RecordEvent(old(View()), id, kind)
    {
      if id !in jobs {
        return Err(NotFound);
      }
      if Terminal(jobs[id].status) {
        return Err(AlreadyTerminal);
      }
      RecordInternal(id, kind);
      r := Ok(());
    }

    method RetryJob(id: JobId) returns (r: Result<Job, CoordinatorError>)
      modifies this
      ensures (View(), r) == Retry(old(View()), id)
    {
      if id !in jobs {
        return Err(NotFound);
      }
      var job := jobs[id];
      if job.target in activeTargets && activeTargets[job.target] != id {
        return Err(TargetBusy);
      }
      if job.status != Failed || (job.operation == UpdatePackages && job.mode == Apply) {
        return Err(RetryNotAllowed);
      }
      job := job.(status := Queued);
      jobs := jobs[id := job];
      RecordInternal(id, StatusChanged(Queued));
      r := Ok(job);
    }

    method RemoveTarget(host: string) returns (r: Result<(), CoordinatorError>)
      modifies this
      ensures (View(), r) == RemoveTargetJobs(old(View()), host)
    {
      var target := Host(host);
      if HasActiveJobs(View(), target) {
        return Err(TargetBusy);
      }
      var removed := set id | id in jobs && jobs[id].target == target;
      jobs := jobs - removed;
      events := events - removed;
      idempotency :=
        map key | key in idempotency && key.0 != target && idempotency[key] !in removed :: idempotency[key];
      r := Ok(());
    }
  }
}

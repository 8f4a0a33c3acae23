/** Which answer each call of the coordinator gives, and what it has then changed. */
module CoordinatorAnswers {
  import opened Wrappers
  import opened Jobs
  import opened Requests
  import opened Coordinator
  import opened CoordinatorIntegrity
  import opened CoordinatorLog

  /** A package update that changes the machine; it is never retried. */
  predicate PackageUpdate(job: Job) {
    job.operation == UpdatePackages && job.mode == Apply
  }

  /** Job `id` is there and another job has taken the lock of its target. */
  ghost predicate TakenByAnother(c: State, id: JobId) {
    id in c.jobs && c.jobs[id].target in c.locks && c.locks[c.jobs[id].target] != id
  }

  /** `c'` is `c` with job `id` at another status and with these events at the end of its log. */
  ghost predicate Moved(c: State, c': State, id: JobId, status: Status, kinds: seq<EventKind>) {
    && id in c.jobs && c'.jobs == c.jobs[id := c.jobs[id].(status := status)]
    && c'.idempotency == c.idempotency
    && Appended(Log(c, id), Log(c', id), id, kinds)
    && (forall other :: other != id ==> Log(c', other) == Log(c, other))
  }

  ghost predicate Appended(log: seq<JobEvent>, log': seq<JobEvent>, id: JobId, kinds: seq<EventKind>) {
    && log <= log' && |log'| == |log| + |kinds|
    && forall i :: 0 <= i < |kinds| ==> log'[|log| + i] == JobEvent(|log| + i + 1, id, kinds[i])
  }

  /** `c'` is `c` with one more job and its first log entry. */
  ghost predicate Entered(c: State, c': State, job: Job) {
    && c'.jobs == c.jobs[job.id := job]
    && c'.idempotency == c.idempotency[(job.target, job.key) := job.id]
    && Log(c', job.id) == [JobEvent(1, job.id, QueuedEvent)]
    && (forall other :: other != job.id ==> Log(c', other) == Log(c, other))
  }

  /**
   A retry succeeds exactly for a stored Failed job that is no package update and whose target no other job has
   locked; each refusal has its own cause and changes nothing.
   */
  lemma RetryExactly(c: State, id: JobId)
    ensures var (c', r) := Retry(c, id);
            var failed := id in c.jobs && c.jobs[id].status == Failed;
            && (r == Err(NotFound) <==> id !in c.jobs)
            && (r == Err(TargetBusy) <==> TakenByAnother(c, id))
            && (r == Err(RetryNotAllowed) <==>
                  id in c.jobs && !TakenByAnother(c, id) && (failed ==> PackageUpdate(c.jobs[id])))
            && (r.Ok? <==> failed && !TakenByAnother(c, id) && !PackageUpdate(c.jobs[id]))
            && (r.Ok? ==>
                  && r.value == c.jobs[id].(status := Queued) && c'.locks == c.locks
                  && Moved(c, c', id, Queued, [StatusChanged(Queued)]))
            && (r.Err? ==> c' == c)
  {
  }

  /** The events of a transition. */
  function Announced(next: Status): (kinds: seq<EventKind>) {
    if next == ReconcileRequired then [StatusChanged(next), ReconcileRequiredEvent] else [StatusChanged(next)]
  }

  /** Only Checking asks for the lock; it takes the lock, and an end drops it. */
  ghost predicate LockMoves(c: State, c': State, target: Target, id: JobId, next: Status) {
    && (forall other :: other != target ==>
          (other in c'.locks <==> other in c.locks) && (other in c.locks ==> c'.locks[other] == c.locks[other]))
    && (next == Checking ==> target in c'.locks && c'.locks[target] == id)
    && (next in {Succeeded, Failed, Aborted} ==> target !in c'.locks)
    && (next in {Queued, Planned, Applying, ReconcileRequired} ==> c'.locks == c.locks)
  }

  lemma TransitionAnswer(c: State, id: JobId, next: Status)
    ensures var (c', r) := Transition(c, id, next);
            && (r == Err(NotFound) <==> id !in c.jobs)
            && (r == Err(TargetBusy) <==> next == Checking && TakenByAnother(c, id))
            && (r.Ok? <==>
                  && id in c.jobs && CanTransition(c.jobs[id].status, next)
                  && (next == Checking ==> !TakenByAnother(c, id)))
            && (r.Err? ==> c' == c && r.error in {NotFound, TargetBusy, InvalidTransition})
            && (r.Ok? ==> r.value == c.jobs[id].(status := next))
  {
  }

  lemma RecordedAppends(events: map<JobId, seq<JobEvent>>, c: State, c': State, id: JobId, kind: EventKind)
    requires c.events == events && c'.events == Recorded(events, id, kind)
    ensures Appended(Log(c, id), Log(c', id), id, [kind])
    ensures forall other :: other != id ==> Log(c', other) == Log(c, other)
  {
  }

  lemma AppendedTwice(a: seq<JobEvent>, b: seq<JobEvent>, d: seq<JobEvent>, id: JobId, k: EventKind, l: EventKind)
    requires Appended(a, b, id, [k]) && Appended(b, d, id, [l])
    ensures Appended(a, d, id, [k, l])
  {
    assert [k][0] == k && [l][0] == l;
    assert d[|a|] == b[|a|];
  }

  lemma TransitionLog(c: State, id: JobId, next: Status)
    requires Transition(c, id, next).1.Ok?
    ensures var c' := Transition(c, id, next).0;
            && Appended(Log(c, id), Log(c', id), id, Announced(next))
            && forall other :: other != id ==> Log(c', other) == Log(c, other)
  {
    var c' := Transition(c, id, next).0;
    var once := c.(events := Recorded(c.events, id, StatusChanged(next)));
    RecordedAppends(c.events, c, once, id, StatusChanged(next));
    if next == ReconcileRequired {
      RecordedAppends(once.events, once, c', id, ReconcileRequiredEvent);
      AppendedTwice(Log(c, id), Log(once, id), Log(c', id), id, StatusChanged(next), ReconcileRequiredEvent);
    }
  }

  lemma TransitionEffect(c: State, id: JobId, next: Status)
    requires Transition(c, id, next).1.Ok?
    ensures var c' := Transition(c, id, next).0;
            Moved(c, c', id, next, Announced(next)) && LockMoves(c, c', c.jobs[id].target, id, next)
  {
    TransitionLog(c, id, next);
  }

  /**
   A transition succeeds exactly if the job is there, the step is legal and, for Checking, no other job has the lock;
   it then moves the job, its lock and its log, and nothing else.
   */
  lemma TransitionExactly(c: State, id: JobId, next: Status)
    ensures var (c', r) := Transition(c, id, next);
            && (r == Err(NotFound) <==> id !in c.jobs)
            && (r == Err(TargetBusy) <==> next == Checking && TakenByAnother(c, id))
            && (r.Ok? <==>
                  && id in c.jobs && CanTransition(c.jobs[id].status, next)
                  && (next == Checking ==> !TakenByAnother(c, id)))
            && (r.Err? ==> c' == c && r.error in {NotFound, TargetBusy, InvalidTransition})
            && (r.Ok? ==>
                  && r.value == c.jobs[id].(status := next)
                  && Moved(c, c', id, next, Announced(next)) && LockMoves(c, c', c.jobs[id].target, id, next))
  {
    TransitionAnswer(c, id, next);
    if Transition(c, id, next).1.Ok? {
      TransitionEffect(c, id, next);
    }
  }

  /** An event is recorded exactly for a stored job that has not ended. */
  lemma RecordExactly(c: State, id: JobId, kind: EventKind)
    ensures var (c', r) := RecordEvent(c, id, kind);
            && (r == Err(NotFound) <==> id !in c.jobs)
            && (r == Err(AlreadyTerminal) <==> id in c.jobs && c.jobs[id].status in {Succeeded, Failed, Aborted})
            && (r.Err? ==> c' == c && r.error in {NotFound, AlreadyTerminal})
            && (r.Ok? ==>
                  c'.locks == c.locks && Moved(c, c', id, c.jobs[id].status, [kind]))
  {
  }

  lemma NoLogYet(c: State, c': State, job: Job)
    requires Integrity(c) && job.id !in c.jobs && c'.events == Recorded(c.events, job.id, QueuedEvent)
    ensures Log(c', job.id) == [JobEvent(1, job.id, QueuedEvent)]
    ensures forall other :: other != job.id ==> Log(c', other) == Log(c, other)
  {
  }

  /** Some stored job was submitted for this target under this key. */
  ghost predicate Known(c: State, target: Target, key: string) {
    exists id :: id in c.jobs && c.jobs[id].target == target && c.jobs[id].key == key
  }

  lemma KnownIsIndexed(c: State, target: Target, key: string)
    requires Integrity(c)
    ensures Known(c, target, key) <==> (target, key) in c.idempotency
    ensures Known(c, target, key) ==>
              var id := c.idempotency[(target, key)];
              id in c.jobs && c.jobs[id].target == target && c.jobs[id].key == key
  {
    if (target, key) in c.idempotency {
      var id := c.idempotency[(target, key)];
      assert id in c.jobs && c.jobs[id].target == target && c.jobs[id].key == key;
    }
  }

  /** The answer to a submission for a known target and key: the stored job, and nothing changes. */
  ghost predicate Repeated(c: State, target: Target, key: string, c': State, r: Result<Submission, CoordinatorError>) {
    && c' == c && r.Ok? && r.value.Duplicate?
    && var job := r.value.job;
       job.id in c.jobs && c.jobs[job.id] == job && job.target == target && job.key == key
  }

  lemma SubmitKnown(c: State, request: Request, id: JobId)
    requires Integrity(c) && Known(c, request.target, request.key)
    ensures var (c', r) := Submit(c, request, id);
            Repeated(c, request.target, request.key, c', r)
  {
    KnownIsIndexed(c, request.target, request.key);
  }

  lemma SubmitNew(c: State, request: Request, id: JobId)
    requires Integrity(c) && id !in c.jobs && !Known(c, request.target, request.key)
    ensures var (c', r) := Submit(c, request, id);
            match FromRequest(request, id)
            case Err(e) => c' == c && r == Err(Contract(e))
            case Ok(job) => r == Ok(Created(job)) && c'.locks == c.locks && Entered(c, c', job)
  {
    KnownIsIndexed(c, request.target, request.key);
    if FromRequest(request, id).Ok? {
      NoLogYet(c, Submit(c, request, id).0, FromRequest(request, id).value);
    }
  }

  /** A known key is answered with its job; a new one is judged, and an accepted job enters the queue. */
  lemma SubmitExactly(c: State, request: Request, id: JobId)
    requires Integrity(c) && id !in c.jobs
    ensures var (c', r) := Submit(c, request, id);
            if Known(c, request.target, request.key) then Repeated(c, request.target, request.key, c', r)
            else
              match FromRequest(request, id)
              case Err(e) => c' == c && r == Err(Contract(e))
              case Ok(job) => r == Ok(Created(job)) && c'.locks == c.locks && Entered(c, c', job)
  {
    if Known(c, request.target, request.key) {
      SubmitKnown(c, request, id);
    } else {
      SubmitNew(c, request, id);
    }
  }

  /** The reconciliation of a source is the same work on the same target, to be looked at only. */
  ghost predicate Reconciles(job: Job, source: Job) {
    && job.mode == Reconcile && job.status == Queued && job.key == ReconcileKey(source.id)
    && job.operation == source.operation && job.target == source.target
    && job.parameters == source.parameters && job.secretRefs == source.secretRefs
  }

  /** An unresolved Apply of a kind that a read-only run can settle. */
  ghost predicate Uncertain(source: Job) {
    && source.status == ReconcileRequired && source.mode == Apply
    && source.operation !in {ConfigureTarget, HealthCheck, CollectPackageInventory}
  }

  /** Another job than the source has taken the lock of the source's target. */
  ghost predicate TakenFrom(c: State, source: Job) {
    source.target in c.locks && c.locks[source.target] != source.id
  }

  lemma UncertainExactly(source: Job)
    ensures CanBeReconciled(source) <==> Uncertain(source)
  {
    match source.operation
    case DeployAgent =>
    case UpdateAgent =>
    case RepairAgent =>
    case UpdatePackages =>
    case ConfigureTarget =>
    case HealthCheck =>
    case CollectPackageInventory =>
  }

  lemma ReconcileKnown(c: State, source: Job, enforceLock: bool, id: JobId)
    requires Integrity(c) && Uncertain(source) && Known(c, source.target, ReconcileKey(source.id))
    ensures var (c', r) := SubmitReconciliation(c, source, enforceLock, id);
            Repeated(c, source.target, ReconcileKey(source.id), c', r)
  {
    UncertainExactly(source);
    KnownIsIndexed(c, source.target, ReconcileKey(source.id));
  }

  lemma ReconcileNew(c: State, source: Job, enforceLock: bool, id: JobId)
    requires Integrity(c) && id !in c.jobs && Uncertain(source) && !Known(c, source.target, ReconcileKey(source.id))
    requires !(enforceLock && TakenFrom(c, source))
    ensures var (c', r) := SubmitReconciliation(c, source, enforceLock, id);
            && r.Ok? && r.value.Created? && r.value.job.id == id && Reconciles(r.value.job, source)
            && c'.locks == c.locks[source.target := id] && Entered(c, c', r.value.job)
  {
    UncertainExactly(source);
    KnownIsIndexed(c, source.target, ReconcileKey(source.id));
    var job := source.(id := id, mode := Reconcile, key := ReconcileKey(source.id), status := Queued);
    NoLogYet(c, SubmitReconciliation(c, source, enforceLock, id).0, job);
  }

  /**
   A reconciliation is refused for what cannot be settled and, on the in-memory route, while another job has
   the lock.
   */
  lemma ReconcileExactly(c: State, source: Job, enforceLock: bool, id: JobId)
    requires Integrity(c) && id !in c.jobs
    ensures var (c', r) := SubmitReconciliation(c, source, enforceLock, id);
            if !Uncertain(source) then c' == c && r == Err(ReconcileNotAllowed)
            else if Known(c, source.target, ReconcileKey(source.id)) then
              Repeated(c, source.target, ReconcileKey(source.id), c', r)
            else if enforceLock && TakenFrom(c, source) then c' == c && r == Err(TargetBusy)
            else
              && r.Ok? && r.value.Created? && r.value.job.id == id && Reconciles(r.value.job, source)
              && c'.locks == c.locks[source.target := id] && Entered(c, c', r.value.job)
  {
    UncertainExactly(source);
    if !Uncertain(source) {
    } else if Known(c, source.target, ReconcileKey(source.id)) {
      ReconcileKnown(c, source, enforceLock, id);
    } else if enforceLock && TakenFrom(c, source) {
      KnownIsIndexed(c, source.target, ReconcileKey(source.id));
    } else {
      ReconcileNew(c, source, enforceLock, id);
    }
  }

  /** A job that keeps its target from being removed. */
  ghost predicate Busy(job: Job, host: string) {
    job.target == Host(host) && job.status in {Checking, Planned, Applying, ReconcileRequired}
  }

  /** A target is removed exactly while its lock is free and each of its jobs waits or has ended. */
  lemma RemoveExactly(c: State, host: string)
    ensures var (c', r) := RemoveTargetJobs(c, host);
            && (r == Err(TargetBusy) <==> Host(host) in c.locks || exists id :: id in c.jobs && Busy(c.jobs[id], host))
            && (r.Err? ==> c' == c && r.error == TargetBusy)
            && (r.Ok? ==> c'.locks == c.locks
                          && c'.jobs == map id | id in c.jobs && c.jobs[id].target != Host(host) :: c.jobs[id])
  {
    if id :| id in c.jobs && Busy(c.jobs[id], host) {
      assert Executing(c.jobs[id].status) || c.jobs[id].status == ReconcileRequired;
    }
    if !HasActiveJobs(c, Host(host)) {
      RemovedJobs(c, host);
    }
  }

  lemma RemovedJobs(c: State, host: string)
    requires !HasActiveJobs(c, Host(host))
    ensures RemoveTargetJobs(c, host).0.jobs == map id | id in c.jobs && c.jobs[id].target != Host(host) :: c.jobs[id]
  {
  }
}

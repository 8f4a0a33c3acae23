/** The coordinator's four maps stay consistent under every call sequence. */
module CoordinatorIntegrity {
  import opened Wrappers
  import opened Jobs
  import opened Requests
  import opened Coordinator

  /**
   Index entries and jobs are inverse to each other, every lock names a job on its own target,
   and exactly the stored jobs have a log.
   */
  ghost predicate Integrity(c: State) {
    && (forall key :: key in c.idempotency ==>
          c.idempotency[key] in c.jobs
          && (c.jobs[c.idempotency[key]].target, c.jobs[c.idempotency[key]].key) == key)
    && (forall id :: id in c.jobs ==>
          && c.jobs[id].id == id
          && (c.jobs[id].target, c.jobs[id].key) in c.idempotency
          && c.idempotency[(c.jobs[id].target, c.jobs[id].key)] == id)
    && (forall target :: target in c.locks ==> c.locks[target] in c.jobs && c.jobs[c.locks[target]].target == target)
    && c.events.Keys == c.jobs.Keys
  }

  lemma RegisteringKeepsIntegrity(c: State, job: Job, locks: map<Target, JobId>)
    requires Integrity(c) && job.id !in c.jobs && (job.target, job.key) !in c.idempotency
    requires locks == c.locks || locks == c.locks[job.target := job.id]
    ensures Integrity(Registered(c.(locks := locks), job))
  {
  }

  /** Moving a job to another status keeps the index; the lock may go to that job or be dropped. */
  lemma MovingKeepsIntegrity(c: State, id: JobId, next: Status)
    requires Integrity(c)
    ensures Integrity(Transition(c, id, next).0)
  {
  }

  lemma RemovingKeepsIntegrity(c: State, host: string)
    requires Integrity(c)
    ensures Integrity(RemoveTargetJobs(c, host).0)
  {
  }

  lemma StepKeepsIntegrity(c: State, call: Call)
    requires Integrity(c) && Fresh(c, call)
    ensures Integrity(After(c, call))
  {
    match call
    case SubmitCall(request, id) =>
      if (request.target, request.key) !in c.idempotency && FromRequest(request, id).Ok? {
        RegisteringKeepsIntegrity(c, FromRequest(request, id).value, c.locks);
      }
    case ReconcileCall(source, enforceLock, id) =>
      if (source.target, ReconcileKey(source.id)) !in c.idempotency {
        var job := source.(id := id, mode := Reconcile, key := ReconcileKey(source.id), status := Queued);
        RegisteringKeepsIntegrity(c, job, c.locks[job.target := id]);
      }
    case TransitionCall(id, next) => MovingKeepsIntegrity(c, id, next);
    case RemoveCall(host) => RemovingKeepsIntegrity(c, host);
    case RecordCall(_, _) =>
    case RetryCall(_) =>
  }

  lemma FreshPrefix(c: State, calls: seq<Call>)
    requires FreshRun(c, calls) && calls != []
    ensures FreshRun(c, calls[..|calls| - 1]) && Fresh(AfterAll(c, calls[..|calls| - 1]), calls[|calls| - 1])
  {
    var shorter := calls[..|calls| - 1];
    forall i | 0 <= i < |shorter| ensures Fresh(AfterAll(c, shorter[..i]), shorter[i]) {
      assert shorter[..i] == calls[..i];
    }
  }

  /** Integrity holds in every reachable state. */
  lemma {:induction false} RunsKeepIntegrity(c: State, calls: seq<Call>)
    requires Integrity(c) && FreshRun(c, calls)
    ensures Integrity(AfterAll(c, calls))
  {
    if calls != [] {
      var shorter := calls[..|calls| - 1];
      FreshPrefix(c, calls);
      RunsKeepIntegrity(c, shorter);
      StepKeepsIntegrity(AfterAll(c, shorter), calls[|calls| - 1]);
    }
  }

  /** Behind an index hit the job is always there: a repeated submission returns it and changes nothing. */
  lemma HitsNeverDangle(calls: seq<Call>, request: Request, source: Job, enforceLock: bool, id: JobId)
    requires FreshRun(EMPTY, calls)
    ensures var c := AfterAll(EMPTY, calls);
            && Submit(c, request, id).1 != Err(NotFound)
            && SubmitReconciliation(c, source, enforceLock, id).1 != Err(NotFound)
            && (Submit(c, request, id).1.Ok? && Submit(c, request, id).1.value.Duplicate? ==>
                  && Submit(c, request, id).0 == c
                  && Submit(c, request, id).1.value.job.key == request.key
                  && Submit(c, request, id).1.value.job.target == request.target)
  {
    RunsKeepIntegrity(EMPTY, calls);
  }

  lemma SubmitShape(c: State, request: Request, id: JobId)
    requires Submit(c, request, id).1.Ok?
    ensures var (c', r) := Submit(c, request, id);
            var key := (request.target, request.key);
            && key in c'.idempotency && c'.idempotency[key] in c'.jobs
            && c'.jobs[c'.idempotency[key]] == r.value.job
  {
  }

  /** Submitting the same request again is answered with the job that the first submission created. */
  lemma SubmitIsIdempotent(c: State, request: Request, id: JobId, later: JobId)
    requires Integrity(c) && id !in c.jobs && Submit(c, request, id).1.Ok?
    ensures var c' := Submit(c, request, id).0;
            Submit(c', request, later) == (c', Ok(Duplicate(Submit(c, request, id).1.value.job)))
  {
    SubmitShape(c, request, id);
  }

  /** A removed target leaves no job, key, lock or log behind, and everything of other targets stays. */
  lemma RemovalLeavesNothing(c: State, host: string)
    requires Integrity(c) && RemoveTargetJobs(c, host).1.Ok?
    ensures var c' := RemoveTargetJobs(c, host).0;
            && Integrity(c')
            && (forall id :: id in c'.jobs ==> c'.jobs[id].target != Host(host))
            && (forall key :: key in c'.idempotency ==> key.0 != Host(host))
            && Host(host) !in c'.locks
            && (forall id :: id in c.jobs && c.jobs[id].target != Host(host) ==>
                  id in c'.jobs && c'.jobs[id] == c.jobs[id] && Log(c', id) == Log(c, id))
            && (forall key :: key in c.idempotency && key.0 != Host(host) ==>
                  key in c'.idempotency && c'.idempotency[key] == c.idempotency[key])
            && c'.locks == c.locks
  {
    StepKeepsIntegrity(c, RemoveCall(host));
  }
}

/** When the coordinator keeps at most one executing job per target, and when it does not. */
module CoordinatorExclusion {
  import opened Wrappers
  import opened Jobs
  import opened Requests
  import opened Coordinator
  import opened CoordinatorIntegrity

  predicate ExecutingTogether(c: State, a: JobId, b: JobId) {
    && a in c.jobs && b in c.jobs
    && c.jobs[a].target == c.jobs[b].target
    && Executing(c.jobs[a].status) && Executing(c.jobs[b].status)
  }

  /** At most one job per target is Checking, Planned or Applying. */
  ghost predicate Exclusive(c: State) {
    forall a, b :: ExecutingTogether(c, a, b) ==> a == b
  }

  /** Every executing job holds the lock of its target. */
  ghost predicate Covered(c: State) {
    forall id :: id in c.jobs && Executing(c.jobs[id].status) ==>
      c.jobs[id].target in c.locks && c.locks[c.jobs[id].target] == id
  }

  /** The target's lock belongs to a job that executes. */
  predicate HeldByExecuting(c: State, target: Target) {
    target in c.locks && c.locks[target] in c.jobs && Executing(c.jobs[c.locks[target]].status)
  }

  /** What a caller has to check before a call that would take effect. */
  predicate Guarded(c: State, call: Call) {
    match call
    case TransitionCall(id, next) =>
      id in c.jobs && CanTransition(c.jobs[id].status, next) ==>
        var job := c.jobs[id];
        && (job.status == Queued && next == Planned ==> job.target in c.locks && c.locks[job.target] == id)
        && (Terminal(next) && LockedByOther(c, job.target, id) ==> !HeldByExecuting(c, job.target))
    case ReconcileCall(source, enforceLock, _) =>
      && CanBeReconciled(source)
      && (source.target, ReconcileKey(source.id)) !in c.idempotency
      && !(enforceLock && LockedByOther(c, source.target, source.id)) ==>
        !HeldByExecuting(c, source.target)
    case _ => true
  }

  lemma PlanningCovers(c: State, id: JobId, next: Status)
    requires Integrity(c) && Covered(c) && Transition(c, id, next).1.Ok? && !Terminal(next)
    ensures Covered(Transition(c, id, next).0) <==> Guarded(c, TransitionCall(id, next))
  {
    var c' := Transition(c, id, next).0;
    if c.jobs[id].status == Queued && next == Planned {
      assert c'.jobs[id].status == Planned && c'.locks == c.locks;
    }
  }

  lemma EndingCovers(c: State, id: JobId, next: Status)
    requires Integrity(c) && Covered(c) && Transition(c, id, next).1.Ok? && Terminal(next)
    ensures Covered(Transition(c, id, next).0) <==> Guarded(c, TransitionCall(id, next))
  {
    var c', target := Transition(c, id, next).0, c.jobs[id].target;
    if LockedByOther(c, target, id) && HeldByExecuting(c, target) {
      assert c.locks[target] in c'.jobs && c'.jobs[c.locks[target]] == c.jobs[c.locks[target]];
    }
  }

  lemma RefusedCovers(c: State, id: JobId, next: Status)
    requires Integrity(c) && Covered(c) && !Transition(c, id, next).1.Ok?
    ensures Transition(c, id, next).0 == c && Guarded(c, TransitionCall(id, next))
  {
  }

  lemma TransitionCovers(c: State, id: JobId, next: Status)
    requires Integrity(c) && Covered(c)
    ensures Covered(Transition(c, id, next).0) <==> Guarded(c, TransitionCall(id, next))
  {
    if !Transition(c, id, next).1.Ok? {
      RefusedCovers(c, id, next);
    } else if Terminal(next) {
      EndingCovers(c, id, next);
    } else {
      PlanningCovers(c, id, next);
    }
  }

  lemma ReconciliationCovers(c: State, source: Job, enforceLock: bool, id: JobId)
    requires Integrity(c) && Covered(c) && id !in c.jobs
    ensures Covered(SubmitReconciliation(c, source, enforceLock, id).0) <==>
            Guarded(c, ReconcileCall(source, enforceLock, id))
  {
    var r := SubmitReconciliation(c, source, enforceLock, id);
    if r.1.Ok? && r.1.value.Created? && HeldByExecuting(c, source.target) {
      assert r.0.jobs[c.locks[source.target]] == c.jobs[c.locks[source.target]];
    }
  }

  /** From a covered state a call keeps the cover exactly when it is guarded. */
  lemma CoverKeptExactly(c: State, call: Call)
    requires Integrity(c) && Covered(c) && Fresh(c, call)
    ensures Covered(After(c, call)) <==> Guarded(c, call)
  {
    match call
    case TransitionCall(id, next) => TransitionCovers(c, id, next);
    case ReconcileCall(source, enforceLock, id) => ReconciliationCovers(c, source, enforceLock, id);
    case _ =>
  }

  /**
   The discipline of the server's in-memory route: jobs enter through Checking, a terminal transition is issued
   only while no other job holds the lock, and reconciliation respects the lock and uses a current snapshot.
   */
  predicate Disciplined(c: State, call: Call) {
    match call
    case TransitionCall(id, next) =>
      id in c.jobs ==>
        && (next == Planned ==> c.jobs[id].status != Queued)
        && (Terminal(next) ==> !LockedByOther(c, c.jobs[id].target, id))
    case ReconcileCall(source, enforceLock, _) =>
      enforceLock && source.id in c.jobs && c.jobs[source.id] == source
    case _ => true
  }

  lemma DisciplineGuards(c: State, call: Call)
    requires Integrity(c) && Covered(c) && Disciplined(c, call)
    ensures Guarded(c, call)
  {
  }

  /** Every call draws unused ids and is guarded when it is made. */
  ghost predicate GuardedRun(c: State, calls: seq<Call>) {
    FreshRun(c, calls) && forall i :: 0 <= i < |calls| ==> Guarded(AfterAll(c, calls[..i]), calls[i])
  }

  lemma GuardedPrefix(c: State, calls: seq<Call>)
    requires calls != [] && GuardedRun(c, calls)
    ensures GuardedRun(c, calls[..|calls| - 1])
    ensures Guarded(AfterAll(c, calls[..|calls| - 1]), calls[|calls| - 1])
  {
    var shorter := calls[..|calls| - 1];
    FreshPrefix(c, calls);
    forall i | 0 <= i < |shorter| ensures Guarded(AfterAll(c, shorter[..i]), shorter[i]) {
      assert shorter[..i] == calls[..i];
    }
  }

  /** Every state of a run whose calls are guarded has at most one executing job per target. */
  lemma {:induction false} GuardedRunsAreExclusive(c: State, calls: seq<Call>)
    requires Integrity(c) && Covered(c) && GuardedRun(c, calls)
    ensures Covered(AfterAll(c, calls)) && Exclusive(AfterAll(c, calls))
  {
    if calls != [] {
      var shorter := calls[..|calls| - 1];
      GuardedPrefix(c, calls);
      FreshPrefix(c, calls);
      GuardedRunsAreExclusive(c, shorter);
      RunsKeepIntegrity(c, shorter);
      CoverKeptExactly(AfterAll(c, shorter), calls[|calls| - 1]);
    }
  }

  // ---- the guard is exact for exclusion itself ----

  /** A job executes without holding the lock of its target. */
  predicate Uncovered(c: State, id: JobId) {
    && id in c.jobs && Executing(c.jobs[id].status)
    && !(c.jobs[id].target in c.locks && c.locks[c.jobs[id].target] == id)
  }

  lemma SomeUncovered(c: State) returns (id: JobId)
    requires !Covered(c)
    ensures Uncovered(c, id)
  {
    id :| id in c.jobs && Executing(c.jobs[id].status) &&
          !(c.jobs[id].target in c.locks && c.locks[c.jobs[id].target] == id);
  }

  lemma BothExecute(c: State, id: JobId)
    requires Integrity(c) && Uncovered(c, id) && HeldByExecuting(c, c.jobs[id].target)
    ensures !Exclusive(c)
  {
    assert ExecutingTogether(c, id, c.locks[c.jobs[id].target]);
  }

  /**
   An unresolved deployment read from the job table; the route checks its status, mode and operation, nothing else.
   */
  function UncertainDeployment(id: JobId, target: Target): (job: Job) {
    Job(id, DeployAgent, target, Apply, DeployAgentParameters("1"), ["s"], "d", ReconcileRequired)
  }

  /** No key of the index is as long as this one. */
  function Unused(keys: seq<string>): (s: string)
    ensures forall i :: 0 <= i < |keys| ==> |keys[i]| < |s|
  {
    if keys == [] then "x" else keys[0] + Unused(keys[1..])
  }

  lemma {:induction false} Listed(keys: set<string>) returns (s: seq<string>)
    ensures forall key :: key in keys ==> key in s
  {
    if keys == {} {
      s := [];
    } else {
      var key :| key in keys;
      var rest := Listed(keys - {key});
      s := [key] + rest;
    }
  }

  lemma UnusedId(keys: set<string>) returns (id: string)
    ensures id !in keys && forall key :: key in keys ==> key != ReconcileKey(id)
  {
    var s := Listed(keys);
    id := Unused(s);
    forall key | key in keys ensures |key| < |id| {
      var i :| 0 <= i < |s| && s[i] == key;
    }
  }

  /** Reconciling a job that the coordinator does not hold, through the route for persisted jobs. */
  function Takeover(source: Job, id: JobId): (calls: seq<Call>) {
    [ReconcileCall(source, false, id), TransitionCall(id, Checking)]
  }

  lemma TwoCalls(c: State, first: Call, second: Call)
    ensures AfterAll(c, [first, second]) == After(After(c, first), second)
    ensures GuardedRun(c, [first, second]) <==>
            Fresh(c, first) && Guarded(c, first) && Fresh(After(c, first), second) && Guarded(After(c, first), second)
  {
    var calls := [first, second];
    assert calls[..0] == [] && calls[..1] == [first] && [first][..0] == [];
    assert AfterAll(c, [first]) == After(c, first);
  }

  lemma TakeoverCreates(c: State, source: Job, id: JobId)
    requires CanBeReconciled(source) && id !in c.jobs && (source.target, ReconcileKey(source.id)) !in c.idempotency
    ensures var c' := After(c, ReconcileCall(source, false, id));
            && id in c'.jobs && c'.jobs[id].status == Queued && c'.jobs[id].target == source.target
            && source.target in c'.locks && c'.locks[source.target] == id
            && forall other :: other in c.jobs ==> other in c'.jobs && c'.jobs[other] == c.jobs[other]
  {
  }

  lemma TakeoverBreaks(c: State, a: JobId, source: Job, id: JobId)
    requires Integrity(c) && Uncovered(c, a) && !HeldByExecuting(c, c.jobs[a].target)
    requires CanBeReconciled(source) && source.target == c.jobs[a].target && id !in c.jobs
    requires (source.target, ReconcileKey(source.id)) !in c.idempotency
    ensures GuardedRun(c, Takeover(source, id)) && !Exclusive(AfterAll(c, Takeover(source, id)))
  {
    TwoCalls(c, ReconcileCall(source, false, id), TransitionCall(id, Checking));
    TakeoverCreates(c, source, id);
    assert ExecutingTogether(AfterAll(c, Takeover(source, id)), a, id);
  }

  // ---- two health checks: one to free the lock, one to enter ----

  /** A key that a submission for this target accepts and that is not taken. */
  predicate Usable(c: State, target: Target, key: string) {
    !AllWhite(key) && Utf8Length(key) <= 200 && (target, key) !in c.idempotency
  }

  function HealthRequest(target: Target, key: string): (r: Request) {
    Request(HealthCheck, target, Managed, Check, HealthCheckParameters, [], key, false, Viewer)
  }

  function HealthJob(id: JobId, target: Target, key: string, status: Status): (job: Job) {
    Job(id, HealthCheck, target, Check, HealthCheckParameters, [], key, status)
  }

  lemma HealthSubmits(c: State, target: Target, key: string, id: JobId)
    requires Usable(c, target, key) && id !in c.jobs
    ensures var c' := After(c, SubmitCall(HealthRequest(target, key), id));
            && c'.jobs == c.jobs[id := HealthJob(id, target, key, Queued)] && c'.locks == c.locks
            && c'.idempotency == c.idempotency[(target, key) := id]
  {
  }

  lemma AbortFrees(c: State, id: JobId)
    requires id in c.jobs && c.jobs[id].status == Queued
    ensures var c' := After(c, TransitionCall(id, Aborted));
            && c'.jobs == c.jobs[id := c.jobs[id].(status := Aborted)] && c'.locks == c.locks - {c.jobs[id].target}
            && c'.idempotency == c.idempotency
  {
  }

  lemma GuardedOn(c: State, calls: seq<Call>, call: Call)
    requires GuardedRun(c, calls) && Fresh(AfterAll(c, calls), call) && Guarded(AfterAll(c, calls), call)
    ensures GuardedRun(c, calls + [call]) && AfterAll(c, calls + [call]) == After(AfterAll(c, calls), call)
  {
    var longer := calls + [call];
    assert longer[..|calls|] == calls;
    forall i | 0 <= i < |longer|
      ensures Fresh(AfterAll(c, longer[..i]), longer[i]) && Guarded(AfterAll(c, longer[..i]), longer[i])
    {
      assert i < |calls| ==> longer[..i] == calls[..i];
    }
  }

  /** Submitting a job and aborting it drops the lock of its target, whoever holds it. */
  lemma FreesLock(c: State, a: JobId, key: string, id: JobId) returns (calls: seq<Call>)
    requires a in c.jobs && !HeldByExecuting(c, c.jobs[a].target) && Usable(c, c.jobs[a].target, key) && id !in c.jobs
    ensures GuardedRun(c, calls)
    ensures var target, c' := c.jobs[a].target, AfterAll(c, calls);
            && a in c'.jobs && c'.jobs[a] == c.jobs[a] && target !in c'.locks
            && c'.jobs.Keys == c.jobs.Keys + {id} && c'.idempotency == c.idempotency[(target, key) := id]
  {
    var target := c.jobs[a].target;
    var submit, abort := SubmitCall(HealthRequest(target, key), id), TransitionCall(id, Aborted);
    HealthSubmits(c, target, key, id);
    AbortFrees(After(c, submit), id);
    TwoCalls(c, submit, abort);
    calls := [submit, abort];
  }

  /** A health check enters beside the job that executes. */
  lemma EntersBeside(c: State, a: JobId, key: string, id: JobId)
    requires a in c.jobs && Executing(c.jobs[a].status) && c.jobs[a].target !in c.locks
    requires Usable(c, c.jobs[a].target, key) && id !in c.jobs
    ensures var submitted := After(c, SubmitCall(HealthRequest(c.jobs[a].target, key), id));
            !Exclusive(After(submitted, TransitionCall(id, Checking)))
  {
    var target := c.jobs[a].target;
    HealthSubmits(c, target, key, id);
    var submitted := After(c, SubmitCall(HealthRequest(target, key), id));
    assert ExecutingTogether(After(submitted, TransitionCall(id, Checking)), a, id);
  }

  lemma HealthChecksBreak(c: State, a: JobId, key: string, other: string) returns (later: seq<Call>)
    requires Uncovered(c, a) && !HeldByExecuting(c, c.jobs[a].target) && key != other
    requires Usable(c, c.jobs[a].target, key) && Usable(c, c.jobs[a].target, other)
    ensures GuardedRun(c, later) && !Exclusive(AfterAll(c, later))
  {
    var first := UnusedId(c.jobs.Keys);
    later := FreesLock(c, a, key, first);
    var freed := AfterAll(c, later);
    var second := UnusedId(freed.jobs.Keys);
    EntersBeside(freed, a, other, second);
    var submit := SubmitCall(HealthRequest(c.jobs[a].target, other), second);
    GuardedOn(c, later, submit);
    later := later + [submit];
    GuardedOn(c, later, TransitionCall(second, Checking));
    later := later + [TransitionCall(second, Checking)];
  }

  /**
   From a state in which some job executes without its lock, guarded calls lead to two executing jobs: by two health
   checks, or, where the keys of the target are used up, by reconciling a persisted job, whose key has no length limit.
   */
  lemma UncoveredBreaks(c: State, a: JobId) returns (later: seq<Call>)
    requires Integrity(c) && Uncovered(c, a)
    ensures GuardedRun(c, later) && !Exclusive(AfterAll(c, later))
  {
    if HeldByExecuting(c, c.jobs[a].target) {
      BothExecute(c, a);
      later := [];
    } else if key, other :| Usable(c, c.jobs[a].target, key) && Usable(c, c.jobs[a].target, other) && key != other {
      later := HealthChecksBreak(c, a, key, other);
    } else {
      var keys := set key | key in c.idempotency :: key.1;
      var unknown := UnusedId(keys + c.jobs.Keys);
      var id := UnusedId(c.jobs.Keys);
      var source := UncertainDeployment(unknown, c.jobs[a].target);
      assert (source.target, ReconcileKey(unknown)) !in c.idempotency by {
        assert (source.target, ReconcileKey(unknown)) in c.idempotency ==> ReconcileKey(unknown) in keys;
      }
      TakeoverBreaks(c, a, source, id);
      later := Takeover(source, id);
    }
  }

  /**
   A call is guarded if and only if exclusion holds after it and after every guarded continuation:
   an unguarded call is always followed, in some continuation, by two executing jobs of one target.
   */
  lemma ExclusionKeptExactly(c: State, call: Call)
    requires Integrity(c) && Covered(c) && Fresh(c, call)
    ensures Guarded(c, call) <==>
            forall later :: GuardedRun(After(c, call), later) ==> Exclusive(AfterAll(After(c, call), later))
  {
    var c' := After(c, call);
    StepKeepsIntegrity(c, call);
    CoverKeptExactly(c, call);
    if Guarded(c, call) {
      forall later | GuardedRun(c', later) ensures Exclusive(AfterAll(c', later)) {
        GuardedRunsAreExclusive(c', later);
      }
    } else {
      var a := SomeUncovered(c');
      var later := UncoveredBreaks(c', a);
      assert GuardedRun(c', later);
    }
  }

  /** The same for the discipline. */
  lemma {:induction false} DisciplinedRunsAreExclusive(calls: seq<Call>)
    requires FreshRun(EMPTY, calls)
    requires forall i :: 0 <= i < |calls| ==> Disciplined(AfterAll(EMPTY, calls[..i]), calls[i])
    ensures Covered(AfterAll(EMPTY, calls)) && Exclusive(AfterAll(EMPTY, calls))
  {
    if calls != [] {
      var shorter := calls[..|calls| - 1];
      FreshPrefix(EMPTY, calls);
      forall i | 0 <= i < |shorter| ensures Disciplined(AfterAll(EMPTY, shorter[..i]), shorter[i]) {
        assert shorter[..i] == calls[..i];
      }
      DisciplinedRunsAreExclusive(shorter);
      RunsKeepIntegrity(EMPTY, shorter);
      DisciplineGuards(AfterAll(EMPTY, shorter), calls[|calls| - 1]);
      CoverKeptExactly(AfterAll(EMPTY, shorter), calls[|calls| - 1]);
    }
  }
}

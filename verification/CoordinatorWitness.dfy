/** Runs from the empty coordinator that end with two executing jobs of one target. */
module CoordinatorWitness {
  import opened Wrappers
  import opened Jobs
  import opened Requests
  import opened Coordinator
  import opened CoordinatorIntegrity
  import opened CoordinatorExclusion
  import Text

  // ---- each part of the discipline is needed: dropping it is one transition away from two executing jobs ----

  /** A job planned straight from the queue takes no lock, so another one can still enter. */
  lemma PlannedFromQueueBreaks(c: State, a: JobId, b: JobId)
    requires a in c.jobs && b in c.jobs && a != b && c.jobs[a].target == c.jobs[b].target
    requires c.jobs[a].status == Queued && c.jobs[b].status == Queued && c.jobs[a].target !in c.locks
    ensures !Exclusive(After(After(c, TransitionCall(a, Planned)), TransitionCall(b, Checking)))
  {
    assert ExecutingTogether(After(After(c, TransitionCall(a, Planned)), TransitionCall(b, Checking)), a, b);
  }

  /** Ending any other job of the target drops the lock of the one that executes. */
  lemma EndingAnotherBreaks(c: State, a: JobId, b: JobId, d: JobId, end: Status)
    requires {a, b, d} <= c.jobs.Keys && a != b && a != d && b != d
    requires c.jobs[b].target == c.jobs[a].target && c.jobs[d].target == c.jobs[a].target
    requires Executing(c.jobs[a].status) && CanTransition(c.jobs[b].status, end) && Terminal(end)
    requires c.jobs[d].status == Queued
    ensures !Exclusive(After(After(c, TransitionCall(b, end)), TransitionCall(d, Checking)))
  {
    assert ExecutingTogether(After(After(c, TransitionCall(b, end)), TransitionCall(d, Checking)), a, d);
  }

  /** Reconciling while a job executes overwrites its lock. */
  lemma ReconcilingBreaks(c: State, a: JobId, source: Job, enforceLock: bool, id: JobId)
    requires a in c.jobs && Executing(c.jobs[a].status) && id !in c.jobs
    requires source.target == c.jobs[a].target && CanBeReconciled(source)
    requires enforceLock ==> !LockedByOther(c, source.target, source.id)
    requires (source.target, ReconcileKey(source.id)) !in c.idempotency
    ensures !Exclusive(After(After(c, ReconcileCall(source, enforceLock, id)), TransitionCall(id, Checking)))
  {
    var c' := After(c, ReconcileCall(source, enforceLock, id));
    assert c'.jobs[id].status == Queued && c'.locks[source.target] == id;
    assert ExecutingTogether(After(c', TransitionCall(id, Checking)), a, id);
  }

  // ---- and the states that these three start from are reached from the empty coordinator ----

  const HOST := Host("h")

  lemma HealthAccepted(key: string, id: JobId)
    requires key in {"a", "b", "c"}
    ensures FromRequest(HealthRequest(HOST, key), id) == Ok(HealthJob(id, HOST, key, Queued))
  {
    assert |key| == 1 && 'a' <= key[0] <= 'c';
    assert Utf8Length(key) == 1;
    assert Text.Span(key, true) == 0;
    assert Text.TrimStart(key) == key;
  }

  /** Three jobs queued for one host; none of them holds its lock. */
  ghost predicate AllQueued(c: State) {
    && c.jobs == map["1" := HealthJob("1", HOST, "a", Queued), "2" := HealthJob("2", HOST, "b", Queued),
                     "3" := HealthJob("3", HOST, "c", Queued)]
    && c.locks == map[]
    && forall source :: (HOST, ReconcileKey(source)) !in c.idempotency
  }

  lemma ThreeQueued() returns (calls: seq<Call>)
    ensures FreshRun(EMPTY, calls) && |calls| == 3 && AllQueued(AfterAll(EMPTY, calls))
  {
    calls := QueueOne([], "a", "1");
    calls := QueueOne(calls, "b", "2");
    calls := QueueOne(calls, "c", "3");
    assert forall source :: |ReconcileKey(source)| > 1;
  }

  lemma QueueOne(calls: seq<Call>, key: string, id: JobId) returns (longer: seq<Call>)
    requires FreshRun(EMPTY, calls) && key in {"a", "b", "c"}
    requires id !in AfterAll(EMPTY, calls).jobs && (HOST, key) !in AfterAll(EMPTY, calls).idempotency
    ensures FreshRun(EMPTY, longer) && |longer| == |calls| + 1
    ensures var c, c' := AfterAll(EMPTY, calls), AfterAll(EMPTY, longer);
            && c'.jobs == c.jobs[id := HealthJob(id, HOST, key, Queued)]
            && c'.idempotency == c.idempotency[(HOST, key) := id]
            && c'.locks == c.locks
  {
    HealthAccepted(key, id);
    Longer(calls, SubmitCall(HealthRequest(HOST, key), id));
    longer := calls + [SubmitCall(HealthRequest(HOST, key), id)];
  }

  lemma Longer(calls: seq<Call>, call: Call)
    requires FreshRun(EMPTY, calls) && Fresh(AfterAll(EMPTY, calls), call)
    ensures FreshRun(EMPTY, calls + [call]) && AfterAll(EMPTY, calls + [call]) == After(AfterAll(EMPTY, calls), call)
  {
    var longer := calls + [call];
    assert longer[..|calls|] == calls;
    forall i | 0 <= i < |longer| ensures Fresh(AfterAll(EMPTY, longer[..i]), longer[i]) {
      assert longer[..i] == calls[..i];
    }
  }

  /** Three jobs for one host; the first executes and holds its lock. */
  ghost predicate FirstExecutes(c: State) {
    && c.jobs == map["1" := HealthJob("1", HOST, "a", Checking), "2" := HealthJob("2", HOST, "b", Queued),
                     "3" := HealthJob("3", HOST, "c", Queued)]
    && c.locks == map[HOST := "1"]
    && forall source :: (HOST, ReconcileKey(source)) !in c.idempotency
  }

  lemma FirstRuns() returns (calls: seq<Call>)
    ensures FreshRun(EMPTY, calls) && |calls| == 4 && calls[3] == TransitionCall("1", Checking)
    ensures FirstExecutes(AfterAll(EMPTY, calls))
  {
    var queued := ThreeQueued();
    FirstEnters(AfterAll(EMPTY, queued));
    calls := Extended(queued, TransitionCall("1", Checking));
  }

  lemma FirstEnters(c: State)
    requires AllQueued(c)
    ensures FirstExecutes(After(c, TransitionCall("1", Checking)))
  {
  }

  lemma Extended(calls: seq<Call>, call: Call) returns (longer: seq<Call>)
    requires FreshRun(EMPTY, calls) && Fresh(AfterAll(EMPTY, calls), call)
    ensures calls <= longer && |longer| == |calls| + 1 && longer[|calls|] == call
    ensures FreshRun(EMPTY, longer) && AfterAll(EMPTY, longer) == After(AfterAll(EMPTY, calls), call)
  {
    Longer(calls, call);
    longer := calls + [call];
  }

  /** Two more calls. */
  lemma ExtendedTwice(calls: seq<Call>, first: Call, second: Call) returns (longer: seq<Call>)
    requires FreshRun(EMPTY, calls) && Fresh(AfterAll(EMPTY, calls), first)
    requires Fresh(After(AfterAll(EMPTY, calls), first), second)
    ensures calls <= longer && |longer| == |calls| + 2 && longer[|calls|] == first && longer[|calls| + 1] == second
    ensures FreshRun(EMPTY, longer) && AfterAll(EMPTY, longer) == After(After(AfterAll(EMPTY, calls), first), second)
  {
    var middle := Extended(calls, first);
    longer := Extended(middle, second);
  }

  lemma RunWithoutEntryBreaks() returns (calls: seq<Call>)
    ensures FreshRun(EMPTY, calls) && |calls| == 5 && calls[3] == TransitionCall("1", Planned)
    ensures !Exclusive(AfterAll(EMPTY, calls))
  {
    var queued := ThreeQueued();
    PlanningFirstBreaks(AfterAll(EMPTY, queued));
    calls := ExtendedTwice(queued, TransitionCall("1", Planned), TransitionCall("2", Checking));
  }

  lemma PlanningFirstBreaks(c: State)
    requires AllQueued(c)
    ensures !Exclusive(After(After(c, TransitionCall("1", Planned)), TransitionCall("2", Checking)))
  {
    PlannedFromQueueBreaks(c, "1", "2");
  }

  lemma RunWithoutLockCheckBreaks() returns (calls: seq<Call>)
    ensures FreshRun(EMPTY, calls) && |calls| == 6 && calls[4] == TransitionCall("2", Aborted)
    ensures !Exclusive(AfterAll(EMPTY, calls))
  {
    var running := FirstRuns();
    EndingSecondBreaks(AfterAll(EMPTY, running));
    calls := ExtendedTwice(running, TransitionCall("2", Aborted), TransitionCall("3", Checking));
  }

  lemma EndingSecondBreaks(c: State)
    requires FirstExecutes(c)
    ensures !Exclusive(After(After(c, TransitionCall("2", Aborted)), TransitionCall("3", Checking)))
  {
    EndingAnotherBreaks(c, "1", "2", "3", Aborted);
  }

  /**
   The route for persisted jobs takes the lock from a job that executes, for a source the coordinator does not hold.
   */
  lemma RunWithPersistedReconciliationBreaks() returns (calls: seq<Call>)
    ensures FreshRun(EMPTY, calls) && |calls| == 6 && "9" !in AfterAll(EMPTY, calls[..4]).jobs
    ensures calls[4] == ReconcileCall(UncertainDeployment("9", HOST), false, "4")
    ensures !Exclusive(AfterAll(EMPTY, calls))
  {
    var running := FirstRuns();
    UnknownSourceBreaks(AfterAll(EMPTY, running));
    var reconcile := ReconcileCall(UncertainDeployment("9", HOST), false, "4");
    calls := ExtendedTwice(running, reconcile, TransitionCall("4", Checking));
    assert calls[..4] == running;
  }

  lemma UnknownSourceBreaks(c: State)
    requires FirstExecutes(c)
    ensures "4" !in c.jobs && "9" !in c.jobs
    ensures var reconciled := After(c, ReconcileCall(UncertainDeployment("9", HOST), false, "4"));
            !Exclusive(After(reconciled, TransitionCall("4", Checking)))
  {
    ReconcilingBreaks(c, "1", UncertainDeployment("9", HOST), false, "4");
  }

  // ---- a stale snapshot: the job was unresolved, has failed since, and has been retried ----

  function DeployRequest(): (r: Request) {
    Request(DeployAgent, HOST, Managed, Apply, DeployAgentParameters("1"), ["s"], "d", true, Operator)
  }

  /** The deployment of the run; with ReconcileRequired it is the snapshot. */
  function Deployment(status: Status): (job: Job) {
    UncertainDeployment("1", HOST).(status := status)
  }

  lemma OneLetter(s: string)
    requires s == "d" || s == "1"
    ensures Text.Trim(s) == s && Utf8Length(s) == 1
  {
    assert |s| == 1;
    assert Text.Span(s, true) == 0;
    assert Text.TrimStart(s) == s;
  }

  lemma DeployAccepted()
    ensures FromRequest(DeployRequest(), "1") == Ok(Deployment(Queued))
  {
    OneLetter("d");
    OneLetter("1");
  }

  /** Only the deployment is there, at this status, with or without the lock of its target. */
  ghost predicate Only(c: State, status: Status, locked: bool) {
    && c.jobs == map["1" := Deployment(status)]
    && c.idempotency == map[(HOST, "d") := "1"]
    && c.locks == if locked then map[HOST := "1"] else map[]
  }

  lemma DeploySubmits()
    ensures Only(After(EMPTY, SubmitCall(DeployRequest(), "1")), Queued, false)
  {
    DeployAccepted();
  }

  lemma DeployMoves(calls: seq<Call>, from: Status, to: Status, locked: bool) returns (longer: seq<Call>)
    requires FreshRun(EMPTY, calls) && Only(AfterAll(EMPTY, calls), from, locked)
    requires CanTransition(from, to) && (to == Checking || Terminal(to) || locked)
    ensures calls <= longer && |longer| == |calls| + 1 && FreshRun(EMPTY, longer)
    ensures Only(AfterAll(EMPTY, longer), to, !Terminal(to))
  {
    DeployMoved(AfterAll(EMPTY, calls), from, to, locked);
    longer := Extended(calls, TransitionCall("1", to));
  }

  lemma DeployMoved(c: State, from: Status, to: Status, locked: bool)
    requires Only(c, from, locked) && CanTransition(from, to) && (to == Checking || Terminal(to) || locked)
    ensures Only(After(c, TransitionCall("1", to)), to, !Terminal(to))
  {
  }

  lemma DeployRetried(c: State)
    requires Only(c, Failed, false)
    ensures Only(After(c, RetryCall("1")), Queued, false)
  {
  }

  lemma DeployQueued() returns (calls: seq<Call>)
    ensures FreshRun(EMPTY, calls) && |calls| == 1 && Only(AfterAll(EMPTY, calls), Queued, false)
  {
    DeploySubmits();
    calls := Extended([], SubmitCall(DeployRequest(), "1"));
  }

  /** The deployment becomes unresolved; then it is that snapshot. */
  lemma DeployUnresolved() returns (calls: seq<Call>)
    ensures FreshRun(EMPTY, calls) && |calls| == 5 && Only(AfterAll(EMPTY, calls), ReconcileRequired, true)
  {
    calls := DeployQueued();
    calls := DeployMoves(calls, Queued, Checking, false);
    calls := DeployMoves(calls, Checking, Planned, true);
    calls := DeployMoves(calls, Planned, Applying, true);
    calls := DeployMoves(calls, Applying, ReconcileRequired, true);
  }

  /** It is settled as failed, retried, and executes again. */
  lemma DeployAgain(start: seq<Call>) returns (calls: seq<Call>)
    requires FreshRun(EMPTY, start) && Only(AfterAll(EMPTY, start), ReconcileRequired, true)
    ensures start <= calls && |calls| == |start| + 3 && FreshRun(EMPTY, calls)
    ensures Only(AfterAll(EMPTY, calls), Checking, true)
  {
    calls := DeployMoves(start, ReconcileRequired, Failed, true);
    DeployRetried(AfterAll(EMPTY, calls));
    calls := Extended(calls, RetryCall("1"));
    calls := DeployMoves(calls, Queued, Checking, false);
  }

  lemma StaleSnapshotBreaks(c: State)
    requires Only(c, Checking, true)
    ensures "4" !in c.jobs
    ensures var reconciled := After(c, ReconcileCall(Deployment(ReconcileRequired), true, "4"));
            !Exclusive(After(reconciled, TransitionCall("4", Checking)))
  {
    assert ReconcileKey("1") != "d";
    ReconcilingBreaks(c, "1", Deployment(ReconcileRequired), true, "4");
  }

  /** A snapshot of the job itself that was current five calls into the run, but is stale when it is used. */
  lemma RunWithStaleReconciliationBreaks() returns (calls: seq<Call>)
    ensures FreshRun(EMPTY, calls) && |calls| == 10
    ensures "1" in AfterAll(EMPTY, calls[..5]).jobs
    ensures calls[8] == ReconcileCall(AfterAll(EMPTY, calls[..5]).jobs["1"], true, "4")
    ensures !Exclusive(AfterAll(EMPTY, calls))
  {
    var start := DeployUnresolved();
    var again := DeployAgain(start);
    StaleSnapshotBreaks(AfterAll(EMPTY, again));
    var stale := ReconcileCall(Deployment(ReconcileRequired), true, "4");
    calls := ExtendedTwice(again, stale, TransitionCall("4", Checking));
    assert calls[..5] == start;
  }
}

/** Which answer each call of the execution coordinator gives, and what it has then changed. */
module ExecutionAnswers {
  import opened Wrappers
  import opened Clock
  import opened Plans
  import opened Planner
  import opened Executions
  import opened ExecutionSafety

  /** `c'` is `c` with execution `id` replaced by `e` and its new status at the end of its log. */
  ghost predicate Took(c: State, c': State, id: ExecutionId, e: Execution) {
    && id in c.executions && e.id == c.executions[id].id && e.planId == c.executions[id].planId
    && c'.executions == c.executions[id := e]
    && Log(c'.events, id) == Log(c.events, id) + [Event(|Log(c.events, id)| + 1, e.status)]
    && (forall other :: other != id ==> Log(c'.events, other) == Log(c.events, other))
    && c'.plans == c.plans && c'.idempotency == c.idempotency && c'.audit == c.audit
  }

  ghost predicate Stands(c: State, id: ExecutionId, statuses: set<Status>) {
    id in c.executions && c.executions[id].status in statuses
  }

  /** Unknown ids and executions at any other status are refused, and then nothing changes. */
  ghost predicate AcceptedAt<T>(c: State, c': State, id: ExecutionId, statuses: set<Status>,
      r: Result<T, ExecutionError>)
  {
    && (r.Ok? <==> Stands(c, id, statuses))
    && (r == Err(UnknownExecution) <==> id !in c.executions)
    && (r.Err? ==> c' == c && r.error in {UnknownExecution, InvalidState})
  }

  lemma MoveExactly(c: State, id: ExecutionId, next: Status, at: Time, statuses: set<Status>)
    requires forall status :: status in statuses <==> CanMove(status, next)
    ensures var (c', r) := Moved(c, id, next, at);
            && AcceptedAt(c, c', id, statuses, r)
            && (r.Ok? ==>
                  && Took(c, c', id, r.value) && r.value.status == next
                  && (next in {Succeeded, Failed, Aborted} ==> r.value.finishedAt == Some(at)))
  {
  }

  /** An execution begins exactly from the queue, and what is handed on is the plan stored for it. */
  lemma BeginExactly(c: State, id: ExecutionId, at: Time)
    requires Inv(c)
    ensures var (c', r) := Begin(c, id, at);
            && AcceptedAt(c, c', id, {Queued}, r)
            && (r.Ok? ==>
                  && id in c.plans && r.value == c.plans[id] && id in c'.executions
                  && Took(c, c', id, c'.executions[id])
                  && c'.executions[id].status == Running && c'.executions[id].startedAt == Some(at))
  {
    MoveExactly(c, id, Running, at, {Queued});
    if id in c.executions && c.executions[id].status == Queued {
      QueuedNotStarted(c, id);
    }
  }

  /** An exit is accepted exactly while the execution is under way; zero means success. */
  lemma FinishExactly(c: State, id: ExecutionId, exitCode: int, at: Time)
    ensures var (c', r) := Finish(c, id, exitCode, at);
            && AcceptedAt(c, c', id, {Running, Unknown}, r)
            && (r.Ok? ==>
                  && Took(c, c', id, r.value) && r.value.finishedAt == Some(at)
                  && r.value.status in {Succeeded, Failed} && (r.value.status == Succeeded <==> exitCode == 0))
  {
    MoveExactly(c, id, ExitStatus(exitCode), at, {Running, Unknown});
  }

  /** Everything that has not ended can be aborted. */
  lemma AbortExactly(c: State, id: ExecutionId, at: Time)
    ensures var (c', r) := Abort(c, id, at);
            && AcceptedAt(c, c', id, {Queued, Running, Unknown}, r)
            && (r.Ok? ==> Took(c, c', id, r.value) && r.value.finishedAt == Some(at) && r.value.status == Aborted)
  {
    MoveExactly(c, id, Aborted, at, {Queued, Running, Unknown});
  }

  /** A lost connection makes a running execution uncertain and touches no other. */
  lemma LostExactly(c: State, id: ExecutionId, at: Time)
    ensures var (c', r) := MarkConnectionLost(c, id, at);
            && (r.Ok? <==> id in c.executions) && (r.Err? ==> r.error == UnknownExecution)
            && (r.Ok? ==> id in c'.executions && r.value == c'.executions[id])
            && if Stands(c, id, {Running}) then Took(c, c', id, r.value) && r.value.status == Unknown else c' == c
  {
    MoveExactly(c, id, Unknown, at, {Running});
  }

  /** The action that an observation of the remote side leads to. */
  ghost predicate Leads(status: Status, observed: Observed, action: Action) {
    match action
    case KeepRunning => observed == SeenRunning && status in {Queued, Running, Unknown}
    case MarkSucceeded => observed == SeenSucceeded && status in {Running, Unknown}
    case MarkFailed => observed == SeenFailed && status in {Running, Unknown}
    case RequireManualReview => observed == SeenUnknown || status in {Succeeded, Failed, Aborted}
  }

  lemma ReconcileAnswer(c: State, id: ExecutionId, observed: Observed, at: Time, action: Action)
    requires id in c.executions
    ensures var r := Reconcile(c, id, observed, at).1;
            && (r.Ok? && r.value.1 == action <==> Leads(c.executions[id].status, observed, action))
            && (r.Err? <==> c.executions[id].status == Queued && observed in {SeenSucceeded, SeenFailed})
            && (r.Err? ==> r.error == InvalidState)
  {
    match c.executions[id].status
    case Queued =>
    case Running =>
    case Unknown =>
    case Succeeded =>
    case Failed =>
    case Aborted =>
  }

  lemma ReconcileEffect(c: State, id: ExecutionId, observed: Observed, at: Time)
    requires id in c.executions
    ensures var (c', r) := Reconcile(c, id, observed, at);
            if r.Ok? && r.value.1 in {MarkSucceeded, MarkFailed} then
              && Took(c, c', id, r.value.0) && r.value.0.finishedAt == Some(at)
              && r.value.0.status == if r.value.1 == MarkSucceeded then Succeeded else Failed
            else c' == c && (r.Ok? ==> r.value.0 == c.executions[id])
  {
    FinishExactly(c, id, 0, at);
    FinishExactly(c, id, 1, at);
  }

  /** Each action is given exactly where status and observation lead to it; only two of them change anything. */
  lemma ReconcileExactly(c: State, id: ExecutionId, observed: Observed, at: Time, action: Action)
    ensures var (c', r) := Reconcile(c, id, observed, at);
            if id !in c.executions then c' == c && r == Err(UnknownExecution)
            else
              && (r.Ok? && r.value.1 == action <==> Leads(c.executions[id].status, observed, action))
              && (r.Err? <==> c.executions[id].status == Queued && observed in {SeenSucceeded, SeenFailed})
              && (r.Err? ==> r.error == InvalidState)
              && (if r.Ok? && r.value.1 in {MarkSucceeded, MarkFailed} then
                    && Took(c, c', id, r.value.0) && r.value.0.finishedAt == Some(at)
                    && r.value.0.status == if r.value.1 == MarkSucceeded then Succeeded else Failed
                  else c' == c && (r.Ok? ==> r.value.0 == c.executions[id]))
  {
    if id in c.executions {
      ReconcileAnswer(c, id, observed, at, action);
      ReconcileEffect(c, id, observed, at);
    }
  }

  // ---- over whole runs ----

  /** Call `k` of the run is a start, and this is its answer. */
  ghost predicate Answered(digest: Digest, calls: seq<Call>, k: nat, r: Result<Start, ExecutionError>)
    requires k < |calls|
  {
    && calls[k].StartCall?
    && r == StartExecution(AfterAll(digest, EMPTY, calls[..k]), digest,
                           calls[k].request, calls[k].freshPlan, calls[k].freshId).1
  }

  lemma StepOf(digest: Digest, calls: seq<Call>, k: nat)
    requires k < |calls|
    ensures AfterAll(digest, EMPTY, calls[..k + 1]) == After(digest, AfterAll(digest, EMPTY, calls[..k]), calls[k])
  {
    assert calls[..k + 1][..k] == calls[..k];
  }

  lemma RunPrefix(digest: Digest, calls: seq<Call>, k: nat)
    requires FreshRun(digest, EMPTY, calls) && k <= |calls|
    ensures FreshRun(digest, EMPTY, calls[..k]) && Inv(AfterAll(digest, EMPTY, calls[..k]))
  {
    var shorter := calls[..k];
    forall i | 0 <= i < |shorter| ensures Fresh(AfterAll(digest, EMPTY, shorter[..i]), shorter[i]) {
      assert shorter[..i] == calls[..i];
    }
    RunsKeepInvariant(digest, EMPTY, shorter);
  }

  ghost predicate Holds(c: State, key: string, id: ExecutionId) {
    key in c.idempotency && c.idempotency[key] == id
  }

  lemma StepHolds(digest: Digest, c: State, call: Call, key: string, id: ExecutionId)
    requires Inv(c) && Fresh(c, call) && Holds(c, key, id)
    ensures Holds(After(digest, c, call), key, id)
  {
    StepCounts(digest, c, call, key);
  }

  lemma CallHolds(digest: Digest, calls: seq<Call>, key: string, id: ExecutionId, k: nat)
    requires FreshRun(digest, EMPTY, calls) && k < |calls| && Holds(AfterAll(digest, EMPTY, calls[..k]), key, id)
    ensures Holds(AfterAll(digest, EMPTY, calls[..k + 1]), key, id)
  {
    RunPrefix(digest, calls, k);
    StepOf(digest, calls, k);
    StepHolds(digest, AfterAll(digest, EMPTY, calls[..k]), calls[k], key, id);
  }

  lemma {:induction false} KeyStays(digest: Digest, calls: seq<Call>, key: string, id: ExecutionId, i: nat, j: nat)
    requires FreshRun(digest, EMPTY, calls) && i <= j <= |calls|
    requires Holds(AfterAll(digest, EMPTY, calls[..i]), key, id)
    ensures Holds(AfterAll(digest, EMPTY, calls[..j]), key, id)
  {
    if i < j {
      KeyStays(digest, calls, key, id, i, j - 1);
      CallHolds(digest, calls, key, id, j - 1);
    }
  }

  lemma CreatedHolds(digest: Digest, calls: seq<Call>, i: nat, e: Execution)
    requires i < |calls| && Answered(digest, calls, i, Ok(Created(e)))
    ensures Holds(AfterAll(digest, EMPTY, calls[..i + 1]), calls[i].request.key, e.id)
  {
    var c := AfterAll(digest, EMPTY, calls[..i]);
    StepOf(digest, calls, i);
    StartChangesOnlyOnCreation(c, digest, calls[i].request, calls[i].freshPlan, calls[i].freshId);
    CreatedId(c, digest, calls[i].request, calls[i].freshPlan, calls[i].freshId);
  }

  lemma CreatedId(c: State, digest: Digest, request: Request, freshPlan: string, id: ExecutionId)
    ensures var r := StartExecution(c, digest, request, freshPlan, id).1;
            r.Ok? && r.value.Created? ==> r.value.execution.id == id
  {
  }

  lemma HeldRepeats(c: State, digest: Digest, request: Request, freshPlan: string, newId: ExecutionId, id: ExecutionId)
    requires Identified(request) && Holds(c, request.key, id)
    ensures StartExecution(c, digest, request, freshPlan, newId) == (c, Ok(Duplicate(id)))
  {
    IdentifiedExactly(request);
  }

  /** After a start created an execution, every later identified start with its key is answered with that execution. */
  lemma LaterStartsRepeat(digest: Digest, calls: seq<Call>, i: nat, j: nat, e: Execution)
    requires FreshRun(digest, EMPTY, calls) && i < j < |calls| && Answered(digest, calls, i, Ok(Created(e)))
    requires calls[j].StartCall? && calls[j].request.key == calls[i].request.key && Identified(calls[j].request)
    ensures Answered(digest, calls, j, Ok(Duplicate(e.id)))
    ensures AfterAll(digest, EMPTY, calls[..j + 1]) == AfterAll(digest, EMPTY, calls[..j])
  {
    CreatedHolds(digest, calls, i, e);
    KeyStays(digest, calls, calls[i].request.key, e.id, i + 1, j);
    StepOf(digest, calls, j);
    var c, call := AfterAll(digest, EMPTY, calls[..j]), calls[j];
    HeldRepeats(c, digest, call.request, call.freshPlan, call.freshId, e.id);
  }

  /** In every run, what `begin` hands on was confirmed and reproduced by the dry run of its own start. */
  lemma BegunPlanWasReviewed(digest: Digest, calls: seq<Call>, id: ExecutionId, at: Time)
    requires Injective(digest) && FreshRun(digest, EMPTY, calls)
    requires Begin(AfterAll(digest, EMPTY, calls), id, at).1.Ok?
    ensures Reviewed(calls, id, Begin(AfterAll(digest, EMPTY, calls), id, at).1.value)
  {
    RunsKeepInvariant(digest, EMPTY, calls);
    BeginExactly(AfterAll(digest, EMPTY, calls), id, at);
    EveryPlanWasReviewed(digest, calls, id);
  }
}

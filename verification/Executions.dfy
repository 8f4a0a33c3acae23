/** Confirmed, revalidated and idempotent execution of update plans. */
module Executions {
  import opened Wrappers
  import opened Clock
  import opened Text
  import opened Plans
  import opened Planner

  type ExecutionId = string

  datatype Status = Queued | Running | Succeeded | Failed | Aborted | Unknown

  datatype Execution = Execution(
    id: ExecutionId, planId: string, status: Status, startedAt: Option<Time>, finishedAt: Option<Time>)

  predicate CanMove(from: Status, to: Status) {
    match from
    case Queued => to in {Running, Aborted}
    case Running => to in {Succeeded, Failed, Aborted, Unknown}
    case Unknown => to in {Succeeded, Failed, Aborted}
    case _ => false
  }

  predicate Terminal(status: Status) {
    status in {Succeeded, Failed, Aborted}
  }

  function MoveTo(e: Execution, next: Status, at: Time): (r: Option<Execution>) {
    if !CanMove(e.status, next) then None
    else
      Some(Execution(e.id, e.planId, next,
                     if next == Running && e.startedAt.None? then Some(at) else e.startedAt,
                     if Terminal(next) then Some(at) else e.finishedAt))
  }

  /** The event type is the lower-case name of a status. */
  datatype Event = Event(sequence: nat, kind: Status)

  datatype AuditRecord = AuditRecord(actor: string, execution: ExecutionId, planId: string, planHash: Option<string>)

  datatype Request = Request(plan: UpdatePlan, current: PlannerInput, actor: string, key: string)

  datatype Start = Created(execution: Execution) | Duplicate(id: ExecutionId)

  datatype Observed = SeenRunning | SeenSucceeded | SeenFailed | SeenUnknown

  datatype Action = KeepRunning | MarkSucceeded | MarkFailed | RequireManualReview

  datatype ExecutionError =
    | MissingRequestIdentity | PlanNotConfirmed | PlanChanged | InvalidState | UnknownExecution
    | EmptyPlan | UnsafePackageArgument | NotConfigured
    | PlannerFailed(error: PlannerError)

  /** Exit code of the package manager, or the executor's own error. */
  type Outcome = Result<int, ExecutionError>

  datatype State = State(
    executions: map<ExecutionId, Execution>, plans: map<ExecutionId, UpdatePlan>,
    idempotency: map<string, ExecutionId>, events: map<ExecutionId, seq<Event>>, audit: seq<AuditRecord>)

  const EMPTY := State(map[], map[], map[], map[], [])

  function Log(events: map<ExecutionId, seq<Event>>, id: ExecutionId): (log: seq<Event>) {
    if id in events then events[id] else []
  }

  function Appended(events: map<ExecutionId, seq<Event>>, id: ExecutionId, kind: Status): (r: map<ExecutionId,
      seq<Event>>) {
    events[id := Log(events, id) + [Event(|Log(events, id)| + 1, kind)]]
  }

  // ---- operations on the state ----

  function NewExecution(id: ExecutionId, plan: UpdatePlan): (e: Execution) {
    Execution(id, plan.id, Queued, None, None)
  }

  function Enqueued(c: State, request: Request, plan: UpdatePlan, id: ExecutionId): (r: State) {
    State(c.executions[id := NewExecution(id, plan)], c.plans[id := plan], c.idempotency[request.key := id],
          Appended(c.events, id, Queued),
          c.audit + [AuditRecord(request.actor, id, plan.id, plan.hash)])
  }

  /** The checks of a start, given what revalidation made of the plan and answered. */
  function Judged(c: State, request: Request, plan: UpdatePlan, answer: Result<Revalidation, PlannerError>,
      id: ExecutionId)
    : (r: (State, Result<Start, ExecutionError>))
  {
    if Trim(request.actor) == [] || Trim(request.key) == [] then (c, Err(MissingRequestIdentity))
    else if request.key in c.idempotency then (c, Ok(Duplicate(c.idempotency[request.key])))
    else if request.plan.status != Confirmed then (c, Err(PlanNotConfirmed))
    else
      match answer
      case Err(e) => (c, Err(PlannerFailed(e)))
      case Ok(Changed) => (c, Err(PlanChanged))
      case Ok(Unchanged) => (Enqueued(c, request, plan, id), Ok(Created(NewExecution(id, plan))))
  }

  function StartExecution(c: State, digest: Digest, request: Request, freshPlan: string, id: ExecutionId)
    : (r: (State, Result<Start, ExecutionError>))
  {
    var (plan, answer) := Revalidate(digest, request.plan, request.current, freshPlan);
    Judged(c, request, plan, answer, id)
  }

  /** A single status change with its event. */
  function Moved(c: State, id: ExecutionId, next: Status, at: Time): (r: (State, Result<Execution, ExecutionError>)) {
    if id !in c.executions then (c, Err(UnknownExecution))
    else
      match MoveTo(c.executions[id], next, at)
      case None => (c, Err(InvalidState))
      case Some(moved) =>
        (c.(executions := c.executions[id := moved], events := Appended(c.events, id, next)), Ok(moved))
  }

  function Begin(c: State, id: ExecutionId, at: Time): (r: (State, Result<UpdatePlan, ExecutionError>)) {
    if id !in c.plans then (c, Err(UnknownExecution))
    else
      var (c', moved) := Moved(c, id, Running, at);
      (c', if moved.Ok? then Ok(c.plans[id]) else Err(moved.error))
  }

  function ExitStatus(exitCode: int): (s: Status) {
    if exitCode == 0 then Succeeded else Failed
  }

  function Finish(c: State, id: ExecutionId, exitCode: int, at: Time): (r: (State, Result<Execution, ExecutionError>)) {
    Moved(c, id, ExitStatus(exitCode), at)
  }

  function Abort(c: State, id: ExecutionId, at: Time): (r: (State, Result<Execution, ExecutionError>)) {
    Moved(c, id, Aborted, at)
  }

  /** `outcome` is what the executor answers if it is called. */
  function RunPlan(c: State, id: ExecutionId, outcome: Outcome, began: Time, ended: Time)
    : (r: (State, Result<Execution, ExecutionError>))
  {
    var (running, begun) := Begin(c, id, began);
    if begun.Err? then (running, Err(begun.error))
    else
      match outcome
      case Ok(exitCode) => Finish(running, id, exitCode, ended)
      case Err(e) => (Finish(running, id, 1, ended).0, Err(e))
  }

  function MarkConnectionLost(c: State, id: ExecutionId, at: Time): (r: (State, Result<Execution, ExecutionError>)) {
    if id !in c.executions then (c, Err(UnknownExecution))
    else if c.executions[id].status == Running then Moved(c, id, Unknown, at)
    else (c, Ok(c.executions[id]))
  }

  function Reconcile(c: State, id: ExecutionId, observed: Observed, at: Time)
    : (r: (State, Result<(Execution, Action), ExecutionError>))
  {
    if id !in c.executions then (c, Err(UnknownExecution))
    else if Terminal(c.executions[id].status) then (c, Ok((c.executions[id], RequireManualReview)))
    else
      match observed
      case SeenRunning => (c, Ok((c.executions[id], KeepRunning)))
      case SeenUnknown => (c, Ok((c.executions[id], RequireManualReview)))
      case SeenSucceeded =>
        var (c', finished) := Finish(c, id, 0, at);
        (c', if finished.Ok? then Ok((finished.value, MarkSucceeded)) else Err(finished.error))
      case SeenFailed =>
        var (c', finished) := Finish(c, id, 1, at);
        (c', if finished.Ok? then Ok((finished.value, MarkFailed)) else Err(finished.error))
  }

  // ---- calls and runs ----

  datatype Call =
    | StartCall(request: Request, freshPlan: string, freshId: ExecutionId)
    | BeginCall(id: ExecutionId, at: Time)
    | RunCall(id: ExecutionId, outcome: Outcome, at: Time, ended: Time)
    | FinishCall(id: ExecutionId, exitCode: int, at: Time)
    | AbortCall(id: ExecutionId, at: Time)
    | LostCall(id: ExecutionId, at: Time)
    | ReconcileCall(id: ExecutionId, observed: Observed, at: Time)

  function After(digest: Digest, c: State, call: Call): (c': State) {
    match call
    case StartCall(request, freshPlan, id) => StartExecution(c, digest, request, freshPlan, id).0
    case BeginCall(id, at) => Begin(c, id, at).0
    case RunCall(id, outcome, at, ended) => RunPlan(c, id, outcome, at, ended).0
    case FinishCall(id, exitCode, at) => Finish(c, id, exitCode, at).0
    case AbortCall(id, at) => Abort(c, id, at).0
    case LostCall(id, at) => MarkConnectionLost(c, id, at).0
    case ReconcileCall(id, observed, at) => Reconcile(c, id, observed, at).0
  }

  function AfterAll(digest: Digest, c: State, calls: seq<Call>): (c': State) {
    if calls == [] then c else After(digest, AfterAll(digest, c, calls[..|calls| - 1]), calls[|calls| - 1])
  }

  /** Generated execution ids are unused; nothing else is asked of a caller. */
  predicate Fresh(c: State, call: Call) {
    call.StartCall? ==> call.freshId !in c.executions
  }

  ghost predicate FreshRun(digest: Digest, c: State, calls: seq<Call>) {
    forall i :: 0 <= i < |calls| ==> Fresh(AfterAll(digest, c, calls[..i]), calls[i])
  }

  lemma FreshPrefix(digest: Digest, c: State, calls: seq<Call>)
    requires calls != [] && FreshRun(digest, c, calls)
    ensures FreshRun(digest, c, calls[..|calls| - 1])
    ensures Fresh(AfterAll(digest, c, calls[..|calls| - 1]), calls[|calls| - 1])
  {
    var earlier := calls[..|calls| - 1];
    forall i | 0 <= i < |earlier| ensures Fresh(AfterAll(digest, c, earlier[..i]), earlier[i]) {
      assert earlier[..i] == calls[..i];
    }
  }

  // ---- the object itself ----

  class ExecutionCoordinator {
    var executions: map<ExecutionId, Execution>
    var plans: map<ExecutionId, UpdatePlan>
    var idempotency: map<string, ExecutionId>
    var events: map<ExecutionId, seq<Event>>
    var audit: seq<AuditRecord>
    const digest: Digest

    function View(): (c: State)
      reads this
    {
      State(executions, plans, idempotency, events, audit)
    }

    constructor (digest: Digest)
      ensures View() == EMPTY && this.digest == digest
    {
      this.digest := digest;
      executions, plans, idempotency, events, audit := map[], map[], map[], map[], [];
    }

    method AppendEvent(id: ExecutionId, kind: Status)
      modifies this
      ensures View() == old(View()).(events := Appended(old(events), id, kind))
    {
      var log := if id in events then events[id] else [];
      log := log + [Event(|log| + 1, kind)];
      events := events[id := log];
    }

    method StartRequest(request: Request, freshPlan: string, freshId: ExecutionId) returns (r: Result<Start,
        ExecutionError>)
      modifies this
      ensures (View(), r) == StartExecution(old(View()), digest, request, freshPlan, freshId)
    {
      if Trim(request.actor) == [] || Trim(request.key) == [] {
        return Err(MissingRequestIdentity);
      }
      if request.key in idempotency {
        return Ok(Duplicate(idempotency[request.key]));
      }
      if request.plan.status != Confirmed {
        return Err(PlanNotConfirmed);
      }
      var (plan, answer) := Revalidate(digest, request.plan, request.current, freshPlan);
      if answer.Err? {
        return Err(PlannerFailed(answer.error));
      }
      if answer.value == Changed {
        return Err(PlanChanged);
      }
      var execution := Enqueue(request, plan, freshId);
      r := Ok(Created(execution));
    }

    method Enqueue(request: Request, plan: UpdatePlan, id: ExecutionId) returns (execution: Execution)
      modifies this
      ensures View() == Enqueued(old(View()), request, plan, id) && execution == NewExecution(id, plan)
    {
      execution := NewExecution(id, plan);
      idempotency := idempotency[request.key := id];
      plans := plans[id := plan];
      executions := executions[id := execution];
      AppendEvent(id, Queued);
      audit := audit + [AuditRecord(request.actor, id, plan.id, plan.hash)];
    }

    method BeginExecution(id: ExecutionId, at: Time) returns (r: Result<UpdatePlan, ExecutionError>)
      modifies this
      ensures (View(), r) == Begin(old(View()), id, at)
    {
      if id !in plans || id !in executions {
        return Err(UnknownExecution);
      }
      var moved := MoveTo(executions[id], Running, at);
      if moved.None? {
        return Err(InvalidState);
      }
      executions := executions[id := moved.value];
      AppendEvent(id, Running);
      r := Ok(plans[id]);
    }

    method FinishExecution(id: ExecutionId, exitCode: int, at: Time) returns (r: Result<Execution, ExecutionError>)
      modifies this
      ensures (View(), r) == Finish(old(View()), id, exitCode, at)
    {
      var next := if exitCode == 0 then Succeeded else Failed;
      if id !in executions {
        return Err(UnknownExecution);
      }
      var moved := MoveTo(executions[id], next, at);
      if moved.None? {
        return Err(InvalidState);
      }
      executions := executions[id := moved.value];
      AppendEvent(id, next);
      r := Ok(moved.value);
    }

    method RunExecution(id: ExecutionId, outcome: Outcome, began: Time, ended: Time) returns (r: Result<Execution,
        ExecutionError>)
      modifies this
      ensures (View(), r) == RunPlan(old(View()), id, outcome, began, ended)
    {
      if id !in plans {
        return Err(UnknownExecution);
      }
      var begun := BeginExecution(id, began);
      if begun.Err? {
        return Err(begun.error);
      }
      if outcome.Ok? {
        r := FinishExecution(id, outcome.value, ended);
      } else {
        var _ := FinishExecution(id, 1, ended);
        r := Err(outcome.error);
      }
    }

    method AbortExecution(id: ExecutionId, at: Time) returns (r: Result<Execution, ExecutionError>)
      modifies this
      ensures (View(), r) == Abort(old(View()), id, at)
    {
      if id !in executions {
        return Err(UnknownExecution);
      }
      var moved := MoveTo(executions[id], Aborted, at);
      if moved.None? {
        return Err(InvalidState);
      }
      executions := executions[id := moved.value];
      AppendEvent(id, Aborted);
      r := Ok(moved.value);
    }

    method LoseConnection(id: ExecutionId, at: Time) returns (r: Result<Execution, ExecutionError>)
      modifies this
      ensures (View(), r) == MarkConnectionLost(old(View()), id, at)
    {
      if id !in executions {
        return Err(UnknownExecution);
      }
      var becameUnknown := false;
      if executions[id].status == Running {
        var moved := MoveTo(executions[id], Unknown, at);
        executions := executions[id := moved.value];
        becameUnknown := true;
      }
      if becameUnknown {
        AppendEvent(id, Unknown);
      }
      r := Ok(executions[id]);
    }

    method ReconcileExecution(id: ExecutionId, observed: Observed, at: Time) returns (r: Result<(Execution, Action),
        ExecutionError>)
      modifies this
      ensures (View(), r) == Reconcile(old(View()), id, observed, at)
    {
      if id !in executions {
        return Err(UnknownExecution);
      }
      var current := executions[id].status;
      if current == Succeeded || current == Failed || current == Aborted {
        return Ok((executions[id], RequireManualReview));
      }
      match observed
      case SeenRunning => r := Ok((executions[id], KeepRunning));
      case SeenUnknown => r := Ok((executions[id], RequireManualReview));
      case SeenSucceeded =>
        var finished := FinishExecution(id, 0, at);
        r := if finished.Ok? then Ok((finished.value, MarkSucceeded)) else Err(finished.error);
      case SeenFailed =>
        var finished := FinishExecution(id, 1, at);
        r := if finished.Ok? then Ok((finished.value, MarkFailed)) else Err(finished.error);
    }
  }
}

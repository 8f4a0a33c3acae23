/** Which call decides how an execution ends, and that the decision is final. */
module ExecutionOutcome {
  import opened Wrappers
  import opened Clock
  import opened Plans
  import opened Executions
  import opened ExecutionSafety

  /** Everything the coordinator holds about one execution. */
  datatype Record = Record(execution: Execution, plan: UpdatePlan, log: seq<Event>)

  function RecordOf(c: State, id: ExecutionId): (r: Option<Record>) {
    if id in c.executions && id in c.plans then Some(Record(c.executions[id], c.plans[id], Log(c.events, id))) else None
  }

  // ---- moves and starts, seen from one execution ----

  lemma MovedElsewhere(c: State, id: ExecutionId, next: Status, at: Time, other: ExecutionId)
    requires other != id || id !in c.executions || !CanMove(c.executions[id].status, next)
    ensures RecordOf(Moved(c, id, next, at).0, other) == RecordOf(c, other)
  {
  }

  lemma {:induction false} MovedAllElsewhere(c: State, id: ExecutionId, moves: seq<Move>, other: ExecutionId)
    requires other != id || (id in c.executions && Terminal(c.executions[id].status))
    ensures RecordOf(MovedAll(c, id, moves), other) == RecordOf(c, other)
    decreases |moves|
  {
    if moves != [] {
      MovedElsewhere(c, id, moves[0].next, moves[0].at, other);
      MovedAllElsewhere(Moved(c, id, moves[0].next, moves[0].at).0, id, moves[1..], other);
    }
  }

  lemma StartElsewhere(digest: Digest, c: State, call: Call, id: ExecutionId)
    requires call.StartCall? && Fresh(c, call) && id in c.executions
    ensures RecordOf(After(digest, c, call), id) == RecordOf(c, id)
  {
    StartShape(c, digest, call.request, call.freshPlan, call.freshId);
  }

  // ---- final states ----

  lemma FinalStep(digest: Digest, c: State, call: Call, id: ExecutionId)
    requires Fresh(c, call) && id in c.executions && id in c.plans && Terminal(c.executions[id].status)
    ensures RecordOf(After(digest, c, call), id) == RecordOf(c, id)
  {
    if call.StartCall? {
      StartElsewhere(digest, c, call, id);
    } else {
      CallIsMoves(digest, c, call);
      MovedAllElsewhere(c, call.id, MovesOf(c, call), id);
    }
  }

  /** A finished execution, its plan and its log never change again. */
  lemma {:induction false} FinalForever(digest: Digest, c: State, calls: seq<Call>, id: ExecutionId)
    requires FreshRun(digest, c, calls)
    requires id in c.executions && id in c.plans && Terminal(c.executions[id].status)
    ensures RecordOf(AfterAll(digest, c, calls), id) == RecordOf(c, id)
  {
    if calls != [] {
      var earlier := calls[..|calls| - 1];
      FreshPrefix(digest, c, calls);
      FinalForever(digest, c, earlier, id);
      FinalStep(digest, AfterAll(digest, c, earlier), calls[|calls| - 1], id);
    }
  }

  // ---- the deciding call ----

  datatype Verdict = Verdict(status: Status, at: Time)

  /** How a call would end a begun execution: an observed end, a reported end or an abort. */
  function VerdictOf(call: Call, id: ExecutionId): (v: Option<Verdict>) {
    if call.StartCall? || call.id != id then None
    else
      match call
      case FinishCall(_, exitCode, at) => Some(Verdict(if exitCode == 0 then Succeeded else Failed, at))
      case AbortCall(_, at) => Some(Verdict(Aborted, at))
      case ReconcileCall(_, SeenSucceeded, at) => Some(Verdict(Succeeded, at))
      case ReconcileCall(_, SeenFailed, at) => Some(Verdict(Failed, at))
      case _ => None
  }

  function FirstVerdict(calls: seq<Call>, id: ExecutionId): (v: Option<Verdict>) {
    if calls == [] then None
    else
      var earlier := FirstVerdict(calls[..|calls| - 1], id);
      if earlier.Some? then earlier else VerdictOf(calls[|calls| - 1], id)
  }

  predicate LosesConnection(call: Call, id: ExecutionId) {
    call.LostCall? && call.id == id
  }

  ghost predicate EverLost(calls: seq<Call>, id: ExecutionId) {
    exists i :: 0 <= i < |calls| && LosesConnection(calls[i], id)
  }

  /** Begun and not finished. */
  predicate Underway(c: State, id: ExecutionId) {
    id in c.executions && id in c.plans && (c.executions[id].status == Running || c.executions[id].status == Unknown)
  }

  /** Where a begun execution stands after a run whose first verdict and connection losses are given. */
  ghost predicate StandsAt(c: State, id: ExecutionId, before: Status, verdict: Option<Verdict>, lost: bool) {
    && id in c.executions && id in c.plans
    && match verdict
       case Some(v) => c.executions[id].status == v.status && c.executions[id].finishedAt == Some(v.at)
       case None => c.executions[id].status == if lost then Unknown else before
  }

  lemma MovedTo(c: State, id: ExecutionId, next: Status, at: Time)
    requires id in c.executions && id in c.plans && CanMove(c.executions[id].status, next)
    ensures var c' := Moved(c, id, next, at).0;
            && id in c'.executions && id in c'.plans && c'.executions[id].status == next
            && (Terminal(next) ==> c'.executions[id].finishedAt == Some(at))
  {
  }

  lemma VerdictMoves(c: State, call: Call, id: ExecutionId)
    requires Underway(c, id) && !call.StartCall? && call.id == id
    ensures VerdictOf(call, id).Some? ==>
              var v := VerdictOf(call, id).value; MovesOf(c, call) == [Move(v.status, v.at)]
    ensures VerdictOf(call, id).Some? ==> Terminal(VerdictOf(call, id).value.status)
    ensures VerdictOf(call, id).None? && call.LostCall? && c.executions[id].status == Running ==>
              MovesOf(c, call) == [Move(Unknown, call.at)]
    ensures VerdictOf(call, id).None? && !(call.LostCall? && c.executions[id].status == Running) ==>
              MovesOf(c, call) == [] || (call.BeginCall? && MovesOf(c, call) == [Move(Running, call.at)])
  {
  }

  lemma StepOnIt(digest: Digest, c: State, call: Call, id: ExecutionId)
    requires Underway(c, id) && !call.StartCall? && call.id == id
    ensures var status, s' := c.executions[id].status, After(digest, c, call);
            StandsAt(s', id, status, VerdictOf(call, id), LosesConnection(call, id))
  {
    var moves := MovesOf(c, call);
    CallIsMoves(digest, c, call);
    VerdictMoves(c, call, id);
    if moves != [] {
      OneMove(c, id, moves[0]);
      if CanMove(c.executions[id].status, moves[0].next) {
        MovedTo(c, id, moves[0].next, moves[0].at);
      }
    }
  }

  lemma StepDecides(digest: Digest, c: State, call: Call, id: ExecutionId)
    requires Underway(c, id) && Fresh(c, call)
    ensures var status, s' := c.executions[id].status, After(digest, c, call);
            StandsAt(s', id, status, VerdictOf(call, id), LosesConnection(call, id))
  {
    if call.StartCall? {
      StartElsewhere(digest, c, call, id);
    } else if call.id != id {
      CallIsMoves(digest, c, call);
      MovedAllElsewhere(c, call.id, MovesOf(c, call), id);
    } else {
      StepOnIt(digest, c, call, id);
    }
  }

  lemma {:induction false} VerdictIsTerminal(calls: seq<Call>, id: ExecutionId)
    ensures FirstVerdict(calls, id).Some? ==> Terminal(FirstVerdict(calls, id).value.status)
  {
    if calls != [] {
      VerdictIsTerminal(calls[..|calls| - 1], id);
    }
  }

  lemma LostSplits(calls: seq<Call>, id: ExecutionId)
    requires calls != []
    ensures EverLost(calls, id) <==> EverLost(calls[..|calls| - 1], id) || LosesConnection(calls[|calls| - 1], id)
  {
    var earlier := calls[..|calls| - 1];
    if EverLost(earlier, id) {
      var i :| 0 <= i < |earlier| && LosesConnection(earlier[i], id);
      assert LosesConnection(calls[i], id);
    }
    if EverLost(calls, id) {
      var i :| 0 <= i < |calls| && LosesConnection(calls[i], id);
      assert i < |earlier| ==> earlier[i] == calls[i];
    }
  }

  /**
   * For a begun execution the first verdict alone decides how and when it ends, whatever connection losses,
   * observations, repeated begins, later verdicts and calls on other executions surround it.
   * Without a verdict it is still running, or unknown if the connection was ever lost.
   */
  lemma {:induction false} FirstVerdictDecides(digest: Digest, c: State, calls: seq<Call>, id: ExecutionId)
    requires FreshRun(digest, c, calls) && Underway(c, id)
    ensures var status, s' := c.executions[id].status, AfterAll(digest, c, calls);
            StandsAt(s', id, status, FirstVerdict(calls, id), EverLost(calls, id))
  {
    if calls != [] {
      var earlier, call := calls[..|calls| - 1], calls[|calls| - 1];
      var mid := AfterAll(digest, c, earlier);
      FreshPrefix(digest, c, calls);
      FirstVerdictDecides(digest, c, earlier, id);
      LostSplits(calls, id);
      if FirstVerdict(earlier, id).Some? {
        VerdictIsTerminal(earlier, id);
        FinalStep(digest, mid, call, id);
      } else {
        StepDecides(digest, mid, call, id);
      }
    }
  }

  // ---- running a plan to its end ----

  lemma BegunIs(c: State, id: ExecutionId, at: Time)
    requires id in c.executions && id in c.plans && id in c.events
    requires c.executions[id].status == Queued && c.executions[id].startedAt.None?
    ensures var (c', r) := Begin(c, id, at);
            && r.Ok? && id in c'.executions && id in c'.events
            && c'.executions[id].status == Running && c'.executions[id].startedAt == Some(at)
            && |c'.events[id]| == |c.events[id]| + 1
  {
  }

  lemma FinishedIs(c: State, id: ExecutionId, exitCode: int, at: Time)
    requires id in c.executions && id in c.events && c.executions[id].status == Running
    ensures var (c', r) := Finish(c, id, exitCode, at);
            && id in c'.executions && id in c'.events && r == Ok(c'.executions[id])
            && c'.executions[id].status == (if exitCode == 0 then Succeeded else Failed)
            && c'.executions[id].startedAt == c.executions[id].startedAt && c'.executions[id].finishedAt == Some(at)
            && |c'.events[id]| == |c.events[id]| + 1
  {
  }

  lemma RunIs(c: State, id: ExecutionId, outcome: Outcome, began: Time, ended: Time)
    requires Begin(c, id, began).1.Ok?
    ensures var (c', finished) := Finish(Begin(c, id, began).0, id, if outcome.Ok? then outcome.value else 1, ended);
            RunPlan(c, id, outcome, began, ended) == (c', if outcome.Ok? then finished else Err(outcome.error))
  {
  }

  lemma QueuedRecord(c: State, id: ExecutionId)
    requires Inv(c) && id in c.executions
    ensures id in c.plans && id in c.events
    ensures c.executions[id].status == Queued ==> c.executions[id].startedAt.None? && |c.events[id]| == 1
  {
    assert RecordOk(c, id);
    if c.executions[id].status == Queued {
      QueuedNotStarted(c, id);
      QueuedPath(c.events[id]);
    }
  }

  /** A run that begins always records its end: the second status change cannot fail. */
  lemma RunReachesItsEnd(c: State, id: ExecutionId, outcome: Outcome, began: Time, ended: Time)
    requires Inv(c) && id in c.executions && c.executions[id].status == Queued
    ensures var (c', r) := RunPlan(c, id, outcome, began, ended);
            && id in c'.executions && id in c'.events
            && c'.executions[id].status == (if outcome == Ok(0) then Succeeded else Failed)
            && c'.executions[id].startedAt == Some(began) && c'.executions[id].finishedAt == Some(ended)
            && |c'.events[id]| == 3
            && r == (if outcome.Ok? then Ok(c'.executions[id]) else Err(outcome.error))
  {
    QueuedRecord(c, id);
    BegunIs(c, id, began);
    RunIs(c, id, outcome, began, ended);
    FinishedIs(Begin(c, id, began).0, id, if outcome.Ok? then outcome.value else 1, ended);
  }

  /** In any other state the executor is not called and nothing changes. */
  lemma RunRefused(c: State, id: ExecutionId, outcome: Outcome, began: Time, ended: Time)
    requires id !in c.executions || c.executions[id].status != Queued
    ensures RunPlan(c, id, outcome, began, ended).0 == c
    ensures RunPlan(c, id, outcome, began, ended).1 in {Err(UnknownExecution), Err(InvalidState)}
  {
  }
}

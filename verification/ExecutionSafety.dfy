/** What every run of the execution coordinator keeps: its index, its logs, at most one launch per key. */
module ExecutionSafety {
  import opened Wrappers
  import opened Clock
  import opened Text
  import opened Plans
  import opened Planner
  import opened Executions

  // ---- logs ----

  ghost predicate Numbered(log: seq<Event>) {
    forall i :: 0 <= i < |log| ==> log[i].sequence == i + 1
  }

  /** The log starts queued and follows legal edges. */
  ghost predicate LegalPath(log: seq<Event>) {
    && log != [] && log[0].kind == Queued
    && forall i :: 0 < i < |log| ==> CanMove(log[i - 1].kind, log[i].kind)
  }

  ghost predicate Replays(log: seq<Event>, status: Status) {
    Numbered(log) && LegalPath(log) && log[|log| - 1].kind == status
  }

  ghost predicate Mentions(log: seq<Event>, kind: Status) {
    exists i :: 0 <= i < |log| && log[i].kind == kind
  }

  /** How far along a status is; every legal edge goes further. */
  function Rank(status: Status): (rank: nat) {
    match status case Queued => 0 case Running => 1 case Unknown => 2 case _ => 3
  }

  lemma {:induction false} PathIsShort(log: seq<Event>)
    requires LegalPath(log)
    ensures |log| <= Rank(log[|log| - 1].kind) + 1
  {
    if |log| > 1 {
      PathIsShort(log[..|log| - 1]);
      assert CanMove(log[|log| - 1 - 1].kind, log[|log| - 1].kind);
    }
  }

  lemma {:induction false} QueuedPath(log: seq<Event>)
    requires LegalPath(log) && log[|log| - 1].kind == Queued
    ensures |log| == 1
  {
    PathIsShort(log);
  }

  lemma ExtendedReplays(log: seq<Event>, from: Status, to: Status)
    requires Replays(log, from) && CanMove(from, to)
    ensures Replays(log + [Event(|log| + 1, to)], to)
    ensures forall kind :: Mentions(log + [Event(|log| + 1, to)], kind) <==> Mentions(log, kind) || kind == to
  {
    var longer := log + [Event(|log| + 1, to)];
    forall i | 0 < i < |longer| ensures CanMove(longer[i - 1].kind, longer[i].kind) {
      if i < |log| { assert longer[i - 1] == log[i - 1] && longer[i] == log[i]; }
    }
    forall kind ensures Mentions(longer, kind) <==> Mentions(log, kind) || kind == to {
      if Mentions(log, kind) {
        var i :| 0 <= i < |log| && log[i].kind == kind;
        assert longer[i].kind == kind;
      }
      assert longer[|log|].kind == to;
    }
  }

  // ---- the invariant ----

  /** Times and status agree with the log. */
  ghost predicate Consistent(e: Execution, log: seq<Event>) {
    && Replays(log, e.status)
    && (e.startedAt.Some? <==> Mentions(log, Running))
    && (e.finishedAt.Some? <==> Terminal(e.status))
  }

  ghost predicate RecordOk(c: State, id: ExecutionId)
    requires id in c.executions
  {
    && c.executions[id].id == id
    && id in c.plans && c.plans[id].id == c.executions[id].planId && c.plans[id].status == Confirmed
    && id in c.events && Consistent(c.executions[id], c.events[id])
  }

  ghost predicate HasKey(idempotency: map<string, ExecutionId>, id: ExecutionId) {
    exists key :: key in idempotency && idempotency[key] == id
  }

  /** Keys and executions are in bijection. */
  ghost predicate KeysMatch(ids: set<ExecutionId>, idempotency: map<string, ExecutionId>) {
    && (forall key :: key in idempotency ==> idempotency[key] in ids)
    && (forall k1, k2 :: k1 in idempotency && k2 in idempotency && idempotency[k1] == idempotency[k2] ==> k1 == k2)
    && (forall id :: id in ids ==> HasKey(idempotency, id))
  }

  /** Every execution has exactly one audit record. */
  ghost predicate Audited(ids: set<ExecutionId>, audit: seq<AuditRecord>) {
    && (forall i :: 0 <= i < |audit| ==> audit[i].execution in ids)
    && (forall i, j :: 0 <= i < j < |audit| ==> audit[i].execution != audit[j].execution)
    && |audit| == |ids|
  }

  ghost predicate Records(c: State) {
    && c.executions.Keys == c.plans.Keys == c.events.Keys
    && forall id :: id in c.executions ==> RecordOk(c, id)
  }

  ghost predicate Inv(c: State) {
    && Records(c)
    && KeysMatch(c.executions.Keys, c.idempotency)
    && Audited(c.executions.Keys, c.audit)
  }

  lemma MoveKeepsRecord(e: Execution, log: seq<Event>, next: Status, at: Time)
    requires Consistent(e, log) && CanMove(e.status, next)
    ensures Consistent(MoveTo(e, next, at).value, log + [Event(|log| + 1, next)])
  {
    ExtendedReplays(log, e.status, next);
  }

  lemma ReplacedKeeps(c: State, id: ExecutionId, e: Execution, log: seq<Event>)
    requires Records(c) && id in c.executions
    requires e.id == id && e.planId == c.executions[id].planId && Consistent(e, log)
    ensures Records(c.(executions := c.executions[id := e], events := c.events[id := log]))
  {
    var c' := c.(executions := c.executions[id := e], events := c.events[id := log]);
    forall other | other in c'.executions ensures RecordOk(c', other) {
      assert RecordOk(c, other);
    }
  }

  lemma SameIndexKeeps(c: State, c': State)
    requires Inv(c) && Records(c')
    requires c'.executions.Keys == c.executions.Keys && c'.idempotency == c.idempotency && c'.audit == c.audit
    ensures Inv(c')
  {
  }

  lemma MovedKeepsRecords(c: State, id: ExecutionId, next: Status, at: Time)
    requires Records(c) && id in c.executions && CanMove(c.executions[id].status, next)
    ensures Records(Moved(c, id, next, at).0)
  {
    assert RecordOk(c, id);
    var log := c.events[id];
    MoveKeepsRecord(c.executions[id], log, next, at);
    ReplacedKeeps(c, id, MoveTo(c.executions[id], next, at).value, log + [Event(|log| + 1, next)]);
  }

  lemma MovedKeepsIndex(c: State, id: ExecutionId, next: Status, at: Time)
    ensures var c' := Moved(c, id, next, at).0;
            c'.executions.Keys == c.executions.Keys && c'.idempotency == c.idempotency && c'.audit == c.audit
  {
  }

  lemma MovedKeeps(c: State, id: ExecutionId, next: Status, at: Time)
    requires Inv(c)
    ensures Inv(Moved(c, id, next, at).0)
  {
    if id in c.executions && CanMove(c.executions[id].status, next) {
      MovedKeepsRecords(c, id, next, at);
      MovedKeepsIndex(c, id, next, at);
      SameIndexKeeps(c, Moved(c, id, next, at).0);
    }
  }

  lemma AddedKeepsRecords(c: State, c': State, id: ExecutionId, plan: UpdatePlan)
    requires Records(c) && id !in c.executions && plan.status == Confirmed
    requires c'.executions == c.executions[id := Execution(id, plan.id, Queued, None, None)]
    requires c'.plans == c.plans[id := plan] && c'.events == c.events[id := [Event(1, Queued)]]
    ensures Records(c')
  {
    assert RecordOk(c', id);
    forall other | other in c'.executions ensures RecordOk(c', other) {
      assert other != id ==> RecordOk(c, other);
    }
  }

  lemma AddedKeepsKeys(ids: set<ExecutionId>, idempotency: map<string, ExecutionId>, key: string, id: ExecutionId)
    requires KeysMatch(ids, idempotency) && id !in ids && key !in idempotency
    ensures KeysMatch(ids + {id}, idempotency[key := id])
  {
    var longer := idempotency[key := id];
    forall other | other in ids + {id} ensures HasKey(longer, other) {
      if other == id {
        assert longer[key] == id;
      } else {
        assert HasKey(idempotency, other);
        var k :| k in idempotency && idempotency[k] == other;
        assert longer[k] == other;
      }
    }
  }

  lemma AddedKeepsAudit(ids: set<ExecutionId>, audit: seq<AuditRecord>, record: AuditRecord)
    requires Audited(ids, audit) && record.execution !in ids
    ensures Audited(ids + {record.execution}, audit + [record])
  {
  }

  lemma EnqueuedKeepsRecords(c: State, request: Request, plan: UpdatePlan, id: ExecutionId)
    requires Records(c) && id !in c.executions && plan.status == Confirmed
    ensures Records(Enqueued(c, request, plan, id))
  {
    assert id !in c.events;
    assert [] + [Event(1, Queued)] == [Event(1, Queued)];
    AddedKeepsRecords(c, Enqueued(c, request, plan, id), id, plan);
  }

  lemma EnqueuedKeepsIndex(c: State, request: Request, plan: UpdatePlan, id: ExecutionId)
    requires KeysMatch(c.executions.Keys, c.idempotency) && Audited(c.executions.Keys, c.audit)
    requires id !in c.executions && request.key !in c.idempotency
    ensures var c' := Enqueued(c, request, plan, id);
            KeysMatch(c'.executions.Keys, c'.idempotency) && Audited(c'.executions.Keys, c'.audit)
  {
    AddedKeepsKeys(c.executions.Keys, c.idempotency, request.key, id);
    AddedKeepsAudit(c.executions.Keys, c.audit, AuditRecord(request.actor, id, plan.id, plan.hash));
    assert Enqueued(c, request, plan, id).executions.Keys == c.executions.Keys + {id};
  }

  lemma EnqueuedKeeps(c: State, request: Request, plan: UpdatePlan, id: ExecutionId)
    requires Inv(c) && id !in c.executions && request.key !in c.idempotency && plan.status == Confirmed
    ensures Inv(Enqueued(c, request, plan, id))
  {
    EnqueuedKeepsRecords(c, request, plan, id);
    EnqueuedKeepsIndex(c, request, plan, id);
  }

  lemma RevalidatedIsUnchanged(digest: Digest, plan: UpdatePlan, current: PlannerInput, id: string)
    requires Revalidate(digest, plan, current, id).1 == Ok(Unchanged)
    ensures Revalidate(digest, plan, current, id).0 == plan
  {
  }

  /** A start changes nothing or enqueues the confirmed plan it was given. */
  lemma StartShape(c: State, digest: Digest, request: Request, freshPlan: string, id: ExecutionId)
    ensures var (c', r) := StartExecution(c, digest, request, freshPlan, id);
            if r.Ok? && r.value.Created? then
              && request.key !in c.idempotency && request.plan.status == Confirmed
              && c' == Enqueued(c, request, request.plan, id)
            else c' == c
  {
    if Revalidate(digest, request.plan, request.current, freshPlan).1 == Ok(Unchanged) {
      RevalidatedIsUnchanged(digest, request.plan, request.current, freshPlan);
    }
  }

  // ---- every other call is a short series of status moves ----

  datatype Move = Move(next: Status, at: Time)

  function MovedAll(c: State, id: ExecutionId, moves: seq<Move>): (c': State)
    decreases |moves|
  {
    if moves == [] then c else MovedAll(Moved(c, id, moves[0].next, moves[0].at).0, id, moves[1..])
  }

  function MovesOf(c: State, call: Call): (moves: seq<Move>)
    requires !call.StartCall?
  {
    match call
    case BeginCall(id, at) => if id in c.plans then [Move(Running, at)] else []
    case RunCall(id, outcome, at, ended) =>
      if Begin(c, id, at).1.Ok? then
        [Move(Running, at), Move(if outcome == Ok(0) then Succeeded else Failed, ended)]
      else []
    case FinishCall(id, exitCode, at) => [Move(ExitStatus(exitCode), at)]
    case AbortCall(id, at) => [Move(Aborted, at)]
    case LostCall(id, at) =>
      if id in c.executions && c.executions[id].status == Running then [Move(Unknown, at)] else []
    case ReconcileCall(id, observed, at) =>
      if id !in c.executions || Terminal(c.executions[id].status) then []
      else if observed == SeenSucceeded then [Move(Succeeded, at)]
      else if observed == SeenFailed then [Move(Failed, at)]
      else []
  }

  lemma OneMove(c: State, id: ExecutionId, m: Move)
    ensures MovedAll(c, id, [m]) == Moved(c, id, m.next, m.at).0
  {
  }

  lemma TwoMoves(c: State, id: ExecutionId, m: Move, n: Move)
    ensures MovedAll(c, id, [m, n]) == Moved(Moved(c, id, m.next, m.at).0, id, n.next, n.at).0
  {
    assert [m, n][1..] == [n];
    OneMove(Moved(c, id, m.next, m.at).0, id, n);
  }

  lemma CallIsMoves(digest: Digest, c: State, call: Call)
    requires !call.StartCall?
    ensures After(digest, c, call) == MovedAll(c, call.id, MovesOf(c, call))
  {
    var moves := MovesOf(c, call);
    if |moves| == 1 {
      OneMove(c, call.id, moves[0]);
      assert moves == [moves[0]];
    } else if |moves| == 2 {
      TwoMoves(c, call.id, moves[0], moves[1]);
      assert moves == [moves[0], moves[1]];
    }
  }

  lemma {:induction false} MovedAllKeeps(c: State, id: ExecutionId, moves: seq<Move>)
    requires Inv(c)
    ensures Inv(MovedAll(c, id, moves))
    decreases |moves|
  {
    if moves != [] {
      MovedKeeps(c, id, moves[0].next, moves[0].at);
      MovedAllKeeps(Moved(c, id, moves[0].next, moves[0].at).0, id, moves[1..]);
    }
  }

  lemma StepKeeps(digest: Digest, c: State, call: Call)
    requires Inv(c) && Fresh(c, call)
    ensures Inv(After(digest, c, call))
  {
    if call.StartCall? {
      StartShape(c, digest, call.request, call.freshPlan, call.freshId);
      var r := StartExecution(c, digest, call.request, call.freshPlan, call.freshId).1;
      if r.Ok? && r.value.Created? {
        EnqueuedKeeps(c, call.request, call.request.plan, call.freshId);
      }
    } else {
      CallIsMoves(digest, c, call);
      MovedAllKeeps(c, call.id, MovesOf(c, call));
    }
  }

  /** Every run keeps keys and executions in bijection and every log a legal replay of its execution. */
  lemma {:induction false} RunsKeepInvariant(digest: Digest, c: State, calls: seq<Call>)
    requires Inv(c) && FreshRun(digest, c, calls)
    ensures Inv(AfterAll(digest, c, calls))
  {
    if calls != [] {
      FreshPrefix(digest, c, calls);
      RunsKeepInvariant(digest, c, calls[..|calls| - 1]);
      StepKeeps(digest, AfterAll(digest, c, calls[..|calls| - 1]), calls[|calls| - 1]);
    }
  }

  /** From the empty coordinator every log is numbered, has at most four events and replays to the status. */
  lemma LogsAreShortReplays(digest: Digest, calls: seq<Call>, id: ExecutionId)
    requires FreshRun(digest, EMPTY, calls)
    requires id in AfterAll(digest, EMPTY, calls).executions
    ensures var c := AfterAll(digest, EMPTY, calls);
            && id in c.events && Replays(c.events[id], c.executions[id].status) && 1 <= |c.events[id]| <= 4
            && (c.executions[id].finishedAt.Some? <==> Terminal(c.executions[id].status))
  {
    RunsKeepInvariant(digest, EMPTY, calls);
    ShortReplay(AfterAll(digest, EMPTY, calls), id);
  }

  lemma InvRecord(c: State, id: ExecutionId)
    requires Inv(c) && id in c.executions
    ensures RecordOk(c, id)
  {
  }

  lemma ShortReplay(c: State, id: ExecutionId)
    requires Inv(c) && id in c.executions
    ensures id in c.events && Replays(c.events[id], c.executions[id].status) && 1 <= |c.events[id]| <= 4
    ensures c.executions[id].finishedAt.Some? <==> Terminal(c.executions[id].status)
  {
    InvRecord(c, id);
    ShortLog(c.executions[id], c.events[id]);
  }

  lemma ShortLog(e: Execution, log: seq<Event>)
    requires Consistent(e, log)
    ensures 1 <= |log| <= 4
  {
    PathIsShort(log);
  }

  // ---- what a start accepts ----

  ghost predicate Identified(request: Request) {
    !Blank(request.actor) && !Blank(request.key)
  }

  /** The request passes every check before the plan is revalidated. */
  ghost predicate Admissible(c: State, request: Request) {
    Identified(request) && request.key !in c.idempotency && request.plan.status == Confirmed
  }

  lemma IdentifiedExactly(request: Request)
    ensures Identified(request) <==> Trim(request.actor) != [] && Trim(request.key) != []
  {
    TrimBlank(request.actor);
    TrimBlank(request.key);
  }

  /** The answer of a start before its plan is looked at again, if there is one. */
  ghost predicate AnswersFirst(c: State, request: Request, r: Result<Start, ExecutionError>) {
    && (r == Err(MissingRequestIdentity) <==> !Identified(request))
    && (forall i :: r == Ok(Duplicate(i)) <==>
          Identified(request) && request.key in c.idempotency && i == c.idempotency[request.key])
    && (r == Err(PlanNotConfirmed) <==>
          Identified(request) && request.key !in c.idempotency && request.plan.status != Confirmed)
  }

  lemma JudgedExactly(c: State, request: Request, plan: UpdatePlan, answer: Result<Revalidation, PlannerError>,
      id: ExecutionId)
    ensures var r := Judged(c, request, plan, answer, id).1;
            && AnswersFirst(c, request, r)
            && (r.Ok? && r.value.Created? <==> Admissible(c, request) && answer == Ok(Unchanged))
            && (r == Err(PlanChanged) <==> Admissible(c, request) && answer == Ok(Changed))
            && (forall e :: r == Err(PlannerFailed(e)) <==> Admissible(c, request) && answer == Err(e))
  {
    IdentifiedExactly(request);
  }

  /**
   An execution is created exactly for a new key and a confirmed plan that a fresh dry run reproduces; a known key is
   answered with its execution, and every error has its own cause.
   */
  lemma StartExactly(c: State, digest: Digest, request: Request, freshPlan: string, id: ExecutionId)
    requires Injective(digest)
    ensures var r := StartExecution(c, digest, request, freshPlan, id).1;
            && AnswersFirst(c, request, r)
            && (r.Ok? && r.value.Created? <==> Admissible(c, request) && Reproduces(request.plan, request.current))
            && (r == Err(PlanChanged) <==>
                Admissible(c, request) && Acceptable(request.current) && !Reproduces(request.plan, request.current))
            && (r.Err? && r.error.PlannerFailed? <==> Admissible(c, request) && !Acceptable(request.current))
  {
    var (plan, answer) := Revalidate(digest, request.plan, request.current, freshPlan);
    JudgedExactly(c, request, plan, answer, id);
    RevalidateExactly(digest, request.plan, request.current, freshPlan);
  }

  /** An error or a duplicate changes nothing; a new execution is queued with the plan of its request. */
  lemma StartChangesOnlyOnCreation(c: State, digest: Digest, request: Request, freshPlan: string, id: ExecutionId)
    ensures var (c', r) := StartExecution(c, digest, request, freshPlan, id);
            if r.Ok? && r.value.Created? then
              && id in c'.executions && c'.executions[id] == r.value.execution && r.value.execution.status == Queued
              && id in c'.plans && c'.plans[id] == request.plan
              && request.key in c'.idempotency && c'.idempotency[request.key] == id
              && c'.audit == c.audit + [AuditRecord(request.actor, id, request.plan.id, request.plan.hash)]
            else c' == c
  {
    StartShape(c, digest, request, freshPlan, id);
  }

  /** The start call that created an execution. */
  ghost predicate CreatedBy(call: Call, id: ExecutionId, plan: UpdatePlan) {
    && call.StartCall? && call.freshId == id
    && call.request.plan == plan && plan.status == Confirmed
    && Reproduces(plan, call.request.current)
  }

  ghost predicate Reviewed(calls: seq<Call>, id: ExecutionId, plan: UpdatePlan) {
    exists i :: 0 <= i < |calls| && CreatedBy(calls[i], id, plan)
  }

  lemma StepKeepsPlans(digest: Digest, c: State, call: Call, id: ExecutionId)
    requires id in After(digest, c, call).plans && Injective(digest)
    ensures CreatedBy(call, id, After(digest, c, call).plans[id]) ||
            (id in c.plans && After(digest, c, call).plans[id] == c.plans[id])
  {
    if call.StartCall? {
      StartShape(c, digest, call.request, call.freshPlan, call.freshId);
      StartExactly(c, digest, call.request, call.freshPlan, call.freshId);
    } else {
      CallIsMoves(digest, c, call);
      MovedAllKeepsPlans(c, call.id, MovesOf(c, call));
    }
  }

  lemma {:induction false} MovedAllKeepsPlans(c: State, id: ExecutionId, moves: seq<Move>)
    ensures MovedAll(c, id, moves).plans == c.plans
    decreases |moves|
  {
    if moves != [] {
      MovedAllKeepsPlans(Moved(c, id, moves[0].next, moves[0].at).0, id, moves[1..]);
    }
  }

  /** The stored plan of every execution was confirmed and reproduced by the dry run of its own start call. */
  lemma {:induction false} EveryPlanWasReviewed(digest: Digest, calls: seq<Call>, id: ExecutionId)
    requires Injective(digest) && id in AfterAll(digest, EMPTY, calls).plans
    ensures Reviewed(calls, id, AfterAll(digest, EMPTY, calls).plans[id])
  {
    var earlier, call := calls[..|calls| - 1], calls[|calls| - 1];
    var c := AfterAll(digest, EMPTY, earlier);
    StepKeepsPlans(digest, c, call, id);
    var plan := AfterAll(digest, EMPTY, calls).plans[id];
    if !CreatedBy(call, id, plan) {
      EveryPlanWasReviewed(digest, earlier, id);
      var i :| 0 <= i < |earlier| && CreatedBy(earlier[i], id, plan);
      assert calls[i] == earlier[i];
    }
  }

  // ---- at most one launch per key ----

  ghost predicate Started(c: State, key: string) {
    key in c.idempotency && c.idempotency[key] in c.executions && c.executions[c.idempotency[key]].startedAt.Some?
  }

  /** This call begins the execution of `key`; only then is the executor called. */
  predicate Launches(c: State, call: Call, key: string) {
    && (call.BeginCall? || call.RunCall?)
    && key in c.idempotency && c.idempotency[key] == call.id
    && Begin(c, call.id, call.at).1.Ok?
  }

  function LaunchCount(digest: Digest, c: State, calls: seq<Call>, key: string): (n: nat) {
    if calls == [] then 0
    else
      var earlier := calls[..|calls| - 1];
      LaunchCount(digest, c, earlier, key) +
      if Launches(AfterAll(digest, c, earlier), calls[|calls| - 1], key) then 1 else 0
  }

  lemma QueuedNotStarted(c: State, id: ExecutionId)
    requires Inv(c) && id in c.executions && c.executions[id].status == Queued
    ensures c.executions[id].startedAt.None?
  {
    InvRecord(c, id);
    QueuedUnstarted(c.executions[id], c.events[id]);
  }

  lemma QueuedUnstarted(e: Execution, log: seq<Event>)
    requires Consistent(e, log) && e.status == Queued
    ensures e.startedAt.None?
  {
    QueuedPath(log);
  }

  predicate StartedAt(c: State, id: ExecutionId) {
    id in c.executions && c.executions[id].startedAt.Some?
  }

  lemma MovedStarts(c: State, id: ExecutionId, next: Status, at: Time, other: ExecutionId)
    requires id in c.executions && c.executions[id].status == Queued ==> c.executions[id].startedAt.None?
    ensures var (c', r) := Moved(c, id, next, at);
            StartedAt(c', other) <==> StartedAt(c, other) || (other == id && next == Running && r.Ok?)
    ensures next == Running && Moved(c, id, next, at).1.Ok? ==> !StartedAt(c, id)
  {
  }

  /** Moves to anything but Running start nothing. */
  lemma {:induction false} MovedAllStarts(c: State, id: ExecutionId, moves: seq<Move>, other: ExecutionId)
    requires id in c.executions && c.executions[id].status == Queued ==> c.executions[id].startedAt.None?
    requires forall i :: 0 < i < |moves| ==> moves[i].next != Running
    ensures MovedAll(c, id, moves).idempotency == c.idempotency
    ensures var launched := && other == id && moves != [] && moves[0].next == Running
                            && Moved(c, id, Running, moves[0].at).1.Ok?;
            && (StartedAt(MovedAll(c, id, moves), other) <==> StartedAt(c, other) || launched)
            && (launched ==> !StartedAt(c, other))
    decreases |moves|
  {
    if moves != [] {
      var m, rest := moves[0], moves[1..];
      MovedStarts(c, id, m.next, m.at, other);
      MovedKeepsIndex(c, id, m.next, m.at);
      assert forall i :: 0 <= i < |rest| ==> rest[i] == moves[i + 1];
      MovedAllStarts(Moved(c, id, m.next, m.at).0, id, rest, other);
    }
  }

  lemma LaunchIsMove(c: State, call: Call)
    requires !call.StartCall?
    ensures forall i :: 0 < i < |MovesOf(c, call)| ==> MovesOf(c, call)[i].next != Running
    ensures var moves := MovesOf(c, call);
            (call.BeginCall? || call.RunCall?) && Begin(c, call.id, call.at).1.Ok? <==>
            moves != [] && moves[0].next == Running && Moved(c, call.id, Running, moves[0].at).1.Ok?
  {
  }

  /** A launch happens only before the execution has a start time, gives it one, and keys stay where they are. */
  ghost predicate Counted(c: State, call: Call, c': State, key: string) {
    && (Launches(c, call, key) ==> !Started(c, key))
    && (Started(c', key) <==> Started(c, key) || Launches(c, call, key))
    && (key in c.idempotency ==> key in c'.idempotency && c'.idempotency[key] == c.idempotency[key])
  }

  lemma MovesCount(c: State, call: Call, key: string)
    requires !call.StartCall?
    requires call.id in c.executions && c.executions[call.id].status == Queued ==> c.executions[call.id].startedAt.None?
    ensures Counted(c, call, MovedAll(c, call.id, MovesOf(c, call)), key)
  {
    LaunchIsMove(c, call);
    MovedAllStarts(c, call.id, MovesOf(c, call), if key in c.idempotency then c.idempotency[key] else call.id);
  }

  lemma CallCounts(digest: Digest, c: State, call: Call, key: string)
    requires Inv(c) && !call.StartCall?
    ensures Counted(c, call, After(digest, c, call), key)
  {
    CallIsMoves(digest, c, call);
    if call.id in c.executions && c.executions[call.id].status == Queued {
      QueuedNotStarted(c, call.id);
    }
    MovesCount(c, call, key);
  }

  lemma EnqueuedCounts(c: State, call: Call, plan: UpdatePlan, id: ExecutionId, key: string)
    requires forall k :: k in c.idempotency ==> c.idempotency[k] in c.executions
    requires call.StartCall? && id !in c.executions && call.request.key !in c.idempotency
    ensures Counted(c, call, Enqueued(c, call.request, plan, id), key)
  {
  }

  lemma NothingCounts(c: State, call: Call, key: string)
    requires call.StartCall?
    ensures Counted(c, call, c, key)
  {
  }

  lemma StepCounts(digest: Digest, c: State, call: Call, key: string)
    requires Inv(c) && Fresh(c, call)
    ensures Counted(c, call, After(digest, c, call), key)
  {
    if call.StartCall? {
      StartCounts(digest, c, call, key);
    } else {
      CallCounts(digest, c, call, key);
    }
  }

  lemma StartCounts(digest: Digest, c: State, call: Call, key: string)
    requires Inv(c) && Fresh(c, call) && call.StartCall?
    ensures Counted(c, call, After(digest, c, call), key)
  {
    StartShape(c, digest, call.request, call.freshPlan, call.freshId);
    if call.request.key !in c.idempotency {
      EnqueuedCounts(c, call, call.request.plan, call.freshId, key);
    }
    NothingCounts(c, call, key);
  }

  lemma {:induction false} LaunchesAreCounted(digest: Digest, c: State, calls: seq<Call>, key: string)
    requires Inv(c) && FreshRun(digest, c, calls) && !Started(c, key)
    ensures LaunchCount(digest, c, calls, key) == if Started(AfterAll(digest, c, calls), key) then 1 else 0
  {
    if calls != [] {
      var earlier := calls[..|calls| - 1];
      FreshPrefix(digest, c, calls);
      RunsKeepInvariant(digest, c, earlier);
      LaunchesAreCounted(digest, c, earlier, key);
      StepCounts(digest, AfterAll(digest, c, earlier), calls[|calls| - 1], key);
    }
  }

  /** Over every run a key launches the executor at most once: exactly when its execution has a start time. */
  lemma AtMostOneLaunch(digest: Digest, calls: seq<Call>, key: string)
    requires FreshRun(digest, EMPTY, calls)
    ensures LaunchCount(digest, EMPTY, calls, key) == if Started(AfterAll(digest, EMPTY, calls), key) then 1 else 0
  {
    LaunchesAreCounted(digest, EMPTY, calls, key);
  }

  /** A key stays with the execution it first created. */
  lemma {:induction false} KeyIsForever(digest: Digest, c: State, calls: seq<Call>, key: string)
    requires Inv(c) && FreshRun(digest, c, calls) && key in c.idempotency
    ensures var c' := AfterAll(digest, c, calls);
            key in c'.idempotency && c'.idempotency[key] == c.idempotency[key]
  {
    if calls != [] {
      var earlier := calls[..|calls| - 1];
      FreshPrefix(digest, c, calls);
      RunsKeepInvariant(digest, c, earlier);
      KeyIsForever(digest, c, earlier, key);
      StepCounts(digest, AfterAll(digest, c, earlier), calls[|calls| - 1], key);
    }
  }
}

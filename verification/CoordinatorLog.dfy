/** The event log of each job: numbering, replay, and the point from which nothing changes any more. */
module CoordinatorLog {
  import opened Wrappers
  import opened Jobs
  import opened Requests
  import opened Coordinator
  import opened CoordinatorIntegrity

  /** Entries are numbered from one without gaps, carry their job's id, and start with the queueing. */
  ghost predicate Numbered(log: seq<JobEvent>, id: JobId) {
    && log != [] && log[0].kind == QueuedEvent
    && forall i :: 0 <= i < |log| ==> log[i].sequence == i + 1 && log[i].jobId == id
  }

  /** The status that a log leads to from the queue, if each status change in it is a legal transition. */
  function Replay(log: seq<JobEvent>): (r: Option<Status>) {
    if log == [] then Some(Queued)
    else
      match Replay(log[..|log| - 1])
      case None => None
      case Some(status) =>
        match log[|log| - 1].kind
        case StatusChanged(next) => if CanTransition(status, next) then Some(next) else None
        case _ => Some(status)
  }

  ghost predicate LogsNumbered(c: State) {
    forall id :: id in c.jobs ==> Numbered(Log(c, id), id)
  }

  ghost predicate LogsReplay(c: State) {
    forall id :: id in c.jobs ==> Replay(Log(c, id)) == Some(c.jobs[id].status)
  }

  lemma ReplayExtends(log: seq<JobEvent>, e: JobEvent)
    ensures Replay(log + [e]) ==
              match Replay(log)
              case None => None
              case Some(status) =>
                match e.kind
                case StatusChanged(next) => if CanTransition(status, next) then Some(next) else None
                case _ => Some(status)
  {
    assert (log + [e])[..|log|] == log;
  }

  /** Recording into one log touches no other and keeps the numbering; a first entry must be the queueing. */
  lemma RecordedNumbered(events: map<JobId, seq<JobEvent>>, id: JobId, kind: EventKind)
    requires if id in events then Numbered(events[id], id) else kind == QueuedEvent
    ensures id in Recorded(events, id, kind) && Numbered(Recorded(events, id, kind)[id], id)
    ensures forall other :: other in events && other != id ==>
              other in Recorded(events, id, kind) && Recorded(events, id, kind)[other] == events[other]
  {
  }

  lemma QueueingNumbers(c: State, job: Job, locks: map<Target, JobId>)
    requires Integrity(c) && LogsNumbered(c) && job.id !in c.jobs
    ensures LogsNumbered(Registered(c.(locks := locks), job))
  {
    RecordedNumbered(c.events, job.id, QueuedEvent);
    var c' := Registered(c.(locks := locks), job);
    forall id | id in c'.jobs ensures Numbered(Log(c', id), id) {
      if id != job.id { assert Log(c', id) == Log(c, id); }
    }
  }

  /** The log of `id` grows by one entry; the jobs keep their ids. */
  lemma RecordingNumbers(c: State, c': State, id: JobId, kind: EventKind)
    requires Integrity(c) && LogsNumbered(c) && id in c.jobs
    requires c'.jobs.Keys == c.jobs.Keys && c'.events == Recorded(c.events, id, kind)
    ensures LogsNumbered(c') && c'.events.Keys == c.events.Keys
  {
    assert Numbered(Log(c, id), id);
    RecordedNumbered(c.events, id, kind);
    forall other | other in c'.jobs ensures Numbered(Log(c', other), other) {
      if other != id { assert Log(c', other) == Log(c, other); }
    }
  }

  lemma MovingNumbers(c: State, id: JobId, next: Status)
    requires Integrity(c) && LogsNumbered(c) && Transition(c, id, next).1.Ok?
    ensures LogsNumbered(Transition(c, id, next).0)
  {
    var c' := Transition(c, id, next).0;
    var once := c'.(events := Recorded(c.events, id, StatusChanged(next)));
    RecordingNumbers(c, once, id, StatusChanged(next));
    if next == ReconcileRequired {
      MovingKeepsIntegrity(c, id, next);
      RecordingNumbers(once, c', id, ReconcileRequiredEvent);
    }
  }

  lemma SubmittingNumbers(c: State, request: Request, id: JobId)
    requires Integrity(c) && LogsNumbered(c) && id !in c.jobs
    ensures LogsNumbered(Submit(c, request, id).0)
  {
    if FromRequest(request, id).Ok? {
      QueueingNumbers(c, FromRequest(request, id).value, c.locks);
    }
  }

  lemma ReconcilingNumbers(c: State, source: Job, enforceLock: bool, id: JobId)
    requires Integrity(c) && LogsNumbered(c) && id !in c.jobs
    ensures LogsNumbered(SubmitReconciliation(c, source, enforceLock, id).0)
  {
    var job := source.(id := id, mode := Reconcile, key := ReconcileKey(source.id), status := Queued);
    QueueingNumbers(c, job, c.locks[job.target := id]);
  }

  lemma RemovingNumbers(c: State, host: string)
    requires LogsNumbered(c)
    ensures LogsNumbered(RemoveTargetJobs(c, host).0)
  {
    var c' := RemoveTargetJobs(c, host).0;
    forall id | id in c'.jobs ensures Numbered(Log(c', id), id) {
      assert Log(c', id) == Log(c, id);
    }
  }

  lemma StepKeepsNumbering(c: State, call: Call)
    requires Integrity(c) && LogsNumbered(c) && Fresh(c, call)
    ensures LogsNumbered(After(c, call))
  {
    match call
    case SubmitCall(request, id) => SubmittingNumbers(c, request, id);
    case ReconcileCall(source, enforceLock, id) => ReconcilingNumbers(c, source, enforceLock, id);
    case TransitionCall(id, next) =>
      if Transition(c, id, next).1.Ok? {
        MovingNumbers(c, id, next);
      }
    case RecordCall(id, kind) =>
      if RecordEvent(c, id, kind).1.Ok? {
        RecordingNumbers(c, RecordEvent(c, id, kind).0, id, kind);
      }
    case RetryCall(id) =>
      if Retry(c, id).1.Ok? {
        RecordingNumbers(c, Retry(c, id).0, id, StatusChanged(Queued));
      }
    case RemoveCall(host) => RemovingNumbers(c, host);
  }

  /** A status change recorded by hand, for a job that still accepts events. */
  predicate ForgesStatus(c: State, call: Call) {
    call.RecordCall? && call.kind.StatusChanged? && call.id in c.jobs && !Terminal(c.jobs[call.id].status)
  }

  lemma RecordedReplay(events: map<JobId, seq<JobEvent>>, id: JobId, kind: EventKind)
    requires id in events
    ensures Recorded(events, id, kind).Keys == events.Keys
    ensures forall other :: other in events && other != id ==> Recorded(events, id, kind)[other] == events[other]
    ensures Replay(Recorded(events, id, kind)[id]) ==
              match Replay(events[id])
              case None => None
              case Some(status) =>
                match kind
                case StatusChanged(next) => if CanTransition(status, next) then Some(next) else None
                case _ => Some(status)
  {
    ReplayExtends(events[id], JobEvent(|events[id]| + 1, id, kind));
  }

  lemma MovedLog(c: State, id: JobId, next: Status)
    requires id in c.events && Transition(c, id, next).1.Ok? && Replay(c.events[id]) == Some(c.jobs[id].status)
    ensures var c' := Transition(c, id, next).0;
            id in c'.events && Replay(c'.events[id]) == Some(next)
    ensures forall other :: other != id ==> Log(Transition(c, id, next).0, other) == Log(c, other)
  {
    RecordedReplay(c.events, id, StatusChanged(next));
    RecordedReplay(Recorded(c.events, id, StatusChanged(next)), id, ReconcileRequiredEvent);
  }

  /** One job takes a new status, and its log says so. */
  lemma MovedReplays(c: State, c': State, id: JobId, next: Status)
    requires LogsReplay(c) && id in c.jobs
    requires c'.jobs.Keys == c.jobs.Keys && c'.jobs[id].status == next && Replay(Log(c', id)) == Some(next)
    requires forall other :: other in c.jobs && other != id ==>
        c'.jobs[other] == c.jobs[other] && Log(c', other) == Log(c, other)
    ensures LogsReplay(c')
  {
  }

  lemma MovingKeepsReplay(c: State, id: JobId, next: Status)
    requires Integrity(c) && LogsReplay(c)
    ensures LogsReplay(Transition(c, id, next).0)
  {
    if Transition(c, id, next).1.Ok? {
      assert id in c.events && Replay(Log(c, id)) == Some(c.jobs[id].status);
      MovedLog(c, id, next);
      MovedReplays(c, Transition(c, id, next).0, id, next);
    }
  }

  lemma QueueingKeepsReplay(c: State, job: Job, locks: map<Target, JobId>)
    requires Integrity(c) && LogsReplay(c) && job.id !in c.jobs && job.status == Queued
    ensures LogsReplay(Registered(c.(locks := locks), job))
  {
    var entry := [JobEvent(1, job.id, QueuedEvent)];
    assert entry[..0] == [];
    assert Replay(entry) == Some(Queued);
  }

  /** No status is its own successor, so a status recorded by hand never replays to the current one. */
  lemma ForgedLogDiffers(log: seq<JobEvent>, e: JobEvent, status: Status)
    requires Replay(log) == Some(status)
    ensures Replay(log + [e]) == Some(status) <==> !e.kind.StatusChanged?
  {
    ReplayExtends(log, e);
  }

  lemma OneLogGrows(c: State, c': State, id: JobId)
    requires LogsReplay(c) && id in c.jobs && c'.jobs == c.jobs
    requires forall other :: other in c.jobs && other != id ==> Log(c', other) == Log(c, other)
    ensures LogsReplay(c') <==> Replay(Log(c', id)) == Some(c.jobs[id].status)
  {
  }

  lemma RecordedLog(c: State, id: JobId, kind: EventKind)
    requires RecordEvent(c, id, kind).1.Ok?
    ensures var c' := RecordEvent(c, id, kind).0;
            && Log(c', id) == Log(c, id) + [JobEvent(|Log(c, id)| + 1, id, kind)]
            && c'.jobs == c.jobs && forall other :: other != id ==> Log(c', other) == Log(c, other)
  {
  }

  lemma RecordingReplay(c: State, id: JobId, kind: EventKind)
    requires LogsReplay(c)
    ensures LogsReplay(RecordEvent(c, id, kind).0) <==> !ForgesStatus(c, RecordCall(id, kind))
  {
    if RecordEvent(c, id, kind).1.Ok? {
      RecordedLog(c, id, kind);
      OneLogGrows(c, RecordEvent(c, id, kind).0, id);
      ForgedLogDiffers(Log(c, id), JobEvent(|Log(c, id)| + 1, id, kind), c.jobs[id].status);
    }
  }

  lemma SubmittingKeepsReplay(c: State, request: Request, id: JobId)
    requires Integrity(c) && LogsReplay(c) && id !in c.jobs
    ensures LogsReplay(Submit(c, request, id).0)
  {
    if FromRequest(request, id).Ok? {
      QueueingKeepsReplay(c, FromRequest(request, id).value, c.locks);
    }
  }

  lemma ReconcilingKeepsReplay(c: State, source: Job, enforceLock: bool, id: JobId)
    requires Integrity(c) && LogsReplay(c) && id !in c.jobs
    ensures LogsReplay(SubmitReconciliation(c, source, enforceLock, id).0)
  {
    var job := source.(id := id, mode := Reconcile, key := ReconcileKey(source.id), status := Queued);
    QueueingKeepsReplay(c, job, c.locks[job.target := id]);
  }

  lemma RetryingKeepsReplay(c: State, id: JobId)
    requires Integrity(c) && LogsReplay(c)
    ensures LogsReplay(Retry(c, id).0)
  {
    if Retry(c, id).1.Ok? {
      RecordedReplay(c.events, id, StatusChanged(Queued));
      MovedReplays(c, Retry(c, id).0, id, Queued);
    }
  }

  lemma RemovingKeepsReplay(c: State, host: string)
    requires Integrity(c) && LogsReplay(c)
    ensures LogsReplay(RemoveTargetJobs(c, host).0)
  {
  }

  /** From a state whose logs replay, a call keeps that exactly when it does not record a status change by hand. */
  lemma ReplayKeptExactly(c: State, call: Call)
    requires Integrity(c) && LogsReplay(c) && Fresh(c, call)
    ensures LogsReplay(After(c, call)) <==> !ForgesStatus(c, call)
  {
    match call
    case SubmitCall(request, id) => SubmittingKeepsReplay(c, request, id);
    case ReconcileCall(source, enforceLock, id) => ReconcilingKeepsReplay(c, source, enforceLock, id);
    case TransitionCall(id, next) => MovingKeepsReplay(c, id, next);
    case RecordCall(id, kind) => RecordingReplay(c, id, kind);
    case RetryCall(id) => RetryingKeepsReplay(c, id);
    case RemoveCall(host) => RemovingKeepsReplay(c, host);
  }

  /** In every run all logs are numbered; if no status change is recorded by hand they replay to the current status. */
  lemma {:induction false} RunsKeepLogs(calls: seq<Call>)
    requires FreshRun(EMPTY, calls)
    ensures LogsNumbered(AfterAll(EMPTY, calls))
    ensures (forall i :: 0 <= i < |calls| ==> !ForgesStatus(AfterAll(EMPTY, calls[..i]), calls[i])) ==>
              LogsReplay(AfterAll(EMPTY, calls))
  {
    if calls != [] {
      var shorter, last := calls[..|calls| - 1], calls[|calls| - 1];
      FreshPrefix(EMPTY, calls);
      assert forall i :: 0 <= i < |shorter| ==> shorter[..i] == calls[..i];
      RunsKeepLogs(shorter);
      RunsKeepIntegrity(EMPTY, shorter);
      StepKeepsNumbering(AfterAll(EMPTY, shorter), last);
      if forall i :: 0 <= i < |calls| ==> !ForgesStatus(AfterAll(EMPTY, calls[..i]), calls[i]) {
        assert forall i :: 0 <= i < |shorter| ==> !ForgesStatus(AfterAll(EMPTY, shorter[..i]), shorter[i]);
        ReplayKeptExactly(AfterAll(EMPTY, shorter), last);
      }
    }
  }

  // ---- final jobs ----

  /** The job and its log are as they were. */
  ghost predicate Untouched(c: State, c': State, id: JobId) {
    id in c.jobs && id in c'.jobs && c'.jobs[id] == c.jobs[id] && Log(c', id) == Log(c, id)
  }

  predicate Final(c: State, id: JobId) {
    id in c.jobs && (c.jobs[id].status == Succeeded || c.jobs[id].status == Aborted)
  }

  lemma QueueingIsElsewhere(c: State, job: Job, locks: map<Target, JobId>, id: JobId)
    requires id in c.jobs && job.id != id
    ensures Untouched(c, Registered(c.(locks := locks), job), id)
  {
  }

  lemma SubmissionIsElsewhere(c: State, call: Call, id: JobId)
    requires id in c.jobs && Fresh(c, call) && (call.SubmitCall? || call.ReconcileCall?)
    ensures Untouched(c, After(c, call), id)
  {
    match call
    case SubmitCall(request, newId) =>
      if FromRequest(request, newId).Ok? {
        QueueingIsElsewhere(c, FromRequest(request, newId).value, c.locks, id);
      }
    case ReconcileCall(source, enforceLock, newId) =>
      var job := source.(id := newId, mode := Reconcile, key := ReconcileKey(source.id), status := Queued);
      QueueingIsElsewhere(c, job, c.locks[job.target := newId], id);
  }

  lemma FinalIsLeftAlone(c: State, call: Call, id: JobId)
    requires Final(c, id) && (call.TransitionCall? || call.RecordCall? || call.RetryCall?)
    ensures Untouched(c, After(c, call), id)
  {
  }

  lemma RemovalIsElsewhere(c: State, host: string, id: JobId)
    requires id in c.jobs && c.jobs[id].target != Host(host)
    ensures Untouched(c, After(c, RemoveCall(host)), id)
  {
  }

  lemma FinalStep(c: State, call: Call, id: JobId)
    requires Fresh(c, call) && Final(c, id)
    ensures Untouched(c, After(c, call), id) || (c.jobs[id].target.Host? && call == RemoveCall(c.jobs[id].target.id))
  {
    match call
    case RemoveCall(host) =>
      if c.jobs[id].target != Host(host) {
        RemovalIsElsewhere(c, host, id);
      }
    case SubmitCall(_, _) => SubmissionIsElsewhere(c, call, id);
    case ReconcileCall(_, _, _) => SubmissionIsElsewhere(c, call, id);
    case _ => FinalIsLeftAlone(c, call, id);
  }

  /** Once Succeeded or Aborted, a job and its log never change until its target is removed. */
  lemma {:induction false} FinalForever(c: State, calls: seq<Call>, id: JobId)
    requires FreshRun(c, calls) && Final(c, id)
    requires c.jobs[id].target.Host? ==> RemoveCall(c.jobs[id].target.id) !in calls
    ensures Untouched(c, AfterAll(c, calls), id)
  {
    if calls != [] {
      var shorter, last := calls[..|calls| - 1], calls[|calls| - 1];
      FreshPrefix(c, calls);
      FinalForever(c, shorter, id);
      FinalStep(AfterAll(c, shorter), last, id);
    }
  }
}

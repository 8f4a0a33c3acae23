/** Which jobs can come to a good end, and how an undisturbed run of each of them goes. */
module WorkerProgress {
  import opened Wrappers
  import opened Jobs
  import opened WorkerProtocol
  import opened WorkerInvariants
  import opened WorkerLinks
  import opened WorkerTheorems
  import opened WorkerResolution
  import opened WorkerOutcome

  // ---- one undisturbed run ----

  function Moved(job: Job, status: Status): (row: Job) {
    job.(status := status)
  }

  /** From `s` on only the row of `job` has changed; the worker is with it at this phase. */
  ghost predicate Reached(s: State, now: State, job: Job, status: Status, phase: Phase, entries: seq<Event>) {
    && now.store == s.store[job.id := Moved(job, status)]
    && now.worker == Busy(Moved(job, status), phase)
    && now.trace == s.trace + entries
  }

  lemma Claims(s: State, job: Job)
    requires s.worker == Idle && Claimable(s.store, job.id) && s.store[job.id] == job
    ensures Next(s, Claim(job.id)).Some?
    ensures Reached(s, Next(s, Claim(job.id)).value, job, Checking, Claimed, [JobClaimed(job.id)])
  {
  }

  lemma Plans(s: State, now: State, job: Job, entries: seq<Event>)
    requires Reached(s, now, job, Checking, Claimed, entries) && job.target.Host?
    ensures var next := Next(now, StorePlanned(Acknowledged, true));
            next.Some? && Reached(s, next.value, job, Planned, PlanStored, entries)
  {
    var next := Next(now, StorePlanned(Acknowledged, true)).value;
    assert next.store == now.store[job.id := Moved(job, Planned)];
  }

  lemma Applies(s: State, now: State, job: Job, entries: seq<Event>)
    requires Reached(s, now, job, Planned, PlanStored, entries) && job.mode == Apply
    requires ModeArgs(job.operation, Apply).Some?
    ensures var next := Next(now, StoreApplying(Acknowledged, true));
            next.Some? && Reached(s, next.value, job, Applying, ApplyStored, entries)
  {
    var next := Next(now, StoreApplying(Acknowledged, true)).value;
    assert next.store == now.store[job.id := Moved(job, Applying)];
  }

  /** The status under which the playbook of a job runs. */
  function Underway(job: Job): (status: Status) {
    if job.mode == Apply then Applying else Planned
  }

  lemma Starts(s: State, now: State, job: Job, phase: Phase, entries: seq<Event>)
    requires Reached(s, now, job, Underway(job), phase, entries) && HasPlaybook(job.operation)
    requires if job.mode == Apply then phase == ApplyStored
             else phase == PlanStored && job.mode in {Check, Plan} && ModeArgs(job.operation, job.mode).Some?
    ensures var next := Next(now, StartPlaybook);
            && next.Some? && next.value.worker.Busy? && next.value.worker.phase == Running(None, |now.trace|)
            && Reached(s, next.value, job, Underway(job), Running(None, |now.trace|),
                       entries + [PlaybookStarted(job.id, job.mode, job.operation)])
  {
  }

  lemma Exits(s: State, now: State, job: Job, process: nat, entries: seq<Event>, success: bool, stdout: string)
    requires Reached(s, now, job, Underway(job), Running(None, process), entries)
    ensures var next := Next(now, PlaybookExit(success, stdout, true));
            && next.Some?
            && Reached(s, next.value, job, Underway(job), Finishing(success),
                       entries + [PlaybookExited(job.id, success, true)])
  {
  }

  /** What an undisturbed run stores in the end. */
  function EndOf(job: Job, success: bool): (status: Status) {
    if success then Succeeded else if job.mode == Apply then ReconcileRequired else Failed
  }

  lemma Ends(s: State, now: State, job: Job, entries: seq<Event>, success: bool)
    requires Reached(s, now, job, Underway(job), Finishing(success), entries)
    ensures var next := Next(now, Finish(Acknowledged));
            && next.Some? && next.value.worker == Idle && next.value.trace == s.trace + entries
            && next.value.store == s.store[job.id := Moved(job, EndOf(job, success))]
  {
    var next := Next(now, Finish(Acknowledged)).value;
    assert next.store == now.store[job.id := Moved(job, EndOf(job, success))];
  }

  /** What a playbook needs: a host, a playbook for the operation, and arguments for the mode. */
  predicate Ready(job: Job) {
    job.target.Host? && HasPlaybook(job.operation) && ModeArgs(job.operation, job.mode).Some?
  }

  /** Claim, plan and, for an Apply, the write-ahead of Applying. */
  lemma Prepares(s: State, job: Job) returns (labels: seq<Label>)
    requires s.worker == Idle && Claimable(s.store, job.id) && s.store[job.id] == job
    requires Ready(job) && job.mode != Reconcile
    ensures Calm(labels) && RunFrom(s, labels).Some?
    ensures Reached(s, RunFrom(s, labels).value, job, Underway(job),
                    if job.mode == Apply then ApplyStored else PlanStored, [JobClaimed(job.id)])
  {
    Claims(s, job);
    var claimed := Next(s, Claim(job.id)).value;
    Plans(s, claimed, job, [JobClaimed(job.id)]);
    RunTwo(s, Claim(job.id), StorePlanned(Acknowledged, true));
    labels := [Claim(job.id), StorePlanned(Acknowledged, true)];
    if job.mode == Apply {
      Applies(s, RunFrom(s, labels).value, job, [JobClaimed(job.id)]);
      RunLonger(s, labels, StoreApplying(Acknowledged, true));
      labels := labels + [StoreApplying(Acknowledged, true)];
    }
  }

  /** The entries of an undisturbed run. */
  function History(job: Job, success: bool): (entries: seq<Event>) {
    [JobClaimed(job.id)] + [PlaybookStarted(job.id, job.mode, job.operation)] + [PlaybookExited(job.id, success, true)]
  }

  lemma RunsOut(s: State, now: State, job: Job, success: bool, stdout: string)
    requires Ready(job) && job.mode != Reconcile
    requires Reached(s, now, job, Underway(job), if job.mode == Apply then ApplyStored else PlanStored,
                     [JobClaimed(job.id)])
    ensures var s' := RunFrom(now, [StartPlaybook, PlaybookExit(success, stdout, true)] + [Finish(Acknowledged)]);
            && s'.Some? && s'.value.worker == Idle && s'.value.trace == s.trace + History(job, success)
            && s'.value.store == s.store[job.id := Moved(job, EndOf(job, success))]
  {
    var claimed := [JobClaimed(job.id)];
    var begun := claimed + [PlaybookStarted(job.id, job.mode, job.operation)];
    Starts(s, now, job, if job.mode == Apply then ApplyStored else PlanStored, claimed);
    var running := Next(now, StartPlaybook).value;
    Exits(s, running, job, |now.trace|, begun, success, stdout);
    var exited := Next(running, PlaybookExit(success, stdout, true)).value;
    RunTwo(now, StartPlaybook, PlaybookExit(success, stdout, true));
    Ends(s, exited, job, begun + [PlaybookExited(job.id, success, true)], success);
    RunLonger(now, [StartPlaybook, PlaybookExit(success, stdout, true)], Finish(Acknowledged));
  }

  /**
   Whenever the worker is idle, a claimable ordinary job that is ready can be run undisturbed: it is claimed, its
   playbook runs once, and its end is stored by how the playbook exits.
   */
  lemma ReadyRuns(s: State, id: JobId, success: bool, stdout: string) returns (labels: seq<Label>)
    requires Base(s) && s.worker == Idle && Claimable(s.store, id)
    requires Ready(s.store[id]) && s.store[id].mode != Reconcile
    ensures Calm(labels) && RunFrom(s, labels).Some?
    ensures var job, s' := s.store[id], RunFrom(s, labels).value;
            && s'.worker == Idle && s'.trace == s.trace + History(job, success)
            && s'.store == s.store[id := Moved(job, EndOf(job, success))]
  {
    var job := s.store[id];
    assert job.id == id;
    var prepare := Prepares(s, job);
    var finish := [StartPlaybook, PlaybookExit(success, stdout, true)] + [Finish(Acknowledged)];
    RunsOut(s, RunFrom(s, prepare).value, job, success, stdout);
    RunOn(s, prepare, finish);
    labels := prepare + finish;
    CalmJoin(prepare, finish);
  }

  // ---- what no run can do ----

  /** The contract accepts this operation in this mode, or it is the reconciliation of an Apply. */
  ghost predicate Supported(job: Job) {
    SupportsMode(job.operation, job.mode) || (job.mode == Reconcile && CanReconcileApply(job.operation))
  }

  ghost predicate RowOk(row: Job) {
    Supported(row) && (row.status == Succeeded ==> row.target.Host? && HasPlaybook(row.operation))
  }

  /** Every row is of a supported kind, and only rows of hosts with a playbook have succeeded. */
  ghost predicate RowsKnown(store: Store) {
    forall id :: id in store ==> RowOk(store[id])
  }

  lemma FinishedRowOk(s: State, write: Write)
    requires Base(s) && RowsKnown(s.store) && Next(s, Finish(write)).Some?
    ensures WrittenRow(s, Finish(write)).Some? ==> RowOk(WrittenRow(s, Finish(write)).value)
  {
    assert RowOk(s.store[s.worker.job.id]);
  }

  lemma SettledRowOk(s: State, write: Write, logged: bool)
    requires Base(s) && RowsKnown(s.store) && Next(s, SettleSource(write, logged)).Some?
    ensures var row := WrittenRow(s, SettleSource(write, logged)); row.Some? ==> RowOk(row.value)
  {
    SourceFacts(s.store, s.worker.job, s.worker.phase.source);
    assert RowOk(s.store[s.worker.phase.source.id]);
  }

  lemma MovedRowOk(s: State, l: Label)
    requires Base(s) && RowsKnown(s.store) && Next(s, l).Some? && WrittenRow(s, l).Some?
    requires !l.Finish? && !l.SettleSource? && !l.Enqueue? && !l.EnqueueReconcile?
    ensures RowOk(WrittenRow(s, l).value)
  {
    RowMoves(s, l);
  }

  lemma NewRowOk(s: State, l: Label)
    requires Next(s, l).Some? && (l.Enqueue? || l.EnqueueReconcile?)
    ensures WrittenRow(s, l).Some? && RowOk(WrittenRow(s, l).value)
  {
  }

  lemma StepKeepsKnown(s: State, l: Label)
    requires Base(s) && RowsKnown(s.store) && Next(s, l).Some?
    ensures RowsKnown(Next(s, l).value.store)
  {
    StepWrites(s, l);
    if WrittenRow(s, l).Some? {
      match l
      case Enqueue(_) => NewRowOk(s, l);
      case EnqueueReconcile(_, _) => NewRowOk(s, l);
      case Finish(write) => FinishedRowOk(s, write);
      case SettleSource(write, logged) => SettledRowOk(s, write, logged);
      case _ => MovedRowOk(s, l);
    }
  }

  lemma {:induction false} StepsKeepKnown(s: State, labels: seq<Label>)
    requires Invariant(s) && RowsKnown(s.store) && RunFrom(s, labels).Some?
    ensures Invariant(RunFrom(s, labels).value) && RowsKnown(RunFrom(s, labels).value.store)
  {
    if labels != [] {
      var before := RunFrom(s, labels[..|labels| - 1]).value;
      StepsKeepKnown(s, labels[..|labels| - 1]);
      StepKeepsInvariant(before, labels[|labels| - 1]);
      StepKeepsKnown(before, labels[|labels| - 1]);
    }
  }

  /** A package update that was to change its machine and failed. */
  ghost predicate GaveUp(store: Store, id: JobId) {
    id in store && store[id].status == Failed && store[id].operation == UpdatePackages && store[id].mode == Apply
  }

  lemma StepLeavesGivenUp(s: State, l: Label, id: JobId)
    requires Base(s) && Next(s, l).Some? && GaveUp(s.store, id)
    ensures GaveUp(Next(s, l).value.store, id)
  {
    StepKeepsRows(s, l);
    if Next(s, l).value.store[id] != s.store[id] {
      ChangedRowIsWritten(s, l, id);
    }
  }

  lemma {:induction false} GivenUpForever(s: State, labels: seq<Label>, id: JobId)
    requires Invariant(s) && GaveUp(s.store, id) && RunFrom(s, labels).Some?
    ensures Invariant(RunFrom(s, labels).value) && GaveUp(RunFrom(s, labels).value.store, id)
  {
    if labels != [] {
      var before := RunFrom(s, labels[..|labels| - 1]).value;
      GivenUpForever(s, labels[..|labels| - 1], id);
      StepKeepsInvariant(before, labels[|labels| - 1]);
      StepLeavesGivenUp(before, labels[|labels| - 1], id);
    }
  }

  lemma {:induction false} StepsKeepRow(s: State, labels: seq<Label>, id: JobId)
    requires Invariant(s) && id in s.store && RunFrom(s, labels).Some?
    ensures Invariant(RunFrom(s, labels).value)
    ensures id in RunFrom(s, labels).value.store && SameJob(s.store[id], RunFrom(s, labels).value.store[id])
  {
    if labels != [] {
      var before := RunFrom(s, labels[..|labels| - 1]).value;
      StepsKeepRow(s, labels[..|labels| - 1], id);
      StepKeepsInvariant(before, labels[|labels| - 1]);
      StepKeepsRows(before, labels[|labels| - 1]);
    }
  }

  // ---- exactly which jobs can succeed ----

  /** Nothing on the target executes or is unresolved. */
  ghost predicate TargetFree(store: Store, target: Target) {
    forall id :: id in store && store[id].target == target ==>
      !Executing(store[id].status) && store[id].status != ReconcileRequired
  }

  ghost predicate CanSucceed(s: State, id: JobId) {
    exists labels :: Succeeds(s, labels, id)
  }

  ghost predicate Succeeds(s: State, labels: seq<Label>, id: JobId) {
    && RunFrom(s, labels).Some?
    && id in RunFrom(s, labels).value.store && RunFrom(s, labels).value.store[id].status == Succeeded
  }

  lemma FreeIsClaimable(store: Store, id: JobId)
    requires id in store && store[id].status == Queued && TargetFree(store, store[id].target)
    ensures Claimable(store, id)
  {
  }

  lemma RetriedIsClaimable(s: State, id: JobId)
    requires Base(s) && id in s.store && s.store[id].status == Failed && !GaveUp(s.store, id)
    requires TargetFree(s.store, s.store[id].target)
    ensures var s' := Next(s, Retry(id));
            && s'.Some? && s'.value == s.(store := s.store[id := Moved(s.store[id], Queued)])
            && Claimable(s'.value.store, id)
  {
    FreeIsClaimable(s.store[id := Moved(s.store[id], Queued)], id);
  }

  lemma QueuedSucceeds(s: State, id: JobId) returns (labels: seq<Label>)
    requires Base(s) && s.worker == Idle && Claimable(s.store, id)
    requires Ready(s.store[id]) && s.store[id].mode != Reconcile
    ensures Succeeds(s, labels, id)
  {
    labels := ReadyRuns(s, id, true, "");
  }

  lemma FailedSucceeds(s: State, id: JobId) returns (labels: seq<Label>)
    requires Invariant(s) && s.worker == Idle && id in s.store && s.store[id].status == Failed
    requires !GaveUp(s.store, id) && TargetFree(s.store, s.store[id].target)
    requires Ready(s.store[id]) && s.store[id].mode != Reconcile
    ensures Succeeds(s, labels, id)
  {
    RetriedIsClaimable(s, id);
    StepKeepsInvariant(s, Retry(id));
    var queued := Next(s, Retry(id)).value;
    var later := QueuedSucceeds(queued, id);
    RunOne(s, Retry(id));
    RunOn(s, [Retry(id)], later);
    labels := [Retry(id)] + later;
  }

  lemma SucceedingNeeds(s: State, labels: seq<Label>, id: JobId)
    requires Invariant(s) && RowsKnown(s.store) && id in s.store && Succeeds(s, labels, id)
    ensures s.store[id].target.Host? && HasPlaybook(s.store[id].operation) && !GaveUp(s.store, id)
  {
    StepsKeepKnown(s, labels);
    StepsKeepRow(s, labels, id);
    if GaveUp(s.store, id) {
      GivenUpForever(s, labels, id);
    }
  }

  lemma SupportedIsReady(job: Job)
    requires Supported(job) && job.target.Host? && HasPlaybook(job.operation)
    ensures Ready(job)
  {
    ModeArgsExactly(job.operation, job.mode);
  }

  /**
   In every reachable state with an idle worker and a free target, a queued or failed ordinary job can still succeed
   exactly if its target is a host, its operation has a playbook, and it is not a package update that failed.
   */
  lemma CanSucceedExactly(labels: seq<Label>, s: State, id: JobId)
    requires Run(labels) == Some(s) && s.worker == Idle && id in s.store && s.store[id].mode != Reconcile
    requires s.store[id].status in {Queued, Failed} && TargetFree(s.store, s.store[id].target)
    ensures CanSucceed(s, id) <==>
              s.store[id].target.Host? && HasPlaybook(s.store[id].operation) && !GaveUp(s.store, id)
  {
    StepsKeepKnown(INIT, labels);
    var job := s.store[id];
    if CanSucceed(s, id) {
      var later :| Succeeds(s, later, id);
      SucceedingNeeds(s, later, id);
    } else if job.target.Host? && HasPlaybook(job.operation) && !GaveUp(s.store, id) {
      assert RowOk(job);
      SupportedIsReady(job);
      if job.status == Queued {
        FreeIsClaimable(s.store, id);
        var later := QueuedSucceeds(s, id);
      } else {
        var later := FailedSucceeds(s, id);
      }
    }
  }

  /** A request for work that a host has a playbook for, under a key that its target has not seen. */
  ghost predicate Requested(store: Store, job: Job) {
    && job.id !in store && job.status == Queued && SupportsMode(job.operation, job.mode)
    && job.target.Host? && HasPlaybook(job.operation)
    && forall other :: other in store && store[other].target == job.target ==> store[other].key != job.key
  }

  lemma SupportedModes(job: Job)
    requires SupportsMode(job.operation, job.mode)
    ensures job.mode != Reconcile
  {
  }

  lemma RequestIsClaimable(s: State, job: Job)
    requires Invariant(s) && Requested(s.store, job) && TargetFree(s.store, job.target)
    ensures var s' := Next(s, Enqueue(job));
            && s' == Some(s.(store := s.store[job.id := job])) && Base(s'.value) && Claimable(s'.value.store, job.id)
  {
    var queued := s.(store := s.store[job.id := job]);
    assert Next(s, Enqueue(job)) == Some(queued);
    StepKeepsBase(s, Enqueue(job));
    FreeIsClaimable(queued.store, job.id);
  }

  /** Such a request is accepted and can succeed whenever the worker is idle and the target free. */
  lemma RequestSucceeds(labels: seq<Label>, s: State, job: Job) returns (later: seq<Label>)
    requires Run(labels) == Some(s) && s.worker == Idle && Requested(s.store, job) && TargetFree(s.store, job.target)
    ensures Succeeds(s, [Enqueue(job)] + later, job.id)
  {
    RunKeepsInvariant(labels, s);
    RequestIsClaimable(s, job);
    SupportedModes(job);
    SupportedIsReady(job);
    later := QueuedSucceeds(Next(s, Enqueue(job)).value, job.id);
    RunOne(s, Enqueue(job));
    RunOn(s, [Enqueue(job)], later);
  }

  // ---- a playbook starts only behind confirmed writes ----

  /** The write or its log entry failed, as far as the worker knows. */
  predicate Unconfirmed(l: Label) {
    (l.StorePlanned? || l.StoreApplying?) && !(l.write == Acknowledged && l.logged)
  }

  /** Since the last claim every write was confirmed. */
  predicate AttemptConfirmed(labels: seq<Label>) {
    if labels == [] then true
    else
      var last := labels[|labels| - 1];
      last.Claim? || (!Unconfirmed(last) && AttemptConfirmed(labels[..|labels| - 1]))
  }

  ghost predicate Attempting(worker: Worker) {
    worker.Busy? && !worker.phase.Finishing?
  }

  lemma StepConfirms(s: State, l: Label)
    requires Next(s, l).Some? && Attempting(Next(s, l).value.worker)
    ensures l.Claim? || (!Unconfirmed(l) && Attempting(s.worker))
  {
  }

  lemma {:induction false} AttemptsAreConfirmed(s: State, labels: seq<Label>)
    requires !Attempting(s.worker) && RunFrom(s, labels).Some?
    ensures Attempting(RunFrom(s, labels).value.worker) ==> AttemptConfirmed(labels)
  {
    if labels != [] {
      var before := RunFrom(s, labels[..|labels| - 1]).value;
      AttemptsAreConfirmed(s, labels[..|labels| - 1]);
      if Attempting(Next(before, labels[|labels| - 1]).value.worker) {
        StepConfirms(before, labels[|labels| - 1]);
      }
    }
  }

  /** In every run a playbook starts only after each write of its attempt was acknowledged and logged. */
  lemma StartsAreConfirmed(labels: seq<Label>, s: State)
    requires Run(labels) == Some(s) && Next(s, StartPlaybook).Some?
    ensures AttemptConfirmed(labels)
  {
    AttemptsAreConfirmed(INIT, labels);
  }

  /** In every run recovery goes on to the next row exactly if it had nothing to store or knows that it was stored. */
  lemma RecoveryStopsExactly(labels: seq<Label>, s: State, write: Write, logged: bool)
    requires Run(labels) == Some(s) && s.worker.Recovering? && s.worker.todo != []
    ensures var s', row := Next(s, RecoverNext(write, logged)), s.worker.todo[0];
            && s'.Some?
            && s'.value.worker == if Executing(row.status) && !(write == Acknowledged && logged) then Down
                                  else Recovering(s.worker.todo[1..])
  {
    RunKeepsInvariant(labels, s);
  }

  // ---- the source of a reconciliation ----

  /** The source is found exactly if it is stored, unresolved, and what the reconciliation was made for. */
  lemma FindExactly(store: Store, job: Job, source: Job)
    requires RowsOk(store)
    ensures FindSource(store, job) == Some(source) <==>
              source.id in store && store[source.id] == source && source.status == ReconcileRequired
              && MadeFor(job, source)
  {
    KeyNamesItsSource(source.id, job.key);
  }

  /**
   In every run the reconciliation of a job finds its source exactly while that is unresolved: what else the worker
   compares always agrees.
   */
  lemma SourceFoundExactly(labels: seq<Label>, s: State, id: JobId, source: JobId)
    requires Run(labels) == Some(s) && id in s.store && s.store[id].mode == Reconcile
    requires source in s.store && s.store[id].key == ReconcileKey(source)
    ensures FindSource(s.store, s.store[id]) ==
              if s.store[source].status == ReconcileRequired then Some(s.store[source]) else None
  {
    StepsKeepKnown(INIT, labels);
    LinkedSource(s.store, id, source);
    FindExactly(s.store, s.store[id], s.store[source]);
    KeyNamesItsSource(source, s.store[id].key);
  }

  lemma LinkedSource(store: Store, id: JobId, source: JobId)
    requires RowsOk(store) && Linked(store) && id in store && store[id].mode == Reconcile
    requires source in store && store[id].key == ReconcileKey(source)
    ensures MadeFor(store[id], store[source])
  {
    assert HasSource(store, store[id]);
    var made :| made in store && MadeFor(store[id], store[made]);
    KeyNamesItsSource(source, store[id].key);
    KeyNamesItsSource(store[made].id, store[id].key);
  }
}

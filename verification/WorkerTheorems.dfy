/** What holds of every run of the worker protocol, crashes and lost writes included. */
module WorkerTheorems {
  import opened Wrappers
  import opened Jobs
  import opened WorkerProtocol
  import opened WorkerInvariants
  import opened WorkerSafety
  import opened WorkerLinks
  import opened WorkerPlaybooks
  import Numbers
  import Recap
  import Text

  // ---- two more invariants ----

  /** Per target: one executing job, one unresolved job, and beside an unresolved job only its own reconciliation. */
  ghost predicate TargetsLocked(store: Store) {
    forall a, b :: a in store && b in store && store[a].target == store[b].target ==>
      && (Executing(store[a].status) && Executing(store[b].status) ==> a == b)
      && (store[a].status == ReconcileRequired && store[b].status == ReconcileRequired ==> a == b)
      && (Executing(store[a].status) && store[b].status == ReconcileRequired ==>
            store[a].mode == Reconcile && store[a].key == ReconcileKey(b))
  }

  /** A start names a stored job by its own mode and operation. */
  ghost predicate StartsNamed(s: State) {
    forall i :: 0 <= i < |s.trace| && s.trace[i].PlaybookStarted? ==>
      var e := s.trace[i];
      && e.id in s.store && s.store[e.id].target.Host?
      && s.store[e.id].mode == e.mode && s.store[e.id].operation == e.operation
  }

  lemma StepKeepsHistory(s: State, l: Label)
    requires Next(s, l).Some?
    ensures s.trace <= Next(s, l).value.trace
  {
  }

  /** No step drops a row, changes anything of a job but its status, or rewrites the trace. */
  lemma StepKeepsRows(s: State, l: Label)
    requires Base(s) && Next(s, l).Some?
    ensures s.trace <= Next(s, l).value.trace
    ensures var store' := Next(s, l).value.store;
            forall id :: id in s.store ==> id in store' && SameJob(s.store[id], store'[id])
  {
    StepKeepsHistory(s, l);
    StepWrites(s, l);
    if WrittenRow(s, l).Some? {
      RowMoves(s, l);
    }
  }

  lemma StepKeepsNames(s: State, l: Label)
    requires Base(s) && StartsNamed(s) && Next(s, l).Some?
    ensures StartsNamed(Next(s, l).value)
  {
    StepKeepsRows(s, l);
    var s' := Next(s, l).value;
    forall i | 0 <= i < |s'.trace| && s'.trace[i].PlaybookStarted?
      ensures var e := s'.trace[i];
              && e.id in s'.store && s'.store[e.id].target.Host?
              && s'.store[e.id].mode == e.mode && s'.store[e.id].operation == e.operation
    {
      if i < |s.trace| {
        assert s'.trace[i] == s.trace[i];
      } else {
        assert l == StartPlaybook;
      }
    }
  }

  /** Moving a row that executes to another status keeps the locks, if it does not leave unresolved work twice. */
  lemma RowKeepsLocks(store: Store, row: Job)
    requires RowsOk(store) && TargetsLocked(store)
    requires row.id in store && SameJob(store[row.id], row)
    requires Executing(row.status) ==> Executing(store[row.id].status)
    requires row.status == ReconcileRequired ==> Executing(store[row.id].status) && row.mode == Apply
    ensures TargetsLocked(store[row.id := row])
  {
  }

  /** A claim enters only where nothing executes and nothing unresolved stands in its way. */
  lemma ClaimKeepsLocks(store: Store, id: JobId)
    requires RowsOk(store) && TargetsLocked(store) && Claimable(store, id)
    ensures TargetsLocked(store[id := store[id].(status := Checking)])
  {
  }

  lemma QueueKeepsLocks(store: Store, job: Job)
    requires TargetsLocked(store) && job.id !in store && job.status == Queued
    ensures TargetsLocked(store[job.id := job])
  {
  }

  lemma MovedRowKeepsLocks(store: Store, l: Label, row: Job)
    requires RowsOk(store) && TargetsLocked(store) && !l.Claim?
    requires row.id in store && SameJob(store[row.id], row) && MayMove(l, store[row.id].status, row.status)
    requires row.status == ReconcileRequired ==> row.mode == Apply
    ensures TargetsLocked(store[row.id := row])
  {
    RowKeepsLocks(store, row);
  }

  lemma StepKeepsLocks(s: State, l: Label)
    requires Base(s) && TargetsLocked(s.store) && Next(s, l).Some? && Base(Next(s, l).value)
    ensures TargetsLocked(Next(s, l).value.store)
  {
    StepWrites(s, l);
    var row := WrittenRow(s, l);
    if row.Some? && Next(s, l).value.store == s.store[row.value.id := row.value] {
      RowMoves(s, l);
      if l.Claim? {
        ClaimKeepsLocks(s.store, l.id);
      } else if l.Enqueue? || l.EnqueueReconcile? {
        QueueKeepsLocks(s.store, row.value);
      } else {
        StoredRowIsOk(Next(s, l).value.store, row.value);
        MovedRowKeepsLocks(s.store, l, row.value);
      }
    }
  }

  lemma StoredRowIsOk(store: Store, row: Job)
    requires RowsOk(store) && row.id in store && store[row.id] == row
    ensures row.status == ReconcileRequired ==> row.mode == Apply
  {
  }

  ghost predicate Invariant(s: State) {
    Base(s) && TraceOk(s) && StartsNamed(s) && TargetsLocked(s.store) && Linked(s.store) && PlaybooksOk(s)
  }

  lemma StepKeepsInvariant(s: State, l: Label)
    requires Invariant(s) && Next(s, l).Some?
    ensures Invariant(Next(s, l).value)
  {
    StepKeepsBase(s, l);
    StepKeepsTrace(s, l);
    StepKeepsNames(s, l);
    StepKeepsLocks(s, l);
    StepKeepsLinks(s, l);
    StepKeepsPlaybooks(s, l);
  }

  lemma {:induction false} StepsKeepInvariant(s: State, labels: seq<Label>)
    requires Invariant(s) && RunFrom(s, labels).Some?
    ensures Invariant(RunFrom(s, labels).value)
  {
    if labels != [] {
      StepsKeepInvariant(s, labels[..|labels| - 1]);
      StepKeepsInvariant(RunFrom(s, labels[..|labels| - 1]).value, labels[|labels| - 1]);
    }
  }

  lemma RunKeepsInvariant(labels: seq<Label>, s: State)
    requires Run(labels) == Some(s)
    ensures Invariant(s)
  {
    StepsKeepInvariant(INIT, labels);
  }

  // ---- no blind re-apply ----

  lemma {:induction false} SettledBetween(trace: seq<Event>, i: nat, id: JobId) returns (k: nat)
    requires i < |trace| && IsApplyStart(trace[i], id) && !Unsettled(trace, id)
    ensures i < k < |trace| && trace[k].SourceSettled? && trace[k].id == id
  {
    var last := trace[|trace| - 1];
    if last.SourceSettled? && last.id == id {
      k := |trace| - 1;
    } else {
      k := SettledBetween(trace[..|trace| - 1], i, id);
    }
  }

  /** Between two Apply starts of a job lies a finished reconciliation of that job. */
  lemma NoBlindReapply(labels: seq<Label>, s: State, id: JobId, i: nat, j: nat)
    requires Run(labels) == Some(s)
    requires i < j < |s.trace| && IsApplyStart(s.trace[i], id) && IsApplyStart(s.trace[j], id)
    ensures exists k :: i < k < j && s.trace[k].SourceSettled? && s.trace[k].id == id
  {
    RunKeepsInvariant(labels, s);
    assert Follows(s.trace[..j], s.trace[j]);
    var k := SettledBetween(s.trace[..j], i, id);
    assert s.trace[k].SourceSettled?;
  }

  lemma AppliedBefore(trace: seq<Event>, id: JobId, i: nat, j: nat)
    requires i < j <= |trace| && IsApplyStart(trace[i], id)
    ensures EverApplied(trace[..j], id)
  {
    assert IsApplyStart(trace[..j][i], id);
  }

  /** The Apply of a package update starts at most once, whatever happens around it. */
  lemma PackageUpdateAppliedOnce(labels: seq<Label>, s: State, id: JobId, i: nat, j: nat)
    requires Run(labels) == Some(s)
    requires i < |s.trace| && j < |s.trace| && IsApplyStart(s.trace[i], id) && IsApplyStart(s.trace[j], id)
    requires s.trace[i].operation == UpdatePackages
    ensures i == j
  {
    RunKeepsInvariant(labels, s);
    assert s.trace[j].operation == UpdatePackages;
    assert Follows(s.trace[..i], s.trace[i]) && Follows(s.trace[..j], s.trace[j]);
    if i < j {
      AppliedBefore(s.trace, id, i, j);
    } else if j < i {
      AppliedBefore(s.trace, id, j, i);
    }
  }

  // ---- crash safety ----

  /** An Apply playbook starts only under a stored status of Applying. */
  lemma ApplyStartsUnderApplying(labels: seq<Label>, s: State)
    requires Run(labels) == Some(s) && Next(s, StartPlaybook).Some? && s.worker.job.mode == Apply
    ensures s.worker.job.id in s.store && s.store[s.worker.job.id].status == Applying
  {
    RunKeepsInvariant(labels, s);
    StartIsStored(s);
  }

  lemma StartIsStored(s: State)
    requires Base(s) && Next(s, StartPlaybook).Some?
    ensures s.worker.job.id in s.store && s.store[s.worker.job.id] == s.worker.job
    ensures s.worker.job.mode == Apply ==> s.worker.job.status == Applying
  {
  }

  /** None of the worker's assertions on a status transition can fail. */
  lemma NoExpectFails(labels: seq<Label>, s: State)
    requires Run(labels) == Some(s)
    ensures s.worker != Panicked
  {
    RunKeepsInvariant(labels, s);
  }

  lemma {:induction false} ClaimedBetween(trace: seq<Event>, i: nat, id: JobId) returns (k: nat)
    requires i < |trace| && IsApplyStart(trace[i], id) && !StartedInAttempt(trace, id)
    ensures i < k < |trace| && trace[k] == JobClaimed(id)
  {
    if trace[|trace| - 1] == JobClaimed(id) {
      k := |trace| - 1;
    } else {
      k := ClaimedBetween(trace[..|trace| - 1], i, id);
    }
  }

  /** A job failed by a restart had not started its Apply since it was last claimed. */
  lemma RestartFailsOnlyUnstarted(labels: seq<Label>, s: State, id: JobId, i: nat, j: nat)
    requires Run(labels) == Some(s)
    requires i < j < |s.trace| && IsApplyStart(s.trace[i], id) && s.trace[j] == FailedByRestart(id)
    ensures exists k :: i < k < j && s.trace[k] == JobClaimed(id)
  {
    RunKeepsInvariant(labels, s);
    assert Follows(s.trace[..j], s.trace[j]);
    var k := ClaimedBetween(s.trace[..j], i, id);
    assert s.trace[k] == JobClaimed(id);
  }

  /** A completed recovery leaves no job in an executing status. */
  lemma RecoveryLeavesNothingExecuting(labels: seq<Label>, s: State)
    requires Run(labels) == Some(s) && Next(s, RecoveryDone).Some?
    ensures forall id :: id in s.store ==> !Executing(s.store[id].status)
  {
    RunKeepsInvariant(labels, s);
  }

  // ---- targets ----

  /** Per-target exclusion in the persisted table, and the lock that an unresolved Apply holds on its target. */
  lemma TargetsStayLocked(labels: seq<Label>, s: State)
    requires Run(labels) == Some(s)
    ensures TargetsLocked(s.store)
  {
    RunKeepsInvariant(labels, s);
  }

  lemma ChangedRowIsWritten(s: State, l: Label, id: JobId)
    requires Base(s) && Next(s, l).Some? && id in s.store && Next(s, l).value.store[id] != s.store[id]
    ensures WrittenRow(s, l).Some? && WrittenRow(s, l).value.id == id
    ensures Next(s, l).value.store[id] == WrittenRow(s, l).value
    ensures MayMove(l, s.store[id].status, Next(s, l).value.store[id].status)
  {
    StepWrites(s, l);
    RowMoves(s, l);
  }

  lemma SettlingShape(s: State, l: Label)
    requires Base(s) && Next(s, l).Some? && l.SettleSource?
    ensures s.worker.Busy? && s.worker.phase.Settling?
    ensures var source := s.worker.phase.source;
            && source.id in s.store && s.store[source.id] == source
            && WrittenRow(s, l) == Some(source.(status := Verdict(s.worker.phase.stdout)))
            && (Next(s, l).value.store != s.store ==>
                  var confirmed := l.write == Acknowledged && l.logged;
                  var entry := SourceSettled(source.id, Verdict(s.worker.phase.stdout), s.worker.job.id, confirmed);
                  Next(s, l).value.trace == s.trace + [entry])
  {
    SourceFacts(s.store, s.worker.job, s.worker.phase.source);
  }

  /** An unresolved job leaves that status only by the stored verdict of its own reconciliation run. */
  lemma OnlySettlingResolves(labels: seq<Label>, s: State, l: Label, id: JobId)
    requires Run(labels) == Some(s) && Next(s, l).Some?
    requires id in s.store && s.store[id].status == ReconcileRequired
    requires Next(s, l).value.store[id] != s.store[id]
    ensures l.SettleSource? && s.worker.Busy? && s.worker.phase.Settling? && s.worker.phase.source == s.store[id]
    ensures Next(s, l).value.store[id] == s.store[id].(status := Verdict(s.worker.phase.stdout))
    ensures var confirmed := l.write == Acknowledged && l.logged;
            var entry := SourceSettled(id, Next(s, l).value.store[id].status, s.worker.job.id, confirmed);
            Next(s, l).value.trace == s.trace + [entry]
  {
    RunKeepsInvariant(labels, s);
    ChangedRowIsWritten(s, l, id);
    SettlingShape(s, l);
  }

  /** With totals below the wrap-around, only a clean and complete recap turns an unresolved job into a success. */
  lemma ResolvedMeansClean(labels: seq<Label>, s: State, l: Label, id: JobId)
    requires Run(labels) == Some(s) && Next(s, l).Some?
    requires id in s.store && s.store[id].status == ReconcileRequired
    requires Next(s, l).value.store[id] != s.store[id]
    requires s.worker.Busy? && s.worker.phase.Settling?
    requires Recap.Sum(Recap.ChangedCounts(s.worker.phase.stdout)) < Numbers.U32_LIMIT
    ensures Next(s, l).value.store[id].status == Succeeded <==>
              var lines := Text.Lines(s.worker.phase.stdout);
              Recap.Undisturbed(lines) && Recap.NothingLeft(lines, Recap.HeaderIndex(lines))
  {
    OnlySettlingResolves(labels, s, l, id);
    Recap.CompletedMeansNothingLeft(s.worker.phase.stdout);
  }

  // ---- a reconciliation run that failed ----

  /** The worker neither waits for nor evaluates a playbook. */
  predicate NothingToSettle(worker: Worker) {
    worker.Busy? ==> !worker.phase.Running? && !worker.phase.Settling?
  }

  lemma StepSettlesNothing(s: State, l: Label, id: JobId)
    requires Base(s) && NothingToSettle(s.worker) && l != StartPlaybook && Next(s, l).Some?
    requires id in s.store && s.store[id].status == ReconcileRequired
    ensures NothingToSettle(Next(s, l).value.worker)
    ensures id in Next(s, l).value.store && Next(s, l).value.store[id] == s.store[id]
  {
    StepKeepsRows(s, l);
    if Next(s, l).value.store[id] != s.store[id] {
      ChangedRowIsWritten(s, l, id);
      SettlingShape(s, l);
    }
  }

  lemma {:induction false} NothingSettles(s: State, later: seq<Label>, id: JobId)
    requires Invariant(s) && NothingToSettle(s.worker) && RunFrom(s, later).Some? && StartPlaybook !in later
    requires id in s.store && s.store[id].status == ReconcileRequired
    ensures NothingToSettle(RunFrom(s, later).value.worker)
    ensures id in RunFrom(s, later).value.store && RunFrom(s, later).value.store[id] == s.store[id]
  {
    if later != [] {
      var earlier := later[..|later| - 1];
      NothingSettles(s, earlier, id);
      StepsKeepInvariant(s, earlier);
      StepSettlesNothing(RunFrom(s, earlier).value, later[|later| - 1], id);
    }
  }

  lemma RunningSource(s: State)
    requires Base(s) && s.worker.Busy? && s.worker.phase.Running? && s.worker.phase.reconciles.Some?
    ensures var source := s.worker.phase.reconciles.value;
            source.id in s.store && s.store[source.id] == source && source.status == ReconcileRequired
  {
    SourceFacts(s.store, s.worker.job, s.worker.phase.reconciles.value);
  }

  /** After a reconciliation run whose playbook failed, its source stays as it is until another playbook is started. */
  lemma FailedRunSettlesNothing(labels: seq<Label>, s: State, exit: Label, later: seq<Label>)
    requires Run(labels) == Some(s) && s.worker.Busy? && s.worker.phase.Running? && s.worker.phase.reconciles.Some?
    requires exit.PlaybookExit? && !(exit.success && exit.logged)
    requires StartPlaybook !in later && RunFrom(s, [exit] + later).Some?
    ensures var source, s' := s.worker.phase.reconciles.value, RunFrom(s, [exit] + later).value;
            source.id in s'.store && s'.store[source.id] == source
  {
    RunKeepsInvariant(labels, s);
    RunningSource(s);
    FailedExit(s, exit);
    RunOne(s, exit);
    RunOn(s, [exit], later);
    StepKeepsInvariant(s, exit);
    NothingSettles(Next(s, exit).value, later, s.worker.phase.reconciles.value.id);
  }

  lemma FailedExit(s: State, exit: Label)
    requires s.worker.Busy? && s.worker.phase.Running? && exit.PlaybookExit? && !(exit.success && exit.logged)
    ensures Next(s, exit).Some?
    ensures Next(s, exit).value.store == s.store && NothingToSettle(Next(s, exit).value.worker)
  {
  }

  // ---- starts beside an unresolved job ----

  lemma OnlyStartsStart(s: State, l: Label, k: nat)
    requires Next(s, l).Some? && |s.trace| <= k < |Next(s, l).value.trace| && Next(s, l).value.trace[k].PlaybookStarted?
    ensures l == StartPlaybook && Next(s, l).value.trace[k].id == s.worker.job.id && Next(s, l).value.store == s.store
  {
  }

  lemma StartBesideUnresolvedRow(s: State, id: JobId)
    requires Base(s) && TargetsLocked(s.store) && Next(s, StartPlaybook).Some?
    requires id in s.store && s.store[id].status == ReconcileRequired && s.store[id].target == s.worker.job.target
    ensures s.worker.job.mode == Reconcile && s.worker.phase == SourceLoaded(s.store[id])
    ensures CanBeReconciled(s.store[id])
  {
    var job := s.worker.job;
    assert Executing(s.store[job.id].status) && job.mode == Reconcile && job.key == ReconcileKey(id);
    SourceFacts(s.store, job, s.worker.phase.source);
    KeyNamesItsSource(id, job.key);
    KeyNamesItsSource(s.worker.phase.source.id, job.key);
  }

  /** A playbook that starts on the target of an unresolved job is that of its own reconciliation. */
  lemma StartBesideUnresolved(labels: seq<Label>, s: State, id: JobId)
    requires Run(labels) == Some(s) && Next(s, StartPlaybook).Some?
    requires id in s.store && s.store[id].status == ReconcileRequired && s.store[id].target == s.worker.job.target
    ensures s.worker.job.mode == Reconcile && s.worker.phase == SourceLoaded(s.store[id])
    ensures s.worker.job.key == ReconcileKey(id) && CanBeReconciled(s.store[id])
  {
    RunKeepsInvariant(labels, s);
    StartBesideUnresolvedRow(s, id);
    SourceFacts(s.store, s.worker.job, s.store[id]);
  }

  // ---- configuring a target has no playbook ----

  /** A ConfigureTarget job that has been stored as Applying finds no playbook and can only become unresolved. */
  lemma ConfigureTargetStep(s: State, l: Label, id: JobId)
    requires Base(s) && Next(s, l).Some?
    requires id in s.store && s.store[id].operation == ConfigureTarget && s.store[id].status == Applying
    ensures id in Next(s, l).value.store && Next(s, l).value.store[id].operation == ConfigureTarget
    ensures Next(s, l).value.store[id].status in {Applying, ReconcileRequired}
  {
    StepKeepsRows(s, l);
    if Next(s, l).value.store[id] != s.store[id] {
      ChangedRowIsWritten(s, l, id);
      if l.Finish? {
        UnplayedFails(s, l);
      }
    }
  }

  /** A job without a playbook never ends well. */
  lemma UnplayedFails(s: State, l: Label)
    requires Base(s) && l.Finish? && Next(s, l).Some? && !HasPlaybook(s.worker.job.operation)
    ensures WrittenRow(s, l).Some? && WrittenRow(s, l).value.status != Succeeded
  {
  }
}

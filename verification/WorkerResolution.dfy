/** Exactly which unresolved jobs can ever be resolved. */
module WorkerResolution {
  import opened Wrappers
  import opened Jobs
  import opened WorkerProtocol
  import opened WorkerInvariants
  import opened WorkerLinks
  import opened WorkerTheorems
  import opened Recovery

  predicate Unresolved(store: Store, id: JobId) {
    id in store && store[id].status == ReconcileRequired
  }

  /** This row holds the key of the reconciliation of `id`, which is unique on its target. */
  predicate HoldsKey(store: Store, other: JobId, id: JobId) {
    other in store && id in store && store[other].target == store[id].target && store[other].key == ReconcileKey(id)
  }

  /**
   The key is held by a row that will never reconcile again: another kind of job, or a reconciliation that is over.
   */
  predicate KeySpent(store: Store, other: JobId, id: JobId) {
    && HoldsKey(store, other, id)
    && (store[other].mode != Reconcile || store[other].status == Succeeded || store[other].status == Aborted)
  }

  /** The operation can be reconciled and its reconciliation key is not spent. */
  ghost predicate Answerable(store: Store, id: JobId) {
    id in store && CanReconcileApply(store[id].operation) && forall other :: !KeySpent(store, other, id)
  }

  // ---- nothing else is ever resolved ----

  ghost predicate Stuck(s: State, id: JobId) {
    Unresolved(s.store, id) && !Answerable(s.store, id)
  }

  /** A job that works on the reconciliation of `id` holds its key and is not over. */
  lemma WorkMeansAnswerable(store: Store, job: Job, id: JobId)
    requires RowsOk(store) && KeysUnique(store) && Unresolved(store, id)
    requires job.id in store && store[job.id] == job && Executing(job.status) && SourceOk(store, job, store[id])
    ensures Answerable(store, id)
  {
    SourceFacts(store, job, store[id]);
    forall other | HoldsKey(store, other, id) ensures other == job.id {
    }
  }

  lemma StuckRowStays(s: State, l: Label, id: JobId)
    requires Invariant(s) && Stuck(s, id) && Next(s, l).Some?
    ensures id in Next(s, l).value.store && Next(s, l).value.store[id] == s.store[id]
  {
    StepKeepsRows(s, l);
    if Next(s, l).value.store[id] != s.store[id] {
      ChangedRowIsWritten(s, l, id);
      SettlingShape(s, l);
      WorkMeansAnswerable(s.store, s.worker.job, id);
    }
  }

  lemma KeyStaysSpent(s: State, l: Label, other: JobId, id: JobId)
    requires Base(s) && Next(s, l).Some? && KeySpent(s.store, other, id)
    ensures KeySpent(Next(s, l).value.store, other, id)
  {
    StepKeepsRows(s, l);
    if Next(s, l).value.store[other] != s.store[other] {
      ChangedRowIsWritten(s, l, other);
    }
  }

  lemma StuckStays(s: State, l: Label, id: JobId)
    requires Invariant(s) && Stuck(s, id) && Next(s, l).Some?
    ensures Stuck(Next(s, l).value, id) && Next(s, l).value.store[id] == s.store[id]
  {
    StuckRowStays(s, l, id);
    if CanReconcileApply(s.store[id].operation) {
      var other :| KeySpent(s.store, other, id);
      KeyStaysSpent(s, l, other, id);
    }
  }

  /** Playbooks that start after position `n` of the trace are all on other targets. */
  ghost predicate OtherTargetsOnly(s: State, n: nat, target: Target) {
    forall k :: n <= k < |s.trace| && s.trace[k].PlaybookStarted? ==>
      s.trace[k].id in s.store && s.store[s.trace[k].id].target != target
  }

  lemma StuckStartsElsewhere(s: State, l: Label, id: JobId, n: nat)
    requires Invariant(s) && Stuck(s, id) && Next(s, l).Some? && OtherTargetsOnly(s, n, s.store[id].target)
    ensures OtherTargetsOnly(Next(s, l).value, n, s.store[id].target)
  {
    StepKeepsRows(s, l);
    var s' := Next(s, l).value;
    forall k | n <= k < |s'.trace| && s'.trace[k].PlaybookStarted?
      ensures s'.trace[k].id in s'.store && s'.store[s'.trace[k].id].target != s.store[id].target
    {
      if k < |s.trace| {
        assert s'.trace[k] == s.trace[k];
      } else {
        OnlyStartsStart(s, l, k);
        StartIsStored(s);
        if s.store[id].target == s.worker.job.target {
          StartBesideUnresolvedRow(s, id);
          WorkMeansAnswerable(s.store, s.worker.job, id);
        }
      }
    }
  }

  lemma {:induction false} StuckRun(s: State, labels: seq<Label>, id: JobId)
    requires Invariant(s) && Stuck(s, id) && RunFrom(s, labels).Some?
    ensures var s' := RunFrom(s, labels).value;
            Stuck(s', id) && s'.store[id] == s.store[id] && OtherTargetsOnly(s', |s.trace|, s.store[id].target)
  {
    if labels != [] {
      var earlier, last := labels[..|labels| - 1], labels[|labels| - 1];
      StuckRun(s, earlier, id);
      StepsKeepInvariant(s, earlier);
      StuckStays(RunFrom(s, earlier).value, last, id);
      StuckStartsElsewhere(RunFrom(s, earlier).value, last, id, |s.trace|);
    }
  }

  /** A job that is not answerable stays unresolved for ever, and no playbook ever starts on its target again. */
  lemma StuckForever(labels: seq<Label>, s: State, id: JobId, later: seq<Label>)
    requires Run(labels) == Some(s) && Stuck(s, id) && RunFrom(s, later).Some?
    ensures var s' := RunFrom(s, later).value;
            && id in s'.store && s'.store[id] == s.store[id]
            && OtherTargetsOnly(s', |s.trace|, s.store[id].target)
  {
    RunKeepsInvariant(labels, s);
    StuckRun(s, later, id);
  }

  lemma {:induction false} ConfigureTargetRun(s: State, labels: seq<Label>, id: JobId)
    requires Invariant(s) && RunFrom(s, labels).Some? && id in s.store
    requires s.store[id].operation == ConfigureTarget && s.store[id].status in {Applying, ReconcileRequired}
    ensures var s' := RunFrom(s, labels).value;
            && id in s'.store && s'.store[id].operation == ConfigureTarget
            && s'.store[id].status in {Applying, ReconcileRequired}
  {
    if labels != [] {
      var earlier, last := labels[..|labels| - 1], labels[|labels| - 1];
      var before := RunFrom(s, earlier).value;
      ConfigureTargetRun(s, earlier, id);
      StepsKeepInvariant(s, earlier);
      if before.store[id].status == Applying {
        ConfigureTargetStep(before, last, id);
      } else {
        StuckStays(before, last, id);
      }
    }
  }

  /** Configuring a target has no playbook and no reconciliation: once it applies, it never ends. */
  lemma ConfigureTargetNeverEnds(labels: seq<Label>, s: State, id: JobId, later: seq<Label>)
    requires Run(labels) == Some(s) && RunFrom(s, later).Some? && id in s.store
    requires s.store[id].operation == ConfigureTarget && s.store[id].status in {Applying, ReconcileRequired}
    ensures id in RunFrom(s, later).value.store
    ensures RunFrom(s, later).value.store[id].status in {Applying, ReconcileRequired}
  {
    RunKeepsInvariant(labels, s);
    ConfigureTargetRun(s, later, id);
  }

  // ---- every answerable job can be resolved ----

  ghost predicate Quiet(s: State) {
    s.worker == Idle && forall id :: id in s.store ==> !Executing(s.store[id].status)
  }

  lemma RecoveredIsQuiet(s: State, s': State, id: JobId)
    requires RowsOk(s.store) && Unresolved(s.store, id) && Answerable(s.store, id)
    requires s'.worker == Idle && s'.store == Recovered(s.store)
    ensures Quiet(s') && Unresolved(s'.store, id) && Answerable(s'.store, id) && s'.store[id] == s.store[id]
  {
    forall other ensures !KeySpent(s'.store, other, id) {
      assert !KeySpent(s.store, other, id);
    }
  }

  function Joined(texts: seq<string>): (s: string)
    ensures forall i :: 0 <= i < |texts| ==> |texts[i]| <= |s|
  {
    if texts == [] then [] else texts[0] + Joined(texts[1..])
  }

  lemma FreshId(store: Store) returns (id: JobId)
    ensures id !in store
  {
    var listed := Enumerated(store.Keys);
    id := Joined(listed) + "x";
    assert forall i :: 0 <= i < |listed| ==> |listed[i]| < |id|;
  }

  /** A queued reconciliation of `id`. */
  ghost predicate Waiting(store: Store, job: JobId, id: JobId) {
    && job in store && id in store && store[job].status == Queued && store[job].mode == Reconcile
    && MadeFor(store[job], store[id])
  }

  /** The reconciliation waits in the queue; no playbook came or went. */
  ghost predicate Waits(s: State, s': State, job: JobId, id: JobId) {
    && Quiet(s') && Waiting(s'.store, job, id) && Unresolved(s'.store, id)
    && id in s.store && s'.store[id] == s.store[id]
    && s'.live == s.live && s'.abandoned == s.abandoned && s'.trace == s.trace
  }

  lemma KeyHolderIsMadeFor(store: Store, other: JobId, id: JobId)
    requires RowsOk(store) && Linked(store) && HoldsKey(store, other, id) && store[other].mode == Reconcile
    ensures MadeFor(store[other], store[id])
  {
    assert HasSource(store, store[other]);
    var source :| source in store && MadeFor(store[other], store[source]);
    KeyNamesItsSource(source, store[other].key);
    KeyNamesItsSource(id, store[other].key);
  }

  lemma NewReconciliationWaits(s: State, id: JobId) returns (job: JobId)
    requires RowsOk(s.store) && Quiet(s) && Unresolved(s.store, id) && Answerable(s.store, id)
    requires forall other :: !HoldsKey(s.store, other, id)
    ensures var s' := Next(s, EnqueueReconcile(id, job)); s'.Some? && Waits(s, s'.value, job, id)
  {
    job := FreshId(s.store);
    assert KeyFree(s.store, s.store[id].target, ReconcileKey(id)) by {
      forall other | other in s.store
        ensures !(s.store[other].target == s.store[id].target && s.store[other].key == ReconcileKey(id))
      {
        assert !HoldsKey(s.store, other, id);
      }
    }
  }

  lemma RetriedReconciliationWaits(s: State, job: JobId, id: JobId)
    requires RowsOk(s.store) && Linked(s.store) && Quiet(s) && Unresolved(s.store, id) && HoldsKey(s.store, job, id)
    requires s.store[job].mode == Reconcile && s.store[job].status == Failed
    ensures var s' := Next(s, Retry(job)); s'.Some? && Waits(s, s'.value, job, id)
  {
    KeyHolderIsMadeFor(s.store, job, id);
  }

  /** Create the reconciliation, retry it, or find it waiting. */
  lemma ReconciliationCanWait(s: State, id: JobId) returns (labels: seq<Label>, job: JobId)
    requires Base(s) && Linked(s.store) && Quiet(s) && Unresolved(s.store, id) && Answerable(s.store, id)
    ensures Calm(labels) && RunFrom(s, labels).Some? && Waits(s, RunFrom(s, labels).value, job, id)
  {
    if other :| HoldsKey(s.store, other, id) {
      job := other;
      assert !KeySpent(s.store, other, id);
      KeyHolderIsMadeFor(s.store, other, id);
      if s.store[other].status == Failed {
        RetriedReconciliationWaits(s, other, id);
        labels := [Retry(other)];
        RunOne(s, Retry(other));
      } else {
        labels := [];
      }
    } else {
      job := NewReconciliationWaits(s, id);
      labels := [EnqueueReconcile(id, job)];
      RunOne(s, EnqueueReconcile(id, job));
    }
  }

  lemma WaitingIsClaimable(s: State, job: JobId, id: JobId)
    requires TargetsLocked(s.store) && Quiet(s) && Unresolved(s.store, id)
    requires RowsOk(s.store) && Waiting(s.store, job, id)
    ensures Claimable(s.store, job)
  {
  }

  /** The worker at some phase of the reconciliation of an unresolved job. */
  ghost predicate At(s: State, job: JobId, id: JobId, status: Status, phase: Phase) {
    && Unresolved(s.store, id) && job in s.store && job != id
    && s.store[job].status == status && s.store[job].mode == Reconcile
    && MadeFor(s.store[job], s.store[id])
    && s.worker == Busy(s.store[job], phase)
  }

  lemma SourceIsFound(s: State, job: JobId, id: JobId)
    requires RowsOk(s.store) && Unresolved(s.store, id) && job in s.store && MadeFor(s.store[job], s.store[id])
    ensures FindSource(s.store, s.store[job]) == Some(s.store[id])
  {
    KeyNamesItsSource(id, s.store[job].key);
  }

  /** No playbook came or went, and only the rows of the two jobs may have changed. */
  ghost predicate Beside(s: State, s': State, job: JobId, id: JobId) {
    && s'.live == s.live && s'.abandoned == s.abandoned && s.trace <= s'.trace
    && s'.store.Keys == s.store.Keys
    && forall other :: other in s.store && other != job && other != id ==> s'.store[other] == s.store[other]
  }

  lemma ClaimIt(s: State, job: JobId, id: JobId)
    requires Claimable(s.store, job) && s.worker == Idle && Unresolved(s.store, id) && Waiting(s.store, job, id)
    ensures var s' := Next(s, Claim(job));
            && s'.Some? && At(s'.value, job, id, Checking, Claimed)
            && Beside(s, s'.value, job, id) && s'.value.store[id] == s.store[id]
  {
  }

  lemma PlanIt(s: State, job: JobId, id: JobId)
    requires RowsOk(s.store) && At(s, job, id, Checking, Claimed)
    ensures var s' := Next(s, StorePlanned(Acknowledged, true));
            && s'.Some? && At(s'.value, job, id, Planned, PlanStored)
            && Beside(s, s'.value, job, id) && s'.value.store[id] == s.store[id]
  {
  }

  lemma LoadIt(s: State, job: JobId, id: JobId)
    requires RowsOk(s.store) && At(s, job, id, Planned, PlanStored)
    ensures var s' := Next(s, LoadSource);
            && s'.Some? && s'.value.store == s.store && Beside(s, s'.value, job, id)
            && At(s'.value, job, id, Planned, SourceLoaded(s.store[id]))
  {
    SourceIsFound(s, job, id);
    ModeArgsExactly(s.store[job].operation, Reconcile);
  }

  lemma StartIt(s: State, job: JobId, id: JobId)
    requires id in s.store && At(s, job, id, Planned, SourceLoaded(s.store[id]))
    ensures var s' := Next(s, StartPlaybook);
            && s'.Some? && s'.value.store == s.store
            && At(s'.value, job, id, Planned, Running(Some(s.store[id]), |s.trace|))
            && s'.value.live == s.live + {|s.trace|} && s'.value.abandoned == s.abandoned && s.trace <= s'.value.trace
  {
  }

  lemma ExitIt(s: State, job: JobId, id: JobId, process: nat)
    requires id in s.store && At(s, job, id, Planned, Running(Some(s.store[id]), process))
    ensures var s' := Next(s, PlaybookExit(true, "", true));
            && s'.Some? && s'.value.store == s.store && At(s'.value, job, id, Planned, Settling(s.store[id], ""))
            && s'.value.live == s.live - {process} && s'.value.abandoned == s.abandoned && s.trace <= s'.value.trace
  {
  }

  /** The verdict is stored and the reconciliation is about to end well. */
  ghost predicate Settled(s: State, job: JobId, source: Job) {
    && source.id in s.store && s.store[source.id] == source.(status := Verdict(""))
    && job in s.store && job != source.id
    && s.store[job].status == Planned && s.worker == Busy(s.store[job], Finishing(true))
    && s.store[job].mode == Reconcile && MadeFor(s.store[job], source)
  }

  lemma SettleIt(s: State, job: JobId, id: JobId)
    requires RowsOk(s.store) && id in s.store && At(s, job, id, Planned, Settling(s.store[id], ""))
    ensures var s' := Next(s, SettleSource(Acknowledged, true));
            s'.Some? && Settled(s'.value, job, s.store[id]) && Beside(s, s'.value, job, id)
  {
  }

  lemma RunTwo(s: State, l1: Label, l2: Label)
    requires Next(s, l1).Some?
    ensures RunFrom(s, [l1, l2]) == Next(Next(s, l1).value, l2)
  {
    RunOne(s, l1);
    RunLonger(s, [l1], l2);
    assert [l1, l2] == [l1] + [l2];
  }

  /** From the claim to the loaded source. */
  lemma LoadsSource(s: State, job: JobId, id: JobId)
    requires Invariant(s) && Quiet(s) && Unresolved(s.store, id) && Waiting(s.store, job, id)
    ensures var s' := RunFrom(s, [Claim(job), StorePlanned(Acknowledged, true)] + [LoadSource]);
            && s'.Some? && id in s'.value.store && s'.value.store[id] == s.store[id] && Beside(s, s'.value, job, id)
            && At(s'.value, job, id, Planned, SourceLoaded(s.store[id]))
  {
    WaitingIsClaimable(s, job, id);
    ClaimIt(s, job, id);
    var claimed := Next(s, Claim(job)).value;
    StepKeepsBase(s, Claim(job));
    PlanIt(claimed, job, id);
    var planned := Next(claimed, StorePlanned(Acknowledged, true)).value;
    StepKeepsBase(claimed, StorePlanned(Acknowledged, true));
    RunTwo(s, Claim(job), StorePlanned(Acknowledged, true));
    LoadIt(planned, job, id);
    RunLonger(s, [Claim(job), StorePlanned(Acknowledged, true)], LoadSource);
  }

  /** From the loaded source to the stored verdict. */
  lemma SettlesSource(s: State, job: JobId, id: JobId)
    requires RowsOk(s.store) && id in s.store && At(s, job, id, Planned, SourceLoaded(s.store[id]))
    requires |s.trace| !in s.live
    ensures var s' := RunFrom(s, [StartPlaybook, PlaybookExit(true, "", true)] + [SettleSource(Acknowledged, true)]);
            s'.Some? && Settled(s'.value, job, s.store[id]) && Beside(s, s'.value, job, id)
  {
    StartIt(s, job, id);
    var running := Next(s, StartPlaybook).value;
    ExitIt(running, job, id, |s.trace|);
    var exited := Next(running, PlaybookExit(true, "", true)).value;
    RunTwo(s, StartPlaybook, PlaybookExit(true, "", true));
    SettleIt(exited, job, id);
    RunLonger(s, [StartPlaybook, PlaybookExit(true, "", true)], SettleSource(Acknowledged, true));
  }

  lemma WaitingSettles(s: State, job: JobId, id: JobId) returns (labels: seq<Label>)
    requires Invariant(s) && Quiet(s) && Unresolved(s.store, id) && Waiting(s.store, job, id)
    ensures Calm(labels) && RunFrom(s, labels).Some?
    ensures Settled(RunFrom(s, labels).value, job, s.store[id]) && Beside(s, RunFrom(s, labels).value, job, id)
  {
    var load := [Claim(job), StorePlanned(Acknowledged, true)] + [LoadSource];
    var settle := [StartPlaybook, PlaybookExit(true, "", true)] + [SettleSource(Acknowledged, true)];
    LoadsSource(s, job, id);
    StepsKeepInvariant(s, load);
    SettlesSource(RunFrom(s, load).value, job, id);
    RunOn(s, load, settle);
    SettlingIsCalm(job);
    labels := load + settle;
  }

  lemma SettlingIsCalm(job: JobId)
    ensures Calm(([Claim(job), StorePlanned(Acknowledged, true)] + [LoadSource]) +
                 ([StartPlaybook, PlaybookExit(true, "", true)] + [SettleSource(Acknowledged, true)]))
  {
  }

  /** Crash, recover, queue the reconciliation, and let it run. */
  lemma AnswerableCanBeResolved(s: State, id: JobId) returns (labels: seq<Label>)
    requires Invariant(s) && Unresolved(s.store, id) && Answerable(s.store, id)
    ensures Resolves(s, labels, id)
  {
    var recover := RecoveryRuns(s);
    var quiet := RunFrom(s, recover).value;
    StepsKeepInvariant(s, recover);
    RecoveredIsQuiet(s, quiet, id);
    var queue, job := ReconciliationCanWait(quiet, id);
    var queued := RunFrom(quiet, queue).value;
    StepsKeepInvariant(quiet, queue);
    var settle := WaitingSettles(queued, job, id);
    RunOn(s, recover, queue);
    RunOn(s, recover + queue, settle);
    labels := recover + queue + settle;
  }

  // ---- the exact condition ----

  ghost predicate Resolves(s: State, later: seq<Label>, id: JobId) {
    && RunFrom(s, later).Some? && id in RunFrom(s, later).value.store
    && RunFrom(s, later).value.store[id].status != ReconcileRequired
  }

  /** An unresolved job can be resolved by some continuation of the run if and only if it is answerable. */
  lemma ResolvableExactly(labels: seq<Label>, s: State, id: JobId)
    requires Run(labels) == Some(s) && Unresolved(s.store, id)
    ensures (exists later :: Resolves(s, later, id)) <==> Answerable(s.store, id)
  {
    RunKeepsInvariant(labels, s);
    if Answerable(s.store, id) {
      var later := AnswerableCanBeResolved(s, id);
      assert Resolves(s, later, id);
    }
    if later :| Resolves(s, later, id) {
      if !Answerable(s.store, id) {
        StuckRun(s, later, id);
      }
    }
  }

  /** While its reconciliation key is free, the operation alone decides. */
  lemma FirstUncertaintyIsResolvable(labels: seq<Label>, s: State, id: JobId)
    requires Run(labels) == Some(s) && Unresolved(s.store, id) && forall other :: !HoldsKey(s.store, other, id)
    ensures (exists later :: Resolves(s, later, id)) <==> CanReconcileApply(s.store[id].operation)
  {
    ResolvableExactly(labels, s, id);
  }
}

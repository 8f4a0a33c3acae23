/** Two Applies at the same time: exactly when they can happen. */
module WorkerOverlap {
  import opened Wrappers
  import opened Jobs
  import opened WorkerProtocol
  import opened WorkerInvariants
  import opened WorkerLinks
  import opened WorkerPlaybooks
  import opened WorkerTheorems
  import opened WorkerResolution
  import opened WorkerTimeouts
  import opened Recovery

  // ---- starting an Apply ----

  function Row(job: Job, status: Status): (row: Job) {
    job.(status := status)
  }

  function MarkLabels(id: JobId): (labels: seq<Label>) {
    [Claim(id), StorePlanned(Acknowledged, true)] + [StoreApplying(Acknowledged, true)]
  }

  /** The worker stores the next status of its job. */
  lemma StoresNext(s: State, next: Status)
    requires s.worker.Busy? && s.worker.job.target.Host?
    requires s.worker.job.mode == Apply && SupportsMode(s.worker.job.operation, Apply)
    requires if next == Planned then s.worker.phase == Claimed && s.worker.job.status == Checking
             else next == Applying && s.worker.phase == PlanStored && s.worker.job.status == Planned
    ensures var row := Row(s.worker.job, next);
            var l := if next == Planned then StorePlanned(Acknowledged, true) else StoreApplying(Acknowledged, true);
            Next(s, l) == Some(s.(store := s.store[row.id := row],
                                  worker := Busy(row, if next == Planned then PlanStored else ApplyStored)))
  {
  }

  /** An Apply job is claimed, planned and stored as Applying. */
  lemma MarksApplying(s: State, id: JobId)
    requires s.worker == Idle && Claimable(s.store, id) && s.store[id].id == id && s.store[id].target.Host?
    requires s.store[id].mode == Apply && SupportsMode(s.store[id].operation, Apply)
    ensures var row := Row(s.store[id], Applying);
            RunFrom(s, MarkLabels(id)) ==
            Some(s.(store := s.store[id := row], worker := Busy(row, ApplyStored), trace := s.trace + [JobClaimed(id)]))
  {
    var row := s.store[id];
    var checking := s.(store := s.store[id := Row(row, Checking)], worker := Busy(Row(row, Checking), Claimed),
                       trace := s.trace + [JobClaimed(id)]);
    var planned := checking.(store := s.store[id := Row(row, Planned)], worker := Busy(Row(row, Planned), PlanStored));
    assert Next(s, Claim(id)) == Some(checking);
    StoresNext(checking, Planned);
    assert checking.store[id := Row(row, Planned)] == planned.store;
    RunTwo(s, Claim(id), StorePlanned(Acknowledged, true));
    StoresNext(planned, Applying);
    assert planned.store[id := Row(row, Applying)] == s.store[id := Row(row, Applying)];
    RunLonger(s, [Claim(id), StorePlanned(Acknowledged, true)], StoreApplying(Acknowledged, true));
  }

  lemma StartsMarked(s: State)
    requires s.worker.Busy? && s.worker.phase == ApplyStored && HasPlaybook(s.worker.job.operation)
    ensures var job := s.worker.job;
            Next(s, StartPlaybook) ==
            Some(s.(worker := Busy(job, Running(None, |s.trace|)), live := s.live + {|s.trace|},
                    trace := s.trace + [PlaybookStarted(job.id, job.mode, job.operation)]))
  {
  }

  /** A free target: nothing on it executes and nothing on it is unresolved. */
  ghost predicate Free(store: Store, target: Target) {
    forall id :: id in store && store[id].target == target ==>
      !Executing(store[id].status) && store[id].status != ReconcileRequired
  }

  /** A deployment nobody has asked for yet. */
  lemma FreshApply(store: Store, target: Target) returns (job: Job)
    ensures Acceptable(store, job) && job.target == target
    ensures job.operation == DeployAgent && job.mode == Apply
  {
    var id := FreshId(store);
    var key := FreshKey(store);
    job := Job(id, DeployAgent, target, Apply, DeployAgentParameters("1"), ["s"], key, Queued);
  }

  lemma FreshKey(store: Store) returns (key: string)
    ensures forall id :: id in store ==> store[id].key != key
  {
    var listed := Enumerated(store.Keys);
    var keys := seq(|listed|, i requires 0 <= i < |listed| => if listed[i] in store then store[listed[i]].key else "");
    key := Joined(keys) + "x";
    forall id | id in store ensures store[id].key != key {
      var i :| 0 <= i < |listed| && listed[i] == id;
      assert keys[i] == store[id].key && |keys[i]| < |key|;
    }
  }

  function ApplyLabels(job: Job): (labels: seq<Label>) {
    [Enqueue(job)] + (MarkLabels(job.id) + [StartPlaybook])
  }

  /** An Apply that was started after `s` runs on this target. */
  ghost predicate NewApplyRuns(s: State, s': State, j: nat, target: Target) {
    && |s.trace| <= j && IsLiveApply(s', j)
    && s'.trace[j].id in s'.store && s'.store[s'.trace[j].id].target == target
  }

  lemma EnqueuedIsClaimable(store: Store, job: Job)
    requires Acceptable(store, job) && Free(store, job.target)
    ensures Claimable(store[job.id := job], job.id)
  {
  }

  /** On a free host an Apply can be enqueued and started. */
  lemma ApplyStarts(s: State, job: Job)
    requires s.worker == Idle && Acceptable(s.store, job) && Free(s.store, job.target) && job.target.Host?
    requires job.operation == DeployAgent && job.mode == Apply
    ensures var s' := RunFrom(s, ApplyLabels(job));
            && s'.Some? && s.trace <= s'.value.trace && s.live <= s'.value.live
            && NewApplyRuns(s, s'.value, |s.trace| + 1, job.target)
  {
    var queued := s.(store := s.store[job.id := job]);
    Enqueues(s, job);
    EnqueuedIsClaimable(s.store, job);
    ClaimableStarts(queued, job.id);
    RunOn(s, [Enqueue(job)], MarkLabels(job.id) + [StartPlaybook]);
  }

  lemma Enqueues(s: State, job: Job)
    requires Acceptable(s.store, job)
    ensures RunFrom(s, [Enqueue(job)]) == Some(s.(store := s.store[job.id := job]))
  {
    RunOne(s, Enqueue(job));
  }

  /** A claimable Apply is claimed, stored as Applying and started. */
  lemma ClaimableStarts(s: State, id: JobId)
    requires s.worker == Idle && Claimable(s.store, id) && s.store[id].id == id && s.store[id].target.Host?
    requires s.store[id].mode == Apply && s.store[id].operation == DeployAgent
    ensures var s' := RunFrom(s, MarkLabels(id) + [StartPlaybook]);
            && s'.Some? && s.trace <= s'.value.trace && s.live <= s'.value.live
            && NewApplyRuns(s, s'.value, |s.trace| + 1, s.store[id].target)
  {
    MarksApplying(s, id);
    var marked := RunFrom(s, MarkLabels(id)).value;
    StartsMarked(marked);
    RunLonger(s, MarkLabels(id), StartPlaybook);
    MarkedRuns(s, marked, Next(marked, StartPlaybook).value, id);
  }

  lemma MarkedRuns(s: State, marked: State, s': State, id: JobId)
    requires id in s.store && s.store[id].mode == Apply && s.store[id].id == id
    requires marked.store == s.store[id := Row(s.store[id], Applying)] && marked.trace == s.trace + [JobClaimed(id)]
    requires marked.live == s.live && s'.store == marked.store && s'.live == marked.live + {|marked.trace|}
    requires s'.trace == marked.trace + [PlaybookStarted(id, Apply, s.store[id].operation)]
    ensures s.trace <= s'.trace && NewApplyRuns(s, s', |s.trace| + 1, s.store[id].target)
  {
  }

  lemma ApplyLabelsAreCalm(job: Job)
    ensures Calm(ApplyLabels(job))
  {
  }

  // ---- on the target of the Apply that was given up ----

  lemma FinishSettled(s: State, job: JobId, source: Job)
    requires Settled(s, job, source) && s.store[job].id == job
    ensures var s' := Next(s, Finish(Acknowledged));
            && s'.Some? && s'.value.worker == Idle && s'.value.live == s.live && s'.value.trace == s.trace
            && s'.value.store == s.store[job := s.store[job].(status := Succeeded)]
  {
  }

  /** The reconciliation of the unresolved job has run and ended, and its target is free. */
  ghost predicate Freed(s: State, s': State, target: Target) {
    s'.worker == Idle && Free(s'.store, target) && s.live <= s'.live && s.trace <= s'.trace
  }

  lemma SettledIsFree(s: State, s': State, job: JobId, id: JobId)
    requires TargetsLocked(s.store) && Quiet(s) && Unresolved(s.store, id) && Beside(s, s', job, id)
    requires Settled(s', job, s.store[id]) && s.store[id].id == id
    ensures Free(s'.store[job := s'.store[job].(status := Succeeded)], s.store[id].target)
  {
  }

  lemma WaitingEnds(s: State, job: JobId, id: JobId) returns (labels: seq<Label>)
    requires Invariant(s) && Quiet(s) && Unresolved(s.store, id) && Waiting(s.store, job, id)
    ensures Calm(labels) && RunFrom(s, labels).Some? && Freed(s, RunFrom(s, labels).value, s.store[id].target)
  {
    var settle := WaitingSettles(s, job, id);
    SettledFrees(s, settle, job, id);
    CalmJoin(settle, [Finish(Acknowledged)]);
    labels := settle + [Finish(Acknowledged)];
  }

  lemma SettledFrees(s: State, settle: seq<Label>, job: JobId, id: JobId)
    requires Invariant(s) && Quiet(s) && Unresolved(s.store, id) && RunFrom(s, settle).Some?
    requires Beside(s, RunFrom(s, settle).value, job, id) && Settled(RunFrom(s, settle).value, job, s.store[id])
    ensures var s' := RunFrom(s, settle + [Finish(Acknowledged)]);
            s'.Some? && Freed(s, s'.value, s.store[id].target)
  {
    StepsKeepInvariant(s, settle);
    SettledEnds(s, RunFrom(s, settle).value, job, id);
    RunLonger(s, settle, Finish(Acknowledged));
  }

  lemma RowIsNamed(s: State, id: JobId)
    requires Base(s) && id in s.store
    ensures s.store[id].id == id
  {
  }

  lemma SettledEnds(s: State, settled: State, job: JobId, id: JobId)
    requires Invariant(s) && Quiet(s) && Unresolved(s.store, id) && Invariant(settled)
    requires Beside(s, settled, job, id) && Settled(settled, job, s.store[id])
    ensures var s' := Next(settled, Finish(Acknowledged)); s'.Some? && Freed(s, s'.value, s.store[id].target)
  {
    RowIsNamed(s, id);
    RowIsNamed(settled, job);
    FinishSettled(settled, job, s.store[id]);
    SettledIsFree(s, settled, job, id);
  }

  /** An answerable job that blocks a target can be settled without giving anything up. */
  lemma TargetCanBeFreed(s: State, id: JobId) returns (labels: seq<Label>)
    requires Invariant(s) && Quiet(s) && Unresolved(s.store, id) && Answerable(s.store, id)
    ensures Calm(labels) && RunFrom(s, labels).Some? && Freed(s, RunFrom(s, labels).value, s.store[id].target)
  {
    var queue, job := ReconciliationCanWait(s, id);
    var queued := RunFrom(s, queue).value;
    StepsKeepInvariant(s, queue);
    var run := WaitingEnds(queued, job, id);
    RunOn(s, queue, run);
    CalmJoin(queue, run);
    labels := queue + run;
  }

  lemma QuietTargetFreed(s: State, target: Target) returns (labels: seq<Label>)
    requires Invariant(s) && Quiet(s) && forall id :: Stuck(s, id) ==> s.store[id].target != target
    ensures Calm(labels) && RunFrom(s, labels).Some? && Freed(s, RunFrom(s, labels).value, target)
  {
    if id :| Unresolved(s.store, id) && s.store[id].target == target {
      assert !Stuck(s, id);
      labels := TargetCanBeFreed(s, id);
    } else {
      labels := [];
      assert forall id :: id in s.store && s.store[id].target == target ==> !Unresolved(s.store, id);
    }
  }

  /** From a quiet state an Apply can be started on every host without a stuck job, beside whatever still runs. */
  lemma ApplyCanStart(s: State, target: Target) returns (labels: seq<Label>, j: nat)
    requires Invariant(s) && Quiet(s) && target.Host? && forall id :: Stuck(s, id) ==> s.store[id].target != target
    ensures Calm(labels) && RunFrom(s, labels).Some?
    ensures var s' := RunFrom(s, labels).value;
            s.live <= s'.live && s.trace <= s'.trace && NewApplyRuns(s, s', j, target)
  {
    var free := QuietTargetFreed(s, target);
    var freed := RunFrom(s, free).value;
    var apply: seq<Label>;
    apply, j := FreshApplyStarts(freed, target);
    RunOn(s, free, apply);
    CalmJoin(free, apply);
    labels := free + apply;
    NewSinceThen(s, freed, RunFrom(freed, apply).value, j, target);
  }

  lemma FreshApplyStarts(s: State, target: Target) returns (labels: seq<Label>, j: nat)
    requires s.worker == Idle && Free(s.store, target) && target.Host?
    ensures Calm(labels) && RunFrom(s, labels).Some?
    ensures var s' := RunFrom(s, labels).value;
            s.live <= s'.live && s.trace <= s'.trace && NewApplyRuns(s, s', j, target)
  {
    var job := FreshApply(s.store, target);
    ApplyStarts(s, job);
    ApplyLabelsAreCalm(job);
    labels, j := ApplyLabels(job), |s.trace| + 1;
  }

  lemma NewSinceThen(s: State, freed: State, s': State, j: nat, target: Target)
    requires s.live <= freed.live <= s'.live && s.trace <= freed.trace && freed.trace <= s'.trace
    requires NewApplyRuns(freed, s', j, target)
    ensures s.live <= s'.live && s.trace <= s'.trace && NewApplyRuns(s, s', j, target)
  {
  }

  /** The target of the job whose playbook this is. */
  function TargetOf(s: State, k: nat): (target: Target)
    requires k < |s.trace| && s.trace[k].PlaybookStarted? && s.trace[k].id in s.store
  {
    s.store[s.trace[k].id].target
  }

  /** Process `k` still runs and an Apply that was started since runs on the same target. */
  ghost predicate Overtaken(s: State, later: seq<Label>, k: nat, target: Target) {
    && RunFrom(s, later).Some? && IsLiveApply(RunFrom(s, later).value, k)
    && exists j: nat :: NewApplyRuns(s, RunFrom(s, later).value, j, target)
  }

  lemma StillLive(s: State, s': State, k: nat)
    requires IsLiveApply(s, k) && s.live <= s'.live && s.trace <= s'.trace
    ensures IsLiveApply(s', k)
  {
    assert s'.trace[k] == s.trace[k];
  }

  lemma StuckIsNotOvertaken(s: State, later: seq<Label>, k: nat, id: JobId)
    requires Invariant(s) && Stuck(s, id)
    ensures !Overtaken(s, later, k, s.store[id].target)
  {
    if RunFrom(s, later).Some? {
      StuckRun(s, later, id);
    }
  }

  /**
   While the worker rests, an Apply that it has given up can be overtaken by another Apply on the same target,
   with nothing further given up, if and only if no job of that target is stuck.
   */
  lemma TargetOverlapExactly(labels: seq<Label>, s: State, k: nat)
    requires Run(labels) == Some(s) && Quiet(s) && IsLiveApply(s, k)
    ensures s.trace[k].id in s.store
    ensures (exists later :: Attentive(s, later) && Overtaken(s, later, k, TargetOf(s, k))) <==>
            forall id :: Stuck(s, id) ==> s.store[id].target != TargetOf(s, k)
  {
    RunKeepsInvariant(labels, s);
    var target := TargetOf(s, k);
    if forall id :: Stuck(s, id) ==> s.store[id].target != target {
      var later, j := ApplyCanStart(s, target);
      NothingIsAttentive(s);
      assert [] + later == later;
      CalmIsAttentive(s, [], later);
      StillLive(s, RunFrom(s, later).value, k);
      assert Attentive(s, later) && Overtaken(s, later, k, target);
    }
    if id :| Stuck(s, id) && s.store[id].target == target {
      forall later ensures !Overtaken(s, later, k, target) {
        StuckIsNotOvertaken(s, later, k, id);
      }
    }
  }

  // ---- on any target ----

  ghost predicate OneAtATime(s: State) {
    forall j: nat, k: nat :: IsLiveApply(s, j) && IsLiveApply(s, k) ==> j == k
  }

  lemma NotGivenUpIsOne(s: State)
    requires Base(s) && PlaybooksOk(s) && !GivenUp(s)
    ensures OneAtATime(s)
  {
    forall j: nat, k: nat | IsLiveApply(s, j) && IsLiveApply(s, k) ensures j == k {
      AttendedIsApplying(s, j);
      AttendedIsApplying(s, k);
    }
  }

  lemma FreshHost(store: Store) returns (target: Target)
    ensures target.Host? && forall id :: id in store ==> store[id].target != target
  {
    var listed := Enumerated(store.Keys);
    var names := seq(|listed|, i requires 0 <= i < |listed| =>
      if listed[i] in store && store[listed[i]].target.Host? then store[listed[i]].target.id else "");
    target := Host(Joined(names) + "x");
    forall id | id in store ensures store[id].target != target {
      var i :| 0 <= i < |listed| && listed[i] == id;
      assert |names[i]| < |target.id|;
    }
  }

  lemma GivenUpOverlaps(s: State) returns (labels: seq<Label>)
    requires Invariant(s) && GivenUp(s)
    ensures Attentive(s, labels) && !OneAtATime(RunFrom(s, labels).value)
  {
    var k: nat :| IsLiveApply(s, k) && k in s.abandoned;
    var recover := RecoverAttentively(s);
    var quiet := RunFrom(s, recover).value;
    StepsKeepInvariant(s, recover);
    RecoveredRests(s, quiet);
    var target := FreshHost(quiet.store);
    var apply, j := ApplyCanStart(quiet, target);
    RunOn(s, recover, apply);
    CalmIsAttentive(s, recover, apply);
    labels := recover + apply;
    AbandonedStays(s, quiet, k);
    TwoRun(quiet, RunFrom(quiet, apply).value, k, j, target);
  }

  lemma TwoRun(s: State, s': State, k: nat, j: nat, target: Target)
    requires IsLiveApply(s, k) && s.live <= s'.live && s.trace <= s'.trace && NewApplyRuns(s, s', j, target)
    ensures !OneAtATime(s')
  {
    StillLive(s, s', k);
    assert IsLiveApply(s', j) && k < j;
  }

  lemma RecoveredRests(s: State, s': State)
    requires s'.worker == Idle && s'.store == Recovered(s.store)
    ensures Quiet(s')
  {
  }

  lemma AbandonedStays(s: State, s': State, k: nat)
    requires PlaybooksOk(s) && IsLiveApply(s, k) && k in s.abandoned
    requires s.trace <= s'.trace && s'.live == s.live - Attended(s.worker)
    ensures IsLiveApply(s', k)
  {
    assert s'.trace[k] == s.trace[k];
  }

  /**
   As long as nothing further is given up, at most one Apply runs, now and later, if and only if no Apply that still
   runs has been given up.
   */
  lemma OverlapExactly(labels: seq<Label>, s: State)
    requires Run(labels) == Some(s)
    ensures (forall later :: Attentive(s, later) ==> OneAtATime(RunFrom(s, later).value)) <==> !GivenUp(s)
  {
    RunKeepsInvariant(labels, s);
    if GivenUp(s) {
      var later := GivenUpOverlaps(s);
      assert Attentive(s, later);
    } else {
      forall later | Attentive(s, later) ensures OneAtATime(RunFrom(s, later).value) {
        AttentiveRun(s, later);
        StepsKeepInvariant(s, later);
        NotGivenUpIsOne(RunFrom(s, later).value);
      }
    }
  }
}

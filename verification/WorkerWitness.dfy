/** Runs that reach the dead ends and the overlapping Applies of the worker protocol. */
module WorkerWitness {
  import opened Wrappers
  import opened Jobs
  import opened WorkerProtocol
  import opened WorkerInvariants
  import opened WorkerLinks
  import opened WorkerTheorems
  import opened WorkerResolution
  import opened WorkerTimeouts
  import opened WorkerOverlap
  import Recap
  import Text

  const DEPLOY := Job("1", DeployAgent, Host("h"), Apply, DeployAgentParameters("1"), ["s"], "k", Queued)

  const CONFIGURE := Job("1", ConfigureTarget, Host("h"), Apply, ConfigureTargetParameters(None), ["s"], "k", Queued)

  // ---- building blocks ----

  /** A first worker and a first job. */
  lemma FirstJob(job: Job)
    requires job.status == Queued && SupportsMode(job.operation, job.mode)
    ensures Run([Restart([]), RecoveryDone] + [Enqueue(job)]) == Some(State(map[job.id := job], Idle, [], {}, {}))
  {
    var restarted := State(map[], Recovering([]), [], {}, {});
    assert Rows(map[], []) == [];
    assert Next(INIT, Restart([])) == Some(restarted);
    RunTwo(INIT, Restart([]), RecoveryDone);
    RunLonger(INIT, [Restart([]), RecoveryDone], Enqueue(job));
    assert INIT.store[job.id := job] == map[job.id := job];
  }

  /** The worker gives up an Apply that is stored as Applying, and stores that it is unresolved. */
  lemma GivesUpApplying(s: State)
    requires s.worker.Busy? && !s.worker.phase.Finishing?
    requires s.worker.job.mode == Apply && s.worker.job.status == Applying
    ensures var job := s.worker.job;
            RunFrom(s, [Fail, Finish(Acknowledged)]) ==
            Some(s.(store := s.store[job.id := Row(job, ReconcileRequired)], worker := Idle,
                    abandoned := s.abandoned + Attended(s.worker)))
  {
    RunTwo(s, Fail, Finish(Acknowledged));
  }

  // ---- an unresolved job that cannot be reconciled ----

  /** A run that leaves a ConfigureTarget job unresolved. */
  lemma ConfigureTargetGetsStuck() returns (labels: seq<Label>, s: State)
    ensures Run(labels) == Some(s) && "1" in s.store
    ensures s.store["1"].operation == ConfigureTarget && Stuck(s, "1")
  {
    var first := [Restart([]), RecoveryDone] + [Enqueue(CONFIGURE)];
    FirstJob(CONFIGURE);
    var queued := State(map["1" := CONFIGURE], Idle, [], {}, {});
    MarksApplying(queued, "1");
    var marked := RunFrom(queued, MarkLabels("1")).value;
    RunOn(INIT, first, MarkLabels("1"));
    GivesUpApplying(marked);
    RunOn(INIT, first + MarkLabels("1"), [Fail, Finish(Acknowledged)]);
    labels := first + MarkLabels("1") + [Fail, Finish(Acknowledged)];
    s := RunFrom(marked, [Fail, Finish(Acknowledged)]).value;
  }

  // ---- an Apply that runs on while its job is unresolved ----

  const STARTED := PlaybookStarted("1", Apply, DeployAgent)

  /** The deployment is unresolved and its playbook still runs. */
  const ORPHANED := State(map["1" := Row(DEPLOY, ReconcileRequired)], Idle, [JobClaimed("1"), STARTED], {1}, {1})

  const DEPLOY_QUEUED := State(map["1" := DEPLOY], Idle, [], {}, {})

  const DEPLOY_RUNNING :=
    State(map["1" := Row(DEPLOY, Applying)], Busy(Row(DEPLOY, Applying), Running(None, 1)),
          [JobClaimed("1"), STARTED], {1}, {})

  lemma DeployRuns()
    ensures RunFrom(DEPLOY_QUEUED, MarkLabels("1") + [StartPlaybook]) == Some(DEPLOY_RUNNING)
  {
    MarksApplying(DEPLOY_QUEUED, "1");
    var marked := RunFrom(DEPLOY_QUEUED, MarkLabels("1")).value;
    assert marked.store == map["1" := Row(DEPLOY, Applying)];
    assert marked.trace == [JobClaimed("1")];
    StartsMarked(marked);
    RunLonger(DEPLOY_QUEUED, MarkLabels("1"), StartPlaybook);
    assert [JobClaimed("1")] + [STARTED] == DEPLOY_RUNNING.trace;
    assert {} + {1} == DEPLOY_RUNNING.live;
    assert marked.live == {} && marked.abandoned == {};
  }

  lemma DeployIsOrphaned()
    ensures RunFrom(DEPLOY_RUNNING, [Fail, Finish(Acknowledged)]) == Some(ORPHANED)
  {
    GivesUpApplying(DEPLOY_RUNNING);
    assert DEPLOY_RUNNING.store["1" := Row(DEPLOY, ReconcileRequired)] == ORPHANED.store;
    assert Attended(DEPLOY_RUNNING.worker) == {1} && {} + {1} == ORPHANED.abandoned;
  }

  lemma ReachesOrphaned() returns (labels: seq<Label>)
    ensures Run(labels) == Some(ORPHANED)
  {
    var first := [Restart([]), RecoveryDone] + [Enqueue(DEPLOY)];
    var apply, end := MarkLabels("1") + [StartPlaybook], [Fail, Finish(Acknowledged)];
    FirstJob(DEPLOY);
    DeployRuns();
    RunOn(INIT, first, apply);
    DeployIsOrphaned();
    RunOn(INIT, first + apply, end);
    labels := first + apply + end;
  }

  /** A run after which an Apply still runs although its job is stored as unresolved. */
  lemma ApplyRunsUnresolved() returns (labels: seq<Label>, s: State)
    ensures Run(labels) == Some(s) && IsLiveApply(s, 1) && s.trace[1].id == "1"
    ensures Unresolved(s.store, "1") && GivenUp(s) && !UnderApplying(s)
  {
    labels := ReachesOrphaned();
    s := ORPHANED;
    assert IsLiveApply(s, 1) && !StoredApplying(s, s.trace[1].id);
  }

  // ---- a second Apply beside the first ----

  lemma EmptyOutputFails()
    ensures Verdict("") == Failed
  {
    assert Text.Find("", Recap.HEADER).None?;
  }

  /** The reconciliation that the deployment gets. */
  lemma OrphanedGetsReconciliation()
    ensures var s' := Next(ORPHANED, EnqueueReconcile("1", "2"));
            && s'.Some? && Quiet(s'.value) && Unresolved(s'.value.store, "1") && Waiting(s'.value.store, "2", "1")
            && s'.value.store.Keys == {"1", "2"} && s'.value.live == {1} && s'.value.trace == ORPHANED.trace
            && s'.value.store["1"] == Row(DEPLOY, ReconcileRequired)
  {
    assert "k" != ReconcileKey("1");
  }

  /** The reconciliation is over and the deployment has been queued again, while its first playbook still runs. */
  ghost predicate Requeued(s: State) {
    && s.store.Keys == {"1", "2"} && s.store["1"] == DEPLOY
    && s.store["2"].status == Succeeded && s.store["2"].target == DEPLOY.target && s.store["2"].key == ReconcileKey("1")
    && s.worker == Idle && 1 in s.live && |s.trace| > 1 && s.trace[1] == STARTED
  }

  lemma FinishesAndRetries(s: State)
    requires Settled(s, "2", Row(DEPLOY, ReconcileRequired)) && s.store.Keys == {"1", "2"} && s.store["2"].id == "2"
    requires 1 in s.live && |s.trace| > 1 && s.trace[1] == STARTED
    ensures var s' := RunFrom(s, [Finish(Acknowledged), Retry("1")]); s'.Some? && Requeued(s'.value)
  {
    EmptyOutputFails();
    RunTwo(s, Finish(Acknowledged), Retry("1"));
  }

  lemma ReachesRequeued() returns (labels: seq<Label>, s: State)
    ensures Run(labels) == Some(s) && Requeued(s)
  {
    var start := ReachesOrphaned();
    OrphanedGetsReconciliation();
    RunLonger(INIT, start, EnqueueReconcile("1", "2"));
    var waiting := Next(ORPHANED, EnqueueReconcile("1", "2")).value;
    start := start + [EnqueueReconcile("1", "2")];
    RunKeepsInvariant(start, waiting);
    var settle := WaitingSettles(waiting, "2", "1");
    var settled := RunFrom(waiting, settle).value;
    RunOn(INIT, start, settle);
    RunKeepsInvariant(start + settle, settled);
    FinishesAndRetries(settled);
    RunOn(INIT, start + settle, [Finish(Acknowledged), Retry("1")]);
    labels := start + settle + [Finish(Acknowledged), Retry("1")];
    s := RunFrom(settled, [Finish(Acknowledged), Retry("1")]).value;
  }

  /** The second Apply runs beside the first one. */
  ghost predicate Overlapping(s: State) {
    && s.worker.Busy? && s.worker.phase.Running? && s.worker.phase.process != 1 && s.worker.job == Row(DEPLOY, Applying)
    && IsLiveApply(s, 1) && IsLiveApply(s, s.worker.phase.process)
    && s.trace[1].id == "1" && s.trace[s.worker.phase.process].id == "1"
    && s.store.Keys == {"1", "2"} && s.store["1"] == Row(DEPLOY, Applying) && KeySpent(s.store, "2", "1")
  }

  lemma AppliesAgain(s: State)
    requires Requeued(s)
    ensures var s' := RunFrom(s, MarkLabels("1") + [StartPlaybook]); s'.Some? && Overlapping(s'.value)
  {
    MarksApplying(s, "1");
    var marked := RunFrom(s, MarkLabels("1")).value;
    StartsMarked(marked);
    RunLonger(s, MarkLabels("1"), StartPlaybook);
  }

  /** A run in which two Apply playbooks of one job run at the same time. */
  lemma AppliesOverlap() returns (labels: seq<Label>, s: State)
    ensures Run(labels) == Some(s) && Overlapping(s)
  {
    var start, requeued := ReachesRequeued();
    AppliesAgain(requeued);
    RunOn(INIT, start, MarkLabels("1") + [StartPlaybook]);
    labels := start + (MarkLabels("1") + [StartPlaybook]);
    s := RunFrom(requeued, MarkLabels("1") + [StartPlaybook]).value;
  }

  /** A run that leaves a deployment unresolved a second time: its only reconciliation is spent. */
  lemma SecondUncertaintyGetsStuck() returns (labels: seq<Label>, s: State)
    ensures Run(labels) == Some(s) && Stuck(s, "1") && CanReconcileApply(s.store["1"].operation)
  {
    var start, overlap := AppliesOverlap();
    GivesUpApplying(overlap);
    RunOn(INIT, start, [Fail, Finish(Acknowledged)]);
    labels := start + [Fail, Finish(Acknowledged)];
    s := RunFrom(overlap, [Fail, Finish(Acknowledged)]).value;
    assert KeySpent(s.store, "2", "1");
  }
}

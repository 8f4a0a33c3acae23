/** Playbooks that outlive their run: when a live Apply is stored as Applying, and when it is not. */
module WorkerTimeouts {
  import opened Wrappers
  import opened Jobs
  import opened WorkerProtocol
  import opened WorkerInvariants
  import opened WorkerPlaybooks
  import opened WorkerTheorems
  import opened Recovery

  predicate IsLiveApply(s: State, k: nat) {
    k in s.live && k < |s.trace| && s.trace[k].PlaybookStarted? && s.trace[k].mode == Apply
  }

  predicate StoredApplying(s: State, id: JobId) {
    id in s.store && s.store[id].status == Applying
  }

  /** Every Apply that still runs is stored as Applying. */
  ghost predicate UnderApplying(s: State) {
    forall k: nat :: IsLiveApply(s, k) ==> StoredApplying(s, s.trace[k].id)
  }

  /** Some Apply still runs that the worker no longer waits for. */
  ghost predicate GivenUp(s: State) {
    exists k: nat :: IsLiveApply(s, k) && k in s.abandoned
  }

  lemma AttendedIsApplying(s: State, k: nat)
    requires Base(s) && PlaybooksOk(s) && IsLiveApply(s, k) && k !in s.abandoned
    ensures k in Attended(s.worker) && StoredApplying(s, s.trace[k].id)
  {
    assert k in Attended(s.worker);
  }

  /** An Apply that still runs is waited for and stored as Applying, or the worker has given it up. */
  lemma LiveApplyIsApplyingOrGivenUp(labels: seq<Label>, s: State, k: nat)
    requires Run(labels) == Some(s) && IsLiveApply(s, k)
    ensures k in s.abandoned || (k in Attended(s.worker) && StoredApplying(s, s.trace[k].id))
  {
    RunKeepsInvariant(labels, s);
    if k !in s.abandoned {
      AttendedIsApplying(s, k);
    }
  }

  // ---- steps that give up nothing ----

  /** A crash or a timeout while the worker waits for an Apply that runs. */
  ghost predicate GivesUp(s: State, l: Label) {
    (l == Crash || l == Fail) && exists k: nat :: k in Attended(s.worker) && IsLiveApply(s, k)
  }

  ghost predicate Attentive(s: State, labels: seq<Label>) {
    && RunFrom(s, labels).Some?
    && forall i :: 0 <= i < |labels| ==>
         RunFrom(s, labels[..i]).Some? && !GivesUp(RunFrom(s, labels[..i]).value, labels[i])
  }

  lemma AttentiveStep(s: State, l: Label)
    requires PlaybooksOk(s) && !GivenUp(s) && !GivesUp(s, l) && Next(s, l).Some?
    ensures !GivenUp(Next(s, l).value)
  {
    var s' := Next(s, l).value;
    StepKeepsHistory(s, l);
    forall k: nat | IsLiveApply(s', k) ensures k !in s'.abandoned {
      ProcessesOfStep(s, l, k);
      if k < |s.trace| {
        assert s'.trace[k] == s.trace[k];
        assert !(IsLiveApply(s, k) && k in s.abandoned);
      }
    }
  }

  /** A live process lived before or has just started; only a crash or a failure abandons one. */
  lemma ProcessesOfStep(s: State, l: Label, k: nat)
    requires PlaybooksOk(s) && Next(s, l).Some? && k in Next(s, l).value.live
    ensures k in s.live || k == |s.trace|
    ensures k in Next(s, l).value.abandoned ==>
              k in s.abandoned || (k in Attended(s.worker) && (l == Crash || l == Fail))
  {
  }

  lemma AttentivePrefix(s: State, labels: seq<Label>)
    requires labels != [] && Attentive(s, labels)
    ensures Attentive(s, labels[..|labels| - 1])
    ensures !GivesUp(RunFrom(s, labels[..|labels| - 1]).value, labels[|labels| - 1])
  {
    var shorter := labels[..|labels| - 1];
    forall i | 0 <= i < |shorter|
      ensures RunFrom(s, shorter[..i]).Some? && !GivesUp(RunFrom(s, shorter[..i]).value, shorter[i])
    {
      assert shorter[..i] == labels[..i];
    }
  }

  lemma {:induction false} AttentiveRun(s: State, labels: seq<Label>)
    requires Invariant(s) && !GivenUp(s) && Attentive(s, labels)
    ensures !GivenUp(RunFrom(s, labels).value)
  {
    if labels != [] {
      var shorter := labels[..|labels| - 1];
      AttentivePrefix(s, labels);
      AttentiveRun(s, shorter);
      StepsKeepInvariant(s, shorter);
      AttentiveStep(RunFrom(s, shorter).value, labels[|labels| - 1]);
    }
  }

  lemma NotGivenUpIsApplying(s: State)
    requires Base(s) && PlaybooksOk(s) && !GivenUp(s)
    ensures UnderApplying(s)
  {
    forall k: nat | IsLiveApply(s, k) ensures StoredApplying(s, s.trace[k].id) {
      AttendedIsApplying(s, k);
    }
  }

  // ---- an Apply that was given up is soon stored as something else ----

  lemma AttentiveOn(s: State, labels: seq<Label>, l: Label)
    requires Attentive(s, labels) && !GivesUp(RunFrom(s, labels).value, l) && Next(RunFrom(s, labels).value, l).Some?
    ensures Attentive(s, labels + [l])
  {
    var longer := labels + [l];
    RunLonger(s, labels, l);
    forall i | 0 <= i < |longer|
      ensures RunFrom(s, longer[..i]).Some? && !GivesUp(RunFrom(s, longer[..i]).value, longer[i])
    {
      assert i < |labels| ==> longer[..i] == labels[..i];
      assert i == |labels| ==> longer[..i] == labels;
    }
  }

  lemma {:induction false} CalmIsAttentive(s: State, start: seq<Label>, labels: seq<Label>)
    requires Attentive(s, start) && RunFrom(s, start + labels).Some?
    requires Calm(labels)
    ensures Attentive(s, start + labels)
  {
    if labels == [] {
      assert start + labels == start;
    } else {
      var shorter, last := labels[..|labels| - 1], labels[|labels| - 1];
      assert start + labels == (start + shorter) + [last];
      RunLonger(s, start + shorter, last);
      CalmIsAttentive(s, start, shorter);
      AttentiveOn(s, start + shorter, last);
    }
  }

  lemma NothingIsAttentive(s: State)
    ensures Attentive(s, [])
  {
  }

  lemma CrashIsAttentive(s: State, start: seq<Label>)
    requires Attentive(s, start) && Attended(RunFrom(s, start).value.worker) == {}
    ensures Attentive(s, start + [Crash])
  {
    AttentiveOn(s, start, Crash);
  }

  /** Lets the playbook that the worker waits for end. */
  lemma WaitForPlaybook(s: State) returns (labels: seq<Label>)
    requires Invariant(s)
    ensures Attentive(s, labels)
    ensures var s' := RunFrom(s, labels).value;
            && Attended(s'.worker) == {} && s'.store == s.store && s.trace <= s'.trace
            && s'.abandoned == s.abandoned && s'.live == s.live - Attended(s.worker)
  {
    NothingIsAttentive(s);
    labels := [];
    if s.worker.Busy? && s.worker.phase.Running? {
      ExitKeepsRest(s);
      AttentiveOn(s, [], PlaybookExit(false, "", true));
      RunLonger(s, [], PlaybookExit(false, "", true));
      labels := [] + [PlaybookExit(false, "", true)];
    }
  }

  lemma ExitKeepsRest(s: State)
    requires s.worker.Busy? && s.worker.phase.Running?
    ensures var s' := Next(s, PlaybookExit(false, "", true));
            && s'.Some? && Attended(s'.value.worker) == {} && s'.value.store == s.store && s.trace <= s'.value.trace
            && s'.value.abandoned == s.abandoned && s'.value.live == s.live - Attended(s.worker)
  {
  }

  lemma RecoverAttentively(s: State) returns (labels: seq<Label>)
    requires Invariant(s)
    ensures Attentive(s, labels)
    ensures var s' := RunFrom(s, labels).value;
            && s'.worker == Idle && s'.store == Recovered(s.store) && s.trace <= s'.trace
            && s'.live == s.live - Attended(s.worker) && s.abandoned <= s'.abandoned
  {
    var wait := WaitForPlaybook(s);
    var waited := RunFrom(s, wait).value;
    StepsKeepInvariant(s, wait);
    var recover := RecoveryRuns(waited);
    RunOn(s, wait, recover);
    CrashThenCalm(s, wait, recover);
    labels := wait + recover;
  }

  lemma CrashThenCalm(s: State, wait: seq<Label>, recover: seq<Label>)
    requires Attentive(s, wait) && Attended(RunFrom(s, wait).value.worker) == {} && RunFrom(s, wait + recover).Some?
    requires |recover| > 0 && recover[0] == Crash && Calm(recover[1..])
    ensures Attentive(s, wait + recover)
  {
    CrashIsAttentive(s, wait);
    TakeFirst(wait, recover);
    CalmIsAttentive(s, wait + [recover[0]], recover[1..]);
  }

  lemma TakeFirst(wait: seq<Label>, recover: seq<Label>)
    requires |recover| > 0
    ensures wait + recover == (wait + [recover[0]]) + recover[1..]
  {
  }

  lemma GivenUpShows(s: State) returns (labels: seq<Label>)
    requires Invariant(s) && GivenUp(s)
    ensures Attentive(s, labels) && !UnderApplying(RunFrom(s, labels).value)
  {
    var k: nat :| IsLiveApply(s, k) && k in s.abandoned;
    labels := RecoverAttentively(s);
    StillRuns(s, RunFrom(s, labels).value, k);
  }

  lemma StillRuns(s: State, s': State, k: nat)
    requires PlaybooksOk(s) && IsLiveApply(s, k) && k in s.abandoned
    requires s'.store == Recovered(s.store) && s.trace <= s'.trace && s'.live == s.live - Attended(s.worker)
    ensures !UnderApplying(s')
  {
    assert s'.trace[k] == s.trace[k];
    assert IsLiveApply(s', k) && !StoredApplying(s', s'.trace[k].id);
  }

  /**
   As long as nothing further is given up, every Apply that runs is stored as Applying, now and later,
   if and only if no Apply that still runs has been given up.
   */
  lemma ApplyingExactly(labels: seq<Label>, s: State)
    requires Run(labels) == Some(s)
    ensures (forall later :: Attentive(s, later) ==> UnderApplying(RunFrom(s, later).value)) <==> !GivenUp(s)
  {
    RunKeepsInvariant(labels, s);
    if GivenUp(s) {
      var later := GivenUpShows(s);
      assert Attentive(s, later);
    } else {
      forall later | Attentive(s, later) ensures UnderApplying(RunFrom(s, later).value) {
        AttentiveRun(s, later);
        StepsKeepInvariant(s, later);
        NotGivenUpIsApplying(RunFrom(s, later).value);
      }
    }
  }
}

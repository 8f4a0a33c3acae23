/** How often the coordinator lets a package update be applied. */
module CoordinatorOnce {
  import opened Wrappers
  import opened Jobs
  import opened Requests
  import opened Coordinator
  import opened CoordinatorIntegrity
  import opened CoordinatorLog
  import opened CoordinatorAnswers
  import CoordinatorWitness

  ghost predicate IsPackageUpdate(c: State, id: JobId) {
    id in c.jobs && PackageUpdate(c.jobs[id])
  }

  ghost predicate FailedUpdate(c: State, id: JobId) {
    IsPackageUpdate(c, id) && c.jobs[id].status == Failed
  }

  /** A Failed job is sent back to the queue as a plain transition, around the guard of `retry`. */
  predicate Requeues(c: State, call: Call, id: JobId) {
    call == TransitionCall(id, Queued) && id in c.jobs && c.jobs[id].status == Failed
  }

  /** The job's target is removed, and the job with it. */
  predicate Removes(c: State, call: Call, id: JobId) {
    call.RemoveCall? && id in c.jobs && c.jobs[id].target == Host(call.host) && !HasActiveJobs(c, Host(call.host))
  }

  // ---- a failed package update ----

  lemma RemovedIsGone(c: State, call: Call, id: JobId)
    requires call.RemoveCall? && id in c.jobs
    ensures Removes(c, call, id) ==> id !in After(c, call).jobs
    ensures !Removes(c, call, id) ==> Untouched(c, After(c, call), id)
  {
    if c.jobs[id].target != Host(call.host) {
      RemovalIsElsewhere(c, call.host, id);
    }
  }

  /** Other than by a retry, which is refused, a Failed job only moves back to the queue. */
  lemma FailedIsLeftAlone(c: State, call: Call, id: JobId)
    requires FailedUpdate(c, id)
    requires call.TransitionCall? || call.RecordCall? || call.RetryCall?
    ensures Untouched(c, After(c, call), id) <==> !Requeues(c, call, id)
  {
  }

  /** A failed package update changes exactly when a transition sends it back to the queue or its target is removed. */
  lemma FailedStepExactly(c: State, call: Call, id: JobId)
    requires Fresh(c, call) && FailedUpdate(c, id)
    ensures Untouched(c, After(c, call), id) <==> !Requeues(c, call, id) && !Removes(c, call, id)
  {
    match call
    case SubmitCall(_, _) => SubmissionIsElsewhere(c, call, id);
    case ReconcileCall(_, _, _) => SubmissionIsElsewhere(c, call, id);
    case RemoveCall(_) => RemovedIsGone(c, call, id);
    case _ => FailedIsLeftAlone(c, call, id);
  }

  /** Neither of the two calls is made for `id` from call `i` up to call `j`. */
  ghost predicate Spared(c: State, calls: seq<Call>, id: JobId, i: nat, j: nat)
    requires i <= j <= |calls|
  {
    forall k :: i <= k < j ==>
      !Requeues(AfterAll(c, calls[..k]), calls[k], id) && !Removes(AfterAll(c, calls[..k]), calls[k], id)
  }

  lemma StepOf(c: State, calls: seq<Call>, k: nat)
    requires k < |calls|
    ensures AfterAll(c, calls[..k + 1]) == After(AfterAll(c, calls[..k]), calls[k])
  {
    assert calls[..k + 1][..k] == calls[..k];
  }

  lemma UntouchedChains(a: State, b: State, c: State, id: JobId)
    requires FailedUpdate(a, id) && Untouched(a, b, id)
    ensures FailedUpdate(b, id)
    ensures Untouched(b, c, id) ==> Untouched(a, c, id)
  {
  }

  /** Once Failed, a package update and its log stay as they are until one of the two calls is made. */
  lemma {:induction false} FailedForever(c: State, calls: seq<Call>, id: JobId, i: nat, j: nat)
    requires FreshRun(c, calls) && i <= j <= |calls| && Spared(c, calls, id, i, j)
    requires FailedUpdate(AfterAll(c, calls[..i]), id)
    ensures Untouched(AfterAll(c, calls[..i]), AfterAll(c, calls[..j]), id)
  {
    if i < j {
      var from, last := AfterAll(c, calls[..i]), AfterAll(c, calls[..j - 1]);
      FailedForever(c, calls, id, i, j - 1);
      StepOf(c, calls, j - 1);
      UntouchedChains(from, last, AfterAll(c, calls[..j]), id);
      FailedStepExactly(last, calls[j - 1], id);
    }
  }

  // ---- a package update enters Applying once ----

  function Stage(status: Status): (n: nat) {
    match status
    case Queued => 0
    case Checking => 1
    case Planned => 2
    case Applying => 3
    case ReconcileRequired => 4
    case Succeeded => 5
    case Failed => 5
    case Aborted => 5
  }

  ghost predicate Onward(c: State, c': State, id: JobId) {
    && id in c.jobs && id in c'.jobs
    && c'.jobs[id] == c.jobs[id].(status := c'.jobs[id].status)
    && Stage(c.jobs[id].status) <= Stage(c'.jobs[id].status)
  }

  lemma CallGoesOnward(c: State, call: Call, id: JobId)
    requires IsPackageUpdate(c, id) && (call.TransitionCall? || call.RecordCall? || call.RetryCall?)
    requires !Requeues(c, call, id)
    ensures Onward(c, After(c, call), id)
  {
  }

  lemma StepGoesOnward(c: State, call: Call, id: JobId)
    requires Fresh(c, call) && IsPackageUpdate(c, id) && !Requeues(c, call, id) && !Removes(c, call, id)
    ensures Onward(c, After(c, call), id)
  {
    match call
    case SubmitCall(_, _) => SubmissionIsElsewhere(c, call, id);
    case ReconcileCall(_, _, _) => SubmissionIsElsewhere(c, call, id);
    case RemoveCall(_) => RemovedIsGone(c, call, id);
    case _ => CallGoesOnward(c, call, id);
  }

  lemma OnwardChains(a: State, b: State, c: State, id: JobId)
    requires Onward(a, b, id) && Onward(b, c, id)
    ensures Onward(a, c, id)
  {
  }

  lemma OnwardKeepsKind(a: State, b: State, id: JobId)
    requires IsPackageUpdate(a, id) && Onward(a, b, id)
    ensures IsPackageUpdate(b, id)
  {
  }

  lemma {:induction false} RunGoesOnward(c: State, calls: seq<Call>, id: JobId, i: nat, j: nat)
    requires FreshRun(c, calls) && i <= j <= |calls| && Spared(c, calls, id, i, j)
    requires IsPackageUpdate(AfterAll(c, calls[..i]), id)
    ensures Onward(AfterAll(c, calls[..i]), AfterAll(c, calls[..j]), id)
  {
    if i < j {
      var from, last := AfterAll(c, calls[..i]), AfterAll(c, calls[..j - 1]);
      RunGoesOnward(c, calls, id, i, j - 1);
      StepOf(c, calls, j - 1);
      OnwardKeepsKind(from, last, id);
      StepGoesOnward(last, calls[j - 1], id);
      OnwardChains(from, last, AfterAll(c, calls[..j]), id);
    }
  }

  /** Call `k` of the run takes job `id` into Applying. */
  ghost predicate Enters(c: State, calls: seq<Call>, k: nat, id: JobId)
    requires k < |calls|
  {
    var before, after := AfterAll(c, calls[..k]), AfterAll(c, calls[..k + 1]);
    && id in before.jobs && before.jobs[id].status != Applying
    && id in after.jobs && after.jobs[id].status == Applying
  }

  lemma EnteredFrom(c: State, call: Call, id: JobId)
    requires Fresh(c, call) && id in c.jobs && id in After(c, call).jobs
    requires c.jobs[id].status != Applying && After(c, call).jobs[id].status == Applying
    ensures call == TransitionCall(id, Applying) && c.jobs[id].status == Planned
  {
    match call
    case SubmitCall(_, _) => SubmissionIsElsewhere(c, call, id);
    case ReconcileCall(_, _, _) => SubmissionIsElsewhere(c, call, id);
    case RemoveCall(_) => RemovedIsGone(c, call, id);
    case _ =>
  }

  lemma EntersFrom(c: State, calls: seq<Call>, k: nat, id: JobId)
    requires FreshRun(c, calls) && k < |calls| && Enters(c, calls, k, id)
    ensures AfterAll(c, calls[..k]).jobs[id].status == Planned
    ensures AfterAll(c, calls[..k + 1]).jobs[id] == AfterAll(c, calls[..k]).jobs[id].(status := Applying)
  {
    StepOf(c, calls, k);
    EnteredFrom(AfterAll(c, calls[..k]), calls[k], id);
  }

  /** Between two entries of one package update into Applying it was put back into the queue or removed. */
  lemma AppliedOnce(c: State, calls: seq<Call>, id: JobId, i: nat, j: nat)
    requires FreshRun(c, calls) && i < j < |calls| && IsPackageUpdate(AfterAll(c, calls[..i]), id)
    requires Enters(c, calls, i, id) && Enters(c, calls, j, id)
    ensures !Spared(c, calls, id, i + 1, j)
  {
    if Spared(c, calls, id, i + 1, j) {
      EntersFrom(c, calls, i, id);
      EntersFrom(c, calls, j, id);
      RunGoesOnward(c, calls, id, i + 1, j);
    }
  }

  // ---- the transition around the guard ----

  /** From every state with a failed package update three transitions apply it again. */
  lemma FailedIsAppliedAgain(c: State, id: JobId)
    requires FailedUpdate(c, id)
    ensures var again := After(After(c, TransitionCall(id, Queued)), TransitionCall(id, Planned));
            && id in again.jobs && again.jobs[id].status == Planned
            && After(again, TransitionCall(id, Applying)).jobs == c.jobs[id := c.jobs[id].(status := Applying)]
  {
  }

  const UPDATE := Request(
    UpdatePackages, Host("h"), Managed, Apply, UpdatePackagesParameters(["d"]), ["s"], "d", true, Operator)

  function Update(status: Status): (job: Job) {
    Job("1", UpdatePackages, Host("h"), Apply, UpdatePackagesParameters(["d"]), ["s"], "d", status)
  }

  lemma UpdateAccepted()
    ensures FromRequest(UPDATE, "1") == Ok(Update(Queued))
  {
    CoordinatorWitness.OneLetter("d");
    assert ["d"] != ["*"] && "*" !in ["d"];
  }

  ghost predicate Only(c: State, status: Status) {
    c.jobs == map["1" := Update(status)]
  }

  lemma UpdateSubmits()
    ensures Only(After(EMPTY, SubmitCall(UPDATE, "1")), Queued)
  {
    UpdateAccepted();
  }

  lemma UpdateMoves(c: State, from: Status, to: Status)
    requires Only(c, from) && CanTransition(from, to) && to != Checking
    ensures Only(After(c, TransitionCall("1", to)), to)
  {
  }

  /** One more transition of a run. */
  lemma Longer(calls: seq<Call>, from: Status, to: Status) returns (longer: seq<Call>)
    requires FreshRun(EMPTY, calls) && Only(AfterAll(EMPTY, calls), from) && CanTransition(from, to) && to != Checking
    ensures longer == calls + [TransitionCall("1", to)]
    ensures FreshRun(EMPTY, longer) && Only(AfterAll(EMPTY, longer), to)
  {
    UpdateMoves(AfterAll(EMPTY, calls), from, to);
    CoordinatorWitness.Longer(calls, TransitionCall("1", to));
    longer := calls + [TransitionCall("1", to)];
  }

  /** The update enters Applying. */
  lemma UpdateEnters(calls: seq<Call>) returns (longer: seq<Call>)
    requires FreshRun(EMPTY, calls) && Only(AfterAll(EMPTY, calls), Planned)
    ensures longer == calls + [TransitionCall("1", Applying)]
    ensures FreshRun(EMPTY, longer) && Only(AfterAll(EMPTY, longer), Applying)
    ensures EntersAsUpdate(longer, |calls|)
  {
    longer := Longer(calls, Planned, Applying);
    assert longer[..|calls|] == calls && longer[..|calls| + 1] == longer;
  }

  ghost predicate EntersAsUpdate(calls: seq<Call>, k: nat) {
    k < |calls| && Enters(EMPTY, calls, k, "1") && IsPackageUpdate(AfterAll(EMPTY, calls[..k]), "1")
  }

  lemma EntersStill(calls: seq<Call>, longer: seq<Call>, k: nat)
    requires EntersAsUpdate(calls, k) && calls <= longer
    ensures EntersAsUpdate(longer, k)
  {
    assert longer[..k] == calls[..k] && longer[..k + 1] == calls[..k + 1];
  }

  lemma UpdateQueued() returns (calls: seq<Call>)
    ensures |calls| == 1 && FreshRun(EMPTY, calls) && Only(AfterAll(EMPTY, calls), Queued)
  {
    UpdateSubmits();
    calls := CoordinatorWitness.Extended([], SubmitCall(UPDATE, "1"));
  }

  lemma UpdatePlanned() returns (calls: seq<Call>)
    ensures |calls| == 2 && FreshRun(EMPTY, calls) && Only(AfterAll(EMPTY, calls), Planned)
  {
    calls := UpdateQueued();
    calls := Longer(calls, Queued, Planned);
  }

  /** A package update is planned, applied and fails. */
  lemma UpdateFails() returns (calls: seq<Call>)
    ensures |calls| == 4 && FreshRun(EMPTY, calls) && Only(AfterAll(EMPTY, calls), Failed) && EntersAsUpdate(calls, 2)
  {
    var planned := UpdatePlanned();
    var applying := UpdateEnters(planned);
    calls := Longer(applying, Applying, Failed);
    EntersStill(applying, calls, 2);
  }

  /** A run in which `transition` alone lets one package update enter Applying twice. */
  lemma RunAppliesTwice() returns (calls: seq<Call>)
    ensures FreshRun(EMPTY, calls) && |calls| == 7 && calls[4] == TransitionCall("1", Queued)
    ensures EntersAsUpdate(calls, 2) && EntersAsUpdate(calls, 6)
  {
    var failed := UpdateFails();
    var queued := Longer(failed, Failed, Queued);
    var planned := Longer(queued, Queued, Planned);
    calls := UpdateEnters(planned);
    EntersStill(failed, calls, 2);
  }
}

/** The recovery pass over the job table, as the loop that the worker runs at start-up. */
module Recovery {
  import opened Wrappers
  import opened Jobs
  import opened WorkerProtocol
  import opened WorkerInvariants

  /** Every interrupted job recovered, every other row as it was. */
  function Recovered(store: Store): (r: Store) {
    map id | id in store ::
      if Executing(store[id].status) then store[id].(status := RecoveredStatus(store[id].status)) else store[id]
  }

  /** Rows `ids` recovered one after the other. */
  function RecoveredRows(store: Store, ids: seq<JobId>): (r: Store)
    requires forall i :: 0 <= i < |ids| ==> ids[i] in store
    ensures r.Keys == store.Keys
  {
    if ids == [] then store
    else
      var before := RecoveredRows(store, ids[..|ids| - 1]);
      var id := ids[|ids| - 1];
      if Executing(before[id].status)
      then before[id := before[id].(status := RecoveredStatus(before[id].status))]
      else before
  }

  lemma {:induction false} RowAfter(store: Store, ids: seq<JobId>, id: JobId)
    requires (forall i :: 0 <= i < |ids| ==> ids[i] in store) && id in store
    ensures RecoveredRows(store, ids)[id] == if id in ids then Recovered(store)[id] else store[id]
  {
    if ids != [] {
      var shorter, last := ids[..|ids| - 1], ids[|ids| - 1];
      RowAfter(store, shorter, id);
      assert id in ids <==> id in shorter || id == last;
    }
  }

  /** Cutting a pass short anywhere changes nothing about where a complete pass ends. */
  lemma CutPassIsHarmless(store: Store, ids: seq<JobId>)
    requires forall i :: 0 <= i < |ids| ==> ids[i] in store
    ensures Recovered(RecoveredRows(store, ids)) == Recovered(store)
  {
    forall id | id in store ensures Recovered(RecoveredRows(store, ids))[id] == Recovered(store)[id] {
      RowAfter(store, ids, id);
    }
  }

  lemma FullPassRecovers(store: Store, listed: seq<JobId>)
    requires Lists(store, listed)
    ensures RecoveredRows(store, listed) == Recovered(store)
  {
    forall id | id in store ensures RecoveredRows(store, listed)[id] == Recovered(store)[id] {
      RowAfter(store, listed, id);
    }
  }

  /** The table after a series of passes, each cut short after the rows it is given. */
  function AfterPasses(store: Store, passes: seq<seq<JobId>>): (r: Store)
    requires forall p, i :: 0 <= p < |passes| && 0 <= i < |passes[p]| ==> passes[p][i] in store
    ensures r.Keys == store.Keys
  {
    if passes == [] then store
    else RecoveredRows(AfterPasses(store, passes[..|passes| - 1]), passes[|passes| - 1])
  }

  /**
   Any number of interrupted passes and then any number of complete ones give the statuses of one complete pass:
   Applying became ReconcileRequired, Checking and Planned became Failed, nothing else changed.
   */
  lemma {:induction false} PassesAgree(store: Store, passes: seq<seq<JobId>>, listed: seq<JobId>)
    requires forall p, i :: 0 <= p < |passes| && 0 <= i < |passes[p]| ==> passes[p][i] in store
    requires Lists(store, listed)
    ensures RecoveredRows(AfterPasses(store, passes), listed) == Recovered(store)
    ensures Recovered(Recovered(store)) == Recovered(store)
    decreases |passes|
  {
    if passes == [] {
      FullPassRecovers(store, listed);
    } else {
      var before := AfterPasses(store, passes[..|passes| - 1]);
      PassesAgree(store, passes[..|passes| - 1], listed);
      assert Lists(before, listed);
      FullPassRecovers(before, listed);
      CutPassIsHarmless(before, passes[|passes| - 1]);
      FullPassRecovers(AfterPasses(store, passes), listed);
    }
  }

  // ---- the same for the steps of the worker ----

  predicate IsRecovery(l: Label) {
    l.Restart? || l.RecoverNext? || l.Crash?
  }

  /** A recovered row, or any row of the table as it is, does not change where a complete pass ends. */
  lemma RowKeepsRecovered(store: Store, row: Job)
    requires row.id in store
    requires row == (if Executing(store[row.id].status) then store[row.id].(status :=
        RecoveredStatus(store[row.id].status)) else store[row.id])
    ensures Recovered(store[row.id := row]) == Recovered(store)
  {
  }

  lemma RecoveryStepAgrees(s: State, l: Label)
    requires Base(s) && IsRecovery(l) && Next(s, l).Some?
    ensures Recovered(Next(s, l).value.store) == Recovered(s.store)
  {
    StepWrites(s, l);
    if l.RecoverNext? && WrittenRow(s, l).Some? {
      RowMoves(s, l);
      RowKeepsRecovered(s.store, WrittenRow(s, l).value);
    }
  }

  lemma {:induction false} RecoveryStepsAgree(s: State, labels: seq<Label>)
    requires Base(s) && RunFrom(s, labels).Some? && forall i :: 0 <= i < |labels| ==> IsRecovery(labels[i])
    ensures Base(RunFrom(s, labels).value) && Recovered(RunFrom(s, labels).value.store) == Recovered(s.store)
  {
    if labels != [] {
      var before := RunFrom(s, labels[..|labels| - 1]).value;
      RecoveryStepsAgree(s, labels[..|labels| - 1]);
      StepKeepsBase(before, labels[|labels| - 1]);
      RecoveryStepAgrees(before, labels[|labels| - 1]);
    }
  }

  lemma NothingLeftToRecover(store: Store)
    requires forall id :: id in store ==> !Executing(store[id].status)
    ensures Recovered(store) == store
  {
  }

  /**
   However often the worker crashes, restarts and loses writes on the way, once a recovery completes
   the table is the recovered one.
   */
  lemma RecoveryEndsRecovered(s: State, labels: seq<Label>)
    requires Base(s) && forall i :: 0 <= i < |labels| ==> IsRecovery(labels[i])
    requires RunFrom(s, labels + [RecoveryDone]).Some?
    ensures RunFrom(s, labels + [RecoveryDone]).value.store == Recovered(s.store)
  {
    RunLonger(s, labels, RecoveryDone);
    RecoveryStepsAgree(s, labels);
    NothingLeftToRecover(RunFrom(s, labels).value.store);
  }

  // ---- the API at work during the recovery ----

  predicate IsRecoveryOrApi(l: Label) {
    IsRecovery(l) || l.PlaybookEnds? || l.Enqueue? || l.EnqueueReconcile? || l.Retry?
  }

  /** What recovery made of the row, or that queued again by a retry. */
  predicate RecoveredOrRetried(was: Job, row: Job) {
    var recovered := if Executing(was.status) then was.(status := RecoveredStatus(was.status)) else was;
    row == recovered || (recovered.status == Failed && row == recovered.(status := Queued))
  }

  /** Each old row is as it was or as it should become, and each new one waits. */
  ghost predicate Underway(store: Store, store': Store) {
    && (forall id :: id in store ==>
          id in store' && (store'[id] == store[id] || RecoveredOrRetried(store[id], store'[id])))
    && (forall id :: id in store' && id !in store ==> store'[id].status == Queued)
  }

  lemma WrittenIsUnderway(store: Store, s: State, l: Label)
    requires Base(s) && IsRecoveryOrApi(l) && Next(s, l).Some? && Underway(store, s.store) && WrittenRow(s, l).Some?
    ensures var row := WrittenRow(s, l).value; Underway(store, s.store[row.id := row])
  {
    RowMoves(s, l);
  }

  lemma StepIsUnderway(store: Store, s: State, l: Label)
    requires Base(s) && IsRecoveryOrApi(l) && Next(s, l).Some? && Underway(store, s.store)
    ensures Underway(store, Next(s, l).value.store)
  {
    StepWrites(s, l);
    if WrittenRow(s, l).Some? {
      WrittenIsUnderway(store, s, l);
    }
  }

  lemma {:induction false} StepsAreUnderway(s: State, labels: seq<Label>)
    requires Base(s) && RunFrom(s, labels).Some? && forall i :: 0 <= i < |labels| ==> IsRecoveryOrApi(labels[i])
    ensures Base(RunFrom(s, labels).value) && Underway(s.store, RunFrom(s, labels).value.store)
  {
    if labels != [] {
      var before := RunFrom(s, labels[..|labels| - 1]).value;
      StepsAreUnderway(s, labels[..|labels| - 1]);
      StepKeepsBase(before, labels[|labels| - 1]);
      StepIsUnderway(s.store, before, labels[|labels| - 1]);
    }
  }

  /**
   With the API enqueueing and retrying all the while, a completed recovery leaves every old row recovered, or queued
   again by a retry, and every new row waiting.
   */
  lemma RecoveryBesideApi(s: State, labels: seq<Label>)
    requires Base(s) && forall i :: 0 <= i < |labels| ==> IsRecoveryOrApi(labels[i])
    requires RunFrom(s, labels + [RecoveryDone]).Some?
    ensures var store' := RunFrom(s, labels + [RecoveryDone]).value.store;
            && (forall id :: id in s.store ==> id in store' && RecoveredOrRetried(s.store[id], store'[id]))
            && (forall id :: id in store' && id !in s.store ==> store'[id].status == Queued)
  {
    RunLonger(s, labels, RecoveryDone);
    StepsAreUnderway(s, labels);
  }

  // ---- a recovery can always be completed ----

  function Sweep(n: nat): (labels: seq<Label>) {
    if n == 0 then [] else Sweep(n - 1) + [RecoverNext(Acknowledged, true)]
  }

  lemma SweepStep(s: State)
    requires Base(s) && s.worker.Recovering? && s.worker.todo != []
    ensures var next := Next(s, RecoverNext(Acknowledged, true));
            && next.Some? && next.value.worker == Recovering(s.worker.todo[1..])
            && next.value.live == s.live && next.value.abandoned == s.abandoned && s.trace <= next.value.trace
  {
  }

  lemma {:induction false} SweepRuns(s: State, n: nat)
    requires Base(s) && s.worker.Recovering? && n <= |s.worker.todo|
    ensures var swept := RunFrom(s, Sweep(n));
            && swept.Some? && Base(swept.value) && swept.value.worker == Recovering(s.worker.todo[n..])
            && swept.value.live == s.live && swept.value.abandoned == s.abandoned && s.trace <= swept.value.trace
  {
    if n == 0 {
      assert s.worker.todo[0..] == s.worker.todo;
    } else {
      SweepRuns(s, n - 1);
      var before := RunFrom(s, Sweep(n - 1)).value;
      SweepStep(before);
      StepKeepsBase(before, RecoverNext(Acknowledged, true));
      RunLonger(s, Sweep(n - 1), RecoverNext(Acknowledged, true));
      assert s.worker.todo[n - 1..][1..] == s.worker.todo[n..];
    }
  }

  lemma {:induction false} SweepRecovers(n: nat)
    ensures |Sweep(n)| == n && forall i :: 0 <= i < n ==> Sweep(n)[i] == RecoverNext(Acknowledged, true)
  {
    if n > 0 {
      SweepRecovers(n - 1);
    }
  }

  lemma {:induction false} Enumerated(keys: set<JobId>) returns (listed: seq<JobId>)
    ensures forall id :: id in listed <==> id in keys
    ensures forall i, j :: 0 <= i < j < |listed| ==> listed[i] != listed[j]
  {
    if keys == {} {
      listed := [];
    } else {
      var id :| id in keys;
      var rest := Enumerated(keys - {id});
      listed := [id] + rest;
    }
  }

  lemma CrashAndRestart(s: State, listed: seq<JobId>)
    requires RowsOk(s.store) && Lists(s.store, listed)
    ensures var restarted := RunFrom(s, [Crash, Restart(listed)]);
            && restarted.Some? && Base(restarted.value) && restarted.value.worker == Recovering(Rows(s.store, listed))
            && restarted.value.store == s.store && restarted.value.trace == s.trace
            && restarted.value.live == s.live && restarted.value.abandoned == s.abandoned + Attended(s.worker)
  {
    RunOne(s, Crash);
    RunLonger(s, [Crash], Restart(listed));
    assert [Crash, Restart(listed)] == [Crash] + [Restart(listed)];
    ListedRowsAreTodo(s.store, listed);
  }

  /** Steps that crash the worker, restart it and visit every row. */
  function CrashAndSweep(listed: seq<JobId>): (labels: seq<Label>) {
    [Crash, Restart(listed)] + Sweep(|listed|)
  }

  lemma CrashAndSweepRuns(s: State, listed: seq<JobId>)
    requires RowsOk(s.store) && Lists(s.store, listed)
    ensures var swept := RunFrom(s, CrashAndSweep(listed));
            && swept.Some? && swept.value.worker == Recovering([]) && s.trace <= swept.value.trace
            && swept.value.live == s.live && swept.value.abandoned == s.abandoned + Attended(s.worker)
  {
    CrashAndRestart(s, listed);
    SweepRuns(RunFrom(s, [Crash, Restart(listed)]).value, |listed|);
    RunOn(s, [Crash, Restart(listed)], Sweep(|listed|));
  }

  /** From every state the worker can be brought back to work with the table recovered. */
  lemma RecoveryRuns(s: State) returns (labels: seq<Label>)
    requires Base(s)
    ensures |labels| > 0 && labels[0] == Crash && forall i :: 0 < i < |labels| ==>
        labels[i] != Crash && labels[i] != Fail
    ensures var s' := RunFrom(s, labels);
            && s'.Some? && s'.value.worker == Idle && s'.value.store == Recovered(s.store)
            && s'.value.live == s.live && s'.value.abandoned == s.abandoned + Attended(s.worker)
            && s.trace <= s'.value.trace
  {
    var listed := Enumerated(s.store.Keys);
    var recovery := CrashAndSweep(listed);
    CrashAndSweepRuns(s, listed);
    SweepRecovers(|listed|);
    RunLonger(s, recovery, RecoveryDone);
    RecoveryEndsRecovered(s, recovery);
    labels := recovery + [RecoveryDone];
  }

  // ---- the loop itself ----

  /** What the loop does with one listed job. */
  function VisitedRow(rows: Store, job: Job): (r: Store) {
    if Executing(job.status) then rows[job.id := job.(status := RecoveredStatus(job.status))] else rows
  }

  lemma NextRow(store: Store, listed: seq<JobId>, n: nat)
    requires RowsOk(store) && Lists(store, listed) && n < |listed|
    ensures RecoveredRows(store, listed[..n + 1]) == VisitedRow(RecoveredRows(store, listed[..n]), store[listed[n]])
  {
    assert listed[..n + 1][..n] == listed[..n];
    RowAfter(store, listed[..n], listed[n]);
  }

  lemma PassEnds(store: Store, listed: seq<JobId>, n: nat)
    requires Lists(store, listed) && n <= |listed|
    ensures Recovered(RecoveredRows(store, listed[..n])) == Recovered(store)
    ensures n == |listed| ==> listed[..n] == listed && RecoveredRows(store, listed[..n]) == Recovered(store)
  {
    CutPassIsHarmless(store, listed[..n]);
    if n == |listed| {
      assert listed[..n] == listed;
      FullPassRecovers(store, listed);
    }
  }

  class JobTable {
    var rows: Store

    constructor ()
      ensures rows == map[]
    {
      rows := map[];
    }

    method Update(job: Job)
      modifies this
      ensures rows == old(rows)[job.id := job]
    {
      rows := rows[job.id := job];
    }

    /** Both status transitions are legal, so neither `expect` in the loop can fire. */
    method Visit(job: Job)
      modifies this
      ensures rows == VisitedRow(old(rows), job)
    {
      if job.status == Checking || job.status == Planned || job.status == Applying {
        var next := if job.status == Applying then ReconcileRequired else Failed;
        assert CanTransition(job.status, next);
        Update(job.(status := next));
      }
    }

    /** The start-up loop. The list is read once; the process dies when `survives` rows have been visited. */
    method RecoverInterruptedJobs(listed: seq<JobId>, survives: nat) returns (completed: bool)
      requires RowsOk(rows) && Lists(rows, listed)
      modifies this
      ensures completed <==> |listed| <= survives
      ensures rows == RecoveredRows(old(rows), if completed then listed else listed[..survives])
      ensures completed ==> rows == Recovered(old(rows))
      ensures Recovered(rows) == Recovered(old(rows))
    {
      var jobs := Rows(rows, listed);
      var n := 0;
      while n < |jobs| && n < survives
        invariant 0 <= n <= |jobs| && n <= survives
        invariant rows == RecoveredRows(old(rows), listed[..n])
      {
        NextRow(old(rows), listed, n);
        Visit(jobs[n]);
        n := n + 1;
      }
      completed := n == |jobs|;
      PassEnds(old(rows), listed, n);
    }
  }
}

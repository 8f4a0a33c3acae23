/** What every step of the worker protocol keeps. */
module WorkerInvariants {
  import opened Wrappers
  import opened Jobs
  import opened WorkerProtocol

  ghost predicate RowsOk(store: Store) {
    forall id :: id in store ==>
      && store[id].id == id
      && (store[id].status == Applying || store[id].status == ReconcileRequired ==> store[id].mode == Apply)
      && (store[id].status in {Planned, Applying, ReconcileRequired} ==> store[id].target.Host?)
  }

  /** The same job, perhaps at another status. */
  predicate SameJob(a: Job, b: Job) {
    a.(status := b.status) == b
  }

  predicate SourceOk(store: Store, job: Job, source: Job) {
    job.mode == Reconcile && FindSource(store, job) == Some(source)
  }

  /** How far the volatile copy may be ahead of the stored row in each phase. */
  ghost predicate PhaseOk(store: Store, job: Job, phase: Phase)
    requires job.id in store
  {
    match phase
    case Claimed => store[job.id] == job && job.status == Checking
    case PlanStored => store[job.id] == job && job.status == Planned
    case SourceLoaded(source) => store[job.id] == job && job.status == Planned && SourceOk(store, job, source)
    case ApplyStored => store[job.id] == job && job.status == Applying && job.mode == Apply
    case Running(reconciles, _) =>
      && store[job.id] == job
      && HasPlaybook(job.operation)
      && job.status == (if job.mode == Apply then Applying else Planned)
      && (job.mode == Reconcile <==> reconciles.Some?)
      && (reconciles.Some? ==> SourceOk(store, job, reconciles.value))
    case Settling(source, _) =>
      store[job.id] == job && job.status == Planned && HasPlaybook(job.operation) && SourceOk(store, job, source)
    case Finishing(ok) =>
      && (ok ==>
            && HasPlaybook(job.operation) && store[job.id] == job
            && job.status == (if job.mode == Apply then Applying else Planned))
      && (job.status == Applying ==> job.mode == Apply)
      && (store[job.id].status == Applying ==> job.status == Applying)
  }

  /** The rows still to recover are current, distinct, and include every interrupted job. */
  ghost predicate TodoOk(store: Store, todo: seq<Job>) {
    && (forall i :: 0 <= i < |todo| && Executing(todo[i].status) ==>
        todo[i].id in store && store[todo[i].id] == todo[i])
    && (forall i, j :: 0 <= i < j < |todo| ==> todo[i].id != todo[j].id)
    && forall id :: id in store && Executing(store[id].status) ==> exists i :: 0 <= i < |todo| && todo[i] == store[id]
  }

  ghost predicate WorkerOk(store: Store, worker: Worker) {
    match worker
    case Down => true
    case Idle => true
    case Panicked => false
    case Recovering(todo) => TodoOk(store, todo)
    case Busy(job, phase) =>
      && job.id in store
      && SameJob(store[job.id], job)
      && Executing(job.status) && (job.status != Checking ==> job.target.Host?)
      && Executing(store[job.id].status)
      && PhaseOk(store, job, phase)
  }

  ghost predicate Base(s: State) {
    RowsOk(s.store) && WorkerOk(s.store, s.worker)
  }

  lemma SourceFacts(store: Store, job: Job, source: Job)
    requires RowsOk(store) && SourceOk(store, job, source)
    ensures source.id in store && store[source.id] == source && CanBeReconciled(source)
    ensures source.target == job.target && source.operation == job.operation && job.key == ReconcileKey(source.id)
    ensures source.id != job.id || (job.id in store && store[job.id] != job)
  {
    KeyNamesItsSource(source.id, job.key);
  }

  /** A row change elsewhere leaves a loaded source in place. */
  lemma SourceStays(store: Store, store': Store, job: Job, source: Job)
    requires RowsOk(store) && SourceOk(store, job, source)
    requires source.id in store' && store'[source.id] == source
    ensures SourceOk(store', job, source)
  {
    SourceFacts(store, job, source);
    KeyNamesItsSource(source.id, job.key);
  }

  /** Queueing a row that was new or failed leaves every phase of the worker as it was. */
  lemma QueueKeepsPhase(store: Store, row: Job, job: Job, phase: Phase)
    requires RowsOk(store) && row.status == Queued && (row.id in store ==> store[row.id].status == Failed)
    requires job.id in store && Executing(store[job.id].status) && PhaseOk(store, job, phase)
    ensures PhaseOk(store[row.id := row], job, phase)
  {
    var store' := store[row.id := row];
    if phase.SourceLoaded? || phase.Settling? {
      SourceFacts(store, job, phase.source);
      SourceStays(store, store', job, phase.source);
    } else if phase.Running? && phase.reconciles.Some? {
      SourceFacts(store, job, phase.reconciles.value);
      SourceStays(store, store', job, phase.reconciles.value);
    }
  }

  lemma QueueKeepsTodo(store: Store, row: Job, todo: seq<Job>)
    requires TodoOk(store, todo) && row.status == Queued && (row.id in store ==> store[row.id].status == Failed)
    ensures TodoOk(store[row.id := row], todo)
  {
  }

  /** API steps touch only rows that no worker holds. */
  lemma ApiKeepsBase(s: State, l: Label)
    requires Base(s) && (l.Enqueue? || l.EnqueueReconcile? || l.Retry?) && Next(s, l).Some?
    ensures Base(Next(s, l).value)
  {
    var row := WrittenRow(s, l).value;
    match s.worker
    case Busy(job, phase) => QueueKeepsPhase(s.store, row, job, phase);
    case Recovering(todo) => QueueKeepsTodo(s.store, row, todo);
    case _ =>
  }

  lemma ListedRowsAreTodo(store: Store, listed: seq<JobId>)
    requires RowsOk(store) && Lists(store, listed)
    ensures TodoOk(store, Rows(store, listed))
  {
    var todo := Rows(store, listed);
    forall id | id in store && Executing(store[id].status) ensures exists i :: 0 <= i < |todo| && todo[i] == store[id] {
      var i :| 0 <= i < |listed| && listed[i] == id;
      assert todo[i] == store[id];
    }
  }

  /** Once the first row is out of its executing status, the others are what is left to do. */
  lemma TodoShrinks(store: Store, store': Store, todo: seq<Job>)
    requires RowsOk(store) && TodoOk(store, todo) && todo != []
    requires store' == store || (todo[0].id in store' && store' == store[todo[0].id := store'[todo[0].id]])
    requires todo[0].id in store' ==> !Executing(store'[todo[0].id].status)
    requires Executing(todo[0].status) ==> todo[0].id in store'
    ensures TodoOk(store', todo[1..])
  {
    forall id | id in store' && Executing(store'[id].status)
      ensures exists i :: 0 <= i < |todo[1..]| && todo[1..][i] == store'[id]
    {
      var i :| 0 <= i < |todo| && todo[i] == store[id];
      assert i > 0;
      assert todo[1..][i - 1] == store'[id];
    }
  }

  lemma RecoveryKeepsBase(s: State, l: Label)
    requires Base(s) && (l.Restart? || l.RecoverNext? || l.RecoveryDone?) && Next(s, l).Some?
    ensures Base(Next(s, l).value)
  {
    var s' := Next(s, l).value;
    match l
    case Restart(listed) => ListedRowsAreTodo(s.store, listed);
    case RecoverNext(write, logged) =>
      if s'.worker.Recovering? {
        TodoShrinks(s.store, s'.store, s.worker.todo);
      }
    case RecoveryDone =>
  }

  lemma StoringKeepsBase(s: State, l: Label)
    requires Base(s) && s.worker.Busy? && (l.StorePlanned? || l.StoreApplying? || l.Finish?)
    requires BusyStep(s, s.worker.job, s.worker.phase, l).Some?
    ensures Base(BusyStep(s, s.worker.job, s.worker.phase, l).value)
  {
  }

  lemma SettlingKeepsBase(s: State, next: Status, write: Write, logged: bool)
    requires Base(s) && s.worker.Busy? && s.worker.phase.Settling? && (next == Succeeded || next == Failed)
    ensures Base(SettleStep(s, s.worker.job, s.worker.phase.source, next, write, logged))
  {
    SourceFacts(s.store, s.worker.job, s.worker.phase.source);
  }

  lemma BusyKeepsBase(s: State, l: Label)
    requires Base(s) && s.worker.Busy? && BusyStep(s, s.worker.job, s.worker.phase, l).Some?
    ensures Base(BusyStep(s, s.worker.job, s.worker.phase, l).value)
  {
    if l.StorePlanned? || l.StoreApplying? || l.Finish? {
      StoringKeepsBase(s, l);
    } else if l.SettleSource? {
      SettlingKeepsBase(s, Verdict(s.worker.phase.stdout), l.write, l.logged);
    }
  }

  lemma StepKeepsBase(s: State, l: Label)
    requires Base(s) && Next(s, l).Some?
    ensures Base(Next(s, l).value)
  {
    match l
    case Enqueue(_) => ApiKeepsBase(s, l);
    case EnqueueReconcile(_, _) => ApiKeepsBase(s, l);
    case Retry(_) => ApiKeepsBase(s, l);
    case Restart(_) => RecoveryKeepsBase(s, l);
    case RecoverNext(_, _) => RecoveryKeepsBase(s, l);
    case RecoveryDone => RecoveryKeepsBase(s, l);
    case Crash =>
    case PlaybookEnds(_) =>
    case Claim(_) =>
    case _ => BusyKeepsBase(s, l);
  }

  // ---- each step writes at most one row ----

  /** The row that a step would write. */
  function WrittenRow(s: State, l: Label): (row: Option<Job>)
    requires Next(s, l).Some?
  {
    match l
    case Enqueue(job) => Some(job)
    case EnqueueReconcile(source, id) => Some(Reconciliation(s.store[source], id))
    case Retry(id) => Some(s.store[id].(status := Queued))
    case RecoverNext(_, _) =>
      var row := s.worker.todo[0];
      if Executing(row.status) then Some(row.(status := RecoveredStatus(row.status))) else None
    case Claim(id) => Some(s.store[id].(status := Checking))
    case StorePlanned(_, _) => Some(s.worker.job.(status := Planned))
    case StoreApplying(_, _) => Some(s.worker.job.(status := Applying))
    case SettleSource(_, _) => Some(s.worker.phase.source.(status := Verdict(s.worker.phase.stdout)))
    case Finish(_) => Some(s.worker.job.(status := OutcomeStatus(s.worker.job, s.worker.phase.ok)))
    case _ => None
  }

  /** The status changes of stored rows that each step may make. */
  predicate MayMove(l: Label, from: Status, to: Status) {
    match l
    case Retry(_) => from == Failed && to == Queued
    case RecoverNext(_, _) => Executing(from) && to == RecoveredStatus(from)
    case Claim(_) => from == Queued && to == Checking
    case StorePlanned(_, _) => from == Checking && to == Planned
    case StoreApplying(_, _) => from == Planned && to == Applying
    case SettleSource(_, _) => from == ReconcileRequired && (to == Succeeded || to == Failed)
    case Finish(_) =>
      Executing(from) && (to == Succeeded || to == ReconcileRequired || (to == Failed && from != Applying))
    case _ => false
  }

  /** The table is as it was, or the step's row has been stored. */
  ghost predicate WroteAtMost(store: Store, store': Store, row: Option<Job>) {
    store' == store || (row.Some? && store' == store[row.value.id := row.value])
  }

  lemma BusyWrites(s: State, l: Label)
    requires Next(s, l).Some? && (l.StorePlanned? || l.StoreApplying? || l.SettleSource? || l.Finish?)
    ensures WroteAtMost(s.store, Next(s, l).value.store, WrittenRow(s, l))
  {
  }

  lemma OtherWrites(s: State, l: Label)
    requires RowsOk(s.store) && Next(s, l).Some?
    requires !(l.StorePlanned? || l.StoreApplying? || l.SettleSource? || l.Finish?)
    ensures WroteAtMost(s.store, Next(s, l).value.store, WrittenRow(s, l))
  {
  }

  lemma StepWrites(s: State, l: Label)
    requires RowsOk(s.store) && Next(s, l).Some?
    ensures WroteAtMost(s.store, Next(s, l).value.store, WrittenRow(s, l))
  {
    if l.StorePlanned? || l.StoreApplying? || l.SettleSource? || l.Finish? {
      BusyWrites(s, l);
    } else {
      OtherWrites(s, l);
    }
  }

  lemma ApiRowMoves(s: State, l: Label)
    requires Base(s) && Next(s, l).Some? && (l.Retry? || l.RecoverNext? || l.Claim?) && WrittenRow(s, l).Some?
    ensures var row := WrittenRow(s, l).value;
            row.id in s.store && SameJob(s.store[row.id], row) && MayMove(l, s.store[row.id].status, row.status)
  {
  }

  lemma BusyRowMoves(s: State, l: Label)
    requires Base(s) && Next(s, l).Some? && (l.StorePlanned? || l.StoreApplying? || l.SettleSource? || l.Finish?)
    ensures var row := WrittenRow(s, l).value;
            row.id in s.store && SameJob(s.store[row.id], row) && MayMove(l, s.store[row.id].status, row.status)
  {
    if l.SettleSource? {
      SourceFacts(s.store, s.worker.job, s.worker.phase.source);
    }
  }

  /** Every row that a step changes is a new queued job or keeps all but its status, along one of the listed moves. */
  lemma RowMoves(s: State, l: Label)
    requires Base(s) && Next(s, l).Some? && WrittenRow(s, l).Some?
    ensures var row := WrittenRow(s, l).value;
            if l.Enqueue? || l.EnqueueReconcile? then row.id !in s.store && row.status == Queued
            else row.id in s.store && SameJob(s.store[row.id], row) && MayMove(l, s.store[row.id].status, row.status)
  {
    match l
    case Enqueue(_) =>
    case EnqueueReconcile(_, _) =>
    case Retry(_) => ApiRowMoves(s, l);
    case RecoverNext(_, _) => ApiRowMoves(s, l);
    case Claim(_) => ApiRowMoves(s, l);
    case _ => BusyRowMoves(s, l);
  }
}

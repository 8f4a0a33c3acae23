/** Idempotency keys are unique per target, and every reconciliation names the job that it was made for. */
module WorkerLinks {
  import opened Wrappers
  import opened Jobs
  import opened WorkerProtocol
  import opened WorkerInvariants

  ghost predicate KeysUnique(store: Store) {
    forall a, b ::
      a in store && b in store && store[a].target == store[b].target && store[a].key == store[b].key ==> a == b
  }

  /** A reconciliation has the same work to look at as its source. */
  predicate MadeFor(job: Job, source: Job) {
    && job.key == ReconcileKey(source.id)
    && source.mode == Apply && CanReconcileApply(source.operation)
    && job.target == source.target && job.operation == source.operation
    && job.parameters == source.parameters && job.secretRefs == source.secretRefs
  }

  ghost predicate HasSource(store: Store, job: Job) {
    exists source :: source in store && MadeFor(job, store[source])
  }

  ghost predicate Linked(store: Store) {
    && KeysUnique(store)
    && forall id :: id in store && store[id].mode == Reconcile ==> HasSource(store, store[id])
  }

  lemma SourcesStay(store: Store, row: Job, job: Job)
    requires HasSource(store, job) && (row.id in store ==> SameJob(store[row.id], row))
    ensures HasSource(store[row.id := row], job)
  {
    var source :| source in store && MadeFor(job, store[source]);
    assert MadeFor(job, store[row.id := row][source]);
  }

  lemma MovedKeepsLinks(store: Store, row: Job)
    requires Linked(store) && row.id in store && SameJob(store[row.id], row)
    ensures Linked(store[row.id := row])
  {
    var store' := store[row.id := row];
    forall id | id in store' && store'[id].mode == Reconcile ensures HasSource(store', store'[id]) {
      SourcesStay(store, row, store[id]);
      var source :| source in store' && MadeFor(store[id], store'[source]);
      assert MadeFor(store'[id], store'[source]);
    }
  }

  lemma AddedKeepsLinks(store: Store, row: Job)
    requires Linked(store) && row.id !in store && KeyFree(store, row.target, row.key)
    requires row.mode == Reconcile ==> HasSource(store, row)
    ensures Linked(store[row.id := row])
  {
    var store' := store[row.id := row];
    forall id | id in store' && store'[id].mode == Reconcile ensures HasSource(store', store'[id]) {
      SourcesStay(store, row, store'[id]);
    }
  }

  lemma ReconciliationIsLinked(store: Store, source: JobId, id: JobId)
    requires RowsOk(store) && MayReconcile(store, source, id)
    ensures HasSource(store, Reconciliation(store[source], id))
  {
    assert MadeFor(Reconciliation(store[source], id), store[source]);
  }

  lemma NewRowKeepsLinks(s: State, l: Label)
    requires Base(s) && Linked(s.store) && (l.Enqueue? || l.EnqueueReconcile?) && Next(s, l).Some?
    ensures Linked(Next(s, l).value.store)
  {
    if l.EnqueueReconcile? {
      ReconciliationIsLinked(s.store, l.source, l.id);
      AddedKeepsLinks(s.store, Reconciliation(s.store[l.source], l.id));
    } else {
      AddedKeepsLinks(s.store, l.job);
    }
  }

  lemma StepKeepsLinks(s: State, l: Label)
    requires Base(s) && Linked(s.store) && Next(s, l).Some?
    ensures Linked(Next(s, l).value.store)
  {
    if l.Enqueue? || l.EnqueueReconcile? {
      NewRowKeepsLinks(s, l);
    } else {
      StepWrites(s, l);
      if WrittenRow(s, l).Some? {
        RowMoves(s, l);
        MovedKeepsLinks(s.store, WrittenRow(s, l).value);
      }
    }
  }
}

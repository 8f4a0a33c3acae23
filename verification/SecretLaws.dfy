/** What a run of calls leaves of each secret, read off the calls themselves. */
module SecretLaws {
  import opened Wrappers
  import opened Clock
  import opened Text
  import opened Secrets
  import opened SecretRefinement

  // ---- what single calls do to a secret ----

  /** A creation whose name is neither blank nor longer than 100 characters. */
  ghost predicate Creates(op: Op, id: SecretId) {
    op.CreateOp? && op.id == id && !Blank(op.name) && |op.name| <= 100
  }

  predicate Deletes(op: Op, id: SecretId) {
    op.DeleteOp? && op.id == id
  }

  predicate Writes(op: Op, id: SecretId) {
    (op.UpdateOp? || op.RotateOp?) && op.id == id
  }

  predicate Revokes(op: Op, id: SecretId) {
    op.RevokeOp? && op.id == id
  }

  // ---- and the calls of a run ----

  /** The secret that is there after the run was created by call `i`. */
  ghost predicate Born(ops: seq<Op>, i: int, id: SecretId) {
    && 0 <= i < |ops| && Creates(ops[i], id)
    && forall j :: i < j < |ops| ==> !Creates(ops[j], id) && !Deletes(ops[j], id)
  }

  /** No call after `i` and before `j` revokes the secret. */
  ghost predicate StaysActive(ops: seq<Op>, i: int, j: int, id: SecretId) {
    forall k :: i < k < j && 0 <= k < |ops| ==> !Revokes(ops[k], id)
  }

  /** Call `j` replaces the value of the secret created by call `i`; after a revocation nothing does. */
  ghost predicate Replaces(ops: seq<Op>, i: int, j: int, id: SecretId)
    requires 0 <= j < |ops|
  {
    i < j && Writes(ops[j], id) && StaysActive(ops, i, j, id)
  }

  /** The value comes from call `w`. */
  ghost predicate ValueFrom(ops: seq<Op>, i: int, w: int, id: SecretId) {
    && i <= w && 0 <= w < |ops| && (w == i || Replaces(ops, i, w, id))
    && forall j :: w < j < |ops| ==> !Replaces(ops, i, j, id)
  }

  /** The time of the last change comes from call `t`. */
  ghost predicate TouchedBy(ops: seq<Op>, i: int, t: int, id: SecretId) {
    && i <= t && 0 <= t < |ops| && (t == i || Replaces(ops, i, t, id) || Revokes(ops[t], id))
    && forall j :: t < j < |ops| ==> !Replaces(ops, i, j, id) && !Revokes(ops[j], id)
  }

  /** The record that these calls deserve. */
  ghost predicate Deserves(ops: seq<Op>, i: int, w: int, t: int, id: SecretId, record: Record) {
    && Born(ops, i, id) && ValueFrom(ops, i, w, id) && TouchedBy(ops, i, t, id)
    && record.stored.metadata ==
         Metadata(id, ops[i].name, ops[i].kind, ops[i].scope, ops[i].now, TimeOf(ops[t]))
    && (record.stored.status == Active <==> StaysActive(ops, i, |ops|, id))
    && ValueOf(ops[w]) == Some(record.value)
  }

  function TimeOf(op: Op): (t: Time) {
    match op
    case CreateOp(_, _, _, _, _, now, _) => now
    case UpdateOp(_, _, now, _) => now
    case RotateOp(_, _, now, _) => now
    case RevokeOp(_, now) => now
    case _ => 0
  }

  function ValueOf(op: Op): (v: Option<SecretValue>) {
    match op
    case CreateOp(_, _, _, _, value, _, _) => Some(value)
    case UpdateOp(_, value, _, _) => Some(value)
    case RotateOp(_, value, _, _) => Some(value)
    case _ => None
  }

  /** What the store holds of one secret is what the calls deserve. */
  ghost predicate Matches(ops: seq<Op>, records: Records, id: SecretId) {
    if id in records then exists i, w, t :: Deserves(ops, i, w, t, id, records[id]) else forall i :: !Born(ops, i, id)
  }

  // ---- one more call ----

  lemma ActiveLonger(ops: seq<Op>, op: Op, i: int, j: int, id: SecretId)
    requires 0 <= i
    ensures j <= |ops| ==> (StaysActive(ops + [op], i, j, id) <==> StaysActive(ops, i, j, id))
    ensures i < |ops| ==>
              (StaysActive(ops + [op], i, |ops| + 1, id) <==> StaysActive(ops, i, |ops|, id) && !Revokes(op, id))
  {
    var longer := ops + [op];
    assert longer[|ops|] == op;
    assert forall k :: 0 <= k < |ops| ==> longer[k] == ops[k];
  }

  lemma ReplacesLonger(ops: seq<Op>, op: Op, i: int, j: int, id: SecretId)
    requires 0 <= i && 0 <= j < |ops|
    ensures Replaces(ops + [op], i, j, id) <==> Replaces(ops, i, j, id)
  {
    ActiveLonger(ops, op, i, j, id);
  }

  lemma ReplacesLast(ops: seq<Op>, op: Op, i: int, id: SecretId)
    requires 0 <= i < |ops|
    ensures Replaces(ops + [op], i, |ops|, id) <==> Writes(op, id) && StaysActive(ops, i, |ops|, id)
  {
    ActiveLonger(ops, op, i, |ops|, id);
  }

  lemma BornLonger(ops: seq<Op>, op: Op, i: int, id: SecretId)
    requires i < |ops|
    ensures Born(ops + [op], i, id) <==> Born(ops, i, id) && !Creates(op, id) && !Deletes(op, id)
  {
    var longer := ops + [op];
    assert longer[|ops|] == op;
    assert forall k :: 0 <= k < |ops| ==> longer[k] == ops[k];
  }

  lemma BornLast(ops: seq<Op>, op: Op, id: SecretId)
    ensures Born(ops + [op], |ops|, id) <==> Creates(op, id)
  {
  }

  lemma ValueLonger(ops: seq<Op>, op: Op, i: int, w: int, id: SecretId)
    requires 0 <= i && ValueFrom(ops, i, w, id) && !Replaces(ops + [op], i, |ops|, id)
    ensures ValueFrom(ops + [op], i, w, id)
  {
    ReplacesLonger(ops, op, i, w, id);
    forall j | w < j < |ops| + 1 ensures !Replaces(ops + [op], i, j, id) {
      if j < |ops| { ReplacesLonger(ops, op, i, j, id); }
    }
  }

  lemma TouchedLonger(ops: seq<Op>, op: Op, i: int, t: int, id: SecretId)
    requires 0 <= i && TouchedBy(ops, i, t, id) && !Replaces(ops + [op], i, |ops|, id) && !Revokes(op, id)
    ensures TouchedBy(ops + [op], i, t, id)
  {
    ReplacesLonger(ops, op, i, t, id);
    forall j | t < j < |ops| + 1 ensures !Replaces(ops + [op], i, j, id) && !Revokes((ops + [op])[j], id) {
      if j < |ops| {
        ReplacesLonger(ops, op, i, j, id);
        assert (ops + [op])[j] == ops[j];
      }
    }
  }

  lemma LastTouches(ops: seq<Op>, op: Op, i: int, id: SecretId)
    requires 0 <= i <= |ops|
    requires i == |ops| || Replaces(ops + [op], i, |ops|, id) || Revokes(op, id)
    ensures TouchedBy(ops + [op], i, |ops|, id)
  {
  }

  lemma LastWrites(ops: seq<Op>, op: Op, i: int, id: SecretId)
    requires 0 <= i <= |ops| && (i == |ops| || Replaces(ops + [op], i, |ops|, id))
    ensures ValueFrom(ops + [op], i, |ops|, id)
  {
  }

  // ---- the call and the store ----

  lemma CreatesExactly(op: Op, id: SecretId)
    requires op.CreateOp? && op.id == id
    ensures NewMetadata(op.id, op.name, op.kind, op.scope, op.now) ==
              if Creates(op, id) then Ok(Metadata(id, op.name, op.kind, op.scope, op.now, op.now)) else Err(Invalid)
  {
    TrimBlank(op.name);
  }

  /** Calls that leave the secret alone: none of the four kinds, or a write to a revoked or missing one. */
  ghost predicate Idle(records: Records, op: Op, id: SecretId) {
    && !Creates(op, id) && !Deletes(op, id) && !Revokes(op, id)
    && (Writes(op, id) ==> id in records && records[id].stored.status == Revoked)
  }

  lemma IdleStep(records: Records, op: Op, id: SecretId)
    requires Idle(records, op, id)
    ensures var after := MemStep(records, op).0;
            (id in after <==> id in records) && (id in records ==> after[id] == records[id])
  {
    if op.CreateOp? && op.id == id {
      CreatesExactly(op, id);
    }
  }

  lemma CreateStep(records: Records, op: Op, id: SecretId)
    requires Creates(op, id)
    ensures var after := MemStep(records, op).0;
            && id in after && after[id].value == op.value && after[id].stored.status == Active
            && after[id].stored.metadata == Metadata(id, op.name, op.kind, op.scope, op.now, op.now)
  {
    CreatesExactly(op, id);
  }

  lemma NothingBorn(ops: seq<Op>, op: Op, id: SecretId)
    requires !Creates(op, id) && (Deletes(op, id) || forall i :: !Born(ops, i, id))
    ensures forall i :: !Born(ops + [op], i, id)
  {
    forall i ensures !Born(ops + [op], i, id) {
      if i < |ops| { BornLonger(ops, op, i, id); } else { BornLast(ops, op, id); }
    }
  }

  lemma CreatedMatches(ops: seq<Op>, op: Op, id: SecretId, record: Record)
    requires Creates(op, id) && record.value == op.value && record.stored.status == Active
    requires record.stored.metadata == Metadata(id, op.name, op.kind, op.scope, op.now, op.now)
    ensures Deserves(ops + [op], |ops|, |ops|, |ops|, id, record)
  {
    BornLast(ops, op, id);
    LastWrites(ops, op, |ops|, id);
    LastTouches(ops, op, |ops|, id);
  }

  lemma IdleMatches(ops: seq<Op>, op: Op, i: int, w: int, t: int, id: SecretId, record: Record)
    requires Deserves(ops, i, w, t, id, record) && !Creates(op, id) && !Deletes(op, id) && !Revokes(op, id)
    requires Writes(op, id) ==> record.stored.status == Revoked
    ensures Deserves(ops + [op], i, w, t, id, record)
  {
    BornLonger(ops, op, i, id);
    ReplacesLast(ops, op, i, id);
    ValueLonger(ops, op, i, w, id);
    TouchedLonger(ops, op, i, t, id);
    ActiveLonger(ops, op, i, |ops|, id);
  }

  lemma WrittenMatches(ops: seq<Op>, op: Op, i: int, w: int, t: int, id: SecretId, record: Record, next: Record)
    requires Deserves(ops, i, w, t, id, record) && Writes(op, id) && record.stored.status == Active
    requires next.stored == Touched(record.stored, TimeOf(op)) && ValueOf(op) == Some(next.value)
    ensures Deserves(ops + [op], i, |ops|, |ops|, id, next)
  {
    BornLonger(ops, op, i, id);
    ReplacesLast(ops, op, i, id);
    LastWrites(ops, op, i, id);
    LastTouches(ops, op, i, id);
    ActiveLonger(ops, op, i, |ops|, id);
  }

  lemma RevokedMatches(ops: seq<Op>, op: Op, i: int, w: int, t: int, id: SecretId, record: Record, next: Record)
    requires Deserves(ops, i, w, t, id, record) && Revokes(op, id) && next.value == record.value
    requires next.stored == Touched(record.stored.(status := Revoked), TimeOf(op))
    ensures Deserves(ops + [op], i, w, |ops|, id, next)
  {
    BornLonger(ops, op, i, id);
    ReplacesLast(ops, op, i, id);
    ValueLonger(ops, op, i, w, id);
    LastTouches(ops, op, i, id);
    ActiveLonger(ops, op, i, |ops|, id);
  }

  lemma StepMatches(ops: seq<Op>, op: Op, records: Records, id: SecretId)
    requires Matches(ops, records, id)
    ensures Matches(ops + [op], MemStep(records, op).0, id)
  {
    if Creates(op, id) {
      CreateStep(records, op, id);
      CreatedMatches(ops, op, id, MemStep(records, op).0[id]);
    } else if id !in records || Deletes(op, id) {
      NothingBorn(ops, op, id);
      if !Deletes(op, id) {
        AbsentStep(records, op, id);
      }
    } else {
      PresentMatches(ops, op, records, id);
    }
  }

  lemma AbsentStep(records: Records, op: Op, id: SecretId)
    requires id !in records && !Creates(op, id)
    ensures id !in MemStep(records, op).0
  {
    if op.CreateOp? && op.id == id {
      CreatesExactly(op, id);
    }
  }

  lemma PresentMatches(ops: seq<Op>, op: Op, records: Records, id: SecretId)
    requires Matches(ops, records, id) && id in records && !Creates(op, id) && !Deletes(op, id)
    ensures Matches(ops + [op], MemStep(records, op).0, id)
  {
    var record, after := records[id], MemStep(records, op).0;
    var i, w, t :| Deserves(ops, i, w, t, id, record);
    if Revokes(op, id) {
      RevokedMatches(ops, op, i, w, t, id, record, after[id]);
    } else if Writes(op, id) && record.stored.status == Active {
      WrittenMatches(ops, op, i, w, t, id, record, after[id]);
    } else {
      IdleStep(records, op, id);
      IdleMatches(ops, op, i, w, t, id, record);
    }
  }

  lemma RunStep(ops: seq<Op>)
    requires ops != []
    ensures MemRun(map[], ops).0 == MemStep(MemRun(map[], ops[..|ops| - 1]).0, ops[|ops| - 1]).0
  {
  }

  /**
   After every run of the in-memory store a secret is there exactly if a creation of it was not followed by a deletion
   or another creation. Its name, kind, scope and birth are those of that call, its value that of the last write before
   a revocation, and it is active exactly if there was none.
   */
  lemma {:induction false} RunMatches(ops: seq<Op>, id: SecretId)
    ensures Matches(ops, MemRun(map[], ops).0, id)
  {
    if ops != [] {
      var front, op := ops[..|ops| - 1], ops[|ops| - 1];
      assert ops == front + [op];
      RunMatches(front, id);
      RunStep(ops);
      StepMatches(front, op, MemRun(map[], front).0, id);
    }
  }

  lemma BornOnce(ops: seq<Op>, i: int, j: int, id: SecretId)
    requires Born(ops, i, id) && Born(ops, j, id)
    ensures i == j
  {
  }

  lemma FromOnce(ops: seq<Op>, i: int, v: int, w: int, id: SecretId)
    requires ValueFrom(ops, i, v, id) && ValueFrom(ops, i, w, id)
    ensures v == w
  {
  }

  /** Reading answers Missing, Denied or the last value written, each exactly when the calls of the run say so. */
  lemma ReadExactly(ops: seq<Op>, id: SecretId, i: int, w: int)
    ensures var r := MemRead(MemRun(map[], ops).0, id);
            && (r == Err(Missing) <==> forall k :: !Born(ops, k, id))
            && (Born(ops, i, id) ==> (r == Err(Denied) <==> !StaysActive(ops, i, |ops|, id)))
            && (Born(ops, i, id) && StaysActive(ops, i, |ops|, id) && ValueFrom(ops, i, w, id) ==>
                  r.Ok? && ValueOf(ops[w]) == Some(r.value))
  {
    RunMatches(ops, id);
    var records := MemRun(map[], ops).0;
    if id in records {
      var k, v, t :| Deserves(ops, k, v, t, id, records[id]);
      if Born(ops, i, id) {
        BornOnce(ops, i, k, id);
        if ValueFrom(ops, i, w, id) {
          FromOnce(ops, i, v, w, id);
        }
      }
    }
  }
}

/** An encrypted directory over its whole life, through any number of master keys. */
module SecretLifecycle {
  import opened Wrappers
  import opened Secrets
  import opened SecretRefinement
  import opened SecretRotation

  // ---- which keys the values are sealed with ----

  ghost predicate SealedValue(p: Primitives, keys: set<Key>, payload: seq<Byte>, value: SecretValue) {
    exists k, n :: k in keys && payload == Sealed(p, k, value, n)
  }

  ghost predicate SealedAt(p: Primitives, keys: set<Key>, files: Files, records: Records, id: SecretId) {
    id in records && records[id].stored.status == Active ==>
      FileName(id, "enc") in files && SealedValue(p, keys, files[FileName(id, "enc")], records[id].value)
  }

  /** Every active value is sealed with one of these keys. */
  ghost predicate SealedBy(p: Primitives, keys: set<Key>, files: Files, records: Records) {
    forall id :: SealedAt(p, keys, files, records, id)
  }

  lemma FreshlySealed(p: Primitives, keys: set<Key>, key: Key, value: SecretValue, nonce: Nonce)
    requires key in keys
    ensures SealedValue(p, keys, Sealed(p, key, value, nonce), value)
  {
  }

  lemma OthersStaySealed(p: Primitives, keys: set<Key>, files: Files, files': Files, records: Records,
      records': Records, id: SecretId)
    requires SealedBy(p, keys, files, records) && OnlyAt(id, files, files', records, records')
    requires SealedAt(p, keys, files', records', id)
    ensures SealedBy(p, keys, files', records')
  {
    forall other ensures SealedAt(p, keys, files', records', other) {
      assert SealedAt(p, keys, files, records, other);
      assert FileName(other, "enc").stem == other;
    }
  }

  lemma CreateSeals(p: Primitives, current: Key, previous: seq<Key>, keys: set<Key>, files: Files, records: Records,
      op: Op)
    requires current in keys && SealedBy(p, keys, files, records) && op.CreateOp?
    ensures SealedBy(p, keys, DirStep(SealingCodec(p, current, previous), files, op).0, MemStep(records, op).0)
  {
    if NewMetadata(op.id, op.name, op.kind, op.scope, op.now).Ok? {
      FreshlySealed(p, keys, current, op.value, op.nonce);
      var files' := DirStep(SealingCodec(p, current, previous), files, op).0;
      OthersStaySealed(p, keys, files, files', records, MemStep(records, op).0, op.id);
    }
  }

  lemma UpdateSeals(p: Primitives, current: Key, previous: seq<Key>, keys: set<Key>, files: Files, records: Records,
                    id: SecretId, value: SecretValue, now: int, nonce: Nonce)
    requires current in keys && SealedBy(p, keys, files, records)
    requires Agrees(SealingCodec(p, current, previous), files, records, id)
    ensures SealedBy(p, keys, DirUpdate(SealingCodec(p, current, previous), files, id, value, now, nonce).0,
                     MemUpdate(records, id, value, now).0)
  {
    var codec := SealingCodec(p, current, previous);
    ReadsAgree(codec, files, records, id);
    if id in records && records[id].stored.status == Active {
      FreshlySealed(p, keys, current, value, nonce);
      var files' := DirUpdate(codec, files, id, value, now, nonce).0;
      OthersStaySealed(p, keys, files, files', records, MemUpdate(records, id, value, now).0, id);
    }
  }

  lemma RevokeSeals(p: Primitives, codec: Codec, keys: set<Key>, files: Files, records: Records, id: SecretId, now: int)
    requires SealedBy(p, keys, files, records) && Agrees(codec, files, records, id)
    ensures SealedBy(p, keys, DirRevoke(codec, files, id, now).0, MemRevoke(records, id, now).0)
  {
    ReadsAgree(codec, files, records, id);
    if id in records {
      OthersStaySealed(p, keys, files, DirRevoke(codec, files, id, now).0, records, MemRevoke(records, id, now).0, id);
    }
  }

  lemma DeleteSeals(p: Primitives, codec: Codec, keys: set<Key>, files: Files, records: Records, id: SecretId)
    requires SealedBy(p, keys, files, records) && Agrees(codec, files, records, id) && codec.extension != "json"
    ensures SealedBy(p, keys, DirDelete(codec, files, id).0, MemDelete(records, id).0)
  {
    ReadsAgree(codec, files, records, id);
    if id in records {
      OthersStaySealed(p, keys, files, DirDelete(codec, files, id).0, records, MemDelete(records, id).0, id);
    }
  }

  lemma StepSeals(p: Primitives, current: Key, previous: seq<Key>, keys: set<Key>, files: Files, records: Records,
      op: Op)
    requires current in keys && SealedBy(p, keys, files, records)
    requires Represents(SealingCodec(p, current, previous), files, records)
    ensures SealedBy(p, keys, DirStep(SealingCodec(p, current, previous), files, op).0, MemStep(records, op).0)
  {
    var codec := SealingCodec(p, current, previous);
    assert Agrees(codec, files, records, op.id);
    match op
    case CreateOp(_, _, _, _, _, _, _) => CreateSeals(p, current, previous, keys, files, records, op);
    case ReadOp(_) =>
    case MetadataOp(_) =>
    case UpdateOp(id, value, now, nonce) =>
      UpdateSeals(p, current, previous, keys, files, records, id, value, now, nonce);
    case RotateOp(id, value, now, nonce) =>
      UpdateSeals(p, current, previous, keys, files, records, id, value, now, nonce);
    case RevokeOp(id, now) => RevokeSeals(p, codec, keys, files, records, id, now);
    case DeleteOp(id) => DeleteSeals(p, codec, keys, files, records, id);
  }

  /** A run under a key leaves every active value sealed with it or with the key that sealed it before. */
  lemma {:induction false} RunSeals(
    p: Primitives, current: Key, previous: seq<Key>, keys: set<Key>, files: Files, records: Records, ops: seq<Op>)
    requires Ideal(p, Ring([current] + previous)) && current in keys && SealedBy(p, keys, files, records)
    requires Represents(SealingCodec(p, current, previous), files, records)
    ensures SealedBy(p, keys, DirRun(SealingCodec(p, current, previous), files, ops).0, MemRun(records, ops).0)
  {
    if ops != [] {
      var codec, earlier := SealingCodec(p, current, previous), ops[..|ops| - 1];
      RunSeals(p, current, previous, keys, files, records, earlier);
      SealingIsLawful(p, current, previous);
      RunsAgree(codec, files, records, earlier);
      var files', records' := DirRun(codec, files, earlier).0, MemRun(records, earlier).0;
      StepSeals(p, current, previous, keys, files', records', ops[|ops| - 1]);
    }
  }

  // ---- opening the directory with other keys ----

  lemma Reopened(p: Primitives, ring: set<Key>, keys: set<Key>, was: Codec, current: Key, previous: seq<Key>,
      files: Files,
                 records: Records, id: SecretId)
    requires Ideal(p, ring) && keys <= Ring([current] + previous) <= ring && SealedAt(p, keys, files, records, id)
    requires was.extension == "enc" && was.decode == p.decode && Agrees(was, files, records, id)
    ensures Agrees(SealingCodec(p, current, previous), files, records, id)
  {
    if id in records && records[id].stored.status == Active {
      var payload, value := files[FileName(id, "enc")], records[id].value;
      var k, n :| k in keys && payload == Sealed(p, k, value, n);
      assert k in [current] + previous;
      DecryptExactly(p, ring, [current] + previous, k, value, n);
    }
  }

  /** A directory can be opened with any keys among which are those that its active values are sealed with. */
  lemma Reopens(p: Primitives, ring: set<Key>, keys: set<Key>, was: Codec, current: Key, previous: seq<Key>,
      files: Files, records: Records)
    requires Ideal(p, ring) && keys <= Ring([current] + previous) <= ring && SealedBy(p, keys, files, records)
    requires was.extension == "enc" && was.decode == p.decode && Represents(was, files, records)
    ensures Represents(SealingCodec(p, current, previous), files, records)
  {
    forall id ensures Agrees(SealingCodec(p, current, previous), files, records, id) {
      assert Agrees(was, files, records, id) && SealedAt(p, keys, files, records, id);
      Reopened(p, ring, keys, was, current, previous, files, records, id);
    }
  }

  // ---- rewrapping ----

  lemma RewrapSealsOne(p: Primitives, current: Key, previous: seq<Key>, files: Files, records: Records,
      job: Rewrapping, id: SecretId)
    requires Agrees(SealingCodec(p, current, previous), files, records, job.id)
    requires SealedAt(p, {current}, files, records, id) || job.id == id
    ensures SealedAt(p, {current}, Rewrap(SealingCodec(p, current, previous), files, job.id, job.nonce).0, records, id)
  {
    var codec := SealingCodec(p, current, previous);
    ReadsAgree(codec, files, records, job.id);
    if MemRead(records, job.id).Ok? {
      FreshlySealed(p, {current}, current, records[job.id].value, job.nonce);
    }
  }

  lemma {:induction false} RewrapSeals(
    p: Primitives, current: Key, previous: seq<Key>, files: Files, records: Records, jobs: seq<Rewrapping>,
        id: SecretId)
    requires Ideal(p, Ring([current] + previous)) && Represents(SealingCodec(p, current, previous), files, records)
    requires Covers(jobs, id) || SealedAt(p, {current}, files, records, id)
    ensures SealedAt(p, {current}, RewrapAll(SealingCodec(p, current, previous), files, jobs), records, id)
  {
    if jobs != [] {
      var codec, earlier, job := SealingCodec(p, current, previous), jobs[..|jobs| - 1], jobs[|jobs| - 1];
      RewrapAllKeeps(p, current, previous, files, records, earlier);
      if job.id != id {
        CoversEarlier(jobs, id);
        RewrapSeals(p, current, previous, files, records, earlier, id);
      }
      assert Agrees(codec, RewrapAll(codec, files, earlier), records, job.id);
      RewrapSealsOne(p, current, previous, RewrapAll(codec, files, earlier), records, job, id);
    }
  }

  /** Every active secret has been rewrapped, or was sealed with the current key anyway. */
  ghost predicate Complete(p: Primitives, current: Key, files: Files, records: Records, jobs: seq<Rewrapping>) {
    forall id :: id in records && records[id].stored.status == Active ==>
        Covers(jobs, id) || SealedAt(p, {current}, files, records, id)
  }

  lemma RewrapSealsAll(p: Primitives, current: Key, previous: seq<Key>, files: Files, records: Records,
      jobs: seq<Rewrapping>)
    requires Ideal(p, Ring([current] + previous)) && Represents(SealingCodec(p, current, previous), files, records)
    requires Complete(p, current, files, records, jobs)
    ensures SealedBy(p, {current}, RewrapAll(SealingCodec(p, current, previous), files, jobs), records)
  {
    forall id ensures SealedAt(p, {current}, RewrapAll(SealingCodec(p, current, previous), files, jobs), records, id) {
      RewrapSeals(p, current, previous, files, records, jobs, id);
    }
  }

  lemma SkippedShows(p: Primitives, current: Key, previous: seq<Key>, files: Files, records: Records,
                     jobs: seq<Rewrapping>, id: SecretId)
    requires Ideal(p, Ring([current] + previous)) && SealedAt(p, Ring([current] + previous), files, records, id)
    requires Agrees(SealingCodec(p, current, previous), files, records, id)
    requires id in records && records[id].stored.status == Active
    requires !Covers(jobs, id) && !SealedAt(p, {current}, files, records, id)
    ensures var rewrapped := RewrapAll(SealingCodec(p, current, previous), files, jobs);
            !Agrees(SealingCodec(p, current, []), rewrapped, records, id)
  {
    var payload, value := files[FileName(id, "enc")], records[id].value;
    var k, n :| k in Ring([current] + previous) && payload == Sealed(p, k, value, n);
    assert k != current && k in previous;
    SkippedIsDenied(p, current, previous, files, jobs, id, records[id].stored, k, value, n);
  }

  /** After the rewrapping the new key alone holds the same secrets if and only if it was complete. */
  lemma RotationExactly(p: Primitives, current: Key, previous: seq<Key>, files: Files, records: Records,
                        jobs: seq<Rewrapping>)
    requires Ideal(p, Ring([current] + previous)) && SealedBy(p, Ring([current] + previous), files, records)
    requires Represents(SealingCodec(p, current, previous), files, records)
    ensures var rewrapped := RewrapAll(SealingCodec(p, current, previous), files, jobs);
            Represents(SealingCodec(p, current, []), rewrapped, records) <==> Complete(p, current, files, records, jobs)
  {
    var codec := SealingCodec(p, current, previous);
    var rewrapped := RewrapAll(codec, files, jobs);
    if Complete(p, current, files, records, jobs) {
      RewrapSealsAll(p, current, previous, files, records, jobs);
      RewrapAllKeeps(p, current, previous, files, records, jobs);
      assert current in [current] + previous && Ring([current] + []) <= Ring([current] + previous);
      Reopens(p, Ring([current] + previous), {current}, codec, current, [], rewrapped, records);
    } else {
      var id :| id in records && records[id].stored.status == Active &&
                !Covers(jobs, id) && !SealedAt(p, {current}, files, records, id);
      assert SealedAt(p, Ring([current] + previous), files, records, id) && Agrees(codec, files, records, id);
      SkippedShows(p, current, previous, files, records, jobs, id);
    }
  }

  // ---- one master key after the other ----

  /**
   The time of one master key: the directory is opened with it and the key before it, used, rewrapped,
   opened again with the new key alone, and used.
   */
  datatype Era = Era(key: Key, ops: seq<Op>, jobs: seq<Rewrapping>, after: seq<Op>)

  /** Files after an era that starts with the previous key, and the answers of its calls. */
  function Lived(p: Primitives, previous: seq<Key>, files: Files, era: Era): (r: (Files, seq<Answer>)) {
    var codec := SealingCodec(p, era.key, previous);
    var (used, answers) := DirRun(codec, files, era.ops);
    var (last, more) := DirRun(SealingCodec(p, era.key, []), RewrapAll(codec, used, era.jobs), era.after);
    (last, answers + more)
  }

  function KeyBefore(eras: seq<Era>): (previous: seq<Key>) {
    if |eras| < 2 then [] else [eras[|eras| - 2].key]
  }

  /** From an empty directory through all eras. */
  function Life(p: Primitives, eras: seq<Era>): (r: (Files, seq<Answer>)) {
    if eras == [] then (map[], [])
    else
      var (files, answers) := Life(p, eras[..|eras| - 1]);
      var (last, more) := Lived(p, KeyBefore(eras), files, eras[|eras| - 1]);
      (last, answers + more)
  }

  function CallsOf(eras: seq<Era>): (ops: seq<Op>) {
    if eras == [] then [] else CallsOf(eras[..|eras| - 1]) + eras[|eras| - 1].ops + eras[|eras| - 1].after
  }

  /** The records when the last era is rewrapped. */
  function AtRewrap(eras: seq<Era>): (records: Records)
    requires eras != []
  {
    MemRun(MemRun(map[], CallsOf(eras[..|eras| - 1])).0, eras[|eras| - 1].ops).0
  }

  /** From the second era on, every secret that is active at that time is rewrapped. */
  ghost predicate AllRewrapped(eras: seq<Era>) {
    eras != [] ==>
      && AllRewrapped(eras[..|eras| - 1])
      && (|eras| > 1 ==>
            forall id :: id in AtRewrap(eras) && AtRewrap(eras)[id].stored.status == Active ==>
                Covers(eras[|eras| - 1].jobs, id))
  }

  lemma {:induction false} MemRunOn(records: Records, a: seq<Op>, b: seq<Op>)
    ensures MemRun(records, a + b).0 == MemRun(MemRun(records, a).0, b).0
    ensures MemRun(records, a + b).1 == MemRun(records, a).1 + MemRun(MemRun(records, a).0, b).1
  {
    if b == [] {
      assert a + b == a;
    } else {
      MemRunOn(records, a, b[..|b| - 1]);
      assert (a + b)[..|a + b| - 1] == a + b[..|b| - 1];
    }
  }

  /** What holds between two eras: the last key alone opens everything. */
  ghost predicate Closed(p: Primitives, key: Key, files: Files, records: Records) {
    Represents(SealingCodec(p, key, []), files, records) && SealedBy(p, {key}, files, records)
  }

  lemma Opens(p: Primitives, ring: set<Key>, last: Key, key: Key, files: Files, records: Records)
    requires Ideal(p, ring) && last in ring && key in ring && Closed(p, last, files, records)
    ensures Represents(SealingCodec(p, key, [last]), files, records) && SealedBy(p, {key, last}, files, records)
  {
    assert last in [key] + [last] && Ring([key] + [last]) <= ring;
    forall id ensures SealedAt(p, {key, last}, files, records, id) {
      assert SealedAt(p, {last}, files, records, id);
    }
    Reopens(p, ring, {last}, SealingCodec(p, last, []), key, [last], files, records);
  }

  lemma SmallerRing(p: Primitives, ring: set<Key>, smaller: set<Key>)
    requires Ideal(p, ring) && smaller <= ring
    ensures Ideal(p, smaller)
  {
  }

  lemma KeysInRing(ring: set<Key>, key: Key, previous: seq<Key>)
    requires key in ring && Ring(previous) <= ring
    ensures Ring([key] + previous) <= ring && key in Ring([key] + previous) && Ring([key] + []) == {key}
  {
    assert forall k :: k in previous ==> k in Ring(previous);
  }

  /** The era answers as the in-memory store, and its key alone opens what it leaves. */
  ghost predicate EraAnswers(p: Primitives, previous: seq<Key>, files: Files, records: Records, era: Era) {
    var middle := MemRun(records, era.ops);
    var last := MemRun(middle.0, era.after);
    var (left, answers) := Lived(p, previous, files, era);
    answers == middle.1 + last.1 && Closed(p, era.key, left, last.0)
  }

  /** An era whose secrets are all rewrapped answers as the in-memory store and ends closed under its key. */
  lemma EraAgrees(p: Primitives, ring: set<Key>, keys: set<Key>, previous: seq<Key>, files: Files, records: Records,
      era: Era)
    requires Ideal(p, ring) && era.key in ring && Ring(previous) <= ring && era.key in keys
    requires Represents(SealingCodec(p, era.key, previous), files, records) && SealedBy(p, keys, files, records)
    requires keys == {era.key} ||
             forall id :: id in MemRun(records, era.ops).0 && MemRun(records, era.ops).0[id].stored.status == Active ==>
               Covers(era.jobs, id)
    ensures EraAnswers(p, previous, files, records, era)
  {
    var codec := SealingCodec(p, era.key, previous);
    KeysInRing(ring, era.key, previous);
    SmallerRing(p, ring, Ring([era.key] + previous));
    SealingIsLawful(p, era.key, previous);
    RunsAgree(codec, files, records, era.ops);
    RunSeals(p, era.key, previous, keys, files, records, era.ops);
    var used, middle := DirRun(codec, files, era.ops).0, MemRun(records, era.ops).0;
    assert Complete(p, era.key, used, middle, era.jobs) by {
      forall id | id in middle && middle[id].stored.status == Active
        ensures Covers(era.jobs, id) || SealedAt(p, {era.key}, used, middle, id)
      {
        assert SealedAt(p, keys, used, middle, id);
      }
    }
    RewrapSealsAll(p, era.key, previous, used, middle, era.jobs);
    RewrapAllKeeps(p, era.key, previous, used, middle, era.jobs);
    var rewrapped := RewrapAll(codec, used, era.jobs);
    Reopens(p, ring, {era.key}, codec, era.key, [], rewrapped, middle);
    AloneAgrees(p, ring, era.key, rewrapped, middle, era.after);
  }

  /** The rest of an era, under its key alone. */
  lemma AloneAgrees(p: Primitives, ring: set<Key>, key: Key, files: Files, records: Records, ops: seq<Op>)
    requires Ideal(p, ring) && key in ring && Closed(p, key, files, records)
    ensures DirRun(SealingCodec(p, key, []), files, ops).1 == MemRun(records, ops).1
    ensures Closed(p, key, DirRun(SealingCodec(p, key, []), files, ops).0, MemRun(records, ops).0)
  {
    KeysInRing(ring, key, []);
    SmallerRing(p, ring, Ring([key] + []));
    SealingIsLawful(p, key, []);
    RunsAgree(SealingCodec(p, key, []), files, records, ops);
    RunSeals(p, key, [], {key}, files, records, ops);
  }

  /** Every active secret of these records is rewrapped. */
  ghost predicate CoversActive(jobs: seq<Rewrapping>, records: Records) {
    forall id :: id in records && records[id].stored.status == Active ==> Covers(jobs, id)
  }

  lemma RewrappedNow(eras: seq<Era>)
    requires |eras| > 1 && AllRewrapped(eras)
    ensures CoversActive(eras[|eras| - 1].jobs, AtRewrap(eras))
  {
  }

  /** The era after another one, which left the directory closed under its key. */
  lemma NextEraAgrees(p: Primitives, ring: set<Key>, last: Key, files: Files, records: Records, era: Era)
    requires Ideal(p, ring) && last in ring && era.key in ring && Closed(p, last, files, records)
    requires CoversActive(era.jobs, MemRun(records, era.ops).0)
    ensures EraAnswers(p, [last], files, records, era)
  {
    Opens(p, ring, last, era.key, files, records);
    EraAgrees(p, ring, {era.key, last}, [last], files, records, era);
  }

  lemma FirstEraAgrees(p: Primitives, ring: set<Key>, era: Era)
    requires Ideal(p, ring) && era.key in ring
    ensures EraAnswers(p, [], map[], map[], era)
  {
    EraAgrees(p, ring, {era.key}, [], map[], map[], era);
  }

  lemma RunThree(records: Records, a: seq<Op>, b: seq<Op>, c: seq<Op>)
    ensures var first := MemRun(records, a);
            var second := MemRun(first.0, b);
            var third := MemRun(second.0, c);
            MemRun(records, a + b + c) == (third.0, first.1 + (second.1 + third.1))
  {
    MemRunOn(records, a, b);
    MemRunOn(records, a + b, c);
    AnswersAssociate(MemRun(records, a).1, MemRun(MemRun(records, a).0, b).1, MemRun(MemRun(records, a + b).0, c).1);
  }

  lemma AnswersAssociate(a: seq<Answer>, b: seq<Answer>, c: seq<Answer>)
    ensures (a + b) + c == a + (b + c)
  {
  }

  /** Joins an era that answers well to a life that answered well. */
  lemma EraJoins(p: Primitives, eras: seq<Era>)
    requires eras != [] && Life(p, eras[..|eras| - 1]).1 == MemRun(map[], CallsOf(eras[..|eras| - 1])).1
    requires var earlier := eras[..|eras| - 1];
             var files, records := Life(p, earlier).0, MemRun(map[], CallsOf(earlier)).0;
             EraAnswers(p, KeyBefore(eras), files, records, eras[|eras| - 1])
    ensures Life(p, eras).1 == MemRun(map[], CallsOf(eras)).1
    ensures Closed(p, eras[|eras| - 1].key, Life(p, eras).0, MemRun(map[], CallsOf(eras)).0)
  {
    var era := eras[|eras| - 1];
    RunThree(map[], CallsOf(eras[..|eras| - 1]), era.ops, era.after);
  }

  /**
   Through any number of master keys, each rewrapped before the key before it is forgotten, the encrypted store
   answers every call as one in-memory store that never changed its key.
   */
  lemma {:induction false} LifeAgrees(p: Primitives, ring: set<Key>, eras: seq<Era>)
    requires Ideal(p, ring) && (forall i :: 0 <= i < |eras| ==> eras[i].key in ring) && AllRewrapped(eras)
    ensures Life(p, eras).1 == MemRun(map[], CallsOf(eras)).1
    ensures eras != [] ==> Closed(p, eras[|eras| - 1].key, Life(p, eras).0, MemRun(map[], CallsOf(eras)).0)
  {
    if eras != [] {
      var earlier := eras[..|eras| - 1];
      LifeAgrees(p, ring, earlier);
      if |eras| > 1 {
        RewrappedNow(eras);
        var files, records := Life(p, earlier).0, MemRun(map[], CallsOf(earlier)).0;
        NextEraAgrees(p, ring, earlier[|earlier| - 1].key, files, records, eras[|eras| - 1]);
      } else {
        FirstEraAgrees(p, ring, eras[0]);
      }
      EraJoins(p, eras);
    }
  }
}

/** The directory stores behave as the in-memory store does. */
module SecretRefinement {
  import opened Wrappers
  import opened Clock
  import opened Orders
  import opened Sorting
  import opened Secrets

  /** What is written can be read back, and value files are not taken for metadata. */
  ghost predicate Lawful(codec: Codec) {
    && codec.extension != "json"
    && (forall m :: codec.decode(codec.encode(m)) == Some(m))
    && (forall v, n :: codec.read(codec.write(v, n)) == Ok(v))
  }

  /** The files of one secret; the value of a revoked secret need not be readable any more. */
  ghost predicate Holds(codec: Codec, files: Files, id: SecretId, record: Record) {
    && record.stored.metadata.id == id
    && ReadMetadata(codec, files, id) == Ok(record.stored)
    && ValueFile(codec, id) in files
    && (record.stored.status == Active ==> codec.read(files[ValueFile(codec, id)]) == Ok(record.value))
  }

  /** One secret is the same in both stores. */
  ghost predicate Agrees(codec: Codec, files: Files, records: Records, id: SecretId) {
    && (id in records <==> MetadataFile(id) in files)
    && (id in records ==> Holds(codec, files, id, records[id]))
  }

  ghost predicate Represents(codec: Codec, files: Files, records: Records) {
    forall id :: Agrees(codec, files, records, id)
  }

  // ---- one call ----

  /** Only the files and the record of `id` changed. */
  ghost predicate OnlyAt(id: SecretId, files: Files, files': Files, records: Records, records': Records) {
    && (forall name: FileName :: name.stem != id ==>
          (name in files <==> name in files') && (name in files ==> files[name] == files'[name]))
    && (forall other :: other != id ==>
          (other in records <==> other in records') && (other in records ==> records[other] == records'[other]))
  }

  lemma OthersAgree(codec: Codec, files: Files, files': Files, records: Records, records': Records, id: SecretId)
    requires Represents(codec, files, records) && OnlyAt(id, files, files', records, records')
    requires Agrees(codec, files', records', id)
    ensures Represents(codec, files', records')
  {
    forall other ensures Agrees(codec, files', records', other) {
      assert Agrees(codec, files, records, other);
      assert MetadataFile(other).stem == other && ValueFile(codec, other).stem == other;
    }
  }

  lemma ReadsAgree(codec: Codec, files: Files, records: Records, id: SecretId)
    requires Agrees(codec, files, records, id)
    ensures DirRead(codec, files, id) == MemRead(records, id)
    ensures ReadMetadata(codec, files, id) == MemMetadata(records, id)
  {
  }

  lemma CreateAgrees(codec: Codec, files: Files, records: Records, op: Op)
    requires Lawful(codec) && Represents(codec, files, records) && op.CreateOp?
    ensures DirStep(codec, files, op).1 == MemStep(records, op).1
    ensures Represents(codec, DirStep(codec, files, op).0, MemStep(records, op).0)
  {
    if NewMetadata(op.id, op.name, op.kind, op.scope, op.now).Ok? {
      var files', records' := DirStep(codec, files, op).0, MemStep(records, op).0;
      assert Agrees(codec, files', records', op.id);
      OthersAgree(codec, files, files', records, records', op.id);
    }
  }

  lemma UpdateAgrees(codec: Codec, files: Files, records: Records, id: SecretId, value: SecretValue, now: Time,
      nonce: Nonce)
    requires Lawful(codec) && Represents(codec, files, records)
    ensures DirUpdate(codec, files, id, value, now, nonce).1 == MemUpdate(records, id, value, now).1
    ensures Represents(codec, DirUpdate(codec, files, id, value, now, nonce).0, MemUpdate(records, id, value, now).0)
  {
    assert Agrees(codec, files, records, id);
    ReadsAgree(codec, files, records, id);
    if id in records && records[id].stored.status == Active {
      var files', records' := DirUpdate(codec, files, id, value, now, nonce).0, MemUpdate(records, id, value, now).0;
      assert Agrees(codec, files', records', id);
      OthersAgree(codec, files, files', records, records', id);
    }
  }

  lemma RevokeAgrees(codec: Codec, files: Files, records: Records, id: SecretId, now: Time)
    requires Lawful(codec) && Represents(codec, files, records)
    ensures DirRevoke(codec, files, id, now).1 == MemRevoke(records, id, now).1
    ensures Represents(codec, DirRevoke(codec, files, id, now).0, MemRevoke(records, id, now).0)
  {
    assert Agrees(codec, files, records, id);
    ReadsAgree(codec, files, records, id);
    if id in records {
      var files', records' := DirRevoke(codec, files, id, now).0, MemRevoke(records, id, now).0;
      assert Agrees(codec, files', records', id);
      OthersAgree(codec, files, files', records, records', id);
    }
  }

  lemma DeleteAgrees(codec: Codec, files: Files, records: Records, id: SecretId)
    requires Lawful(codec) && Represents(codec, files, records)
    ensures DirDelete(codec, files, id).1 == MemDelete(records, id).1
    ensures Represents(codec, DirDelete(codec, files, id).0, MemDelete(records, id).0)
  {
    assert Agrees(codec, files, records, id);
    ReadsAgree(codec, files, records, id);
    if id in records {
      var files', records' := DirDelete(codec, files, id).0, MemDelete(records, id).0;
      assert Agrees(codec, files', records', id);
      OthersAgree(codec, files, files', records, records', id);
    }
  }

  /** Every call answers alike and leaves the directory representing the records. */
  lemma StepAgrees(codec: Codec, files: Files, records: Records, op: Op)
    requires Lawful(codec) && Represents(codec, files, records)
    ensures DirStep(codec, files, op).1 == MemStep(records, op).1
    ensures Represents(codec, DirStep(codec, files, op).0, MemStep(records, op).0)
  {
    assert Agrees(codec, files, records, op.id);
    match op
    case CreateOp(_, _, _, _, _, _, _) => CreateAgrees(codec, files, records, op);
    case ReadOp(id) => ReadsAgree(codec, files, records, id);
    case MetadataOp(id) => ReadsAgree(codec, files, records, id);
    case UpdateOp(id, value, now, nonce) => UpdateAgrees(codec, files, records, id, value, now, nonce);
    case RotateOp(id, value, now, nonce) => UpdateAgrees(codec, files, records, id, value, now, nonce);
    case RevokeOp(id, now) => RevokeAgrees(codec, files, records, id, now);
    case DeleteOp(id) => DeleteAgrees(codec, files, records, id);
  }

  // ---- whole runs ----

  function MemRun(records: Records, ops: seq<Op>): (r: (Records, seq<Answer>)) {
    if ops == [] then (records, [])
    else
      var (before, answers) := MemRun(records, ops[..|ops| - 1]);
      var (after, answer) := MemStep(before, ops[|ops| - 1]);
      (after, answers + [answer])
  }

  function DirRun(codec: Codec, files: Files, ops: seq<Op>): (r: (Files, seq<Answer>)) {
    if ops == [] then (files, [])
    else
      var (before, answers) := DirRun(codec, files, ops[..|ops| - 1]);
      var (after, answer) := DirStep(codec, before, ops[|ops| - 1]);
      (after, answers + [answer])
  }

  /** Every sequence of calls gives the answers of the in-memory store. */
  lemma {:induction false} RunsAgree(codec: Codec, files: Files, records: Records, ops: seq<Op>)
    requires Lawful(codec) && Represents(codec, files, records)
    ensures DirRun(codec, files, ops).1 == MemRun(records, ops).1
    ensures Represents(codec, DirRun(codec, files, ops).0, MemRun(records, ops).0)
  {
    if ops != [] {
      var earlier := ops[..|ops| - 1];
      RunsAgree(codec, files, records, earlier);
      StepAgrees(codec, DirRun(codec, files, earlier).0, MemRun(records, earlier).0, ops[|ops| - 1]);
    }
  }

  // ---- listing ----

  /** `s` yields every element of `keys` once. */
  ghost predicate Enumerates<T(!new)>(s: seq<T>, keys: set<T>) {
    Distinct(s) && forall x :: x in s <==> x in keys
  }

  ghost predicate IsStored(records: Records, x: Stored) {
    x.metadata.id in records && records[x.metadata.id].stored == x
  }

  function MemValues(records: Records, ids: seq<SecretId>): (r: seq<Stored>)
    requires forall i :: 0 <= i < |ids| ==> ids[i] in records
  {
    seq(|ids|, i requires 0 <= i < |ids| => records[ids[i]].stored)
  }

  lemma MemValuesAre(records: Records, ids: seq<SecretId>)
    requires Enumerates(ids, records.Keys)
    requires forall id :: id in records ==> records[id].stored.metadata.id == id
    ensures forall i :: 0 <= i < |ids| ==> ids[i] in records
    ensures Distinct(MemValues(records, ids))
    ensures forall x :: x in MemValues(records, ids) <==> IsStored(records, x)
  {
    assert forall i :: 0 <= i < |ids| ==> ids[i] in records;
    var values := MemValues(records, ids);
    assert forall i :: 0 <= i < |ids| ==> values[i].metadata.id == ids[i];
    forall x | IsStored(records, x) ensures x in values {
      assert x.metadata.id in ids;
      var i :| 0 <= i < |ids| && ids[i] == x.metadata.id;
      assert values[i] == x;
    }
  }

  lemma {:induction false} DirValuesAre(codec: Codec, files: Files, records: Records, names: seq<FileName>)
    requires Represents(codec, files, records) && Distinct(names)
    requires forall i :: 0 <= i < |names| ==> names[i] in files
    ensures var r := DirEntries(codec, files, names);
            && r.Ok? && Distinct(r.value)
            && forall x :: x in r.value <==> IsStored(records, x) && MetadataFile(x.metadata.id) in names
  {
    if names != [] {
      var earlier, name := names[..|names| - 1], names[|names| - 1];
      DirValuesAre(codec, files, records, earlier);
      assert names == earlier + [name];
      if name.extension == "json" {
        assert name == MetadataFile(name.stem);
        assert Agrees(codec, files, records, name.stem);
        var values := DirEntries(codec, files, earlier).value;
        assert records[name.stem].stored !in values;
        assert DirEntries(codec, files, names) == Ok(values + [records[name.stem].stored]);
      }
    }
  }

  function NameOf(s: Stored): (name: string) {
    s.metadata.name
  }

  /** Both lists hold the same entries, and show the same names in the same order. */
  ghost predicate SameListing(a: seq<Stored>, b: seq<Stored>) {
    multiset(a) == multiset(b) && Mapped(a, NameOf) == Mapped(b, NameOf)
  }

  lemma NameOrder()
    ensures Preorder(ByName)
  {
    TextOrder();
  }

  lemma SortedNames(s: seq<Stored>)
    requires Sorted(s, ByName)
    ensures Sorted(Mapped(s, NameOf), TextLe)
  {
  }

  lemma SortedAlike(a: seq<Stored>, b: seq<Stored>)
    requires multiset(a) == multiset(b)
    ensures SameListing(SortBy(a, ByName), SortBy(b, ByName))
  {
    var x, y := SortBy(a, ByName), SortBy(b, ByName);
    NameOrder();
    SortByIsSorted(a, ByName);
    SortByIsSorted(b, ByName);
    MappedPermutation(x, y, NameOf);
    SortedNames(x);
    SortedNames(y);
    TextOrder();
    SortedUnique(Mapped(x, NameOf), Mapped(y, NameOf), TextLe);
  }

  lemma IdsMatch(codec: Codec, files: Files, records: Records, id: SecretId)
    requires Represents(codec, files, records) && id in records
    ensures records[id].stored.metadata.id == id && MetadataFile(id) in files
  {
    assert Agrees(codec, files, records, id);
  }

  /** Whatever order map and directory yield their entries in, the listings agree. */
  lemma ListingsAgree(codec: Codec, files: Files, records: Records, ids: seq<SecretId>, names: seq<FileName>)
    requires Represents(codec, files, records)
    requires Enumerates(ids, records.Keys) && Enumerates(names, files.Keys)
    requires forall i :: 0 <= i < |ids| ==> ids[i] in records
    requires forall i :: 0 <= i < |names| ==> names[i] in files
    ensures var listing := DirList(codec, files, names);
            listing.Ok? && SameListing(listing.value, MemList(records, ids))
  {
    forall id | id in records ensures records[id].stored.metadata.id == id && MetadataFile(id) in files {
      IdsMatch(codec, files, records, id);
    }
    MemValuesAre(records, ids);
    DirValuesAre(codec, files, records, names);
    var values := DirEntries(codec, files, names).value;
    SameElements(values, MemValues(records, ids));
    SortedAlike(values, MemValues(records, ids));
  }
}

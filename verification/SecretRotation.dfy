/** The two codecs are lawful, and rewrapping makes the old master keys unnecessary. */
module SecretRotation {
  import opened Wrappers
  import opened Secrets
  import opened SecretRefinement

  /** Encodings invert, and among the keys of `ring` only the sealing key opens a ciphertext. */
  ghost predicate Ideal(p: Primitives, ring: set<Key>) {
    && (forall m :: p.decode(p.encode(m)) == Some(m))
    && (forall s :: p.fromUtf8(p.toUtf8(s)) == Some(s))
    && (forall k, n, b :: k in ring ==> p.seal(k, n, b) != [])
    && (forall k, other, n, b :: k in ring && other in ring ==>
          p.open(other, n, p.seal(k, n, b)) == if other == k then Some(b) else None)
  }

  function Ring(keys: seq<Key>): (ring: set<Key>) {
    set k | k in keys
  }

  lemma {:induction false} TryKeysExactly(p: Primitives, ring: set<Key>, keys: seq<Key>, k: Key, value: SecretValue,
      nonce: Nonce)
    requires Ideal(p, ring) && k in ring && Ring(keys) <= ring
    ensures TryKeys(p, keys, nonce, p.seal(k, nonce, p.toUtf8(value))) == if k in keys then Ok(value) else Err(Denied)
  {
    if keys != [] {
      assert keys[0] in Ring(keys);
      assert keys == [keys[0]] + keys[1..];
      if keys[0] != k {
        assert Ring(keys[1..]) <= Ring(keys);
        TryKeysExactly(p, ring, keys[1..], k, value, nonce);
      }
    }
  }

  lemma PayloadParts(nonce: Nonce, ciphertext: seq<Byte>)
    ensures var payload := HEADER + nonce + ciphertext;
            && HEADER <= payload && |payload| == |HEADER| + 24 + |ciphertext|
            && payload[|HEADER|..|HEADER| + 24] == nonce && payload[|HEADER| + 24..] == ciphertext
  {
  }

  /** A sealed value is read exactly by the stores that hold its key; the others are denied. */
  lemma DecryptExactly(p: Primitives, ring: set<Key>, keys: seq<Key>, k: Key, value: SecretValue, nonce: Nonce)
    requires Ideal(p, ring) && k in ring && Ring(keys) <= ring
    ensures Decrypt(p, keys, Sealed(p, k, value, nonce)) == if k in keys then Ok(value) else Err(Denied)
  {
    PayloadParts(nonce, p.seal(k, nonce, p.toUtf8(value)));
    TryKeysExactly(p, ring, keys, k, value, nonce);
  }

  lemma PlainIsLawful(p: Primitives)
    requires Ideal(p, {})
    ensures Lawful(PlainCodec(p))
  {
  }

  lemma SealingIsLawful(p: Primitives, current: Key, previous: seq<Key>)
    requires Ideal(p, Ring([current] + previous))
    ensures Lawful(SealingCodec(p, current, previous))
  {
    var codec := SealingCodec(p, current, previous);
    forall v, n ensures codec.read(codec.write(v, n)) == Ok(v) {
      assert current in [current] + previous;
      DecryptExactly(p, Ring([current] + previous), [current] + previous, current, v, n);
    }
  }

  /** The plain and the encrypted file store, opened on empty directories, answer every run as the in-memory store. */
  lemma StoresAgree(p: Primitives, current: Key, previous: seq<Key>, ops: seq<Op>)
    requires Ideal(p, Ring([current] + previous))
    ensures DirRun(PlainCodec(p), map[], ops).1 == MemRun(map[], ops).1
    ensures DirRun(SealingCodec(p, current, previous), map[], ops).1 == MemRun(map[], ops).1
  {
    PlainIsLawful(p);
    SealingIsLawful(p, current, previous);
    RunsAgree(PlainCodec(p), map[], map[], ops);
    RunsAgree(SealingCodec(p, current, previous), map[], map[], ops);
  }

  // ---- key rotation ----

  datatype Rewrapping = Rewrapping(id: SecretId, nonce: Nonce)

  function RewrapAll(codec: Codec, files: Files, jobs: seq<Rewrapping>): (r: Files) {
    if jobs == [] then files
    else
      var job := jobs[|jobs| - 1];
      Rewrap(codec, RewrapAll(codec, files, jobs[..|jobs| - 1]), job.id, job.nonce).0
  }

  ghost predicate Covers(jobs: seq<Rewrapping>, id: SecretId) {
    exists i :: 0 <= i < |jobs| && jobs[i].id == id
  }

  /** Rewrapping answers as a read does and changes no record. */
  lemma RewrapAgrees(codec: Codec, files: Files, records: Records, id: SecretId, nonce: Nonce)
    requires Lawful(codec) && Represents(codec, files, records)
    ensures Represents(codec, Rewrap(codec, files, id, nonce).0, records)
    ensures var read := MemRead(records, id);
            Rewrap(codec, files, id, nonce).1 == if read.Ok? then Ok(()) else Err(read.error)
  {
    var files' := Rewrap(codec, files, id, nonce).0;
    assert Agrees(codec, files, records, id);
    ReadsAgree(codec, files, records, id);
    if MemRead(records, id).Ok? {
      assert Agrees(codec, files', records, id);
      OthersAgree(codec, files, files', records, records, id);
    }
  }

  /** The new key alone reads this secret. */
  ghost predicate ReadAlone(p: Primitives, current: Key, files: Files, records: Records, id: SecretId) {
    Agrees(SealingCodec(p, current, []), files, records, id)
  }

  lemma RewrapReadsAlone(p: Primitives, current: Key, previous: seq<Key>, files: Files, records: Records,
      job: Rewrapping, id: SecretId)
    requires Ideal(p, Ring([current] + previous))
    requires Represents(SealingCodec(p, current, previous), files, records)
    requires ReadAlone(p, current, files, records, id) || job.id == id
    ensures ReadAlone(p, current, Rewrap(SealingCodec(p, current, previous), files, job.id, job.nonce).0, records, id)
  {
    var codec := SealingCodec(p, current, previous);
    assert Agrees(codec, files, records, job.id);
    ReadsAgree(codec, files, records, job.id);
    assert current in [current] + previous;
    if MemRead(records, job.id).Ok? {
      DecryptExactly(p, Ring([current] + previous), [current] + [], current, records[job.id].value, job.nonce);
    }
  }

  lemma {:induction false} RewrapAllKeeps(p: Primitives, current: Key, previous: seq<Key>, files: Files,
      records: Records, jobs: seq<Rewrapping>)
    requires Ideal(p, Ring([current] + previous))
    requires Represents(SealingCodec(p, current, previous), files, records)
    ensures var codec := SealingCodec(p, current, previous); Represents(codec, RewrapAll(codec, files, jobs), records)
  {
    if jobs != [] {
      var codec, job := SealingCodec(p, current, previous), jobs[|jobs| - 1];
      RewrapAllKeeps(p, current, previous, files, records, jobs[..|jobs| - 1]);
      SealingIsLawful(p, current, previous);
      RewrapAgrees(codec, RewrapAll(codec, files, jobs[..|jobs| - 1]), records, job.id, job.nonce);
    }
  }

  lemma {:induction false} RewrapAllReadsAlone(
    p: Primitives, current: Key, previous: seq<Key>, files: Files, records: Records, jobs: seq<Rewrapping>,
        id: SecretId)
    requires Ideal(p, Ring([current] + previous))
    requires Represents(SealingCodec(p, current, previous), files, records)
    requires Covers(jobs, id) || ReadAlone(p, current, files, records, id)
    ensures ReadAlone(p, current, RewrapAll(SealingCodec(p, current, previous), files, jobs), records, id)
  {
    if jobs != [] {
      var earlier, job := jobs[..|jobs| - 1], jobs[|jobs| - 1];
      RewrapAllKeeps(p, current, previous, files, records, earlier);
      if job.id != id {
        CoversEarlier(jobs, id);
        RewrapAllReadsAlone(p, current, previous, files, records, earlier, id);
      }
      var rewrapped := RewrapAll(SealingCodec(p, current, previous), files, earlier);
      RewrapReadsAlone(p, current, previous, rewrapped, records, job, id);
    }
  }

  lemma CoversEarlier(jobs: seq<Rewrapping>, id: SecretId)
    requires jobs != [] && jobs[|jobs| - 1].id != id
    ensures Covers(jobs, id) <==> Covers(jobs[..|jobs| - 1], id)
  {
    var earlier := jobs[..|jobs| - 1];
    if Covers(jobs, id) {
      var i :| 0 <= i < |jobs| && jobs[i].id == id;
      assert earlier[i].id == id;
    }
    if Covers(earlier, id) {
      var i :| 0 <= i < |earlier| && earlier[i].id == id;
      assert jobs[i].id == id;
    }
  }

  /** Secrets whose value no read may reveal need no key. */
  lemma UnreadableReadsAlone(p: Primitives, current: Key, previous: seq<Key>, files: Files, records: Records,
      id: SecretId)
    requires Represents(SealingCodec(p, current, previous), files, records)
    requires id in records ==> records[id].stored.status == Revoked
    ensures ReadAlone(p, current, files, records, id)
  {
    assert Agrees(SealingCodec(p, current, previous), files, records, id);
  }

  /** After every active secret was rewrapped, a store with the new key alone holds the same secrets. */
  lemma RotationRetiresOldKeys(p: Primitives, current: Key, previous: seq<Key>, files: Files, records: Records,
      jobs: seq<Rewrapping>)
    requires Ideal(p, Ring([current] + previous))
    requires Represents(SealingCodec(p, current, previous), files, records)
    requires forall id :: id in records && records[id].stored.status == Active ==> Covers(jobs, id)
    ensures var rewrapped := RewrapAll(SealingCodec(p, current, previous), files, jobs);
            Represents(SealingCodec(p, current, []), rewrapped, records)
  {
    var rewrapped := RewrapAll(SealingCodec(p, current, previous), files, jobs);
    var alone := SealingCodec(p, current, []);
    forall id ensures Agrees(alone, rewrapped, records, id) {
      if !(id in records && records[id].stored.status == Active) {
        UnreadableReadsAlone(p, current, previous, files, records, id);
      }
      RewrapAllReadsAlone(p, current, previous, files, records, jobs, id);
      assert ReadAlone(p, current, rewrapped, records, id);
    }
  }

  /** It answers every read, of active, revoked and missing ids, as the old store did, and so every later run. */
  lemma RotationKeepsAnswers(p: Primitives, current: Key, previous: seq<Key>, files: Files, records: Records,
      jobs: seq<Rewrapping>, ops: seq<Op>)
    requires Ideal(p, Ring([current] + previous))
    requires Represents(SealingCodec(p, current, previous), files, records)
    requires forall id :: id in records && records[id].stored.status == Active ==> Covers(jobs, id)
    ensures var full, alone := SealingCodec(p, current, previous), SealingCodec(p, current, []);
            var rewrapped := RewrapAll(full, files, jobs);
            && (forall id :: DirRead(alone, rewrapped, id) == DirRead(full, files, id))
            && DirRun(alone, rewrapped, ops).1 == DirRun(full, files, ops).1
  {
    var full, alone := SealingCodec(p, current, previous), SealingCodec(p, current, []);
    var rewrapped := RewrapAll(full, files, jobs);
    RotationRetiresOldKeys(p, current, previous, files, records, jobs);
    forall id ensures DirRead(alone, rewrapped, id) == DirRead(full, files, id) {
      assert Agrees(full, files, records, id) && Agrees(alone, rewrapped, records, id);
      ReadsAgree(full, files, records, id);
      ReadsAgree(alone, rewrapped, records, id);
    }
    SealingIsLawful(p, current, previous);
    FewerKeysIdeal(p, current, previous);
    SealingIsLawful(p, current, []);
    RunsAgree(full, files, records, ops);
    RunsAgree(alone, rewrapped, records, ops);
  }

  lemma FewerKeysIdeal(p: Primitives, current: Key, previous: seq<Key>)
    requires Ideal(p, Ring([current] + previous))
    ensures Ideal(p, Ring([current] + []))
  {
    assert current in [current] + previous;
    assert Ring([current] + []) <= Ring([current] + previous);
  }

  lemma {:induction false} SkippedStaysSealed(codec: Codec, files: Files, jobs: seq<Rewrapping>, id: SecretId)
    requires codec.extension != "json" && !Covers(jobs, id)
    ensures var rewrapped := RewrapAll(codec, files, jobs);
            && (ValueFile(codec, id) in rewrapped <==> ValueFile(codec, id) in files)
            && (ValueFile(codec, id) in files ==> rewrapped[ValueFile(codec, id)] == files[ValueFile(codec, id)])
            && ReadMetadata(codec, rewrapped, id) == ReadMetadata(codec, files, id)
  {
    if jobs != [] {
      assert jobs[|jobs| - 1].id != id;
      CoversEarlier(jobs, id);
      SkippedStaysSealed(codec, files, jobs[..|jobs| - 1], id);
    }
  }

  /** A secret that was skipped and is still sealed with an old key is denied to the new key alone. */
  lemma SkippedIsDenied(p: Primitives, current: Key, previous: seq<Key>, files: Files, jobs: seq<Rewrapping>,
                        id: SecretId, stored: Stored, was: Key, value: SecretValue, nonce: Nonce)
    requires Ideal(p, Ring([current] + previous)) && was in previous && was != current && !Covers(jobs, id)
    requires ReadMetadata(SealingCodec(p, current, previous), files, id) == Ok(stored) && stored.status == Active
    requires FileName(id, "enc") in files && files[FileName(id, "enc")] == Sealed(p, was, value, nonce)
    ensures DirRead(SealingCodec(p, current, previous), files, id) == Ok(value)
    ensures var rewrapped := RewrapAll(SealingCodec(p, current, previous), files, jobs);
            DirRead(SealingCodec(p, current, []), rewrapped, id) == Err(Denied)
  {
    SkippedStaysSealed(SealingCodec(p, current, previous), files, jobs, id);
    assert was in [current] + previous && current in [current] + previous;
    DecryptExactly(p, Ring([current] + previous), [current] + previous, was, value, nonce);
    DecryptExactly(p, Ring([current] + previous), [current] + [], was, value, nonce);
  }
}

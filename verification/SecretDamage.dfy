/** What the directory stores answer on files that they did not write themselves. */
module SecretDamage {
  import opened Wrappers
  import opened Clock
  import opened Secrets

  /** The metadata file of `id` is there, and what it says is readable. */
  ghost predicate Legible(codec: Codec, files: Files, id: SecretId) {
    MetadataFile(id) in files && codec.decode(files[MetadataFile(id)]).Some?
  }

  ghost predicate Illegible(codec: Codec, files: Files, id: SecretId) {
    MetadataFile(id) in files && codec.decode(files[MetadataFile(id)]).None?
  }

  ghost predicate Says(codec: Codec, files: Files, id: SecretId, status: SecretStatus) {
    Legible(codec, files, id) && codec.decode(files[MetadataFile(id)]).value.status == status
  }

  /**
   On any directory: metadata that is gone is Missing and damaged metadata Invalid, a revoked secret is Denied whatever
   its value file holds, and the value of an active one is Missing or as its file reads.
   */
  lemma ReadOnAnyDirectory(codec: Codec, files: Files, id: SecretId)
    ensures var r := DirRead(codec, files, id);
            && (MetadataFile(id) !in files ==> r == Err(Missing))
            && (Illegible(codec, files, id) ==> r == Err(Invalid))
            && (Says(codec, files, id, Revoked) ==> r == Err(Denied))
            && (Says(codec, files, id, Active) ==>
                  r == if ValueFile(codec, id) in files then codec.read(files[ValueFile(codec, id)]) else Err(Missing))
  {
  }

  /** Writing and deleting are refused on the same metadata, and a refusal leaves every file as it was. */
  lemma RefusalsOnAnyDirectory(codec: Codec, files: Files, id: SecretId, value: SecretValue, now: Time, nonce: Nonce)
    requires codec.extension != "json"
    ensures var (updated, u) := DirUpdate(codec, files, id, value, now, nonce);
            var (revoked, r) := DirRevoke(codec, files, id, now);
            var (deleted, d) := DirDelete(codec, files, id);
            && (MetadataFile(id) !in files ==> u == r == d == Err(Missing))
            && (Illegible(codec, files, id) ==> u == r == d == Err(Invalid))
            && (Says(codec, files, id, Revoked) ==> u == Err(Denied))
            && (u.Ok? <==> Says(codec, files, id, Active))
            && (r.Ok? <==> Legible(codec, files, id))
            && (d.Ok? <==> Legible(codec, files, id) && ValueFile(codec, id) in files)
            && (u.Err? ==> updated == files) && (r.Err? ==> revoked == files) && (d.Err? ==> deleted == files)
  {
    assert ValueFile(codec, id) != MetadataFile(id);
  }

  // ---- ciphertexts ----

  /** The first key that opens the ciphertext decides, whatever later keys would say. */
  lemma {:induction false} FirstKeyDecides(p: Primitives, keys: seq<Key>, nonce: Nonce, ciphertext: seq<Byte>, k: nat)
    requires k < |keys| && p.open(keys[k], nonce, ciphertext).Some?
    requires forall i :: 0 <= i < k ==> p.open(keys[i], nonce, ciphertext).None?
    ensures var text := p.fromUtf8(p.open(keys[k], nonce, ciphertext).value);
            var r := TryKeys(p, keys, nonce, ciphertext);
            && (r.Ok? <==> text.Some? && 1 <= |text.value| <= 16_384)
            && (r.Ok? ==> r.value == text.value) && (r.Err? ==> r.error == Invalid)
  {
    if k > 0 {
      FirstKeyDecides(p, keys[1..], nonce, ciphertext, k - 1);
    }
  }

  /** The bytes start with this ASCII text. */
  ghost predicate StartsAs(bytes: seq<Byte>, text: string) {
    |text| <= |bytes| && forall i :: 0 <= i < |text| ==> bytes[i] == text[i] as int
  }

  lemma HeaderExactly(payload: seq<Byte>)
    ensures HEADER <= payload <==> StartsAs(payload, "LXCUPENC1")
  {
    assert forall i :: 0 <= i < 9 ==> HEADER[i] == "LXCUPENC1"[i] as int;
    if StartsAs(payload, "LXCUPENC1") {
      assert payload[..9] == HEADER;
    }
  }

  /** A payload is refused as Invalid if it does not start as one, and as Denied exactly if no key opens it. */
  lemma PayloadExactly(p: Primitives, keys: seq<Key>, payload: seq<Byte>)
    ensures var wellFormed := |payload| > 33 && StartsAs(payload, "LXCUPENC1");
            && (!wellFormed ==> Decrypt(p, keys, payload) == Err(Invalid))
            && (wellFormed ==>
                  (Decrypt(p, keys, payload) == Err(Denied) <==>
                   forall i :: 0 <= i < |keys| ==> p.open(keys[i], payload[9..33], payload[33..]).None?))
  {
    HeaderExactly(payload);
    if |payload| > 33 && StartsAs(payload, "LXCUPENC1") {
      OpenedOrDenied(p, keys, payload[9..33], payload[33..]);
    }
  }

  lemma {:induction false} OpenedOrDenied(p: Primitives, keys: seq<Key>, nonce: Nonce, ciphertext: seq<Byte>)
    ensures TryKeys(p, keys, nonce, ciphertext) == Err(Denied) <==>
            forall i :: 0 <= i < |keys| ==> p.open(keys[i], nonce, ciphertext).None?
  {
    if keys != [] {
      OpenedOrDenied(p, keys[1..], nonce, ciphertext);
      assert forall i :: 0 < i < |keys| ==> keys[i] == keys[1..][i - 1];
    }
  }
}

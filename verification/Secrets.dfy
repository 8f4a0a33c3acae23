/** The secret stores: the in-memory provider and the directory providers, plain and encrypted. */
module Secrets {
  import opened Wrappers
  import opened Clock
  import opened Text
  import opened Orders
  import opened Sorting

  type Byte = x: int | 0 <= x < 256

  /** A secret id is its canonical UUID text. */
  type SecretId = string

  datatype Kind = SshPrivateKey | SshPassword | SshKnownHosts | WinrmPassword | AgentToken | BackupPassphrase | Generic

  datatype Scope = Global | ForContainer(container: nat)

  datatype SecretStatus = Active | Revoked

  datatype Metadata = Metadata(id: SecretId, name: string, kind: Kind, scope: Scope, createdAt: Time, updatedAt: Time)

  datatype Stored = Stored(metadata: Metadata, status: SecretStatus)

  type SecretValue = s: string | 0 < |s| <= 16_384 witness "x"

  datatype StoreError = Missing | Denied | Invalid | Unavailable

  function NewMetadata(id: SecretId, name: string, kind: Kind, scope: Scope, now: Time): (r: Result<Metadata,
      StoreError>) {
    if Trim(name) == [] || |name| > 100 then Err(Invalid) else Ok(Metadata(id, name, kind, scope, now, now))
  }

  function NewValue(s: string): (r: Result<SecretValue, StoreError>) {
    if 0 < |s| <= 16_384 then Ok(s) else Err(Invalid)
  }

  function Touched(s: Stored, now: Time): (r: Stored) {
    s.(metadata := s.metadata.(updatedAt := now))
  }

  predicate ByName(a: Stored, b: Stored) {
    TextLe(a.metadata.name, b.metadata.name)
  }

  // ---- calls ----

  type Nonce = s: seq<Byte> | |s| == 24 witness [0, 0, 0, 0, 0, 0, 0, 0, 0, 0, 0, 0, 0, 0, 0, 0, 0, 0, 0, 0, 0, 0, 0, 0]

  /** Ids, times and nonces are drawn by the caller's environment; the in-memory store ignores the nonce. */
  datatype Op =
    | CreateOp(id: SecretId, name: string, kind: Kind, scope: Scope, value: SecretValue, now: Time, nonce: Nonce)
    | ReadOp(id: SecretId)
    | MetadataOp(id: SecretId)
    | UpdateOp(id: SecretId, value: SecretValue, now: Time, nonce: Nonce)
    | RotateOp(id: SecretId, value: SecretValue, now: Time, nonce: Nonce)
    | RevokeOp(id: SecretId, now: Time)
    | DeleteOp(id: SecretId)

  datatype Answer =
    | Described(metadata: Result<Stored, StoreError>)
    | Revealed(value: Result<SecretValue, StoreError>)
    | Done(done: Result<(), StoreError>)

  // ---- the in-memory store ----

  datatype Record = Record(stored: Stored, value: SecretValue)

  type Records = map<SecretId, Record>

  function MemRead(records: Records, id: SecretId): (r: Result<SecretValue, StoreError>) {
    if id !in records then Err(Missing)
    else if records[id].stored.status != Active then Err(Denied)
    else Ok(records[id].value)
  }

  function MemCreate(records: Records, id: SecretId, name: string, kind: Kind, scope: Scope, value: SecretValue,
      now: Time)
    : (r: (Records, Result<Stored, StoreError>))
  {
    match NewMetadata(id, name, kind, scope, now)
    case Err(e) => (records, Err(e))
    case Ok(metadata) => (records[id := Record(Stored(metadata, Active), value)], Ok(Stored(metadata, Active)))
  }

  function MemUpdate(records: Records, id: SecretId, value: SecretValue, now: Time): (r: (Records, Result<(),
      StoreError>)) {
    if id !in records then (records, Err(Missing))
    else if records[id].stored.status != Active then (records, Err(Denied))
    else (records[id := Record(Touched(records[id].stored, now), value)], Ok(()))
  }

  function MemRevoke(records: Records, id: SecretId, now: Time): (r: (Records, Result<(), StoreError>)) {
    if id !in records then (records, Err(Missing))
    else (records[id := records[id].(stored := Touched(records[id].stored.(status := Revoked), now))], Ok(()))
  }

  function MemDelete(records: Records, id: SecretId): (r: (Records, Result<(), StoreError>)) {
    if id !in records then (records, Err(Missing)) else (records - {id}, Ok(()))
  }

  function MemMetadata(records: Records, id: SecretId): (r: Result<Stored, StoreError>) {
    if id in records then Ok(records[id].stored) else Err(Missing)
  }

  function MemStep(records: Records, op: Op): (r: (Records, Answer)) {
    match op
    case CreateOp(id, name, kind, scope, value, now, _) =>
      var (after, created) := MemCreate(records, id, name, kind, scope, value, now);
      (after, Described(created))
    case ReadOp(id) => (records, Revealed(MemRead(records, id)))
    case MetadataOp(id) => (records, Described(MemMetadata(records, id)))
    case UpdateOp(id, value, now, _) =>
      var (after, done) := MemUpdate(records, id, value, now);
      (after, Done(done))
    case RotateOp(id, value, now, _) =>
      var (after, done) := MemUpdate(records, id, value, now);
      (after, Done(done))
    case RevokeOp(id, now) =>
      var (after, done) := MemRevoke(records, id, now);
      (after, Done(done))
    case DeleteOp(id) =>
      var (after, done) := MemDelete(records, id);
      (after, Done(done))
  }

  /** The stored metadata in the order `ids`, in which the map yields its entries, then sorted by name. */
  function MemList(records: Records, ids: seq<SecretId>): (r: seq<Stored>)
    requires forall i :: 0 <= i < |ids| ==> ids[i] in records
  {
    SortBy(seq(|ids|, i requires 0 <= i < |ids| => records[ids[i]].stored), ByName)
  }

  // ---- the directory stores ----

  /** A file is named by an id and an extension. */
  datatype FileName = FileName(stem: SecretId, extension: string)

  type Files = map<FileName, seq<Byte>>

  /** How a directory store writes metadata and values; `extension` is that of its value files. */
  datatype Codec = Codec(
    extension: string,
    encode: Stored -> seq<Byte>, decode: seq<Byte> -> Option<Stored>,
    write: (SecretValue, Nonce) -> seq<Byte>, read: seq<Byte> -> Result<SecretValue, StoreError>)

  function MetadataFile(id: SecretId): (name: FileName) {
    FileName(id, "json")
  }

  function ValueFile(codec: Codec, id: SecretId): (name: FileName) {
    FileName(id, codec.extension)
  }

  function ReadMetadata(codec: Codec, files: Files, id: SecretId): (r: Result<Stored, StoreError>) {
    if MetadataFile(id) !in files then Err(Missing)
    else
      match codec.decode(files[MetadataFile(id)])
      case None => Err(Invalid)
      case Some(stored) => Ok(stored)
  }

  function WriteMetadata(codec: Codec, files: Files, stored: Stored): (r: Files) {
    files[MetadataFile(stored.metadata.id) := codec.encode(stored)]
  }

  function WriteValue(codec: Codec, files: Files, id: SecretId, value: SecretValue, nonce: Nonce): (r: Files) {
    files[ValueFile(codec, id) := codec.write(value, nonce)]
  }

  function DirCreate(codec: Codec, files: Files, id: SecretId, name: string, kind: Kind, scope: Scope,
                     value: SecretValue, now: Time, nonce: Nonce): (r: (Files, Result<Stored, StoreError>))
  {
    match NewMetadata(id, name, kind, scope, now)
    case Err(e) => (files, Err(e))
    case Ok(metadata) =>
      var stored := Stored(metadata, Active);
      (WriteValue(codec, WriteMetadata(codec, files, stored), id, value, nonce), Ok(stored))
  }

  function DirRead(codec: Codec, files: Files, id: SecretId): (r: Result<SecretValue, StoreError>) {
    match ReadMetadata(codec, files, id)
    case Err(e) => Err(e)
    case Ok(stored) =>
      if stored.status != Active then Err(Denied)
      else if ValueFile(codec, id) !in files then Err(Missing)
      else codec.read(files[ValueFile(codec, id)])
  }

  function DirUpdate(codec: Codec, files: Files, id: SecretId, value: SecretValue, now: Time, nonce: Nonce)
    : (r: (Files, Result<(), StoreError>))
  {
    match ReadMetadata(codec, files, id)
    case Err(e) => (files, Err(e))
    case Ok(stored) =>
      if stored.status != Active then (files, Err(Denied))
      else (WriteMetadata(codec, WriteValue(codec, files, id, value, nonce), Touched(stored, now)), Ok(()))
  }

  function DirRevoke(codec: Codec, files: Files, id: SecretId, now: Time): (r: (Files, Result<(), StoreError>)) {
    match ReadMetadata(codec, files, id)
    case Err(e) => (files, Err(e))
    case Ok(stored) => (WriteMetadata(codec, files, Touched(stored.(status := Revoked), now)), Ok(()))
  }

  function DirDelete(codec: Codec, files: Files, id: SecretId): (r: (Files, Result<(), StoreError>)) {
    match ReadMetadata(codec, files, id)
    case Err(e) => (files, Err(e))
    case Ok(_) =>
      if ValueFile(codec, id) !in files then (files, Err(Missing))
      else
        var without := files - {ValueFile(codec, id)};
        if MetadataFile(id) !in without then (without, Err(Missing)) else (without - {MetadataFile(id)}, Ok(()))
  }

  function DirStep(codec: Codec, files: Files, op: Op): (r: (Files, Answer)) {
    match op
    case CreateOp(id, name, kind, scope, value, now, nonce) =>
      var (after, created) := DirCreate(codec, files, id, name, kind, scope, value, now, nonce);
      (after, Described(created))
    case ReadOp(id) => (files, Revealed(DirRead(codec, files, id)))
    case MetadataOp(id) => (files, Described(ReadMetadata(codec, files, id)))
    case UpdateOp(id, value, now, nonce) =>
      var (after, done) := DirUpdate(codec, files, id, value, now, nonce);
      (after, Done(done))
    case RotateOp(id, value, now, nonce) =>
      var (after, done) := DirUpdate(codec, files, id, value, now, nonce);
      (after, Done(done))
    case RevokeOp(id, now) =>
      var (after, done) := DirRevoke(codec, files, id, now);
      (after, Done(done))
    case DeleteOp(id) =>
      var (after, done) := DirDelete(codec, files, id);
      (after, Done(done))
  }

  /** Decodes the metadata files among `names`, in the order in which the directory yields them. */
  function DirEntries(codec: Codec, files: Files, names: seq<FileName>): (r: Result<seq<Stored>, StoreError>)
    requires forall i :: 0 <= i < |names| ==> names[i] in files
  {
    if names == [] then Ok([])
    else
      var earlier, name := DirEntries(codec, files, names[..|names| - 1]), names[|names| - 1];
      if earlier.Err? || name.extension != "json" then earlier
      else
        match codec.decode(files[name])
        case None => Err(Invalid)
        case Some(stored) => Ok(earlier.value + [stored])
  }

  function DirList(codec: Codec, files: Files, names: seq<FileName>): (r: Result<seq<Stored>, StoreError>)
    requires forall i :: 0 <= i < |names| ==> names[i] in files
  {
    match DirEntries(codec, files, names)
    case Err(e) => Err(e)
    case Ok(values) => Ok(SortBy(values, ByName))
  }

  /** Re-encrypts one readable value with the current key. */
  function Rewrap(codec: Codec, files: Files, id: SecretId, nonce: Nonce): (r: (Files, Result<(), StoreError>)) {
    match DirRead(codec, files, id)
    case Err(e) => (files, Err(e))
    case Ok(value) => (WriteValue(codec, files, id, value, nonce), Ok(()))
  }

  // ---- the stores as objects ----

  class InMemorySecretStore {
    var records: Records

    constructor ()
      ensures records == map[]
    {
      records := map[];
    }

    method Perform(op: Op) returns (answer: Answer)
      modifies this
      ensures (records, answer) == MemStep(old(records), op)
    {
      match op
      case CreateOp(id, name, kind, scope, value, now, _) =>
        var metadata := NewMetadata(id, name, kind, scope, now);
        if metadata.Err? {
          return Described(Err(metadata.error));
        }
        var stored := Stored(metadata.value, Active);
        records := records[id := Record(stored, value)];
        answer := Described(Ok(stored));
      case ReadOp(id) =>
        answer := Revealed(MemRead(records, id));
      case MetadataOp(id) =>
        answer := Described(MemMetadata(records, id));
      case UpdateOp(id, value, now, _) =>
        var done := Replace(id, value, now);
        answer := Done(done);
      case RotateOp(id, value, now, _) =>
        var done := Replace(id, value, now);
        answer := Done(done);
      case RevokeOp(id, now) =>
        if id !in records {
          return Done(Err(Missing));
        }
        var record := records[id];
        record := record.(stored := record.stored.(status := Revoked));
        record := record.(stored := Touched(record.stored, now));
        records := records[id := record];
        answer := Done(Ok(()));
      case DeleteOp(id) =>
        if id !in records {
          return Done(Err(Missing));
        }
        records := records - {id};
        answer := Done(Ok(()));
    }

    method Replace(id: SecretId, value: SecretValue, now: Time) returns (done: Result<(), StoreError>)
      modifies this
      ensures (records, done) == MemUpdate(old(records), id, value, now)
    {
      if id !in records {
        return Err(Missing);
      }
      var record := records[id];
      if record.stored.status != Active {
        return Err(Denied);
      }
      record := record.(value := value);
      record := record.(stored := Touched(record.stored, now));
      records := records[id := record];
      done := Ok(());
    }
  }

  /** `FileSecretStore` with the plain codec, `EncryptedFileSecretStore` with the sealing one. */
  class DirectorySecretStore {
    const codec: Codec
    var files: Files

    constructor (codec: Codec, files: Files)
      ensures this.codec == codec && this.files == files
    {
      this.codec, this.files := codec, files;
    }

    method Create(id: SecretId, name: string, kind: Kind, scope: Scope, value: SecretValue, now: Time, nonce: Nonce)
      returns (created: Result<Stored, StoreError>)
      modifies this
      ensures (files, created) == DirCreate(codec, old(files), id, name, kind, scope, value, now, nonce)
    {
      var metadata := NewMetadata(id, name, kind, scope, now);
      if metadata.Err? {
        return Err(metadata.error);
      }
      var stored := Stored(metadata.value, Active);
      files := files[MetadataFile(stored.metadata.id) := codec.encode(stored)];
      files := files[ValueFile(codec, stored.metadata.id) := codec.write(value, nonce)];
      created := Ok(stored);
    }

    method Read(id: SecretId) returns (value: Result<SecretValue, StoreError>)
      ensures value == DirRead(codec, files, id)
    {
      var metadata := ReadMetadata(codec, files, id);
      if metadata.Err? {
        return Err(metadata.error);
      }
      if metadata.value.status != Active {
        return Err(Denied);
      }
      if ValueFile(codec, id) !in files {
        return Err(Missing);
      }
      value := codec.read(files[ValueFile(codec, id)]);
    }

    method Update(id: SecretId, value: SecretValue, now: Time, nonce: Nonce) returns (done: Result<(), StoreError>)
      modifies this
      ensures (files, done) == DirUpdate(codec, old(files), id, value, now, nonce)
    {
      var metadata := ReadMetadata(codec, files, id);
      if metadata.Err? {
        return Err(metadata.error);
      }
      if metadata.value.status != Active {
        return Err(Denied);
      }
      files := files[ValueFile(codec, id) := codec.write(value, nonce)];
      var touched := Touched(metadata.value, now);
      files := files[MetadataFile(touched.metadata.id) := codec.encode(touched)];
      done := Ok(());
    }

    method Revoke(id: SecretId, now: Time) returns (done: Result<(), StoreError>)
      modifies this
      ensures (files, done) == DirRevoke(codec, old(files), id, now)
    {
      var metadata := ReadMetadata(codec, files, id);
      if metadata.Err? {
        return Err(metadata.error);
      }
      var revoked := metadata.value.(status := Revoked);
      revoked := Touched(revoked, now);
      files := files[MetadataFile(revoked.metadata.id) := codec.encode(revoked)];
      done := Ok(());
    }

    method Delete(id: SecretId) returns (done: Result<(), StoreError>)
      modifies this
      ensures (files, done) == DirDelete(codec, old(files), id)
    {
      var metadata := ReadMetadata(codec, files, id);
      if metadata.Err? {
        return Err(metadata.error);
      }
      if ValueFile(codec, id) !in files {
        return Err(Missing);
      }
      files := files - {ValueFile(codec, id)};
      if MetadataFile(id) !in files {
        return Err(Missing);
      }
      files := files - {MetadataFile(id)};
      done := Ok(());
    }

    /** `names` is the order in which the directory yields its entries. */
    method ListMetadata(names: seq<FileName>) returns (listing: Result<seq<Stored>, StoreError>)
      requires forall i :: 0 <= i < |names| ==> names[i] in files
      ensures listing == DirList(codec, files, names)
    {
      var values: seq<Stored> := [];
      for n := 0 to |names|
        invariant DirEntries(codec, files, names[..n]) == Ok(values)
      {
        assert names[..n + 1][..n] == names[..n];
        if names[n].extension != "json" {
          continue;
        }
        var stored := codec.decode(files[names[n]]);
        if stored.None? {
          DirErrorStays(codec, files, names, n + 1);
          return Err(Invalid);
        }
        values := values + [stored.value];
      }
      assert names[..|names|] == names;
      listing := Ok(SortBy(values, ByName));
    }

    method RewrapValue(id: SecretId, nonce: Nonce) returns (done: Result<(), StoreError>)
      modifies this
      ensures (files, done) == Rewrap(codec, old(files), id, nonce)
    {
      var value := Read(id);
      if value.Err? {
        return Err(value.error);
      }
      files := files[ValueFile(codec, id) := codec.write(value.value, nonce)];
      done := Ok(());
    }
  }

  lemma {:induction false} DirErrorStays(codec: Codec, files: Files, names: seq<FileName>, n: nat)
    requires forall i :: 0 <= i < |names| ==> names[i] in files
    requires n <= |names| && DirEntries(codec, files, names[..n]).Err?
    ensures DirEntries(codec, files, names) == DirEntries(codec, files, names[..n])
  {
    if n < |names| {
      assert names[..|names| - 1][..n] == names[..n];
      DirErrorStays(codec, files, names[..|names| - 1], n);
    } else {
      assert names[..n] == names;
    }
  }

  // ---- the two codecs ----

  type Key = s: seq<Byte> | |s| == 32 witness seq(32, _ => 0)

  /** JSON, UTF-8 and the authenticated cipher. */
  datatype Primitives = Primitives(
    encode: Stored -> seq<Byte>, decode: seq<Byte> -> Option<Stored>,
    toUtf8: string -> seq<Byte>, fromUtf8: seq<Byte> -> Option<string>,
    seal: (Key, Nonce, seq<Byte>) -> seq<Byte>, open: (Key, Nonce, seq<Byte>) -> Option<seq<Byte>>)

  /** "LXCUPENC1" */
  const HEADER: seq<Byte> := [76, 88, 67, 85, 80, 69, 78, 67, 49]

  function ReadPlain(p: Primitives, bytes: seq<Byte>): (r: Result<SecretValue, StoreError>) {
    match p.fromUtf8(bytes)
    case None => Err(Unavailable)
    case Some(s) => NewValue(s)
  }

  function PlainCodec(p: Primitives): (codec: Codec) {
    Codec("secret", p.encode, p.decode,
          (value: SecretValue, nonce: Nonce) => p.toUtf8(value),
          (bytes: seq<Byte>) => ReadPlain(p, bytes))
  }

  function Sealed(p: Primitives, key: Key, value: SecretValue, nonce: Nonce): (payload: seq<Byte>) {
    HEADER + nonce + p.seal(key, nonce, p.toUtf8(value))
  }

  /** The first key that opens the ciphertext decides. */
  function TryKeys(p: Primitives, keys: seq<Key>, nonce: Nonce, ciphertext: seq<Byte>): (r: Result<SecretValue,
      StoreError>) {
    if keys == [] then Err(Denied)
    else
      match p.open(keys[0], nonce, ciphertext)
      case None => TryKeys(p, keys[1..], nonce, ciphertext)
      case Some(bytes) =>
        match p.fromUtf8(bytes)
        case None => Err(Invalid)
        case Some(s) => NewValue(s)
  }

  function Decrypt(p: Primitives, keys: seq<Key>, payload: seq<Byte>): (r: Result<SecretValue, StoreError>) {
    if !(HEADER <= payload) || |payload| <= |HEADER| + 24 then Err(Invalid)
    else TryKeys(p, keys, payload[|HEADER|..|HEADER| + 24], payload[|HEADER| + 24..])
  }

  method DecryptPayload(p: Primitives, current: Key, previous: seq<Key>, payload: seq<Byte>)
    returns (r: Result<SecretValue, StoreError>)
    ensures r == Decrypt(p, [current] + previous, payload)
  {
    if !(HEADER <= payload) || |payload| <= |HEADER| + 24 {
      return Err(Invalid);
    }
    var nonce: Nonce := payload[|HEADER|..|HEADER| + 24];
    var ciphertext := payload[|HEADER| + 24..];
    var keys := [current] + previous;
    for i := 0 to |keys|
      invariant TryKeys(p, keys, nonce, ciphertext) == TryKeys(p, keys[i..], nonce, ciphertext)
    {
      assert keys[i..][1..] == keys[i + 1..];
      var plaintext := p.open(keys[i], nonce, ciphertext);
      if plaintext.Some? {
        var text := p.fromUtf8(plaintext.value);
        if text.None? {
          return Err(Invalid);
        }
        return NewValue(text.value);
      }
    }
    r := Err(Denied);
  }

  /** Writes with the current key and reads with the current key, then the previous ones. */
  function SealingCodec(p: Primitives, current: Key, previous: seq<Key>): (codec: Codec) {
    Codec("enc", p.encode, p.decode,
          (value: SecretValue, nonce: Nonce) => Sealed(p, current, value, nonce),
          (payload: seq<Byte>) => Decrypt(p, [current] + previous, payload))
  }
}

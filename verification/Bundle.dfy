/** The sharded filter-config bundle: the writer (internal/controller/filter_config_bundle.go) and
    the reader (internal/filterapi/config_bundle.go, watcher.go).

    The writer's API calls may be refused, or may take effect while their reply is lost. YAML
    marshalling of the index is taken to be lossless. */
module Bundle {
  import opened Text
  import Names

  type byte = x: int | 0 <= x < 256
  type Bytes = seq<byte>

  const PART_SIZE := 700 * 1024
  const MAX_SLOTS := 8
  const INDEX_KEY := "index.yaml"
  const PART_KEY := "chunk"

  datatype Part = Part(name: string, path: string, sizeBytes: nat)
  datatype Index = Index(version: string, uuid: string, checksum: string, parts: seq<Part>)
  datatype Content = Chunk(data: Bytes) | Yaml(index: Index) | Opaque(tag: int)
  type Secret = map<string, Content>
  type Store = map<string, Secret>

  /** Where one Gateway's bundle lives, and the payload checksum. */
  datatype Env = Env(indexName: string, partNames: seq<string>, sum: Bytes -> string) {
    /** The nine Secrets have nine different names. */
    ghost predicate Valid() {
      && |partNames| == MAX_SLOTS
      && indexName !in partNames
      && forall i, j :: 0 <= i < j < MAX_SLOTS ==> partNames[i] != partNames[j]
    }
  }

  lemma SlotsFit(slot: nat)
    requires slot < MAX_SLOTS
    ensures |Pad3(slot)| == 3 && Names.SlotFits(slot)
  {
    Pad3Short(slot);
  }

  function PartName(sha: string -> Names.ShortHash, gw: string, ns: string, slot: nat): string
    requires slot < MAX_SLOTS
  {
    SlotsFit(slot);
    Names.PartSecretName(sha, gw, ns, slot)
  }

  /** The names the writer and the webhook both derive from a Gateway. */
  function EnvFor(sha: string -> Names.ShortHash, sum: Bytes -> string, gw: string, ns: string): Env {
    Env(Names.IndexSecretName(sha, gw, ns),
        seq(MAX_SLOTS, i requires 0 <= i < MAX_SLOTS => PartName(sha, gw, ns, i)), sum)
  }

  /** Every Gateway's bundle names are nine different names, whatever its own name and length. */
  lemma EnvForIsValid(sha: string -> Names.ShortHash, sum: Bytes -> string, gw: string, ns: string)
    ensures EnvFor(sha, sum, gw, ns).Valid()
  {
    var env := EnvFor(sha, sum, gw, ns);
    forall i | 0 <= i < MAX_SLOTS ensures env.partNames[i] != env.indexName {
      SlotsFit(i);
      Names.IndexIsNotPart(sha, gw, ns, gw, ns, i);
    }
    forall i, j | 0 <= i < j < MAX_SLOTS ensures env.partNames[i] != env.partNames[j] {
      SlotsFit(i);
      SlotsFit(j);
      if env.partNames[i] == env.partNames[j] {
        Names.PartNamesCollide(sha, gw, ns, i, gw, ns, j);
      }
    }
  }

  function PartPath(slot: nat): string { "parts/" + Pad3(slot) }

  lemma PartPathIs(slot: nat)
    requires slot < MAX_SLOTS
    ensures PartPath(slot) == "parts/00" + Digits(slot)
  {
    assert |Digits(slot)| == 1;
    assert "parts/" + ("00" + Digits(slot)) == "parts/00" + Digits(slot);
  }

  lemma PartPathInjective(i: nat, j: nat)
    requires PartPath(i) == PartPath(j)
    ensures i == j
  {
    assert Pad3(i) == PartPath(i)[6..] && Pad3(j) == PartPath(j)[6..];
    ValuePad3(i);
    ValuePad3(j);
  }

  /* ---- Splitting ---- */

  function Concat(chunks: seq<Bytes>): Bytes {
    if chunks == [] then [] else chunks[0] + Concat(chunks[1..])
  }

  /** The shards of a payload, first shard first. */
  function Chunks(raw: Bytes, size: nat): (chunks: seq<Bytes>)
    requires size > 0
    ensures |chunks| >= 1
    decreases |raw|
  {
    if |raw| <= size then [raw] else [raw[..size]] + Chunks(raw[size..], size)
  }

  /** Sharding loses nothing. */
  lemma {:induction false} ChunksConcat(raw: Bytes, size: nat)
    requires size > 0
    ensures Concat(Chunks(raw, size)) == raw
    decreases |raw|
  {
    if |raw| <= size {
      assert Concat([raw]) == raw + Concat([]);
    } else {
      ChunksConcat(raw[size..], size);
      assert ([raw[..size]] + Chunks(raw[size..], size))[1..] == Chunks(raw[size..], size);
    }
  }

  /** Every shard but the last is full; the last one is not empty unless the payload is. */
  lemma {:induction false} ChunksFull(raw: Bytes, size: nat, i: nat)
    requires size > 0 && i < |Chunks(raw, size)|
    ensures i < |Chunks(raw, size)| - 1 ==> |Chunks(raw, size)[i]| == size
    ensures i == |Chunks(raw, size)| - 1 ==>
              |Chunks(raw, size)[i]| <= size && (raw != [] ==> Chunks(raw, size)[i] != [])
    decreases |raw|
  {
    if |raw| > size && i > 0 {
      ChunksFull(raw[size..], size, i - 1);
    }
  }

  /** A payload needs more than `m` shards exactly when it is longer than `m` full shards. */
  lemma {:induction false} ChunksCount(raw: Bytes, size: nat, m: nat)
    requires size > 0 && m > 0
    ensures |Chunks(raw, size)| <= m <==> |raw| <= m * size
    decreases m
  {
    if |raw| <= size {
      assert m * size >= size;
    } else if m > 1 {
      ChunksCount(raw[size..], size, m - 1);
      assert (m - 1) * size + size == m * size;
    }
  }

  lemma ChunksFrom(raw: Bytes, start: nat, size: nat)
    requires size > 0 && start < |raw|
    ensures Chunks(raw[start..], size) ==
              if start + size >= |raw| then [raw[start..|raw|]]
              else [raw[start..start + size]] + Chunks(raw[start + size..], size)
  {
    var rest := raw[start..];
    if start + size < |raw| {
      assert rest[..size] == raw[start..start + size] && rest[size..] == raw[start + size..];
    } else {
      assert raw[start..|raw|] == rest;
    }
  }

  /** What is cut, plus the chunks of what is left from `start` on. */
  ghost function CutPlus(chunks: seq<Bytes>, raw: Bytes, start: nat, size: nat): seq<Bytes>
    requires size > 0
  {
    if start < |raw| then chunks + Chunks(raw[start..], size) else chunks
  }

  lemma CutStep(chunks: seq<Bytes>, raw: Bytes, start: nat, size: nat)
    requires size > 0 && start < |raw|
    ensures var end := if start + size > |raw| then |raw| else start + size;
            CutPlus(chunks + [raw[start..end]], raw, start + size, size) == CutPlus(chunks, raw, start, size)
  {
    ChunksFrom(raw, start, size);
  }

  method SplitBytes(raw: Bytes, chunkSize: nat) returns (chunks: seq<Bytes>)
    requires chunkSize > 0
    ensures chunks == Chunks(raw, chunkSize)
  {
    if |raw| == 0 {
      return [[]];
    }
    chunks := [];
    var start := 0;
    assert raw[0..] == raw && [] + Chunks(raw, chunkSize) == Chunks(raw, chunkSize);
    while start < |raw|
      invariant CutPlus(chunks, raw, start, chunkSize) == Chunks(raw, chunkSize)
    {
      var end := start + chunkSize;
      if end > |raw| {
        end := |raw|;
      }
      CutStep(chunks, raw, start, chunkSize);
      chunks := chunks + [raw[start..end]];
      start := start + chunkSize;
    }
  }

  /* ---- The writer's plan ---- */

  datatype Op = PutPart(slot: nat, data: Bytes) | DropPart(slot: nat) | PutIndex(index: Index)

  predicate ValidOp(op: Op) { !op.PutIndex? ==> op.slot < MAX_SLOTS }

  /** The effect of one mutation. Writing the index keeps the other keys of an existing Secret. */
  function Apply(env: Env, store: Store, op: Op): Store
    requires |env.partNames| == MAX_SLOTS && ValidOp(op)
  {
    match op
    case PutPart(slot, data) => store[env.partNames[slot] := map[PART_KEY := Chunk(data)]]
    case DropPart(slot) => store - {env.partNames[slot]}
    case PutIndex(index) =>
      var kept := if env.indexName in store then store[env.indexName] else map[];
      store[env.indexName := kept[INDEX_KEY := Yaml(index)]]
  }

  ghost predicate ValidOps(ops: seq<Op>) { forall i :: 0 <= i < |ops| ==> ValidOp(ops[i]) }

  function ApplyAll(env: Env, store: Store, ops: seq<Op>): Store
    requires |env.partNames| == MAX_SLOTS && ValidOps(ops)
  {
    if ops == [] then store else Apply(env, ApplyAll(env, store, ops[..|ops| - 1]), ops[|ops| - 1])
  }

  /** The used slots: where each shard is and how long it is. */
  function PartsFor(env: Env, chunks: seq<Bytes>): seq<Part>
    requires |chunks| <= |env.partNames|
  {
    seq(|chunks|, i requires 0 <= i < |chunks| => Part(env.partNames[i], PartPath(i), |chunks[i]|))
  }

  function PartsTo(env: Env, chunks: seq<Bytes>, i: nat): seq<Part>
    requires |chunks| <= |env.partNames|
  {
    if i < |chunks| then PartsFor(env, chunks)[..i] else PartsFor(env, chunks)
  }

  lemma PartsNext(env: Env, chunks: seq<Bytes>, i: nat)
    requires |chunks| <= |env.partNames|
    ensures PartsTo(env, chunks, i + 1) ==
              if i < |chunks| then PartsTo(env, chunks, i) + [Part(env.partNames[i], PartPath(i), |chunks[i]|)]
              else PartsTo(env, chunks, i)
  {
  }

  function IndexFor(env: Env, chunks: seq<Bytes>, checksum: string, version: string, uuid: string): Index
    requires |chunks| <= |env.partNames|
  {
    Index(version, uuid, checksum, PartsFor(env, chunks))
  }

  function SlotOp(chunks: seq<Bytes>, i: nat): Op {
    if i < |chunks| then PutPart(i, chunks[i]) else DropPart(i)
  }

  /** The mutations of a complete write: every slot in order, the index last. */
  function Ops(chunks: seq<Bytes>, index: Index): (ops: seq<Op>)
    ensures |ops| == MAX_SLOTS + 1 && ValidOps(ops)
  {
    seq(MAX_SLOTS, i requires 0 <= i < MAX_SLOTS => SlotOp(chunks, i)) + [PutIndex(index)]
  }

  /** One requested write. */
  datatype Job = Job(payload: Bytes, version: string, uuid: string) {
    function Shards(): seq<Bytes> { Chunks(payload, PART_SIZE) }

    predicate Fits() { |Shards()| <= MAX_SLOTS }

    function NewIndex(env: Env): Index
      requires |env.partNames| == MAX_SLOTS && Fits()
    {
      IndexFor(env, Shards(), env.sum(payload), version, uuid)
    }

    /** A payload that does not fit the slots is refused before any mutation. */
    function Plan(env: Env): (ops: seq<Op>)
      requires |env.partNames| == MAX_SLOTS
      ensures ValidOps(ops) && |ops| == if Fits() then MAX_SLOTS + 1 else 0
    {
      if Fits() then Ops(Shards(), NewIndex(env)) else []
    }
  }

  /* ---- The API server ---- */

  datatype Fault = Healthy | Refused | ReplyLost
  datatype GetResult = GetFailed | NotFound | Found(secret: Secret)

  /** The Secrets of one namespace behind an API whose n-th call meets the n-th fault. */
  class SecretApi {
    var store: Store
    var calls: nat
    const faults: nat -> Fault

    constructor (store: Store, faults: nat -> Fault)
      ensures this.store == store && this.faults == faults
    {
      this.store, this.faults, this.calls := store, faults, 0;
    }

    /** No call ever fails. */
    ghost predicate AllHealthy()
    {
      forall n :: faults(n).Healthy?
    }

    method Get(name: string) returns (r: GetResult)
      modifies this`calls
      ensures AllHealthy() ==> !r.GetFailed?
      ensures r.NotFound? ==> name !in store
      ensures r.Found? ==> name in store && store[name] == r.secret
    {
      r := if !faults(calls).Healthy? then GetFailed else if name in store then Found(store[name]) else NotFound;
      calls := calls + 1;
    }

    /** Create and Update both end here: the object is written, or refused, or written unheard. */
    method Write(name: string, secret: Secret) returns (ok: bool, ghost applied: bool)
      modifies this
      ensures ok ==> applied
      ensures AllHealthy() ==> ok
      ensures store == if applied then old(store)[name := secret] else old(store)
    {
      ok, applied := faults(calls).Healthy?, !faults(calls).Refused?;
      if !faults(calls).Refused? {
        store := store[name := secret];
      }
      calls := calls + 1;
    }

    /** Deleting an absent Secret answers NotFound, which the writer counts as success. */
    method Delete(name: string) returns (ok: bool, ghost applied: bool)
      modifies this
      ensures ok ==> applied
      ensures AllHealthy() ==> ok
      ensures store == if applied then old(store) - {name} else old(store)
    {
      ok, applied := faults(calls).Healthy?, !faults(calls).Refused?;
      if !faults(calls).Refused? {
        store := store - {name};
      }
      calls := calls + 1;
    }
  }

  lemma ApplyNext(env: Env, store: Store, ops: seq<Op>, k: nat)
    requires |env.partNames| == MAX_SLOTS && ValidOps(ops) && k < |ops|
    ensures ApplyAll(env, store, ops[..k + 1]) == Apply(env, ApplyAll(env, store, ops[..k]), ops[k])
  {
    assert ops[..k + 1][..k] == ops[..k];
  }

  /** Whatever the faults, the store afterwards is the plan executed up to some step `k`, and a
      success means it was executed completely. */
  method WriteFilterConfigBundle(api: SecretApi, env: Env, job: Job) returns (ok: bool, ghost k: nat)
    requires |env.partNames| == MAX_SLOTS
    modifies api
    ensures k <= |job.Plan(env)|
    ensures api.store == ApplyAll(env, old(api.store), job.Plan(env)[..k])
    ensures ok ==> k == MAX_SLOTS + 1
    ensures job.Fits() && api.AllHealthy() ==> ok
  {
    var chunks := SplitBytes(job.payload, PART_SIZE);
    if |chunks| > MAX_SLOTS {
      return false, 0;
    }
    ok, k := WriteShards(api, env, chunks, env.sum(job.payload), job.version, job.uuid);
  }

  /** One slot: get-then-write a used one, delete an unused one. */
  method WriteSlot(api: SecretApi, env: Env, chunks: seq<Bytes>, i: nat) returns (done: bool, ghost applied: bool)
    requires |chunks| <= MAX_SLOTS == |env.partNames| && i < MAX_SLOTS
    modifies api
    ensures done ==> applied
    ensures api.AllHealthy() ==> done
    ensures api.store == if applied then Apply(env, old(api.store), SlotOp(chunks, i)) else old(api.store)
  {
    var partName := env.partNames[i];
    if i >= |chunks| {
      done, applied := api.Delete(partName);
    } else {
      var found := api.Get(partName);
      if found.GetFailed? {
        return false, false;
      }
      done, applied := api.Write(partName, map[PART_KEY := Chunk(chunks[i])]);
    }
  }

  method WriteIndex(api: SecretApi, env: Env, index: Index) returns (done: bool, ghost applied: bool)
    requires |env.partNames| == MAX_SLOTS
    modifies api
    ensures done ==> applied
    ensures api.AllHealthy() ==> done
    ensures api.store == if applied then Apply(env, old(api.store), PutIndex(index)) else old(api.store)
  {
    var current := api.Get(env.indexName);
    if current.GetFailed? {
      return false, false;
    }
    var data := if current.Found? then current.secret else map[];
    done, applied := api.Write(env.indexName, data[INDEX_KEY := Yaml(index)]);
  }

  /** All slots in order, stopping at the first failure. */
  method WriteSlots(api: SecretApi, env: Env, chunks: seq<Bytes>, ghost index: Index)
    returns (ok: bool, parts: seq<Part>, ghost k: nat)
    requires |chunks| <= MAX_SLOTS == |env.partNames|
    modifies api
    ensures k <= MAX_SLOTS && api.store == ApplyAll(env, old(api.store), Ops(chunks, index)[..k])
    ensures ok ==> k == MAX_SLOTS && parts == PartsFor(env, chunks)
    ensures api.AllHealthy() ==> ok
  {
    k, parts := 0, [];
    ghost var before, plan := api.store, Ops(chunks, index);
    for i := 0 to MAX_SLOTS
      invariant k == i && api.store == ApplyAll(env, before, plan[..k])
      invariant parts == PartsTo(env, chunks, i)
    {
      ApplyNext(env, before, plan, i);
      PartsNext(env, chunks, i);
      if i < |chunks| {
        parts := parts + [Part(env.partNames[i], PartPath(i), |chunks[i]|)];
      }
      var done: bool;
      ghost var applied: bool;
      done, applied := WriteSlot(api, env, chunks, i);
      k := if applied then i + 1 else i;
      if !done {
        return false, parts, k;
      }
    }
    ok := true;
  }

  method WriteShards(api: SecretApi, env: Env, chunks: seq<Bytes>, checksum: string, version: string, uuid: string)
    returns (ok: bool, ghost k: nat)
    requires |chunks| <= MAX_SLOTS == |env.partNames|
    modifies api
    ensures k <= MAX_SLOTS + 1
    ensures api.store == ApplyAll(env, old(api.store), Ops(chunks, IndexFor(env, chunks, checksum, version, uuid))[..k])
    ensures ok ==> k == MAX_SLOTS + 1
    ensures api.AllHealthy() ==> ok
  {
    ghost var before, want := api.store, IndexFor(env, chunks, checksum, version, uuid);
    var parts: seq<Part>;
    ok, parts, k := WriteSlots(api, env, chunks, want);
    if !ok {
      return;
    }
    ApplyNext(env, before, Ops(chunks, want), MAX_SLOTS);
    var index := Index(version, uuid, checksum, parts);
    ghost var applied: bool;
    ok, applied := WriteIndex(api, env, index);
    k := if applied then MAX_SLOTS + 1 else MAX_SLOTS;
  }

  /* ---- The reader ---- */

  function LowerChar(c: char): char {
    if 'A' <= c <= 'Z' then (c as int + 32) as char else c
  }

  function ToLower(s: string): string {
    seq(|s|, i requires 0 <= i < |s| => LowerChar(s[i]))
  }

  /** A digest in upper case reads as the same digest. */
  lemma ToLowerHex()
    ensures ToLower("0123456789ABCDEF") == "0123456789abcdef" == ToLower("0123456789abcdef")
  {
  }

  /** SHA-256 taken to be collision-free, printed as lower-case hex. */
  ghost predicate GoodChecksum(sum: Bytes -> string) {
    && (forall a, b :: sum(a) == sum(b) ==> a == b)
    && (forall a :: sum(a) != "" && ToLower(sum(a)) == sum(a))
  }

  function ReadParts(parts: seq<Part>, read: string -> Option<Bytes>): Option<Bytes> {
    if parts == [] then Some([]) else
      match read(parts[0].path)
      case None => None
      case Some(b) =>
        var rest := ReadParts(parts[1..], read);
        if rest.None? then None else Some(b + rest.value)
  }

  /** The payload a reader accepts: every part readable and the checksum of their concatenation
      equal to the index's, compared in lower case. */
  function Reassemble(sum: Bytes -> string, index: Index, read: string -> Option<Bytes>): Option<Bytes> {
    if index.checksum == "" || index.parts == [] then None else
      var payload := ReadParts(index.parts, read);
      if payload.Some? && sum(payload.value) == ToLower(index.checksum) then payload else None
  }

  function StoredIndex(env: Env, store: Store): Option<Index> {
    if env.indexName in store && INDEX_KEY in store[env.indexName] && store[env.indexName][INDEX_KEY].Yaml?
    then Some(store[env.indexName][INDEX_KEY].index) else None
  }

  function ChunkIn(store: Store, name: string): Option<Bytes> {
    if name in store && PART_KEY in store[name] && store[name][PART_KEY].Chunk?
    then Some(store[name][PART_KEY].data) else None
  }

  /** The projected volume: slot i is mounted at `parts/00i`, the slots in order. */
  function MountedPart(env: Env, store: Store, path: string, from: nat := 0): Option<Bytes>
    requires from <= MAX_SLOTS == |env.partNames|
    decreases MAX_SLOTS - from
  {
    if from == MAX_SLOTS then None
    else if path == PartPath(from) then ChunkIn(store, env.partNames[from])
    else MountedPart(env, store, path, from + 1)
  }

  function ReadBundle(env: Env, store: Store): Option<Bytes>
    requires |env.partNames| == MAX_SLOTS
  {
    var index := StoredIndex(env, store);
    if index.None? then None else Reassemble(env.sum, index.value, path => MountedPart(env, store, path))
  }

  lemma {:induction false} MountedAt(env: Env, store: Store, slot: nat, from: nat)
    requires from <= slot < MAX_SLOTS == |env.partNames|
    ensures MountedPart(env, store, PartPath(slot), from) == ChunkIn(store, env.partNames[slot])
    decreases slot - from
  {
    if PartPath(slot) == PartPath(from) {
      PartPathInjective(slot, from);
    } else {
      MountedAt(env, store, slot, from + 1);
    }
  }

  /* ---- What every prefix of a write leaves ---- */

  /** After `k` slots, slot `i` holds its new shard, or nothing if it is unused; slots not yet
      reached are as before. */
  lemma {:induction false} SlotAfter(env: Env, store: Store, chunks: seq<Bytes>, index: Index, k: nat, i: nat)
    requires env.Valid() && k <= MAX_SLOTS && i < MAX_SLOTS
    ensures var now, name := ApplyAll(env, store, Ops(chunks, index)[..k]), env.partNames[i];
            if i >= k then (name in now <==> name in store) && (name in now ==> now[name] == store[name])
            else if i < |chunks| then name in now && now[name] == map[PART_KEY := Chunk(chunks[i])]
            else name !in now
  {
    if k > 0 {
      SlotAfter(env, store, chunks, index, k - 1, i);
      ApplyNext(env, store, Ops(chunks, index), k - 1);
    }
  }

  /** The slots' steps leave every Secret alone that is not a part of this bundle. */
  lemma {:induction false} OthersAfter(env: Env, store: Store, chunks: seq<Bytes>, index: Index, k: nat, name: string)
    requires env.Valid() && k <= MAX_SLOTS && name !in env.partNames
    ensures var now := ApplyAll(env, store, Ops(chunks, index)[..k]);
            (name in now <==> name in store) && (name in now ==> now[name] == store[name])
  {
    if k > 0 {
      OthersAfter(env, store, chunks, index, k - 1, name);
      ApplyNext(env, store, Ops(chunks, index), k - 1);
    }
  }

  /** Until its last step a write leaves the stored index alone; its last step installs the new
      one, keeps the parts, and touches nothing else. */
  lemma LastStep(env: Env, store: Store, chunks: seq<Bytes>, index: Index, k: nat)
    requires env.Valid() && k <= MAX_SLOTS + 1
    ensures StoredIndex(env, ApplyAll(env, store, Ops(chunks, index)[..k]))
         == if k <= MAX_SLOTS then StoredIndex(env, store) else Some(index)
    ensures k == MAX_SLOTS + 1 ==>
              (forall name :: name != env.indexName ==>
                (ChunkIn(ApplyAll(env, store, Ops(chunks, index)[..k]), name)
                 == ChunkIn(ApplyAll(env, store, Ops(chunks, index)[..MAX_SLOTS]), name)))
  {
    if k <= MAX_SLOTS {
      OthersAfter(env, store, chunks, index, k, env.indexName);
    } else {
      ApplyNext(env, store, Ops(chunks, index), MAX_SLOTS);
    }
  }

  lemma {:induction false} ReadAllParts(env: Env, store: Store, chunks: seq<Bytes>, index: Index, from: nat)
    requires |env.partNames| == MAX_SLOTS && from <= |chunks| == |index.parts| <= MAX_SLOTS
    requires forall i :: 0 <= i < |chunks| ==> index.parts[i].path == PartPath(i)
    requires forall i :: 0 <= i < |chunks| ==> ChunkIn(store, env.partNames[i]) == Some(chunks[i])
    ensures ReadParts(index.parts[from..], path => MountedPart(env, store, path)) == Some(Concat(chunks[from..]))
    decreases |chunks| - from
  {
    if from < |chunks| {
      ReadAllParts(env, store, chunks, index, from + 1);
      MountedAt(env, store, from, 0);
      assert index.parts[from..][0] == index.parts[from];
      assert index.parts[from..][1..] == index.parts[from + 1..];
      assert chunks[from..][1..] == chunks[from + 1..];
    }
  }

  /** From ANY prior store, a complete write leaves every shard in its slot, no stale slot, and an
      index with the version and uuid asked for, the payload's checksum, and exactly the used slots
      with their true sizes. */
  lemma CompleteWriteLeaves(env: Env, store: Store, job: Job)
    requires env.Valid() && job.Fits()
    ensures var now := ApplyAll(env, store, job.Plan(env));
            && StoredIndex(env, now) == Some(job.NewIndex(env))
            && (forall i :: 0 <= i < |job.Shards()| ==>
                  env.partNames[i] in now && now[env.partNames[i]] == map["chunk" := Chunk(job.Shards()[i])])
            && env.indexName in now && "index.yaml" in now[env.indexName]
            && now[env.indexName]["index.yaml"] == Yaml(job.NewIndex(env))
            && (forall i :: |job.Shards()| <= i < MAX_SLOTS ==> env.partNames[i] !in now)
    ensures var index := StoredIndex(env, ApplyAll(env, store, job.Plan(env))).value;
            && index.version == job.version && index.uuid == job.uuid && index.checksum == env.sum(job.payload)
            && |index.parts| == |job.Shards()|
            && forall i :: 0 <= i < |index.parts| ==>
                 index.parts[i] == Part(env.partNames[i], "parts/00" + Digits(i), |job.Shards()[i]|)
  {
    forall i | 0 <= i < |job.Shards()| ensures PartPath(i) == "parts/00" + Digits(i) { PartPathIs(i); }
    var chunks, index, plan := job.Shards(), job.NewIndex(env), job.Plan(env);
    assert plan[..MAX_SLOTS + 1] == plan;
    LastStep(env, store, chunks, index, MAX_SLOTS + 1);
    ApplyNext(env, store, plan, MAX_SLOTS);
    forall i | 0 <= i < MAX_SLOTS
      ensures i < |chunks| ==>
                env.partNames[i] in ApplyAll(env, store, plan)
                && ApplyAll(env, store, plan)[env.partNames[i]] == map[PART_KEY := Chunk(chunks[i])]
      ensures i >= |chunks| ==> env.partNames[i] !in ApplyAll(env, store, plan)
    {
      SlotAfter(env, store, chunks, index, MAX_SLOTS, i);
    }
  }

  /** ... so the reader reassembles exactly the payload. */
  lemma CompleteWriteReadsBack(env: Env, store: Store, job: Job)
    requires env.Valid() && GoodChecksum(env.sum) && job.Fits()
    ensures ReadBundle(env, ApplyAll(env, store, job.Plan(env))) == Some(job.payload)
  {
    var now, chunks, index := ApplyAll(env, store, job.Plan(env)), job.Shards(), job.NewIndex(env);
    CompleteWriteLeaves(env, store, job);
    ReadAllParts(env, now, chunks, index, 0);
    assert index.parts[0..] == index.parts && chunks[0..] == chunks;
    ChunksConcat(job.payload, PART_SIZE);
  }

  /** A write is refused for its size exactly when the payload exceeds eight full shards. */
  lemma RefusedIffTooLarge(env: Env, job: Job)
    requires |env.partNames| == MAX_SLOTS
    ensures job.Plan(env) == [] <==> |job.payload| > 8 * (700 * 1024)
  {
    ChunksCount(job.payload, PART_SIZE, MAX_SLOTS);
  }

  /* ---- Runs of writes, each stopped anywhere ---- */

  /** One write, executed up to step `reached` (beyond the plan's length: to the end). */
  datatype Attempt = Attempt(job: Job, reached: nat) {
    function Steps(): (k: nat)
      ensures k <= if job.Fits() then MAX_SLOTS + 1 else 0
    {
      if !job.Fits() then 0 else if reached < MAX_SLOTS + 1 then reached else MAX_SLOTS + 1
    }

    predicate Commits() { Steps() == MAX_SLOTS + 1 }
  }

  function Run(env: Env, store: Store, attempts: seq<Attempt>): Store
    requires |env.partNames| == MAX_SLOTS
  {
    if attempts == [] then store else
      var a := attempts[|attempts| - 1];
      ApplyAll(env, Run(env, store, attempts[..|attempts| - 1]), a.job.Plan(env)[..a.Steps()])
  }

  /** The payload of the last attempt that got as far as installing its index, or the one that was
      installed before the run. */
  function LastCommitted(prior: Option<Bytes>, attempts: seq<Attempt>): Option<Bytes> {
    if attempts == [] then prior
    else if attempts[|attempts| - 1].Commits() then Some(attempts[|attempts| - 1].job.payload)
    else LastCommitted(prior, attempts[..|attempts| - 1])
  }

  /** The stored index, if any, is that of the given payload. */
  ghost predicate IndexIsOf(env: Env, store: Store, payload: Option<Bytes>) {
    var index := StoredIndex(env, store);
    && (index.Some? <==> payload.Some?)
    && (index.Some? ==> index.value.checksum == env.sum(payload.value))
  }

  lemma {:induction false} RunIndex(env: Env, store: Store, prior: Option<Bytes>, attempts: seq<Attempt>)
    requires env.Valid() && IndexIsOf(env, store, prior)
    ensures IndexIsOf(env, Run(env, store, attempts), LastCommitted(prior, attempts))
  {
    if attempts != [] {
      var a, earlier := attempts[|attempts| - 1], attempts[..|attempts| - 1];
      RunIndex(env, store, prior, earlier);
      if a.job.Fits() {
        LastStep(env, Run(env, store, earlier), a.job.Shards(), a.job.NewIndex(env), a.Steps());
      }
    }
  }

  /** Over every run of writes stopped at arbitrary API calls, a reader whose index is the one some
      prefix of the run left (a mount lags behind the store) and whose parts come from WHEREVER
      (torn, stale, half-synced) accepts nothing but the payload committed last in that prefix. */
  lemma ReaderAcceptsOnlyCommitted(env: Env, store: Store, prior: Option<Bytes>, attempts: seq<Attempt>, n: nat,
                                   read: string -> Option<Bytes>)
    requires env.Valid() && GoodChecksum(env.sum) && IndexIsOf(env, store, prior) && n <= |attempts|
    ensures var index := StoredIndex(env, Run(env, store, attempts[..n]));
            index.Some? && Reassemble(env.sum, index.value, read).Some? ==>
              Reassemble(env.sum, index.value, read) == LastCommitted(prior, attempts[..n])
  {
    RunIndex(env, store, prior, attempts[..n]);
  }

  /** So whatever a reader accepts was committed: it is the payload of an attempt that ran to its end,
      or the one installed before the run. */
  lemma {:induction false} CommittedIsAttempted(prior: Option<Bytes>, attempts: seq<Attempt>)
    ensures LastCommitted(prior, attempts) == prior
            || exists i :: 0 <= i < |attempts| && attempts[i].Commits()
                           && LastCommitted(prior, attempts) == Some(attempts[i].job.payload)
  {
    if attempts != [] && !attempts[|attempts| - 1].Commits() {
      CommittedIsAttempted(prior, attempts[..|attempts| - 1]);
    }
  }

  /** And a lagging index does no harm by itself: prefixes with no commit between them stand for the
      same payload. */
  lemma {:induction false} NoCommitNoChange(prior: Option<Bytes>, attempts: seq<Attempt>, m: nat, n: nat)
    requires m <= n <= |attempts| && forall i :: m <= i < n ==> !attempts[i].Commits()
    ensures LastCommitted(prior, attempts[..n]) == LastCommitted(prior, attempts[..m])
    decreases n - m
  {
    if m < n {
      assert attempts[..n][..n - 1] == attempts[..n - 1];
      NoCommitNoChange(prior, attempts, m, n - 1);
    }
  }

  /** ... and right after a committing write it is accepted, whatever the earlier writes left. */
  lemma CommittedIsReadable(env: Env, store: Store, attempts: seq<Attempt>)
    requires env.Valid() && GoodChecksum(env.sum) && attempts != []
    requires attempts[|attempts| - 1].Commits()
    ensures ReadBundle(env, Run(env, store, attempts)) == Some(attempts[|attempts| - 1].job.payload)
  {
    var a, earlier := attempts[|attempts| - 1], attempts[..|attempts| - 1];
    CompleteWriteReadsBack(env, Run(env, store, earlier), a.job);
    var plan := a.job.Plan(env);
    assert plan[..|plan|] == plan;
  }
}

/** The whole way of one file: sealed by the browser, reserved, stored chunk by chunk in any order, completed,
    collected and published. */
module EndToEnd {
  import opened Prelude
  import opened Text
  import opened Model
  import opened Chunks
  import opened StoreSpec
  import opened Retry
  import opened Filename
  import opened Publish
  import opened Browser
  import Base64
  import Collector
  import Cryptobox
  import StoreInvariant
  import StoreServer

  function KeyOf(s: Sending): Key { Key(s.requestID, s.choices.uploadID) }

  /** The disk in the middle of an upload: reserved, with some of the chunks. */
  function Partial(d: Disk, k: Key, raw: bytes, state: ServerState, chunks: map<int, bytes>): Disk {
    d.(uploads := d.uploads[k := Upload(true, Some(raw), Some(state), chunks, None, None)])
  }

  /** The request is open for this file: known bundle, not closed or expired, fresh id, room in the quota. */
  ghost predicate Open(p: Primitives, d: Disk, now: Time, b: Bundle, s: Sending, raw: bytes) {
    && ValidBundle(p, b) && b.id == s.requestID && b.id !in d.markers && now < b.expiresAt
    && KeyOf(s) !in d.uploads && UsedFiles(d, b.id) < b.maxFiles && |s.file| <= b.maxBytes - UsedBytes(d, b.id)
    && |s.file| <= b.maxBytes && 0 < |raw| <= MAX_MANIFEST
  }

  /** The browser's side of things. */
  ghost predicate Prepared(p: Primitives, b: Bundle, s: Sending, raw: bytes) {
    && Lawful(p) && Sendable(p, s, b.maxBytes) && p.parseManifest(raw) == Some(SealedManifest(p, s))
  }

  function StateOf(p: Primitives, s: Sending, now: Time): ServerState
    requires 0 < s.chunkSize
  {
    InitialState(SealedManifest(p, s), now)
  }

  lemma SetupReserves(p: Primitives, d: Disk, now: Time, b: Bundle, s: Sending, raw: bytes)
    requires Open(p, d, now, b, s, raw) && Prepared(p, b, s, raw)
    ensures var plan := BeginUpload(p, d, now, b, raw);
      && plan.result == Ok(SealedManifest(p, s))
      && ApplyAll(d, plan.steps) == Partial(d, KeyOf(s), raw, StateOf(p, s, now), map[])
  {
    var k, m := KeyOf(s), SealedManifest(p, s);
    ManifestIsValid(p, s, b);
    assert CheckSetup(p, b, raw) == Ok(m);
    SetupEffect(d, k, raw, m, now);
  }

  lemma SetupEffect(d: Disk, k: Key, raw: bytes, m: Manifest, now: Time)
    requires k !in d.uploads
    ensures ApplyAll(d, SetupSteps(k, raw, m, now)) == Partial(d, k, raw, InitialState(m, now), map[])
  {
    StoreServer.Store.SetupInOrder(d, k, raw, m, now);
    var d1 := Apply(d, MakeUpload(k));
    var d2 := Apply(d1, MakeChunksDir(k));
    var d3 := Apply(d2, WriteManifest(k, raw));
    var d4 := Apply(d3, WriteServer(k, InitialState(m, now)));
    assert d4.uploads[k] == Upload(true, Some(raw), Some(InitialState(m, now)), map[], None, None);
    assert d4.uploads == d.uploads[k := d4.uploads[k]];
  }

  /** Manifest bytes and chunks that belong together: the chunks are as many and as long as announced. */
  ghost predicate Matching(p: Primitives, k: Key, raw: bytes, m: Manifest, chunks: seq<bytes>) {
    && ValidID(k.request) && ValidID(k.upload) && p.parseManifest(raw) == Some(m)
    && 1 <= |chunks| == m.header.chunkCount
    && forall i :: 0 <= i < |chunks| ==> |chunks[i]| == ChunkLength(m.header, i)
  }

  lemma BrowserMatches(p: Primitives, b: Bundle, s: Sending, raw: bytes)
    requires Prepared(p, b, s, raw)
    ensures Matching(p, KeyOf(s), raw, SealedManifest(p, s), SealedChunks(p, s))
  {
    forall i | 0 <= i < ChunkCount(s) ensures |SealedChunks(p, s)[i]| == ChunkLength(SealedHeader(p, s), i) {
      ChunkLengthsMatch(p, s, b.maxBytes, i);
    }
  }

  predicate Indices(order: seq<int>, n: int) { forall j :: 0 <= j < |order| ==> 0 <= order[j] < n }

  /** One uninterrupted PutChunk. */
  function PutOnce(p: Primitives, d: Disk, k: Key, index: int, body: bytes): Result<Disk, Error> {
    match PutPrepare(p, d, k, index, |body|)
    case Err(e) => Err(e)
    case Ok(expected) =>
      var plan := PutCommit(d, k, index, expected, body);
      if plan.result.Err? then Err(plan.result.error) else Ok(ApplyAll(d, plan.steps))
  }

  /** Sending the chunks in the given order; stops at the first refusal. */
  function PutAll(p: Primitives, d: Disk, k: Key, order: seq<int>, chunks: seq<bytes>): Result<Disk, Error>
    requires Indices(order, |chunks|)
  {
    if order == [] then Ok(d)
    else
      var n := |order| - 1;
      match PutAll(p, d, k, order[..n], chunks)
      case Err(e) => Err(e)
      case Ok(e) => PutOnce(p, e, k, order[n], chunks[order[n]])
  }

  function ChunkMap(order: seq<int>, chunks: seq<bytes>): map<int, bytes>
    requires Indices(order, |chunks|)
  {
    map i | i in order && 0 <= i < |chunks| :: chunks[i]
  }

  lemma PartialReads(p: Primitives, d: Disk, k: Key, raw: bytes, state: ServerState, stored: map<int, bytes>,
                     m: Manifest)
    requires ValidID(k.request) && ValidID(k.upload) && p.parseManifest(raw) == Some(m)
    ensures ReadManifest(p, Partial(d, k, raw, state, stored), k) == Ok((m, raw))
  {}

  lemma OneStep(d: Disk, s: Step)
    ensures ApplyAll(d, [s]) == Apply(d, s)
  {
    assert [s][1..] == [];
  }

  lemma PartialWrite(d: Disk, k: Key, raw: bytes, state: ServerState, stored: map<int, bytes>, i: int, c: bytes)
    ensures ApplyAll(Partial(d, k, raw, state, stored), [WriteChunk(k, i, c)])
         == Partial(d, k, raw, state, stored[i := c])
  {
    var e := Partial(d, k, raw, state, stored);
    OneStep(e, WriteChunk(k, i, c));
    assert e.uploads[k := Inside(e.uploads[k], WriteChunk(k, i, c))]
        == Partial(d, k, raw, state, stored[i := c]).uploads;
  }

  lemma PutOne(p: Primitives, d: Disk, k: Key, raw: bytes, m: Manifest, chunks: seq<bytes>,
               state: ServerState, stored: map<int, bytes>, i: int)
    requires Matching(p, k, raw, m, chunks) && k.request !in d.markers && 0 <= i < |chunks| && i !in stored
    ensures PutOnce(p, Partial(d, k, raw, state, stored), k, i, chunks[i])
         == Ok(Partial(d, k, raw, state, stored[i := chunks[i]]))
  {
    PartialReads(p, d, k, raw, state, stored, m);
    PartialWrite(d, k, raw, state, stored, i, chunks[i]);
  }

  lemma ChunkMapSnoc(order: seq<int>, chunks: seq<bytes>)
    requires Indices(order, |chunks|) && order != []
    ensures var n := |order| - 1;
      ChunkMap(order[..n], chunks)[order[n] := chunks[order[n]]] == ChunkMap(order, chunks)
  {}

  /** Chunks may be sent in any order, each once. */
  lemma {:induction false} PutAllStores(p: Primitives, d: Disk, k: Key, raw: bytes, m: Manifest, chunks: seq<bytes>,
                                        state: ServerState, order: seq<int>)
    requires Matching(p, k, raw, m, chunks) && k.request !in d.markers && Indices(order, |chunks|)
    requires forall i, j :: 0 <= i < j < |order| ==> order[i] != order[j]
    ensures PutAll(p, Partial(d, k, raw, state, map[]), k, order, chunks)
         == Ok(Partial(d, k, raw, state, ChunkMap(order, chunks)))
  {
    if order == [] {
      assert ChunkMap(order, chunks) == map[];
    } else {
      var n := |order| - 1;
      PutAllStores(p, d, k, raw, m, chunks, state, order[..n]);
      PutOne(p, d, k, raw, m, chunks, state, ChunkMap(order[..n], chunks), order[n]);
      ChunkMapSnoc(order, chunks);
    }
  }

  /** The completed upload. */
  function Finished(d: Disk, k: Key, raw: bytes, state: ServerState, stored: map<int, bytes>, r: Receipt): Disk {
    d.(uploads := d.uploads[k := Upload(true, Some(raw), Some(state), stored, Some(r), None)])
  }

  lemma CompleteSucceeds(p: Primitives, d: Disk, k: Key, raw: bytes, m: Manifest, chunks: seq<bytes>,
                         state: ServerState, stored: map<int, bytes>, now: Time)
    requires Matching(p, k, raw, m, chunks) && k.request !in d.markers
    requires forall i :: 0 <= i < |chunks| ==> i in stored && stored[i] == chunks[i]
    ensures var e, receipt := Partial(d, k, raw, state, stored), MakeReceipt(p, k, now, m.header, raw, chunks);
      && Complete(p, e, now, k) == Plan([WriteReceipt(k, receipt)], Ok(receipt))
      && ApplyAll(e, [WriteReceipt(k, receipt)]) == Finished(d, k, raw, state, stored, receipt)
  {
    hide Cryptobox.ReceiptRoot, Cryptobox.Digests;
    PartialReads(p, d, k, raw, state, stored, m);
    assert ChunksPresent(m.header, stored);
    assert ChunkList(stored, m.header.chunkCount) == chunks;
    FinishedWrite(d, k, raw, state, stored, MakeReceipt(p, k, now, m.header, raw, chunks));
  }

  lemma FinishedWrite(d: Disk, k: Key, raw: bytes, state: ServerState, stored: map<int, bytes>, r: Receipt)
    ensures ApplyAll(Partial(d, k, raw, state, stored), [WriteReceipt(k, r)]) == Finished(d, k, raw, state, stored, r)
  {
    var e := Partial(d, k, raw, state, stored);
    OneStep(e, WriteReceipt(k, r));
    assert e.uploads[k := Inside(e.uploads[k], WriteReceipt(k, r))] == Finished(d, k, raw, state, stored, r).uploads;
  }

  // ---------- collection from an honest store ----------

  function Answer(r: Result<bytes, Error>): Outcome<bytes> {
    if r.Ok? then Success(r.value) else Failure(r.error.Internal?, 0)
  }

  /** A wire that answers from the store's disk. */
  function StoreWire(p: Primitives, d: Disk, k: Key): Collector.Wire {
    Collector.Wire(
      _ => match ReadManifest(p, d, k) case Ok((_, raw)) => Success(raw) case Err(e) => Failure(e.Internal?, 0),
      (i, _) => Answer(OpenChunk(p, d, k, i)), true)
  }

  lemma FirstAttempt(outcomes: nat -> Outcome<bytes>, limit: int, policy: Policy, v: bytes)
    requires outcomes(1) == Success(v) && |v| <= limit
    ensures Fetched(outcomes, limit, policy) == Some(v)
  {}

  const NO_FAULTS := Collector.Faults(false, {}, false, false, {})

  lemma {:induction false} GatherAll(p: Primitives, policy: Policy, job: Collector.Job, access: Collector.Opened,
                                     chunks: seq<bytes>, n: nat)
    requires n <= |chunks| && job.faults == NO_FAULTS
    requires forall i :: 0 <= i < n ==> Collector.ServedChunk(policy, job, access.header, i) == Some(chunks[i])
    requires Collector.Plaintext(p, access.opener, access.header, chunks, n).Some?
    ensures Collector.Gathered(p, policy, job, access, n)
         == Ok((chunks[..n], Collector.Plaintext(p, access.opener, access.header, chunks, n).value))
  {
    if n > 0 {
      GatherAll(p, policy, job, access, chunks, n - 1);
      assert chunks[..n - 1] + [chunks[n - 1]] == chunks[..n];
    }
  }

  lemma FoldReflexive(s: string)
    ensures EqualFold(s, s)
  {}

  lemma AdmitsTheFile(p: Primitives, b: Bundle, s: Sending, raw: bytes, receipt: Receipt, key: KeyFile, policy: Policy,
                      job: Collector.Job)
    requires Prepared(p, b, s, raw) && KeyMatches(p, key, s) && p.parseMetadata(s.metadata).Some?
        && |raw| <= MAX_MANIFEST
    requires job.receipt == receipt && receipt.requestID == s.requestID && job.wire.manifest(1) == Success(raw)
    requires receipt.uploadID == s.choices.uploadID && receipt.chunkCount == ChunkCount(s)
        && receipt.plainSize == |s.file|
    requires receipt.receiptSHA256 == Cryptobox.ReceiptRoot(p, raw, Cryptobox.Digests(p, SealedChunks(p, s)))
    ensures var access := AccessOf(p, s);
      && Collector.Admitted(p, key, policy, job) == Ok((raw, access))
      && Collector.Accepted(p, access, receipt, raw, SealedChunks(p, s)) == Some(s.file)
  {
    hide Collector.CheckManifest, Collector.Accepted, Cryptobox.ReceiptRoot, SealedChunks, SafeFilename;
    FirstAttempt(job.wire.manifest, Collector.MANIFEST_LIMIT, policy, raw);
    FoldReflexive(receipt.receiptSHA256);
    RoundTrip(p, s, b.maxBytes, key, receipt, raw);
  }

  ghost function AccessOf(p: Primitives, s: Sending): Collector.Opened
    requires 0 < s.chunkSize && p.parseMetadata(s.metadata).Some?
  {
    Collector.Opened(SealedHeader(p, s), OpenerFor(p, s), SafeFilename(p.parseMetadata(s.metadata).value.name))
  }

  lemma ServesTheChunk(p: Primitives, b: Bundle, s: Sending, raw: bytes, e: Disk, policy: Policy, job: Collector.Job,
                       i: nat)
    requires Prepared(p, b, s, raw) && i < ChunkCount(s)
        && ReadManifest(p, e, KeyOf(s)) == Ok((SealedManifest(p, s), raw))
    requires job.wire == StoreWire(p, e, KeyOf(s)) && e.uploads[KeyOf(s)].complete.Some?
    requires i in e.uploads[KeyOf(s)].chunks && e.uploads[KeyOf(s)].chunks[i] == SealedChunks(p, s)[i]
    ensures Collector.ServedChunk(policy, job, SealedHeader(p, s), i) == Some(SealedChunks(p, s)[i])
  {
    hide ReadManifest, Cryptobox.HeaderSHA256, SealedChunks, SealedMetadata;
    ChunkLengthsMatch(p, s, b.maxBytes, i);
    assert OpenChunk(p, e, KeyOf(s), i) == Ok(SealedChunks(p, s)[i]);
    FirstAttempt(a => job.wire.chunk(i, a), SealedHeader(p, s).chunkSize + 17, policy, SealedChunks(p, s)[i]);
  }

  /** A healthy collector reading a finished upload from the store checks out exactly the file. */
  lemma CollectsTheFile(p: Primitives, d: Disk, b: Bundle, s: Sending, raw: bytes, now: Time, later: Time,
                        stored: map<int, bytes>, key: KeyFile, policy: Policy, temp: string)
    requires Prepared(p, b, s, raw) && KeyMatches(p, key, s) && p.parseMetadata(s.metadata).Some?
        && |raw| <= MAX_MANIFEST
    requires forall i :: 0 <= i < ChunkCount(s) ==> i in stored && stored[i] == SealedChunks(p, s)[i]
    ensures var receipt := MakeReceipt(p, KeyOf(s), later, SealedHeader(p, s), raw, SealedChunks(p, s));
      var e := Finished(d, KeyOf(s), raw, StateOf(p, s, now), stored, receipt);
      Collector.Checked(p, key, policy, Collector.Job(receipt, StoreWire(p, e, KeyOf(s)), temp, NO_FAULTS))
        == Ok((SafeFilename(p.parseMetadata(s.metadata).value.name), s.file))
  {
    hide Collector.Admitted, Collector.Downloaded, Collector.Accepted, Collector.ServedChunk, Cryptobox.ReceiptRoot,
         Cryptobox.HeaderSHA256, SealedChunks, SealedMetadata, SafeFilename, OpenerFor;
    var k, chunks := KeyOf(s), SealedChunks(p, s);
    var receipt := MakeReceipt(p, k, later, SealedHeader(p, s), raw, chunks);
    var e := Finished(d, k, raw, StateOf(p, s, now), stored, receipt);
    var job := Collector.Job(receipt, StoreWire(p, e, k), temp, NO_FAULTS);
    assert ReadManifest(p, e, k) == Ok((SealedManifest(p, s), raw));
    AdmitsTheFile(p, b, s, raw, receipt, key, policy, job);
    forall i | 0 <= i < ChunkCount(s)
      ensures Collector.ServedChunk(policy, job, SealedHeader(p, s), i) == Some(chunks[i])
    {
      ServesTheChunk(p, b, s, raw, e, policy, job, i);
    }
    DownloadsTheFile(p, policy, job, raw, AccessOf(p, s), chunks, s.file);
  }

  lemma DownloadsTheFile(p: Primitives, policy: Policy, job: Collector.Job, raw: bytes, access: Collector.Opened,
                         chunks: seq<bytes>, plain: bytes)
    requires job.faults == NO_FAULTS && |chunks| == access.header.chunkCount
    requires forall i :: 0 <= i < |chunks| ==> Collector.ServedChunk(policy, job, access.header, i) == Some(chunks[i])
    requires Collector.Accepted(p, access, job.receipt, raw, chunks) == Some(plain)
    ensures Collector.Downloaded(p, policy, job, raw, access) == Ok(plain)
  {
    GatherAll(p, policy, job, access, chunks, |chunks|);
    assert chunks[..|chunks|] == chunks;
  }

  /** Setup, all chunks in the given order, completion: the disk and the receipt in the end. */
  ghost function Submit(p: Primitives, d: Disk, now: Time, later: Time, b: Bundle, raw: bytes,
                        k: Key, order: seq<int>, chunks: seq<bytes>): Result<(Disk, Receipt), Error>
    requires Indices(order, |chunks|)
  {
    var begun := BeginUpload(p, d, now, b, raw);
    if begun.result.Err? then Err(begun.result.error)
    else
      match PutAll(p, ApplyAll(d, begun.steps), k, order, chunks)
      case Err(e) => Err(e)
      case Ok(e) =>
        var done := Complete(p, e, later, k);
        if done.result.Err? then Err(done.result.error) else Ok((ApplyAll(e, done.steps), done.result.value))
  }

  /** Every index once, in any order. */
  ghost predicate Permutes(order: seq<int>, n: int) {
    && Indices(order, n) && (forall i :: 0 <= i < n ==> i in order)
    && (forall i, j :: 0 <= i < j < |order| ==> order[i] != order[j])
  }

  /** The server's part of the way. */
  lemma ServerTakesTheFile(p: Primitives, d: Disk, now: Time, later: Time, b: Bundle, s: Sending, raw: bytes,
                           order: seq<int>)
    requires Open(p, d, now, b, s, raw) && Prepared(p, b, s, raw) && Permutes(order, ChunkCount(s))
    ensures var k, chunks := KeyOf(s), SealedChunks(p, s);
      var receipt := MakeReceipt(p, k, later, SealedHeader(p, s), raw, chunks);
      Submit(p, d, now, later, b, raw, k, order, chunks)
        == Ok((Finished(d, k, raw, StateOf(p, s, now), ChunkMap(order, chunks), receipt), receipt))
  {
    hide Matching, Cryptobox.ReceiptRoot, ValidManifest;
    var k, chunks, m := KeyOf(s), SealedChunks(p, s), SealedManifest(p, s);
    var state, stored := StateOf(p, s, now), ChunkMap(order, chunks);
    SetupReserves(p, d, now, b, s, raw);
    BrowserMatches(p, b, s, raw);
    PutAllStores(p, d, k, raw, m, chunks, state, order);
    CompleteSucceeds(p, d, k, raw, m, chunks, state, stored, later);
  }

  /** The path is the name itself or, as far as these are taken, its first free variant. */
  ghost predicate FirstFreeName(taken: set<string>, name: string, path: string) {
    exists i: nat :: 1 <= i <= MAX_NAME_COLLISIONS && FirstFree(taken, name, 1, i) && path == Candidate(name, i)
  }

  /** Collecting the receipt from this disk saves exactly the file under the first free name, without an error. */
  ghost predicate Published(p: Primitives, d: Disk, receipt: Receipt, k: Key, name: string, file: bytes, key: KeyFile,
                            policy: Policy, temp: string, dir: map<string, bytes>, acknowledge: bool)
  {
    var job := Collector.Job(receipt, StoreWire(p, d, k), temp, NO_FAULTS);
    var (result, after) := Collector.Save(dir, Collector.ItemOf(p, key, policy, job), acknowledge);
    result.error == None && result.path.Some? && result.path.value !in dir && after == dir[result.path.value := file]
    && FirstFreeName(dir.Keys, name, result.path.value)
  }

  /** What the recipient makes of the name the sender gave. */
  function NameOf(p: Primitives, s: Sending): string
    requires p.parseMetadata(s.metadata).Some?
  {
    SafeFilename(p.parseMetadata(s.metadata).value.name)
  }

  /** The recipient's part of the way. */
  lemma RecipientGetsTheFile(p: Primitives, d: Disk, now: Time, later: Time, b: Bundle, s: Sending, raw: bytes,
                             order: seq<int>,
                             key: KeyFile, policy: Policy, temp: string, dir: map<string, bytes>, acknowledge: bool)
    requires Prepared(p, b, s, raw) && KeyMatches(p, key, s) && Permutes(order, ChunkCount(s)) && |raw| <= MAX_MANIFEST
    requires p.parseMetadata(s.metadata).Some? && |dir| < MAX_NAME_COLLISIONS
    ensures var chunks := SealedChunks(p, s);
      var receipt := MakeReceipt(p, KeyOf(s), later, SealedHeader(p, s), raw, chunks);
      Published(p, Finished(d, KeyOf(s), raw, StateOf(p, s, now), ChunkMap(order, chunks), receipt), receipt, KeyOf(s),
                NameOf(p, s), s.file, key, policy, temp, dir, acknowledge)
  {
    hide Collector.Checked, Cryptobox.ReceiptRoot, SafeFilename, SealedHeader;
    CollectsTheFile(p, d, b, s, raw, now, later, ChunkMap(order, SealedChunks(p, s)), key, policy, temp);
    SavesTheFile(dir, SafeFilename(p.parseMetadata(s.metadata).value.name), s.file, acknowledge);
  }

  /** End to end: for every file and legal chunk size, sealing it as the browser does, then setup, every chunk
      in any order, completion and collection publishes exactly that file, under the name the sender gave, made
      safe, or its first free variant. */
  lemma EndToEnd(p: Primitives, d: Disk, now: Time, later: Time, b: Bundle, s: Sending, raw: bytes, order: seq<int>,
                 key: KeyFile, policy: Policy, temp: string, dir: map<string, bytes>, acknowledge: bool)
    requires Open(p, d, now, b, s, raw) && Prepared(p, b, s, raw) && KeyMatches(p, key, s)
    requires Permutes(order, ChunkCount(s)) && p.parseMetadata(s.metadata).Some? && |dir| < MAX_NAME_COLLISIONS
    ensures var sent := Submit(p, d, now, later, b, raw, KeyOf(s), order, SealedChunks(p, s));
      && sent.Ok?
      && Published(p, sent.value.0, sent.value.1, KeyOf(s), NameOf(p, s), s.file, key, policy, temp, dir, acknowledge)
  {
    ServerTakesTheFile(p, d, now, later, b, s, raw, order);
    RecipientGetsTheFile(p, d, now, later, b, s, raw, order, key, policy, temp, dir, acknowledge);
  }

  lemma SavesTheFile(dir: map<string, bytes>, name: string, file: bytes, acknowledge: bool)
    requires |dir| < MAX_NAME_COLLISIONS
    ensures var (result, after) := Collector.Save(dir, Collector.Item(Ok((name, file)), {}, true, false), acknowledge);
      && result.error == None && result.path.Some? && result.path.value !in dir
      && after == dir[result.path.value := file] && FirstFreeName(dir.Keys, name, result.path.value)
  {
    RoomEnough(dir.Keys, name);
    DestinationIsFree(dir.Keys, {}, name, 1);
    DestinationIsFirst(dir.Keys, {}, name, 1);
  }

  // ---------- the conditions can be met ----------

  function SomeID(): (id: string)
    ensures ValidID(id)
  {
    seq(20, _ => 'A')
  }

  function SomeBundle(): Bundle {
    Bundle(SCHEMA_VERSION, SomeID(), "x", 1, 10, 1, 1, true, "", HexEncode(Repeat(0, 32)), HexEncode(Repeat(0, 32)))
  }

  function EmptyFile(): Sending {
    Sending(SomeID(), [], Choices(SomeID(), [], Repeat(0, 32), Repeat(0, 8)), MIN_CHUNK_SIZE, [], [])
  }

  lemma ZerosDecode()
    ensures DecodesTo32(HexEncode(Repeat(0, 32)))
  {
    HexRoundTrip(Repeat(0, 32));
  }

  lemma OneLetter(s: string)
    requires |s| == 1
    ensures |Utf8(s)| <= 4
  {
    assert s[1..] == "";
  }

  lemma SomeBundleIsValid(p: Primitives)
    requires p.validPoint([])
    ensures ValidBundle(p, SomeBundle())
  {
    hide Utf8, DecodesTo32, HexEncode;
    ZerosDecode();
    OneLetter("x");
    assert SomeBundle().caption[0] == 'x';
    assert Base64.Decode("") == Some([]);
  }

  /** Toy primitives that read each text as the sealed manifest of the sending it stands for. */
  function ToyFor(texts: map<bytes, Sending>): Primitives
    requires forall raw :: raw in texts ==> 0 < texts[raw].chunkSize
  {
    Toy(map raw | raw in texts :: SealedManifest(Toy(map[]), texts[raw]))
  }

  lemma SealingReadsNoText(s: Sending, texts: map<bytes, Manifest>)
    requires 0 < s.chunkSize
    ensures SealedManifest(Toy(texts), s) == SealedManifest(Toy(map[]), s)
  {
    hide Utf8, HexEncode, Cryptobox.HeaderCanonical, Base64.Encode, Cryptobox.KDFInfo, Cryptobox.MetadataAAD,
        Cryptobox.Nonce;
  }

  lemma ToyReads(texts: map<bytes, Sending>, raw: bytes)
    requires forall r :: r in texts ==> 0 < texts[r].chunkSize
    requires raw in texts
    ensures var p := ToyFor(texts);
      Lawful(p) && p.parseManifest(raw) == Some(SealedManifest(p, texts[raw])) && forall t :: p.parseMetadata(t).Some?
  {
    hide SealedManifest, Lawful;
    var table := map r | r in texts :: SealedManifest(Toy(map[]), texts[r]);
    ToyIsLawful(table);
    SealingReadsNoText(texts[raw], table);
  }

  /** Primitives, a disk, a request, a file and a key that satisfy everything end to end asks for. */
  lemma ConditionsCanBeMet(raw: bytes)
    requires |raw| == 1
    ensures var p, b, s, key := ToyFor(map[raw := EmptyFile()]), SomeBundle(), EmptyFile(), KeyFile(SomeID(), "");
      && Open(p, StoreInvariant.EMPTY_DISK, 5, b, s, raw) && Prepared(p, b, s, raw)
      && KeyMatches(p, key, s) && p.parseMetadata(s.metadata).Some?
  {
    hide ValidBundle, Lawful, SealedManifest, HexEncode;
    var texts := map[raw := EmptyFile()];
    ToyReads(texts, raw);
    SomeBundleIsValid(ToyFor(texts));
    assert Counted(StoreInvariant.EMPTY_DISK.uploads, SomeID()) == {};
    assert Base64.Decode("") == Some([]);
  }
}

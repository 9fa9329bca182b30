/** What every operation of the server store does to the files under its data directory
    (internal/store/store.go). An operation is a plan: the atomic file-system steps it takes,
    in order, and its result. A crash leaves the disk after some prefix of those steps. */
module StoreSpec {
  import opened Prelude
  import opened Text
  import opened Model
  import opened Chunks
  import Base64
  import Cryptobox

  const MAX_MANIFEST := 0x1_0000

  datatype Error = NotFound | Conflict | Expired | Closed | Quota | Invalid | Internal

  datatype Key = Key(request: string, upload: string)

  /** One directory uploads/<request>/<upload>. */
  datatype Upload = Upload(
    chunksDir: bool, manifest: Option<bytes>, server: Option<ServerState>,
    chunks: map<int, bytes>, complete: Option<Receipt>, acknowledged: Option<Time>)

  const EMPTY_UPLOAD := Upload(false, None, None, map[], None, None)

  /** The request bundles, the closed bundles, the closure markers, and the uploads. */
  datatype Disk = Disk(
    active: map<string, Bundle>, closed: map<string, Bundle>,
    markers: map<string, Closure>, uploads: map<Key, Upload>)

  datatype Step =
    | WriteBundle(bundle: Bundle)
    | WriteMarker(closure: Closure)
    | MoveBundle(id: string)
    | MakeUpload(key: Key)
    | MakeChunksDir(key: Key)
    | WriteManifest(key: Key, raw: bytes)
    | WriteServer(key: Key, state: ServerState)
    | WriteChunk(key: Key, index: int, body: bytes)
    | WriteReceipt(key: Key, receipt: Receipt)
    | WriteAck(key: Key, at: Time)
    | RemoveUpload(key: Key)

  datatype Plan<T> = Plan(steps: seq<Step>, result: Result<T, Error>)

  /** The effect of a step inside an existing upload directory; files are never overwritten by writeNew. */
  function Inside(u: Upload, s: Step): Upload {
    match s
    case MakeChunksDir(_) => u.(chunksDir := true)
    case WriteManifest(_, raw) => if u.manifest.Some? then u else u.(manifest := Some(raw))
    case WriteServer(_, state) => if u.server.Some? then u else u.(server := Some(state))
    case WriteChunk(_, i, body) => if u.chunksDir then u.(chunks := u.chunks[i := body]) else u
    case WriteReceipt(_, r) => if u.complete.Some? then u else u.(complete := Some(r))
    case WriteAck(_, at) => if u.acknowledged.Some? then u else u.(acknowledged := Some(at))
    case _ => u
  }

  function Apply(d: Disk, s: Step): Disk {
    match s
    case WriteBundle(b) => if b.id in d.active then d else d.(active := d.active[b.id := b])
    case WriteMarker(c) => if c.requestID in d.markers then d else d.(markers := d.markers[c.requestID := c])
    case MoveBundle(id) =>
      if id in d.active then d.(active := d.active - {id}, closed := d.closed[id := d.active[id]]) else d
    case MakeUpload(k) => if k in d.uploads then d else d.(uploads := d.uploads[k := EMPTY_UPLOAD])
    case RemoveUpload(k) => d.(uploads := d.uploads - {k})
    case _ =>
      if s.key in d.uploads then d.(uploads := d.uploads[s.key := Inside(d.uploads[s.key], s)]) else d
  }

  function ApplyAll(d: Disk, steps: seq<Step>): Disk
    decreases |steps|
  {
    if steps == [] then d else ApplyAll(Apply(d, steps[0]), steps[1..])
  }

  // ---------- validation ----------

  predicate DecodesTo32(hex: string) { HexDecode(hex).Some? && |HexDecode(hex).value| == 32 }

  predicate ValidBundle(p: Primitives, b: Bundle) {
    && b.schemaVersion == SCHEMA_VERSION && ValidID(b.id)
    && (exists i :: 0 <= i < |b.caption| && !IsSpace(b.caption[i]))
    && |Utf8(b.caption)| <= 120 && b.expiresAt > b.createdAt
    && 1 <= b.maxFiles <= 10_000 && 1 <= b.maxBytes <= MAX_REQUEST_BYTES
    && Base64.Decode(b.publicKey).Some? && p.validPoint(Base64.Decode(b.publicKey).value)
    && DecodesTo32(b.submitTokenHash) && DecodesTo32(b.collectTokenHash)
  }

  predicate DecodesBetween(text: string, lo: int, hi: int) {
    Base64.Decode(text).Some? && lo <= |Base64.Decode(text).value| <= hi
  }

  predicate ValidManifest(p: Primitives, b: Bundle, m: Manifest) {
    var h := m.header;
    && h.version == PROTOCOL_VERSION && h.algorithm == ALGORITHM
    && h.requestID == b.id && ValidID(h.uploadID)
    && AcceptedSizes(b.maxBytes, h.plainSize, h.chunkSize, h.chunkCount)
    && Base64.Decode(h.ephemeralPublicKey).Some? && p.validPoint(Base64.Decode(h.ephemeralPublicKey).value)
    && DecodesBetween(h.salt, 32, 32) && DecodesBetween(h.noncePrefix, 8, 8)
    && DecodesBetween(m.encryptedMetadata, 16, 0x4000)
    && DecodesTo32(m.headerSHA256)
    && EqualFold(m.headerSHA256, Cryptobox.HeaderSHA256(p, h))
  }

  function ChunkLength(h: Header, index: int): int {
    ExpectedCipherChunkSize(h.plainSize, h.chunkSize, h.chunkCount, index)
  }

  // ---------- requests ----------

  function ImportRequest(p: Primitives, d: Disk, b: Bundle): Plan<()> {
    if !ValidBundle(p, b) then Plan([], Err(Invalid))
    else if b.id in d.active then Plan([], Err(Conflict))
    else Plan([WriteBundle(b)], Ok(()))
  }

  function Request(d: Disk, id: string): Option<Bundle> {
    if ValidID(id) && id in d.active then Some(d.active[id]) else None
  }

  function ClosedRequest(d: Disk, id: string): Option<Bundle> {
    if ValidID(id) && id in d.closed then Some(d.closed[id]) else None
  }

  function RequestIncludingClosed(d: Disk, id: string): Option<Bundle> {
    if Request(d, id).Some? then Request(d, id) else ClosedRequest(d, id)
  }

  datatype Kind = Submit | Collect

  /** Authentication looks the bundle up without the lock. */
  function Authenticate(p: Primitives, d: Disk, id: string, token: string, kind: Kind): Option<Bundle> {
    match RequestIncludingClosed(d, id)
    case None => None
    case Some(b) =>
      var want := if kind.Collect? then b.collectTokenHash else b.submitTokenHash;
      if token != "" && DecodesTo32(want) && HexDecode(want).value == p.sha256(Utf8(token)) then Some(b) else None
  }

  function ReadClosure(d: Disk, id: string): Result<Closure, Error> {
    if id !in d.markers then Err(NotFound)
    else
      var c := d.markers[id];
      if c.schemaVersion != SCHEMA_VERSION || c.requestID != id || c.closedAt == ZERO_TIME then Err(Invalid) else Ok(c)
  }

  function CloseRequest(d: Disk, now: Time, id: string): Plan<Closure> {
    var recorded := ReadClosure(d, id);
    if !ValidID(id) then Plan([], Err(NotFound))
    else if recorded.Err? && recorded.error != NotFound then Plan([], Err(recorded.error))
    else if id !in d.active && id !in d.closed then Plan([], Err(NotFound))
    else if id in d.active && id in d.closed then Plan([], Err(Conflict))
    else
      var closure := if recorded.Ok? then recorded.value else Closure(SCHEMA_VERSION, id, now);
      Plan((if recorded.Ok? then [] else [WriteMarker(closure)]) + (if id in d.active then [MoveBundle(id)] else []),
           Ok(closure))
  }

  // ---------- quota ----------

  ghost function Counted(uploads: map<Key, Upload>, request: string): set<Key> {
    set k | k in uploads && k.request == request && ValidID(k.upload) && uploads[k].server.Some?
  }

  function PlainOf(uploads: map<Key, Upload>, k: Key): int {
    if k in uploads && uploads[k].server.Some? then uploads[k].server.value.plainSize else 0
  }

  ghost function PlainSum(uploads: map<Key, Upload>, keys: set<Key>): int {
    if keys == {} then 0
    else
      var k :| k in keys;
      PlainOf(uploads, k) + PlainSum(uploads, keys - {k})
  }

  ghost function UsedFiles(d: Disk, request: string): int { |Counted(d.uploads, request)| }
  ghost function UsedBytes(d: Disk, request: string): int { PlainSum(d.uploads, Counted(d.uploads, request)) }

  // ---------- submission ----------

  /** An existing directory accepts a setup only as an exact replay. */
  predicate ReplayMatches(u: Upload, m: Manifest, raw: bytes) {
    && u.manifest == Some(raw) && u.server.Some? && u.chunksDir
    && var s := u.server.value;
       && s.createdAt != ZERO_TIME
       && s.requestID == m.header.requestID && s.uploadID == m.header.uploadID
       && s.plainSize == m.header.plainSize && s.chunkSize == m.header.chunkSize
       && s.chunkCount == m.header.chunkCount
  }

  function InitialState(m: Manifest, now: Time): ServerState {
    var h := m.header;
    ServerState(h.requestID, h.uploadID, now, h.plainSize, h.chunkSize, h.chunkCount)
  }

  function SetupSteps(k: Key, raw: bytes, m: Manifest, now: Time): seq<Step> {
    [MakeUpload(k), MakeChunksDir(k), WriteManifest(k, raw), WriteServer(k, InitialState(m, now))]
  }

  /** The checks before the lock. */
  function CheckSetup(p: Primitives, b: Bundle, raw: bytes): Result<Manifest, Error> {
    if !ValidBundle(p, b) then Err(Invalid)
    else if |raw| == 0 || |raw| > MAX_MANIFEST then Err(Invalid)
    else
      match p.parseManifest(raw)
      case None => Err(Invalid)
      case Some(m) =>
        if m.header.plainSize > b.maxBytes then Err(Quota)
        else if !ValidManifest(p, b, m) then Err(Invalid)
        else Ok(m)
  }

  /** BeginUpload under the lock. */
  ghost function BeginLocked(d: Disk, now: Time, b: Bundle, raw: bytes, m: Manifest): Plan<Manifest> {
    var k := Key(b.id, m.header.uploadID);
    if b.id in d.markers then Plan([], Err(Closed))
    else if b.expiresAt <= now then Plan([], Err(Expired))
    else if k in d.uploads then Plan([], if ReplayMatches(d.uploads[k], m, raw) then Ok(m) else Err(Conflict))
    else if UsedFiles(d, b.id) >= b.maxFiles || m.header.plainSize > b.maxBytes - UsedBytes(d, b.id) then
      Plan([], Err(Quota))
    else Plan(SetupSteps(k, raw, m, now), Ok(m))
  }

  ghost function BeginUpload(p: Primitives, d: Disk, now: Time, b: Bundle, raw: bytes): Plan<Manifest> {
    match CheckSetup(p, b, raw)
    case Err(e) => Plan([], Err(e))
    case Ok(m) => BeginLocked(d, now, b, raw, m)
  }

  function ReadManifest(p: Primitives, d: Disk, k: Key): Result<(Manifest, bytes), Error> {
    if !ValidID(k.request) || !ValidID(k.upload) then Err(NotFound)
    else if k !in d.uploads || d.uploads[k].manifest.None? then Err(NotFound)
    else
      var raw := d.uploads[k].manifest.value;
      match p.parseManifest(raw)
      case None => Err(Internal)
      case Some(m) => Ok((m, raw))
  }

  /** PutChunk before the lock: the length the body must have. */
  function PutPrepare(p: Primitives, d: Disk, k: Key, index: int, contentLength: int): Result<int, Error> {
    match ReadManifest(p, d, k)
    case Err(e) => Err(e)
    case Ok((m, _)) =>
      if index < 0 || index >= m.header.chunkCount then Err(Invalid)
      else
        var expected := ChunkLength(m.header, index);
        if contentLength >= 0 && contentLength != expected then Err(Invalid) else Ok(expected)
  }

  /** PutChunk under the lock; the disk may have changed since PutPrepare. */
  function PutCommit(d: Disk, k: Key, index: int, expected: int, body: bytes): Plan<()> {
    if k.request in d.markers then Plan([], Err(Closed))
    else if k in d.uploads && index in d.uploads[k].chunks then Plan([], Err(Conflict))
    else if k !in d.uploads || !d.uploads[k].chunksDir then Plan([], Err(Internal))
    else if |body| != expected then Plan([], Err(Invalid))
    else Plan([WriteChunk(k, index, body)], Ok(()))
  }

  function ChunkDigest(p: Primitives, d: Disk, k: Key, index: int): Result<string, Error> {
    if k.request in d.markers then Err(Closed)
    else
      match ReadManifest(p, d, k)
      case Err(_) => Err(NotFound)
      case Ok((m, _)) =>
        if index < 0 || index >= m.header.chunkCount || index !in d.uploads[k].chunks then Err(NotFound)
        else Ok(HexEncode(p.sha256(d.uploads[k].chunks[index])))
  }

  predicate ChunksPresent(h: Header, chunks: map<int, bytes>) {
    forall i :: 0 <= i < h.chunkCount ==> i in chunks && |chunks[i]| == ChunkLength(h, i)
  }

  function ChunkList(chunks: map<int, bytes>, n: nat): (list: seq<bytes>)
    requires forall i :: 0 <= i < n ==> i in chunks
    ensures |list| == n && forall i :: 0 <= i < n ==> list[i] == chunks[i]
  {
    seq(n, i requires 0 <= i < n => chunks[i])
  }

  function TotalLength(list: seq<bytes>): nat {
    if list == [] then 0 else TotalLength(list[..|list| - 1]) + |list[|list| - 1]|
  }

  function MakeReceipt(p: Primitives, k: Key, now: Time, h: Header, raw: bytes, list: seq<bytes>): Receipt {
    Receipt(1, k.request, k.upload, now, h.plainSize, TotalLength(list), h.chunkCount,
            Cryptobox.ReceiptRoot(p, raw, Cryptobox.Digests(p, list)), false)
  }

  /** The receipt, if every chunk is there with its exact length. */
  function Certified(p: Primitives, now: Time, k: Key, h: Header, raw: bytes, chunks: map<int, bytes>): Plan<Receipt> {
    if !ChunksPresent(h, chunks) then Plan([], Err(Conflict))
    else
      var receipt := MakeReceipt(p, k, now, h, raw, ChunkList(chunks, Max(0, h.chunkCount)));
      Plan([WriteReceipt(k, receipt)], Ok(receipt))
  }

  function Complete(p: Primitives, d: Disk, now: Time, k: Key): Plan<Receipt> {
    if k.request in d.markers then Plan([], Err(Closed))
    else if k in d.uploads && d.uploads[k].complete.Some? then Plan([], Ok(d.uploads[k].complete.value))
    else
      match ReadManifest(p, d, k)
      case Err(e) => Plan([], Err(e))
      case Ok((m, raw)) =>
        Certified(p, now, k, m.header, raw, d.uploads[k].chunks)
  }

  // ---------- collection ----------

  function OpenChunk(p: Primitives, d: Disk, k: Key, index: int): Result<bytes, Error> {
    match ReadManifest(p, d, k)
    case Err(_) => Err(NotFound)
    case Ok((m, _)) =>
      var u := d.uploads[k];
      if 0 <= index < m.header.chunkCount && u.complete.Some? && index in u.chunks then Ok(u.chunks[index])
      else Err(NotFound)
  }

  function Acknowledge(p: Primitives, d: Disk, now: Time, b: Bundle, upload: string): Plan<()> {
    var k := Key(b.id, upload);
    if !ValidBundle(p, b) || !ValidID(upload) then Plan([], Err(Invalid))
    else if k !in d.uploads || d.uploads[k].complete.None? then Plan([], Err(NotFound))
    else
      Plan((if d.uploads[k].acknowledged.Some? then [] else [WriteAck(k, now)])
           + (if b.deleteAfterCollect then [RemoveUpload(k)] else []), Ok(()))
  }

  // ---------- purge ----------

  predicate Purgeable(d: Disk, now: Time, stale: int, k: Key)
    requires k in d.uploads
  {
    var u := d.uploads[k];
    var b := RequestIncludingClosed(d, k.request);
    && ValidID(k.request) && ValidID(k.upload)
    && (|| b.None? || b.value.expiresAt <= now
        || u.server.None? || (now - u.server.value.createdAt > stale && u.complete.None?))
  }

  ghost function PurgeSet(d: Disk, now: Time, stale: int): set<Key> {
    set k | k in d.uploads && Purgeable(d, now, stale, k)
  }

  function RemoveSteps(keys: seq<Key>): (steps: seq<Step>)
    ensures |steps| == |keys|
  {
    seq(|keys|, i requires 0 <= i < |keys| => RemoveUpload(keys[i]))
  }
}

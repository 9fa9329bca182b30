/** What every step of every run of the store keeps, crashes included. */
module StoreInvariant {
  import opened Prelude
  import opened Text
  import opened Model
  import opened StoreSpec
  import opened StoreServer

  /** PutChunk between its unlocked read and its locked part. */
  datatype Ticket = Ticket(key: Key, index: int, expected: int)

  /** The disk, the first bundle ever imported under each id, and what the running handlers hold. */
  datatype World = World(disk: Disk, first: map<string, Bundle>, seen: set<Bundle>, tickets: set<Ticket>)

  const EMPTY_DISK := Disk(map[], map[], map[], map[])
  const START := World(EMPTY_DISK, map[], {}, {})

  // ---------- the invariant ----------

  /** What holds of the bundles and the marker of one request id. */
  ghost predicate RequestOk(p: Primitives, d: Disk, first: map<string, Bundle>, id: string) {
    && (id in d.active ==> id in first && ValidBundle(p, d.active[id]) && d.active[id].id == id)
    && (id in d.closed ==> id in d.markers && d.closed[id].id == id)
    && (id in d.markers ==> id in first && ReadClosure(d, id).Ok?)
    && (id in first ==>
          && ValidBundle(p, first[id]) && first[id].id == id
          && (id in d.active || id in d.closed)
          && (id !in d.markers ==> id in d.active && d.active[id] == first[id]))
  }

  ghost predicate RequestsOk(p: Primitives, w: World) {
    forall id :: RequestOk(p, w.disk, w.first, id)
  }

  /** A handler's bundle is the first one ever imported, unless the request has been closed. */
  ghost predicate SeenOk(w: World) {
    forall b :: b in w.seen ==> b.id in w.first && (b.id !in w.disk.markers ==> b == w.first[b.id])
  }

  /** A receipt stands for chunks 0..n-1 of exactly the manifest's lengths, and its root is theirs. */
  ghost predicate Completed(p: Primitives, k: Key, u: Upload) {
    && u.complete.Some? && u.manifest.Some? && p.parseManifest(u.manifest.value).Some?
    && var h, r := p.parseManifest(u.manifest.value).value.header, u.complete.value;
       && h.chunkCount >= 1 && ChunksPresent(h, u.chunks)
       && r == MakeReceipt(p, k, r.completedAt, h, u.manifest.value, ChunkList(u.chunks, h.chunkCount))
  }

  ghost predicate UploadOk(p: Primitives, first: map<string, Bundle>, k: Key, u: Upload) {
    && ValidID(k.request) && ValidID(k.upload) && k.request in first
    && (u.manifest.Some? ==>
          && p.parseManifest(u.manifest.value).Some?
          && var m := p.parseManifest(u.manifest.value).value;
             ValidManifest(p, first[k.request], m) && m.header.uploadID == k.upload)
    && (u.server.Some? ==> (
          && u.manifest.Some?
          && u.chunksDir && u.server.value.createdAt != ZERO_TIME
          && u.server.value == InitialState(p.parseManifest(u.manifest.value).value, u.server.value.createdAt)))
    && (u.complete.Some? ==> Completed(p, k, u))
  }

  ghost predicate UploadsOk(p: Primitives, w: World) {
    forall k :: k in w.disk.uploads ==> UploadOk(p, w.first, k, w.disk.uploads[k])
  }

  /** The reservations of one request stay within the quota of its first bundle. */
  ghost predicate QuotaAt(w: World, id: string) {
    id in w.first ==>
      && UsedFiles(w.disk, id) <= w.first[id].maxFiles
      && 0 <= UsedBytes(w.disk, id) <= w.first[id].maxBytes
  }

  ghost predicate QuotaOk(w: World) { forall id :: QuotaAt(w, id) }

  ghost predicate Inv(p: Primitives, w: World) {
    RequestsOk(p, w) && SeenOk(w) && UploadsOk(p, w) && QuotaOk(w)
  }

  // ---------- legal steps ----------

  function Advance(w: World, s: Step): World {
    w.(disk := Apply(w.disk, s),
       first := if s.WriteBundle? && s.bundle.id !in w.first then w.first[s.bundle.id := s.bundle] else w.first)
  }

  function AdvanceAll(w: World, steps: seq<Step>): World
    decreases |steps|
  {
    if steps == [] then w else AdvanceAll(Advance(w, steps[0]), steps[1..])
  }

  ghost predicate OpenUpload(w: World, k: Key) {
    k in w.disk.uploads && k.request in w.first && k.request !in w.disk.markers
  }

  /** When each file-system step may be taken. */
  ghost predicate Legal(p: Primitives, w: World, s: Step) {
    match s
    case WriteBundle(b) => ValidBundle(p, b) && b.id !in w.disk.active
    case WriteMarker(c) => c.requestID in w.disk.active && c.requestID !in w.disk.markers
                           && c.schemaVersion == SCHEMA_VERSION && c.closedAt != ZERO_TIME
    case MoveBundle(id) => id in w.disk.active && id !in w.disk.closed && id in w.disk.markers
    case MakeUpload(k) => k !in w.disk.uploads && ValidID(k.request) && ValidID(k.upload)
                          && k.request in w.first && k.request !in w.disk.markers
    case MakeChunksDir(k) => OpenUpload(w, k)
    case WriteManifest(k, raw) =>
      && OpenUpload(w, k) && w.disk.uploads[k].manifest.None? && p.parseManifest(raw).Some?
      && var m := p.parseManifest(raw).value;
         ValidManifest(p, w.first[k.request], m) && m.header.uploadID == k.upload
    case WriteServer(k, state) =>
      && OpenUpload(w, k) && w.disk.uploads[k].manifest.Some? && w.disk.uploads[k].server.None?
      && w.disk.uploads[k].chunksDir && state.createdAt != ZERO_TIME
      && p.parseManifest(w.disk.uploads[k].manifest.value).Some?
      && state == InitialState(p.parseManifest(w.disk.uploads[k].manifest.value).value, state.createdAt)
      && 0 <= state.plainSize <= w.first[k.request].maxBytes - UsedBytes(w.disk, k.request)
      && UsedFiles(w.disk, k.request) < w.first[k.request].maxFiles
    case WriteChunk(k, i, body) => OpenUpload(w, k) && i !in w.disk.uploads[k].chunks
    case WriteReceipt(k, r) =>
      && OpenUpload(w, k) && w.disk.uploads[k].complete.None?
      && Completed(p, k, w.disk.uploads[k].(complete := Some(r)))
    case WriteAck(k, at) => k in w.disk.uploads && w.disk.uploads[k].complete.Some?
    case RemoveUpload(k) => true
  }

  ghost predicate LegalRun(p: Primitives, w: World, steps: seq<Step>)
    decreases |steps|
  {
    steps == [] || (Legal(p, w, steps[0]) && LegalRun(p, Advance(w, steps[0]), steps[1..]))
  }

  // ---------- one step ----------

  lemma StepKeepsRequest(p: Primitives, w: World, s: Step, id: string)
    requires RequestOk(p, w.disk, w.first, id)
    requires match s
      case WriteBundle(b) => ValidBundle(p, b) && b.id !in w.disk.active
      case WriteMarker(c) =>
        c.requestID in w.disk.active && c.schemaVersion == SCHEMA_VERSION && c.closedAt != ZERO_TIME
      case MoveBundle(moved) => moved in w.disk.markers
      case _ => true
    ensures RequestOk(p, Advance(w, s).disk, Advance(w, s).first, id)
  {}

  lemma StepKeepsRequests(p: Primitives, w: World, s: Step)
    requires RequestsOk(p, w) && Legal(p, w, s)
    ensures RequestsOk(p, Advance(w, s))
  {
    forall id ensures RequestOk(p, Advance(w, s).disk, Advance(w, s).first, id) {
      assert RequestOk(p, w.disk, w.first, id);
      StepKeepsRequest(p, w, s, id);
    }
  }

  lemma StepKeepsSeen(p: Primitives, w: World, s: Step)
    requires RequestsOk(p, w) && SeenOk(w) && Legal(p, w, s)
    ensures SeenOk(Advance(w, s))
  {
    forall b | b in w.seen ensures b.id in Advance(w, s).first {
      assert RequestOk(p, w.disk, w.first, b.id);
    }
  }

  lemma NewChunkChangesNothing(h: Header, chunks: map<int, bytes>, i: int, body: bytes)
    requires h.chunkCount >= 1 && ChunksPresent(h, chunks) && i !in chunks
    ensures ChunksPresent(h, chunks[i := body])
    ensures ChunkList(chunks[i := body], h.chunkCount) == ChunkList(chunks, h.chunkCount)
  {}

  lemma ChunkKeepsCompleted(p: Primitives, k: Key, u: Upload, i: int, body: bytes)
    requires Completed(p, k, u) && i !in u.chunks
    ensures Completed(p, k, u.(chunks := u.chunks[i := body]))
  {
    NewChunkChangesNothing(p.parseManifest(u.manifest.value).value.header, u.chunks, i, body);
  }

  lemma ChunkKeepsUpload(p: Primitives, first: map<string, Bundle>, k: Key, u: Upload, i: int, body: bytes)
    requires UploadOk(p, first, k, u) && i !in u.chunks
    ensures UploadOk(p, first, k, u.(chunks := u.chunks[i := body]))
  {
    if u.complete.Some? { ChunkKeepsCompleted(p, k, u, i, body); }
  }

  lemma ManifestKeepsUpload(p: Primitives, first: map<string, Bundle>, k: Key, u: Upload, raw: bytes, m: Manifest)
    requires UploadOk(p, first, k, u) && u.manifest.None?
    requires p.parseManifest(raw) == Some(m) && ValidManifest(p, first[k.request], m) && m.header.uploadID == k.upload
    ensures UploadOk(p, first, k, u.(manifest := Some(raw)))
  {}

  lemma ServerKeepsUpload(p: Primitives, first: map<string, Bundle>, k: Key, u: Upload, m: Manifest, at: Time)
    requires UploadOk(p, first, k, u) && u.manifest.Some? && p.parseManifest(u.manifest.value) == Some(m)
    requires u.chunksDir && at != ZERO_TIME
    ensures UploadOk(p, first, k, u.(server := Some(InitialState(m, at))))
  {
    var v := u.(server := Some(InitialState(m, at)));
    assert Completed(p, k, u) ==> Completed(p, k, v);
  }

  lemma ReceiptKeepsUpload(p: Primitives, first: map<string, Bundle>, k: Key, u: Upload, r: Receipt)
    requires UploadOk(p, first, k, u) && Completed(p, k, u.(complete := Some(r)))
    ensures UploadOk(p, first, k, u.(complete := Some(r)))
  {}

  lemma MarksKeepUpload(p: Primitives, first: map<string, Bundle>, k: Key, u: Upload, dir: bool, ack: Option<Time>)
    requires UploadOk(p, first, k, u) && (u.chunksDir ==> dir)
    ensures UploadOk(p, first, k, u.(chunksDir := dir, acknowledged := ack))
  {
    assert Completed(p, k, u) ==> Completed(p, k, u.(chunksDir := dir, acknowledged := ack));
  }

  predicate UploadStep(s: Step) {
    s.MakeChunksDir? || s.WriteManifest? || s.WriteServer? || s.WriteChunk? || s.WriteReceipt? || s.WriteAck?
  }

  lemma RecordKeepsUpload(p: Primitives, w: World, s: Step)
    requires s.WriteManifest? || s.WriteServer? || s.WriteReceipt?
    requires s.key in w.disk.uploads && Legal(p, w, s)
    requires UploadOk(p, w.first, s.key, w.disk.uploads[s.key])
    ensures UploadOk(p, w.first, s.key, Inside(w.disk.uploads[s.key], s))
  {
    hide ValidManifest, Completed;
    var k, u := s.key, w.disk.uploads[s.key];
    if s.WriteManifest? { ManifestKeepsUpload(p, w.first, k, u, s.raw, p.parseManifest(s.raw).value); }
    else if s.WriteServer? {
      ServerKeepsUpload(p, w.first, k, u, p.parseManifest(u.manifest.value).value, s.state.createdAt);
    } else { ReceiptKeepsUpload(p, w.first, k, u, s.receipt); }
  }

  lemma InsideKeepsUpload(p: Primitives, w: World, s: Step)
    requires UploadStep(s) && s.key in w.disk.uploads && Legal(p, w, s)
    requires UploadOk(p, w.first, s.key, w.disk.uploads[s.key])
    ensures UploadOk(p, w.first, s.key, Inside(w.disk.uploads[s.key], s))
  {
    hide UploadOk, ValidManifest, Completed;
    var k, u := s.key, w.disk.uploads[s.key];
    if s.WriteChunk? { ChunkKeepsUpload(p, w.first, k, u, s.index, s.body); }
    else if s.MakeChunksDir? { MarksKeepUpload(p, w.first, k, u, true, u.acknowledged); }
    else if s.WriteAck? {
      MarksKeepUpload(p, w.first, k, u, u.chunksDir, if u.acknowledged.Some? then u.acknowledged else Some(s.at));
    } else { RecordKeepsUpload(p, w, s); }
  }

  /** Steps never change which bundle was first, and touch only their own upload. */
  lemma StepFrame(w: World, s: Step, k: Key)
    requires k in Advance(w, s).disk.uploads && k.request in w.first
    ensures Advance(w, s).first[k.request] == w.first[k.request]
    ensures k in w.disk.uploads && !(UploadStep(s) && s.key == k) ==> Advance(w, s).disk.uploads[k] == w.disk.uploads[k]
    ensures UploadStep(s) && s.key == k ==>
        k in w.disk.uploads && Advance(w, s).disk.uploads[k] == Inside(w.disk.uploads[k], s)
    ensures k !in w.disk.uploads ==> s == MakeUpload(k) && Advance(w, s).disk.uploads[k] == EMPTY_UPLOAD
  {}

  lemma UploadOkFrame(p: Primitives, f: map<string, Bundle>, g: map<string, Bundle>, k: Key, u: Upload)
    requires UploadOk(p, f, k, u) && k.request in g && f[k.request] == g[k.request]
    ensures UploadOk(p, g, k, u)
  {}

  lemma StepKeepsUpload(p: Primitives, w: World, s: Step, k: Key)
    requires Legal(p, w, s) && k in Advance(w, s).disk.uploads
    requires k in w.disk.uploads ==> UploadOk(p, w.first, k, w.disk.uploads[k])
    ensures UploadOk(p, Advance(w, s).first, k, Advance(w, s).disk.uploads[k])
  {
    hide ValidManifest, Completed;
    var v := Advance(w, s);
    StepFrame(w, s, k);
    if UploadStep(s) && s.key == k { InsideKeepsUpload(p, w, s); }
    UploadOkFrame(p, w.first, v.first, k, v.disk.uploads[k]);
  }

  lemma StepKeepsUploads(p: Primitives, w: World, s: Step)
    requires UploadsOk(p, w) && Legal(p, w, s)
    ensures UploadsOk(p, Advance(w, s))
  {
    forall k | k in Advance(w, s).disk.uploads
      ensures UploadOk(p, Advance(w, s).first, k, Advance(w, s).disk.uploads[k])
    {
      StepKeepsUpload(p, w, s, k);
    }
  }

  lemma {:induction false} PlainSumFrame(a: map<Key, Upload>, b: map<Key, Upload>, keys: set<Key>)
    requires forall k :: k in keys ==> PlainOf(a, k) == PlainOf(b, k)
    ensures PlainSum(a, keys) == PlainSum(b, keys)
    decreases keys
  {
    if keys != {} {
      var k :| k in keys;
      PlainSumRemove(a, keys, k);
      PlainSumRemove(b, keys, k);
      PlainSumFrame(a, b, keys - {k});
    }
  }

  lemma UsageUnchanged(d: Disk, e: Disk, id: string)
    requires Counted(d.uploads, id) == Counted(e.uploads, id)
    requires forall k :: k in Counted(d.uploads, id) ==> d.uploads[k].server == e.uploads[k].server
    ensures UsedFiles(d, id) == UsedFiles(e, id) && UsedBytes(d, id) == UsedBytes(e, id)
  {
    PlainSumFrame(d.uploads, e.uploads, Counted(d.uploads, id));
  }

  lemma UsageGrows(d: Disk, k: Key, state: ServerState)
    requires k in d.uploads && d.uploads[k].server.None? && ValidID(k.upload)
    ensures var e := Apply(d, WriteServer(k, state));
      UsedFiles(e, k.request) == UsedFiles(d, k.request) + 1
      && UsedBytes(e, k.request) == UsedBytes(d, k.request) + state.plainSize
  {
    var e := Apply(d, WriteServer(k, state));
    var before, after := Counted(d.uploads, k.request), Counted(e.uploads, k.request);
    assert after == before + {k} && after - {k} == before;
    PlainSumRemove(e.uploads, after, k);
    PlainSumFrame(d.uploads, e.uploads, before);
  }

  lemma CountedShrinks(d: Disk, k: Key)
    ensures Counted(Apply(d, RemoveUpload(k)).uploads, k.request) == Counted(d.uploads, k.request) - {k}
  {}

  lemma UsageShrinks(d: Disk, k: Key)
    requires k in d.uploads && k in Counted(d.uploads, k.request)
    ensures var e := Apply(d, RemoveUpload(k));
      UsedFiles(e, k.request) == UsedFiles(d, k.request) - 1
      && UsedBytes(e, k.request) == UsedBytes(d, k.request) - d.uploads[k].server.value.plainSize
  {
    var e := Apply(d, RemoveUpload(k));
    CountedShrinks(d, k);
    PlainSumRemove(d.uploads, Counted(d.uploads, k.request), k);
    PlainSumFrame(d.uploads, e.uploads, Counted(e.uploads, k.request));
  }

  lemma {:induction false} PlainSumNonNegative(uploads: map<Key, Upload>, keys: set<Key>)
    requires forall k :: k in keys ==> PlainOf(uploads, k) >= 0
    ensures PlainSum(uploads, keys) >= 0
    decreases keys
  {
    if keys != {} {
      var k :| k in keys;
      PlainSumRemove(uploads, keys, k);
      PlainSumNonNegative(uploads, keys - {k});
    }
  }

  lemma StepKeepsCounted(w: World, s: Step, id: string, k: Key)
    requires !s.WriteServer? || s.key.request != id
    requires !s.RemoveUpload? || s.key !in Counted(w.disk.uploads, id)
    ensures k in Counted(Advance(w, s).disk.uploads, id) <==> k in Counted(w.disk.uploads, id)
    ensures k in Counted(w.disk.uploads, id) ==> Advance(w, s).disk.uploads[k].server == w.disk.uploads[k].server
  {}

  /** Only server.json of this request, or the removal of a counted upload, moves the usage. */
  lemma StepKeepsUsage(w: World, s: Step, id: string)
    requires !s.WriteServer? || s.key.request != id
    requires !s.RemoveUpload? || s.key !in Counted(w.disk.uploads, id)
    ensures UsedFiles(Advance(w, s).disk, id) == UsedFiles(w.disk, id)
    ensures UsedBytes(Advance(w, s).disk, id) == UsedBytes(w.disk, id)
  {
    var d, e := w.disk, Advance(w, s).disk;
    forall k ensures k in Counted(e.uploads, id) <==> k in Counted(d.uploads, id) { StepKeepsCounted(w, s, id, k); }
    forall k | k in Counted(d.uploads, id) ensures d.uploads[k].server == e.uploads[k].server {
      StepKeepsCounted(w, s, id, k);
    }
    assert Counted(d.uploads, id) == Counted(e.uploads, id);
    UsageUnchanged(d, e, id);
  }

  lemma UsageNonNegative(p: Primitives, w: World, id: string)
    requires UploadsOk(p, w)
    ensures UsedBytes(w.disk, id) >= 0
  {
    forall k | k in Counted(w.disk.uploads, id) ensures PlainOf(w.disk.uploads, k) >= 0 {
      assert UploadOk(p, w.first, k, w.disk.uploads[k]);
    }
    PlainSumNonNegative(w.disk.uploads, Counted(w.disk.uploads, id));
  }

  lemma ServerKeepsQuota(p: Primitives, w: World, k: Key, state: ServerState)
    requires UploadsOk(p, w) && QuotaAt(w, k.request)
    requires k in w.disk.uploads && k.request in w.first && w.disk.uploads[k].server.None?
    requires 0 <= state.plainSize <= w.first[k.request].maxBytes - UsedBytes(w.disk, k.request)
    requires UsedFiles(w.disk, k.request) < w.first[k.request].maxFiles
    ensures QuotaAt(Advance(w, WriteServer(k, state)), k.request)
  {
    assert UploadOk(p, w.first, k, w.disk.uploads[k]);
    UsageGrows(w.disk, k, state);
  }

  lemma RemovalKeepsQuota(p: Primitives, w: World, k: Key)
    requires UploadsOk(p, w) && QuotaAt(w, k.request) && k in Counted(w.disk.uploads, k.request)
    ensures QuotaAt(Advance(w, RemoveUpload(k)), k.request)
  {
    assert UploadOk(p, w.first, k, w.disk.uploads[k]);
    UsageShrinks(w.disk, k);
    StepKeepsUploads(p, w, RemoveUpload(k));
    UsageNonNegative(p, Advance(w, RemoveUpload(k)), k.request);
  }

  lemma ReservationFits(p: Primitives, w: World, s: Step)
    requires Legal(p, w, s) && s.WriteServer?
    ensures s.key in w.disk.uploads && s.key.request in w.first && w.disk.uploads[s.key].server.None?
    ensures 0 <= s.state.plainSize <= w.first[s.key.request].maxBytes - UsedBytes(w.disk, s.key.request)
    ensures UsedFiles(w.disk, s.key.request) < w.first[s.key.request].maxFiles
  {
    hide UsedBytes, UsedFiles, InitialState;
  }

  lemma StepKeepsQuota(p: Primitives, w: World, s: Step, id: string)
    requires UploadsOk(p, w) && Legal(p, w, s) && QuotaAt(w, id) && id in w.first
    ensures QuotaAt(Advance(w, s), id)
  {
    hide Legal, UploadsOk, UsedBytes, UsedFiles, Apply;
    if s.WriteServer? && s.key.request == id {
      ReservationFits(p, w, s);
      ServerKeepsQuota(p, w, s.key, s.state);
    } else if s.RemoveUpload? && s.key in Counted(w.disk.uploads, id) {
      RemovalKeepsQuota(p, w, s.key);
    } else {
      StepKeepsUsage(w, s, id);
    }
  }

  lemma NewRequestUnused(p: Primitives, w: World, s: Step, id: string)
    requires UploadsOk(p, w) && Legal(p, w, s) && id !in w.first && id in Advance(w, s).first
    requires RequestOk(p, Advance(w, s).disk, Advance(w, s).first, id)
    ensures QuotaAt(Advance(w, s), id)
  {
    assert Counted(w.disk.uploads, id) == {} by {
      forall k | k in w.disk.uploads ensures k.request != id {
        assert UploadOk(p, w.first, k, w.disk.uploads[k]);
      }
    }
    StepKeepsUsage(w, s, id);
  }

  /** Every legal file-system step keeps the whole invariant. */
  lemma StepKeepsInv(p: Primitives, w: World, s: Step)
    requires Inv(p, w) && Legal(p, w, s)
    ensures Inv(p, Advance(w, s))
  {
    StepKeepsRequests(p, w, s);
    StepKeepsSeen(p, w, s);
    StepKeepsUploads(p, w, s);
    forall id ensures QuotaAt(Advance(w, s), id) {
      assert QuotaAt(w, id) && RequestOk(p, Advance(w, s).disk, Advance(w, s).first, id);
      if id in w.first { StepKeepsQuota(p, w, s, id); }
      else if id in Advance(w, s).first { NewRequestUnused(p, w, s, id); }
    }
  }

  /** So does every prefix of a legal run of steps: a crash may come after any of them. */
  lemma {:induction false} PrefixKeepsInv(p: Primitives, w: World, steps: seq<Step>, done: nat)
    requires Inv(p, w) && LegalRun(p, w, steps) && done <= |steps|
    ensures Inv(p, AdvanceAll(w, steps[..done]))
    decreases done
  {
    if done > 0 {
      StepKeepsInv(p, w, steps[0]);
      PrefixKeepsInv(p, Advance(w, steps[0]), steps[1..], done - 1);
      assert steps[..done][1..] == steps[1..][..done - 1];
    }
  }
}

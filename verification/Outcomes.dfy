/** What each request to the store achieves, in terms of the disk before and after it, refusals included. */
module Outcomes {
  import opened Prelude
  import opened Text
  import opened Model
  import opened StoreSpec
  import opened StoreInvariant
  import opened StoreTheorems
  import Cryptobox
  import Uploader

  function After<T>(d: Disk, plan: Plan<T>): Disk { ApplyAll(d, plan.steps) }

  function OneUpload(d: Disk, k: Key, u: Upload): Disk { d.(uploads := d.uploads[k := u]) }

  lemma OneStep(d: Disk, s: Step)
    ensures ApplyAll(d, [s]) == Apply(d, s)
  {
    assert ApplyAll(Apply(d, s), [s][1..]) == Apply(d, s);
  }

  lemma TwoSteps(d: Disk, s: Step, t: Step)
    ensures ApplyAll(d, [s, t]) == Apply(Apply(d, s), t)
  {
    assert [s, t][1..] == [t];
    OneStep(Apply(d, s), t);
  }

  // ---------- import ----------

  /** A valid bundle is stored under its id unless an active one is there, which is never replaced. */
  lemma ImportStoresOnce(p: Primitives, d: Disk, b: Bundle)
    requires ValidBundle(p, b)
    ensures var plan := ImportRequest(p, d, b);
      if b.id in d.active then plan.result == Err(Conflict) && After(d, plan) == d
      else plan.result == Ok(()) && After(d, plan) == d.(active := d.active[b.id := b])
  {
    hide ValidBundle;
    OneStep(d, WriteBundle(b));
  }

  // ---------- setup ----------

  /** An expired request is refused and nothing is written, fresh id or replay. */
  lemma ExpiredIsRefused(p: Primitives, d: Disk, now: Time, b: Bundle, raw: bytes)
    ensures BeginUpload(p, d, now, b, raw).result.Ok? ==> now < b.expiresAt
    ensures b.expiresAt <= now ==> BeginUpload(p, d, now, b, raw).steps == []
    ensures b.expiresAt <= now && b.id !in d.markers && CheckSetup(p, b, raw).Ok? ==>
              BeginUpload(p, d, now, b, raw).result == Err(Expired)
  {
    hide CheckSetup, ReplayMatches;
  }

  /** The upload has a file more to hold and its bytes, within the quota. */
  ghost predicate Room(d: Disk, b: Bundle, size: int) {
    UsedFiles(d, b.id) + 1 <= b.maxFiles && UsedBytes(d, b.id) + size <= b.maxBytes
  }

  function Reserved(m: Manifest, raw: bytes, now: Time): Upload {
    Upload(true, Some(raw), Some(ServerState(m.header.requestID, m.header.uploadID, now, m.header.plainSize,
                                             m.header.chunkSize, m.header.chunkCount)), map[], None, None)
  }

  lemma SetupReserves(d: Disk, k: Key, raw: bytes, m: Manifest, now: Time)
    requires k !in d.uploads
    ensures ApplyAll(d, SetupSteps(k, raw, m, now)) == OneUpload(d, k, Reserved(m, raw, now))
  {
    StoreServer.Store.SetupInOrder(d, k, raw, m, now);
    var d1 := Apply(d, MakeUpload(k));
    var d2 := Apply(d1, MakeChunksDir(k));
    var d3 := Apply(d2, WriteManifest(k, raw));
    assert d2 == OneUpload(d, k, EMPTY_UPLOAD.(chunksDir := true));
    assert d3 == OneUpload(d, k, EMPTY_UPLOAD.(chunksDir := true, manifest := Some(raw)));
  }

  /** The server accepts the manifest for the request, which is open and has not expired. */
  ghost predicate SetupDue(p: Primitives, d: Disk, now: Time, b: Bundle, raw: bytes, m: Manifest) {
    CheckSetup(p, b, raw) == Ok(m) && b.id !in d.markers && now < b.expiresAt
  }

  /** A setup under a new id reserves exactly one upload with exactly the bytes sent, if the quota has room for it and
      only then; otherwise it is refused for quota and leaves the disk alone. */
  lemma FreshSetup(p: Primitives, d: Disk, now: Time, b: Bundle, raw: bytes, m: Manifest)
    requires SetupDue(p, d, now, b, raw, m) && Key(b.id, m.header.uploadID) !in d.uploads
    ensures var k, plan := Key(b.id, m.header.uploadID), BeginUpload(p, d, now, b, raw);
      var e := After(d, plan);
      if Room(d, b, m.header.plainSize) then
        && plan.result == Ok(m) && e == OneUpload(d, k, Reserved(m, raw, now))
        && UsedFiles(e, b.id) == UsedFiles(d, b.id) + 1 && UsedBytes(e, b.id) == UsedBytes(d, b.id) + m.header.plainSize
      else plan.result == Err(Quota) && e == d
  {
    var k := Key(b.id, m.header.uploadID);
    AcceptedID(p, b, raw, m);
    hide CheckSetup;
    if Room(d, b, m.header.plainSize) {
      SetupReserves(d, k, raw, m, now);
      var e := OneUpload(d, k, Reserved(m, raw, now));
      Uploader.ReservedOnce(d, e, k, m, raw);
    }
  }

  lemma AcceptedID(p: Primitives, b: Bundle, raw: bytes, m: Manifest)
    requires CheckSetup(p, b, raw) == Ok(m)
    ensures ValidID(m.header.uploadID) && m.header.requestID == b.id && 0 < |raw| <= MAX_MANIFEST
    ensures p.parseManifest(raw) == Some(m)
  {}

  /** Under an id that is taken nothing is written; a directory without its server.json is never taken over. */
  lemma TakenSetup(p: Primitives, d: Disk, now: Time, b: Bundle, raw: bytes, m: Manifest)
    requires SetupDue(p, d, now, b, raw, m) && Key(b.id, m.header.uploadID) in d.uploads
    ensures var u, plan := d.uploads[Key(b.id, m.header.uploadID)], BeginUpload(p, d, now, b, raw);
      && After(d, plan) == d && plan.result in {Ok(m), Err(Conflict)}
      && (plan.result.Ok? ==> u.manifest == Some(raw) && u.server.Some? && u.chunksDir)
  {
    hide CheckSetup;
  }

  predicate TooLarge(p: Primitives, b: Bundle, raw: bytes) {
    p.parseManifest(raw).Some? && p.parseManifest(raw).value.header.plainSize > b.maxBytes
  }

  /** Empty manifests and those beyond 64 KiB are invalid; a file larger than the whole request is over quota. */
  lemma SetupRefusals(p: Primitives, d: Disk, now: Time, b: Bundle, raw: bytes)
    requires ValidBundle(p, b)
    ensures var plan := BeginUpload(p, d, now, b, raw);
      && (!(0 < |raw| <= 0x1_0000) || p.parseManifest(raw).None? ==> plan == Plan([], Err(Invalid)))
      && (0 < |raw| <= 0x1_0000 && TooLarge(p, b, raw) ==> plan == Plan([], Err(Quota)))
  {
    hide ValidBundle, ValidManifest;
  }

  // ---------- chunks ----------

  /** Before the lock: the index must be one of the file's and the length announced, if any, the expected one. */
  lemma PrepareExactly(p: Primitives, d: Disk, k: Key, m: Manifest, raw: bytes, i: int, announced: int)
    requires ReadManifest(p, d, k) == Ok((m, raw))
    ensures PutPrepare(p, d, k, i, announced)
         == if 0 <= i < m.header.chunkCount && (announced < 0 || announced == ChunkLength(m.header, i))
            then Ok(ChunkLength(m.header, i)) else Err(Invalid)
  {
    hide ReadManifest, ChunkLength;
  }

  /** Under the lock: an open upload gets a new chunk of the expected length and nothing else changes; a chunk once
      there is never replaced; every refusal leaves the disk alone. */
  lemma CommitExactly(d: Disk, k: Key, i: int, expected: int, body: bytes)
    requires k in d.uploads && d.uploads[k].chunksDir
    ensures var u, plan := d.uploads[k], PutCommit(d, k, i, expected, body);
      var e := After(d, plan);
      if k.request in d.markers then plan.result == Err(Closed) && e == d
      else if i in u.chunks then plan.result == Err(Conflict) && e == d
      else if |body| != expected then plan.result == Err(Invalid) && e == d
      else plan.result == Ok(()) && e == OneUpload(d, k, u.(chunks := u.chunks[i := body]))
  {
    OneStep(d, WriteChunk(k, i, body));
  }

  /** The digest is given out exactly for a stored chunk of an open request, and it is that chunk's. */
  lemma DigestExactly(p: Primitives, d: Disk, k: Key, m: Manifest, raw: bytes, i: int)
    requires ReadManifest(p, d, k) == Ok((m, raw))
    ensures ChunkDigest(p, d, k, i)
         == if k.request in d.markers then Err(Closed)
            else if 0 <= i < m.header.chunkCount && i in d.uploads[k].chunks
            then Ok(HexEncode(p.sha256(d.uploads[k].chunks[i]))) else Err(NotFound)
  {
    hide HexEncode;
  }

  // ---------- completion and collection ----------

  /** A first completion writes a receipt for this upload, stamped with the time, exactly if every chunk is there in
      its length; otherwise it is a conflict and leaves the disk alone. */
  lemma CompletionExactly(p: Primitives, d: Disk, now: Time, k: Key, m: Manifest, raw: bytes)
    requires ReadManifest(p, d, k) == Ok((m, raw)) && k.request !in d.markers && d.uploads[k].complete.None?
    requires m.header.chunkCount >= 1
    ensures var u, plan := d.uploads[k], Complete(p, d, now, k);
      var e := After(d, plan);
      if forall i :: 0 <= i < m.header.chunkCount ==> i in u.chunks && |u.chunks[i]| == ChunkLength(m.header, i)
      then
        && plan.result.Ok? && e == OneUpload(d, k, u.(complete := Some(plan.result.value)))
        && var r := plan.result.value;
           r.requestID == k.request && r.uploadID == k.upload && r.completedAt == now && !r.acknowledged
           && r.plainSize == m.header.plainSize && r.chunkCount == m.header.chunkCount
      else plan.result == Err(Conflict) && e == d
  {
    hide ChunkLength, Cryptobox.ReceiptRoot, TotalLength;
    var u, plan := d.uploads[k], Complete(p, d, now, k);
    if ChunksPresent(m.header, u.chunks) { OneStep(d, plan.steps[0]); }
  }

  /** Nothing of an upload is served before it is completed. */
  lemma IncompleteIsHidden(p: Primitives, d: Disk, k: Key, i: int)
    requires k in d.uploads && d.uploads[k].complete.None?
    ensures OpenChunk(p, d, k, i) == Err(NotFound)
  {}

  /** And once it is completed, every chunk of the manifest as it is stored, and no other. */
  lemma CompletedIsServed(p: Primitives, d: Disk, k: Key, i: int)
    requires k in d.uploads && Completed(p, k, d.uploads[k]) && ValidID(k.request) && ValidID(k.upload)
    ensures var u := d.uploads[k];
      if 0 <= i < p.parseManifest(u.manifest.value).value.header.chunkCount
      then i in u.chunks && OpenChunk(p, d, k, i) == Ok(u.chunks[i])
      else OpenChunk(p, d, k, i) == Err(NotFound)
  {
    hide ChunkLength, MakeReceipt, ValidID;
  }

  /** The upload stays as it is but for the mark, which is set now or was set before. */
  ghost predicate OnlyMarked(u: Upload, v: Upload, now: Time) {
    && KeepsSubmission(u, v) && SubmitSide(v) == SubmitSide(u)
    && v.acknowledged == if u.acknowledged.Some? then u.acknowledged else Some(now)
  }

  /** An acknowledgement marks a completed upload, an earlier mark standing, and keeps it with all it holds unless the
      request asks for deletion; then it removes it. Nothing else changes either way. */
  lemma AcknowledgeExactly(p: Primitives, d: Disk, now: Time, b: Bundle, upload: string)
    requires ValidBundle(p, b) && ValidID(upload)
    ensures var k, plan := Key(b.id, upload), Acknowledge(p, d, now, b, upload);
      var e := After(d, plan);
      if k !in d.uploads || d.uploads[k].complete.None? then plan.result == Err(NotFound) && e == d
      else
        && plan.result == Ok(())
        && if b.deleteAfterCollect then e == d.(uploads := d.uploads - {k})
           else k in e.uploads && e == OneUpload(d, k, e.uploads[k]) && OnlyMarked(d.uploads[k], e.uploads[k], now)
  {
    hide ValidBundle, ValidID;
    var k, plan := Key(b.id, upload), Acknowledge(p, d, now, b, upload);
    var mark, remove := WriteAck(k, now), RemoveUpload(k);
    if plan.steps == [mark, remove] {
      TwoSteps(d, mark, remove);
      assert Apply(Apply(d, mark), remove) == d.(uploads := d.uploads - {k});
    } else if plan.steps == [mark] {
      OneStep(d, mark);
    } else if plan.steps == [remove] {
      OneStep(d, remove);
    } else if k in d.uploads && d.uploads[k].complete.Some? {
      assert d == OneUpload(d, k, d.uploads[k]);
    }
  }

  // ---------- closing ----------

  /** Closing an open request for the first time records this closure and moves the bundle, nothing else; a closed id
      that was imported again is a conflict, and an unknown one is not found, without a trace. */
  lemma CloseExactly(d: Disk, now: Time, id: string)
    requires ValidID(id) && id !in d.markers && (id in d.closed ==> id in d.active)
    ensures var closure, plan := Closure(SCHEMA_VERSION, id, now), CloseRequest(d, now, id);
      var e := After(d, plan);
      if id !in d.active then plan.result == Err(NotFound) && e == d
      else if id in d.closed then plan.result == Err(Conflict) && e == d
      else
        && plan.result == Ok(closure)
        && e == Disk(d.active - {id}, d.closed[id := d.active[id]], d.markers[id := closure], d.uploads)
  {
    hide ValidID;
    TwoSteps(d, WriteMarker(Closure(SCHEMA_VERSION, id, now)), MoveBundle(id));
  }

  // ---------- after the closure ----------

  /** Once the marker stands every submitter is told so, and nothing is written for him. */
  lemma ClosedRefusesSubmitters(p: Primitives, d: Disk, now: Time, b: Bundle, raw: bytes, k: Key, i: int,
                                expected: int, body: bytes)
    requires b.id in d.markers && k.request in d.markers
    ensures CheckSetup(p, b, raw).Ok? ==> BeginUpload(p, d, now, b, raw).result == Err(Closed)
    ensures BeginUpload(p, d, now, b, raw).steps == []
    ensures PutCommit(d, k, i, expected, body) == Plan([], Err(Closed))
    ensures ChunkDigest(p, d, k, i) == Err(Closed)
    ensures Complete(p, d, now, k) == Plan([], Err(Closed))
  {
    hide CheckSetup;
  }

  /** A marker that is not a closure of its request is neither believed nor repaired. */
  lemma BrokenMarker(d: Disk, now: Time, id: string)
    requires ValidID(id) && id in d.markers
    requires var c := d.markers[id]; c.schemaVersion != SCHEMA_VERSION || c.requestID != id || c.closedAt == ZERO_TIME
    ensures CloseRequest(d, now, id) == Plan([], Err(Invalid))
  {
    hide ValidID;
  }

  // ---------- purge ----------

  /** The request of an upload, active or closed. */
  ghost predicate RequestIs(p: Primitives, w: World, k: Key, b: Bundle) {
    Inv(p, w) && k in w.disk.uploads && RequestIncludingClosed(w.disk, k.request) == Some(b)
  }

  /** In every state with the invariant the request of an upload is known: the active bundle, or else the closed one. */
  lemma UploadHasRequest(p: Primitives, w: World, k: Key)
    requires Inv(p, w) && k in w.disk.uploads
    ensures k.request in w.disk.active || k.request in w.disk.closed
    ensures RequestIncludingClosed(w.disk, k.request)
         == Some(if k.request in w.disk.active then w.disk.active[k.request] else w.disk.closed[k.request])
  {
    assert UploadOk(p, w.first, k, w.disk.uploads[k]) && RequestOk(p, w.disk, w.first, k.request);
    hide Inv, UploadOk;
  }

  /** A reserved upload of an unexpired request is safe from a purge until it is older than the stale age, and for
      good once it is completed. */
  lemma PurgeSparesYoung(p: Primitives, w: World, now: Time, stale: int, k: Key, b: Bundle)
    requires RequestIs(p, w, k, b) && now < b.expiresAt && w.disk.uploads[k].server.Some?
    requires now - w.disk.uploads[k].server.value.createdAt <= stale || w.disk.uploads[k].complete.Some?
    ensures k !in PurgeSet(w.disk, now, stale)
  {
    hide Inv;
  }

  /** A purge takes every upload of an expired request, every one without a server.json, and every incomplete one older
      than the stale age. */
  lemma PurgeTakesOld(p: Primitives, w: World, now: Time, stale: int, k: Key, b: Bundle)
    requires RequestIs(p, w, k, b)
    requires b.expiresAt <= now || w.disk.uploads[k].server.None?
          || (w.disk.uploads[k].complete.None? && now - w.disk.uploads[k].server.value.createdAt > stale)
    ensures k in PurgeSet(w.disk, now, stale)
  {
    assert UploadOk(p, w.first, k, w.disk.uploads[k]);
    hide Inv, UploadsOk, RequestsOk, ValidManifest, Completed;
  }
}

/** What the store promises over whole runs: completed uploads, quota, exact replay, closure. */
module StoreTheorems {
  import opened Prelude
  import opened Text
  import opened Model
  import opened Chunks
  import opened StoreSpec
  import opened StoreInvariant
  import opened StoreRuns
  import Cryptobox
  import StoreServer

  ghost predicate Reachable(p: Primitives, w: World) {
    exists moves :: ClocksOk(moves) && w == Run(p, START, moves)
  }

  lemma ReachableInv(p: Primitives, w: World)
    requires Reachable(p, w)
    ensures Inv(p, w)
  {
    var moves :| ClocksOk(moves) && w == Run(p, START, moves);
    StartInv(p);
    RunKeepsInv(p, START, moves);
  }

  // ---------- completed uploads ----------

  lemma {:induction false} TotalIsCipherTotal(h: Header, chunks: map<int, bytes>, n: nat)
    requires n <= h.chunkCount && ChunksPresent(h, chunks)
    ensures TotalLength(ChunkList(chunks, n)) == CipherTotal(h.plainSize, h.chunkSize, h.chunkCount, n)
  {
    if n > 0 {
      var list := ChunkList(chunks, n);
      assert list[..n - 1] == ChunkList(chunks, n - 1);
      TotalIsCipherTotal(h, chunks, n - 1);
    }
  }

  /** In every reachable state a receipt stands for the manifest on disk and for chunks 0..n-1 of exactly
      the lengths it promises; its root is theirs and its byte count is the file plus one tag a chunk. */
  lemma CompletedUpload(p: Primitives, w: World, k: Key)
    requires Reachable(p, w) && k in w.disk.uploads && w.disk.uploads[k].complete.Some?
    ensures var u := w.disk.uploads[k];
      && u.manifest.Some? && p.parseManifest(u.manifest.value).Some?
      && var h, r := p.parseManifest(u.manifest.value).value.header, u.complete.value;
         && h.requestID == k.request && h.uploadID == k.upload
         && h.chunkCount >= 1 && ChunksPresent(h, u.chunks)
         && r.receiptSHA256 == Cryptobox.ReceiptRoot(p, u.manifest.value,
                                 Cryptobox.Digests(p, ChunkList(u.chunks, h.chunkCount)))
         && r.chunkCount == h.chunkCount && r.plainSize == h.plainSize
         && r.cipherBytes == h.plainSize + TAG_SIZE * h.chunkCount
  {
    ReachableInv(p, w);
    var u := w.disk.uploads[k];
    assert UploadOk(p, w.first, k, u);
    assert RequestOk(p, w.disk, w.first, k.request);
    var h := p.parseManifest(u.manifest.value).value.header;
    TotalIsCipherTotal(h, u.chunks, h.chunkCount);
    CipherTotalExact(h.plainSize, h.chunkSize, h.chunkCount);
  }

  /** The same receipt and manifest, and every chunk still there. */
  ghost predicate KeepsSubmission(u: Upload, v: Upload) {
    && v.complete == u.complete && v.manifest == u.manifest
    && forall i :: i in u.chunks ==> i in v.chunks && v.chunks[i] == u.chunks[i]
  }

  lemma InsideKeepsSubmission(u: Upload, s: Step)
    requires u.complete.Some? && u.manifest.Some? && (s.WriteChunk? ==> s.index !in u.chunks)
    ensures KeepsSubmission(u, Inside(u, s))
  {}

  lemma ReceiptStep(w: World, s: Step, k: Key)
    requires k in w.disk.uploads && w.disk.uploads[k].complete.Some? && w.disk.uploads[k].manifest.Some?
    requires s != RemoveUpload(k) && (s.WriteChunk? && s.key == k ==> s.index !in w.disk.uploads[k].chunks)
    ensures k in Advance(w, s).disk.uploads && KeepsSubmission(w.disk.uploads[k], Advance(w, s).disk.uploads[k])
  {
    hide ValidManifest, Completed;
    if UploadStep(s) && s.key == k { InsideKeepsSubmission(w.disk.uploads[k], s); }
  }

  /** No operation but a removal touches a completed upload's manifest, receipt or chunks. */
  lemma {:induction false} ReceiptStays(p: Primitives, w: World, steps: seq<Step>, k: Key)
    requires LegalRun(p, w, steps) && RemoveUpload(k) !in steps
    requires k in w.disk.uploads && w.disk.uploads[k].complete.Some? && w.disk.uploads[k].manifest.Some?
    ensures var e := AdvanceAll(w, steps).disk;
      k in e.uploads && KeepsSubmission(w.disk.uploads[k], e.uploads[k])
    decreases |steps|
  {
    if steps != [] {
      assert steps[0] in steps && Legal(p, w, steps[0]);
      ReceiptStep(w, steps[0], k);
      ReceiptStays(p, Advance(w, steps[0]), steps[1..], k);
    }
  }

  lemma ReceiptMove(p: Primitives, w: World, m: Move, k: Key)
    requires Inv(p, w) && ClockOk(m.event) && RemoveUpload(k) !in StepsTaken(p, w, m)
    requires k in w.disk.uploads && w.disk.uploads[k].complete.Some?
    ensures k in Next(p, w, m).disk.uploads && KeepsSubmission(w.disk.uploads[k], Next(p, w, m).disk.uploads[k])
  {
    MoveIsLegalSteps(p, w, m);
    assert UploadOk(p, w.first, k, w.disk.uploads[k]);
    ReceiptStays(p, Remember(p, w, m.event), StepsTaken(p, w, m), k);
  }

  ghost predicate NeverRemoved(p: Primitives, w: World, moves: seq<Move>, k: Key)
    decreases |moves|
  {
    moves == [] ||
      var n := |moves| - 1;
      NeverRemoved(p, w, moves[..n], k) && RemoveUpload(k) !in StepsTaken(p, Run(p, w, moves[..n]), moves[n])
  }

  lemma {:induction false} SubmissionStays(p: Primitives, w: World, moves: seq<Move>, k: Key)
    requires Inv(p, w) && ClocksOk(moves) && NeverRemoved(p, w, moves, k)
    requires k in w.disk.uploads && w.disk.uploads[k].complete.Some?
    ensures var v := Run(p, w, moves);
      k in v.disk.uploads && KeepsSubmission(w.disk.uploads[k], v.disk.uploads[k])
  {
    hide MakeReceipt, ChunksPresent, ValidManifest;
    if moves != [] {
      var n := |moves| - 1;
      SubmissionStays(p, w, moves[..n], k);
      RunKeepsInv(p, w, moves[..n]);
      ReceiptMove(p, Run(p, w, moves[..n]), moves[n], k);
    }
  }

  /** Until the upload is removed, completing it again returns the same receipt, unless the request is closed. */
  lemma SameReceipt(p: Primitives, w: World, moves: seq<Move>, k: Key, now: Time)
    requires Inv(p, w) && ClocksOk(moves) && NeverRemoved(p, w, moves, k)
    requires k in w.disk.uploads && w.disk.uploads[k].complete.Some?
    ensures var v := Run(p, w, moves);
      Complete(p, v.disk, now, k)
        == Plan([], if k.request in v.disk.markers then Err(Closed) else Ok(w.disk.uploads[k].complete.value))
  {
    SubmissionStays(p, w, moves, k);
  }

  // ---------- chunks of a stale length ----------

  /** An incomplete upload holding a chunk that its manifest does not allow. */
  ghost predicate Wedged(p: Primitives, d: Disk, k: Key, raw: bytes, i: int) {
    && k in d.uploads && d.uploads[k].manifest == Some(raw) && d.uploads[k].complete.None? && p.parseManifest(raw).Some?
    && var h := p.parseManifest(raw).value.header;
       0 <= i < h.chunkCount && i in d.uploads[k].chunks && |d.uploads[k].chunks[i]| != ChunkLength(h, i)
  }

  lemma WedgedStep(p: Primitives, w: World, s: Step, k: Key, raw: bytes, i: int)
    requires Legal(p, w, s) && s != RemoveUpload(k) && Wedged(p, w.disk, k, raw, i)
    ensures Wedged(p, Advance(w, s).disk, k, raw, i)
  {
    hide ValidManifest, MakeReceipt;
    if s.WriteReceipt? && s.key == k { assert false; }
  }

  lemma {:induction false} WedgedSteps(p: Primitives, w: World, steps: seq<Step>, k: Key, raw: bytes, i: int)
    requires LegalRun(p, w, steps) && RemoveUpload(k) !in steps && Wedged(p, w.disk, k, raw, i)
    ensures Wedged(p, AdvanceAll(w, steps).disk, k, raw, i)
    decreases |steps|
  {
    hide Wedged, Legal;
    if steps != [] {
      assert steps[0] in steps;
      WedgedStep(p, w, steps[0], k, raw, i);
      WedgedSteps(p, Advance(w, steps[0]), steps[1..], k, raw, i);
    }
  }

  lemma {:induction false} WedgedRun(p: Primitives, w: World, moves: seq<Move>, k: Key, raw: bytes, i: int)
    requires Inv(p, w) && ClocksOk(moves) && NeverRemoved(p, w, moves, k) && Wedged(p, w.disk, k, raw, i)
    ensures Wedged(p, Run(p, w, moves).disk, k, raw, i)
  {
    hide Wedged, LegalRun;
    if moves != [] {
      var n := |moves| - 1;
      var v := Run(p, w, moves[..n]);
      WedgedRun(p, w, moves[..n], k, raw, i);
      RunKeepsInv(p, w, moves[..n]);
      MoveIsLegalSteps(p, v, moves[n]);
      WedgedSteps(p, Remember(p, v, moves[n].event), StepsTaken(p, v, moves[n]), k, raw, i);
    }
  }

  /** The manifest a chunk request was checked against may be gone when it gets the lock. If the id has been begun
      again with another chunk length, the chunk is stored all the same, and from then on, in every run, the upload
      can not be completed until it is removed. */
  lemma StaleTicketWedges(p: Primitives, w: World, t: Ticket, body: bytes, raw: bytes, moves: seq<Move>, later: Time)
    requires Inv(p, w) && t in w.tickets && t.key in w.disk.uploads && t.key.request !in w.disk.markers
    requires var u := w.disk.uploads[t.key];
      u.chunksDir && u.complete.None? && u.manifest == Some(raw) && t.index !in u.chunks
    requires p.parseManifest(raw).Some? && 0 <= t.index < p.parseManifest(raw).value.header.chunkCount
    requires |body| == t.expected != ChunkLength(p.parseManifest(raw).value.header, t.index)
    requires ClocksOk(moves) && NeverRemoved(p, Next(p, w, Move(Commit(t, body), Done)), moves, t.key)
    ensures var e := Run(p, Next(p, w, Move(Commit(t, body), Done)), moves).disk;
      Wedged(p, e, t.key, raw, t.index) && Complete(p, e, later, t.key).result.Err?
  {
    var m := Move(Commit(t, body), Done);
    var v := Next(p, w, m);
    MoveKeepsInv(p, w, m);
    CommitStores(p, w, t, body);
    WedgedRun(p, v, moves, t.key, raw, t.index);
    WedgedFails(p, Run(p, v, moves).disk, t.key, raw, t.index, later);
  }

  lemma CommitStores(p: Primitives, w: World, t: Ticket, body: bytes)
    requires t in w.tickets && t.key in w.disk.uploads && t.key.request !in w.disk.markers
    requires w.disk.uploads[t.key].chunksDir && t.index !in w.disk.uploads[t.key].chunks && |body| == t.expected
    ensures var u, v := w.disk.uploads[t.key], Next(p, w, Move(Commit(t, body), Done));
      t.key in v.disk.uploads && v.disk.uploads[t.key] == u.(chunks := u.chunks[t.index := body])
  {
    var s := WriteChunk(t.key, t.index, body);
    assert StepsTaken(p, w, Move(Commit(t, body), Done)) == [s];
    assert [s][1..] == [];
    assert AdvanceAll(w, [s]) == AdvanceAll(Advance(w, s), []);
  }

  lemma WedgedFails(p: Primitives, d: Disk, k: Key, raw: bytes, i: int, now: Time)
    requires Wedged(p, d, k, raw, i)
    ensures Complete(p, d, now, k).result.Err?
  {
    hide MakeReceipt;
  }

  // ---------- quota ----------

  /** In every reachable state, and for every request ever imported, the reservations respect the quota. */
  lemma QuotaHolds(p: Primitives, w: World, id: string)
    requires Reachable(p, w) && id in w.first
    ensures 0 <= UsedFiles(w.disk, id) <= w.first[id].maxFiles <= 10_000
    ensures 0 <= UsedBytes(w.disk, id) <= w.first[id].maxBytes <= MAX_REQUEST_BYTES < INT64_MAX
  {
    ReachableInv(p, w);
    assert RequestOk(p, w.disk, w.first, id) && QuotaAt(w, id);
  }

  /** A setup for an existing reservation changes nothing, and succeeds exactly for the same manifest bytes. */
  lemma ReplayIffSameBytes(p: Primitives, w: World, b: Bundle, raw: bytes, now: Time, k: Key)
    requires Inv(p, w) && k in w.disk.uploads && w.disk.uploads[k].server.Some?
    requires CheckSetup(p, b, raw).Ok? && k == Key(b.id, CheckSetup(p, b, raw).value.header.uploadID)
    requires b.id !in w.disk.markers && now < b.expiresAt
    ensures BeginUpload(p, w.disk, now, b, raw)
         == Plan([], if w.disk.uploads[k].manifest == Some(raw) then Ok(CheckSetup(p, b, raw).value) else Err(Conflict))
  {
    assert UploadOk(p, w.first, k, w.disk.uploads[k]);
  }

  // ---------- closure ----------

  /** Everything a submitter can write. */
  function SubmitSide(u: Upload): Upload { u.(acknowledged := None) }

  /** Nothing was added on the submit side of a request, and its marker stands. */
  ghost predicate OnlyShrinks(d: Disk, e: Disk, id: string) {
    && id in d.markers && id in e.markers && d.markers[id] == e.markers[id]
    && forall k :: k in e.uploads && k.request == id ==>
        k in d.uploads && SubmitSide(e.uploads[k]) == SubmitSide(d.uploads[k])
  }

  lemma BarrierStep(p: Primitives, w: World, s: Step, id: string)
    requires Legal(p, w, s) && id in w.disk.markers
    ensures OnlyShrinks(w.disk, Advance(w, s).disk, id)
  {
    forall k | k in Advance(w, s).disk.uploads && k.request == id
      ensures k in w.disk.uploads && SubmitSide(Advance(w, s).disk.uploads[k]) == SubmitSide(w.disk.uploads[k])
    {
      BarrierStepAt(p, w, s, k);
    }
  }

  lemma BarrierStepAt(p: Primitives, w: World, s: Step, k: Key)
    requires Legal(p, w, s) && k.request in w.disk.markers && k in Advance(w, s).disk.uploads
    ensures k in w.disk.uploads && SubmitSide(Advance(w, s).disk.uploads[k]) == SubmitSide(w.disk.uploads[k])
  {}

  lemma {:induction false} BarrierSteps(p: Primitives, w: World, steps: seq<Step>, id: string)
    requires LegalRun(p, w, steps) && id in w.disk.markers
    ensures OnlyShrinks(w.disk, AdvanceAll(w, steps).disk, id)
    decreases |steps|
  {
    if steps != [] {
      BarrierStep(p, w, steps[0], id);
      BarrierSteps(p, Advance(w, steps[0]), steps[1..], id);
    }
  }

  lemma MoveIsLegalSteps(p: Primitives, w: World, m: Move)
    requires Inv(p, w) && ClockOk(m.event)
    ensures var r := Remember(p, w, m.event);
      && r.disk == w.disk && r.first == w.first && LegalRun(p, r, StepsTaken(p, w, m))
      && Next(p, w, m) == AdvanceAll(r, StepsTaken(p, w, m))
  {
    var r := Remember(p, w, m.event);
    RememberKeepsInv(p, w, m.event);
    PlanIsLegal(p, r, m.event);
    CutIsLegal(p, r, PlannedSteps(p, r, m.event), m.fate);
  }

  /** Once the marker is written, in every later run, even after the id is imported again, no upload, chunk
      or receipt is ever added to that request, and it stays closed with the same closing time. */
  lemma {:induction false} ClosureBarrier(p: Primitives, w: World, moves: seq<Move>, id: string)
    requires Inv(p, w) && ClocksOk(moves) && id in w.disk.markers
    ensures OnlyShrinks(w.disk, Run(p, w, moves).disk, id)
  {
    if moves != [] {
      var n := |moves| - 1;
      var v := Run(p, w, moves[..n]);
      ClosureBarrier(p, w, moves[..n], id);
      RunKeepsInv(p, w, moves[..n]);
      MoveIsLegalSteps(p, v, moves[n]);
      BarrierSteps(p, Remember(p, v, moves[n].event), StepsTaken(p, v, moves[n]), id);
    }
  }

  /** After a recorded closure, in every later state of every run, closing again returns that first closure,
      except exactly when the id has meanwhile been imported again beside its closed bundle. */
  lemma ClosingAgain(p: Primitives, w: World, moves: seq<Move>, id: string, now: Time)
    requires Inv(p, w) && ClocksOk(moves) && id in w.disk.markers && ValidID(id)
    ensures var d := Run(p, w, moves).disk;
      CloseRequest(d, now, id).result
        == if id in d.active && id in d.closed then Err(Conflict) else Ok(w.disk.markers[id])
  {
    ClosureBarrier(p, w, moves, id);
    RunKeepsInv(p, w, moves);
    var v := Run(p, w, moves);
    assert RequestOk(p, v.disk, v.first, id);
  }

  ghost predicate NotReimported(d: Disk, id: string) { !(id in d.active && id in d.closed) }

  lemma {:induction false} NoReimportSteps(p: Primitives, w: World, steps: seq<Step>, id: string)
    requires LegalRun(p, w, steps) && NotReimported(w.disk, id)
    requires forall s :: s in steps && s.WriteBundle? ==> s.bundle.id != id
    ensures NotReimported(AdvanceAll(w, steps).disk, id)
    decreases |steps|
  {
    if steps != [] {
      assert steps[0] in steps;
      NoReimportStep(w, steps[0], id);
      NoReimportSteps(p, Advance(w, steps[0]), steps[1..], id);
    }
  }

  lemma NoReimportStep(w: World, s: Step, id: string)
    requires NotReimported(w.disk, id) && (s.WriteBundle? ==> s.bundle.id != id)
    ensures NotReimported(Advance(w, s).disk, id)
  {}

  predicate NoBundles(steps: seq<Step>) {
    forall i :: 0 <= i < |steps| ==> !steps[i].WriteBundle?
  }

  lemma BeginWritesNoBundles(d: Disk, b: Bundle, raw: bytes, now: Time, m: Manifest)
    ensures NoBundles(BeginLocked(d, now, b, raw, m).steps)
  {}

  lemma CompleteWritesNoBundles(p: Primitives, d: Disk, k: Key, now: Time)
    ensures NoBundles(Complete(p, d, now, k).steps)
  {}

  lemma OnlyImportsWriteBundles(p: Primitives, w: World, e: Event)
    requires !e.Import?
    ensures NoBundles(PlannedSteps(p, w, e))
  {
    match e
    case Begin(b, raw, now) =>
      if CheckSetup(p, b, raw).Ok? { BeginWritesNoBundles(w.disk, b, raw, now, CheckSetup(p, b, raw).value); }
    case Commit(t, body) => assert NoBundles(PutCommit(w.disk, t.key, t.index, t.expected, body).steps);
    case Finish(k, now) => CompleteWritesNoBundles(p, w.disk, k, now);
    case Close(id, now) => assert NoBundles(CloseRequest(w.disk, now, id).steps);
    case Ack(b, upload, now) => assert NoBundles(Acknowledge(p, w.disk, now, b, upload).steps);
    case Purge(_, _, order) => assert NoBundles(RemoveSteps(order));
    case _ =>
  }

  lemma CutKeepsNoBundles(steps: seq<Step>, fate: Fate)
    requires NoBundles(steps)
    ensures NoBundles(Cut(steps, fate))
  {}

  lemma ImportsOnly(p: Primitives, w: World, m: Move, id: string)
    requires m.event.Import? ==> m.event.bundle.id != id
    ensures forall s :: s in StepsTaken(p, w, m) && s.WriteBundle? ==> s.bundle.id != id
  {
    if !m.event.Import? {
      OnlyImportsWriteBundles(p, w, m.event);
      CutKeepsNoBundles(PlannedSteps(p, w, m.event), m.fate);
    }
  }

  /** Without a new import of the id, closing again always returns the first closure. */
  lemma {:induction false} ClosingAgainAlways(p: Primitives, w: World, moves: seq<Move>, id: string, now: Time)
    requires Inv(p, w) && ClocksOk(moves) && id in w.disk.markers && ValidID(id) && NotReimported(w.disk, id)
    requires forall m :: m in moves && m.event.Import? ==> m.event.bundle.id != id
    ensures NotReimported(Run(p, w, moves).disk, id)
    ensures CloseRequest(Run(p, w, moves).disk, now, id).result == Ok(w.disk.markers[id])
  {
    ClosingAgain(p, w, moves, id, now);
    if moves != [] {
      var n := |moves| - 1;
      ClosingAgainAlways(p, w, moves[..n], id, now);
      RunKeepsInv(p, w, moves[..n]);
      var v := Run(p, w, moves[..n]);
      MoveIsLegalSteps(p, v, moves[n]);
      ImportsOnly(p, v, moves[n], id);
      NoReimportSteps(p, Remember(p, v, moves[n].event), StepsTaken(p, v, moves[n]), id);
    }
  }

  /** CloseRequest run to its end from any disk where it succeeds. */
  lemma CloseCompletes(d: Disk, id: string, now: Time)
    requires CloseRequest(d, now, id).result.Ok? && (id in d.closed ==> id in d.markers)
    ensures var plan := CloseRequest(d, now, id);
      var e := ApplyAll(d, plan.steps);
      id in e.closed && id !in e.active && id in e.markers && e.markers[id] == plan.result.value
  {
    CloseEffect(d, CloseRequest(d, now, id).steps);
  }

  /** After any prefix of its steps it can be repeated. */
  lemma CloseRepeats(d: Disk, id: string, now: Time, later: Time, done: nat)
    requires CloseRequest(d, now, id).result.Ok? && (id in d.closed ==> id in d.markers) && now != ZERO_TIME
    requires done <= |CloseRequest(d, now, id).steps|
    ensures var plan := CloseRequest(d, now, id);
      var crashed := ApplyAll(d, plan.steps[..done]);
      && (id in crashed.closed ==> id in crashed.markers)
      && CloseRequest(crashed, later, id).result
           == Ok(if id in crashed.markers then plan.result.value else Closure(SCHEMA_VERSION, id, later))
  {
    var steps := CloseRequest(d, now, id).steps;
    assert |steps| <= 2;
    if done == |steps| { assert steps[..done] == steps; }
    CloseEffect(d, steps[..done]);
  }

  /** A crash at any point of CloseRequest is repaired by repeating it: if the marker was written the repeated
      call returns the first closure, and either way it ends with the bundle moved and the marker in place. */
  lemma CloseRecovers(p: Primitives, w: World, id: string, now: Time, later: Time, crash: nat)
    requires Inv(p, w) && now != ZERO_TIME
    requires CloseRequest(w.disk, now, id).result.Ok?
    ensures var plan := CloseRequest(w.disk, now, id);
      var crashed := ApplyAll(w.disk, Cut(plan.steps, Crash(crash)));
      var again := CloseRequest(crashed, later, id);
      var recovered := ApplyAll(crashed, again.steps);
      && (id in crashed.closed ==> id in crashed.markers)
      && again.result == Ok(if id in crashed.markers then plan.result.value else Closure(SCHEMA_VERSION, id, later))
      && id in recovered.closed && id !in recovered.active
      && id in recovered.markers && recovered.markers[id] == again.result.value
  {
    assert RequestOk(p, w.disk, w.first, id);
    var plan := CloseRequest(w.disk, now, id);
    var done := Min(crash, |plan.steps|);
    CloseRepeats(w.disk, id, now, later, done);
    CloseCompletes(ApplyAll(w.disk, plan.steps[..done]), id, later);
  }

  lemma CloseEffect(d: Disk, steps: seq<Step>)
    requires |steps| <= 2
    ensures ApplyAll(d, steps) ==
      if |steps| == 0 then d else if |steps| == 1 then Apply(d, steps[0]) else Apply(Apply(d, steps[0]), steps[1])
  {
    if |steps| == 1 {
      assert steps[1..] == [];
    } else if |steps| == 2 {
      assert steps[1..] == [steps[1]] && [steps[1]][1..] == [];
      var d1 := Apply(d, steps[0]);
      assert ApplyAll(d1, [steps[1]]) == ApplyAll(Apply(d1, steps[1]), []);
    }
  }

  /** The unlocked two-step lookup always finds an imported request, whatever happens between its two reads. */
  lemma LookupAlwaysFinds(p: Primitives, w: World, moves: seq<Move>, id: string)
    requires Inv(p, w) && ClocksOk(moves) && id in w.first
    ensures Request(w.disk, id).Some? || ClosedRequest(Run(p, w, moves).disk, id).Some?
  {
    assert RequestOk(p, w.disk, w.first, id);
    if id !in w.disk.active {
      ClosedStays(p, w, moves, id);
    }
  }

  lemma {:induction false} ClosedStays(p: Primitives, w: World, moves: seq<Move>, id: string)
    requires Inv(p, w) && ClocksOk(moves) && id in w.disk.closed
    ensures id in Run(p, w, moves).disk.closed
  {
    if moves != [] {
      var n := |moves| - 1;
      ClosedStays(p, w, moves[..n], id);
      var v := Run(p, w, moves[..n]);
      ClosedStaysSteps(Remember(p, v, moves[n].event), StepsTaken(p, v, moves[n]), id);
    }
  }

  lemma {:induction false} ClosedStaysSteps(w: World, steps: seq<Step>, id: string)
    requires id in w.disk.closed
    ensures id in AdvanceAll(w, steps).disk.closed
    decreases |steps|
  {
    if steps != [] { ClosedStaysSteps(Advance(w, steps[0]), steps[1..], id); }
  }

  // ---------- purge ----------

  ghost function Without(d: Disk, keys: set<Key>): Disk { d.(uploads := d.uploads - keys) }

  /** At a fixed clock a second purge finds nothing. */
  lemma PurgeTwice(d: Disk, now: Time, stale: int)
    ensures PurgeSet(Without(d, PurgeSet(d, now, stale)), now, stale) == {}
  {
    var e := Without(d, PurgeSet(d, now, stale));
    forall k | k in e.uploads ensures !Purgeable(e, now, stale, k) {
      StoreServer.Store.PurgeableFrame(d, e, now, stale, k);
    }
  }

  lemma KnownRequestIsFound(p: Primitives, d: Disk, first: map<string, Bundle>, id: string)
    requires RequestOk(p, d, first, id) && id in first
    ensures RequestIncludingClosed(d, id).Some?
  {}

  /** A purge never removes a completed upload of a known, unexpired request, open or closed,
      whose reservation is readable. */
  lemma PurgeSparesSubmissions(p: Primitives, w: World, now: Time, stale: int, k: Key)
    requires RequestsOk(p, w) && k in w.disk.uploads && k.request in w.first
    requires w.disk.uploads[k].complete.Some? && w.disk.uploads[k].server.Some?
    requires forall b :: RequestIncludingClosed(w.disk, k.request) == Some(b) ==> now < b.expiresAt
    ensures k !in PurgeSet(w.disk, now, stale)
  {
    assert RequestOk(p, w.disk, w.first, k.request);
    KnownRequestIsFound(p, w.disk, w.first, k.request);
  }

  lemma {:induction false} PlainSumSplit(uploads: map<Key, Upload>, a: set<Key>, b: set<Key>)
    requires a !! b
    ensures PlainSum(uploads, a + b) == PlainSum(uploads, a) + PlainSum(uploads, b)
    decreases a
  {
    if a == {} {
      assert a + b == b;
    } else {
      var k :| k in a;
      StoreServer.PlainSumRemove(uploads, a + b, k);
      StoreServer.PlainSumRemove(uploads, a, k);
      assert a + b - {k} == (a - {k}) + b;
      PlainSumSplit(uploads, a - {k}, b);
    }
  }

  lemma WithoutCounted(d: Disk, keys: set<Key>, id: string)
    ensures Counted(Without(d, keys).uploads, id) == Counted(d.uploads, id) - keys
  {}

  lemma PartSizes(all: set<Key>, keys: set<Key>)
    ensures |all - keys| == |all| - |all * keys|
  {
    assert all == all * keys + (all - keys);
  }

  /** Removing uploads gives back exactly their counted reservations. */
  lemma PurgeReturnsQuota(d: Disk, keys: set<Key>, id: string)
    ensures UsedFiles(Without(d, keys), id) == UsedFiles(d, id) - |Counted(d.uploads, id) * keys|
    ensures UsedBytes(Without(d, keys), id) == UsedBytes(d, id) - PlainSum(d.uploads, Counted(d.uploads, id) * keys)
  {
    var all := Counted(d.uploads, id);
    WithoutCounted(d, keys, id);
    PartSizes(all, keys);
    assert all == all * keys + (all - keys);
    PlainSumSplit(d.uploads, all * keys, all - keys);
    PlainSumFrame(d.uploads, Without(d, keys).uploads, all - keys);
  }
}

/** Runs of the store: any interleaving of its operations, each of which may finish,
    fail with an I/O error, or be cut short by a crash between two file-system steps. */
module StoreRuns {
  import opened Prelude
  import opened Text
  import opened Model
  import opened StoreSpec
  import opened StoreInvariant
  import Base64
  import Cryptobox

  datatype Event =
    | Import(bundle: Bundle)
    | Authorize(id: string, token: string, kind: Kind)
    | Begin(bundle: Bundle, raw: bytes, now: Time)
    | Prepare(key: Key, index: int, contentLength: int)
    | Commit(ticket: Ticket, body: bytes)
    | Finish(key: Key, now: Time)
    | Close(id: string, now: Time)
    | Ack(bundle: Bundle, upload: string, now: Time)
    | Purge(now: Time, stale: int, order: seq<Key>)

  /** How far an operation gets: after an I/O error BeginUpload removes what it made. */
  datatype Fate = Done | Crash(after: nat) | Fault(after: nat)

  datatype Move = Move(event: Event, fate: Fate)

  predicate ClockOk(e: Event) {
    (e.Begin? || e.Close?) ==> e.now != ZERO_TIME
  }

  /** The steps of the operation, if a handler can be running it. */
  ghost function PlannedSteps(p: Primitives, w: World, e: Event): seq<Step> {
    match e
    case Import(b) => ImportRequest(p, w.disk, b).steps
    case Authorize(_, _, _) => []
    case Begin(b, raw, now) => if b in w.seen then BeginUpload(p, w.disk, now, b, raw).steps else []
    case Prepare(_, _, _) => []
    case Commit(t, body) => if t in w.tickets then PutCommit(w.disk, t.key, t.index, t.expected, body).steps else []
    case Finish(k, now) => Complete(p, w.disk, now, k).steps
    case Close(id, now) => CloseRequest(w.disk, now, id).steps
    case Ack(b, upload, now) => if b in w.seen then Acknowledge(p, w.disk, now, b, upload).steps else []
    case Purge(now, stale, order) =>
      if forall k :: k in order ==> k in PurgeSet(w.disk, now, stale) then RemoveSteps(order) else []
  }

  function Cut(steps: seq<Step>, fate: Fate): seq<Step> {
    match fate
    case Done => steps
    case Crash(n) => steps[..Min(n, |steps|)]
    case Fault(n) =>
      if 0 < n < |steps| && steps[0].MakeUpload? then steps[..n] + [RemoveUpload(steps[0].key)]
      else steps[..Min(n, |steps|)]
  }

  ghost function StepsTaken(p: Primitives, w: World, m: Move): seq<Step> {
    Cut(PlannedSteps(p, w, m.event), m.fate)
  }

  /** What handlers learn from unlocked reads. */
  function Remember(p: Primitives, w: World, e: Event): World {
    match e
    case Authorize(id, token, kind) =>
      (match Authenticate(p, w.disk, id, token, kind)
       case None => w
       case Some(b) => w.(seen := w.seen + {b}))
    case Prepare(k, index, contentLength) =>
      (match PutPrepare(p, w.disk, k, index, contentLength)
       case Err(_) => w
       case Ok(expected) => w.(tickets := w.tickets + {Ticket(k, index, expected)}))
    case _ => w
  }

  ghost function Next(p: Primitives, w: World, m: Move): World {
    AdvanceAll(Remember(p, w, m.event), StepsTaken(p, w, m))
  }

  ghost function Run(p: Primitives, from: World, moves: seq<Move>): World {
    if moves == [] then from else Next(p, Run(p, from, moves[..|moves| - 1]), moves[|moves| - 1])
  }

  ghost predicate ClocksOk(moves: seq<Move>) { forall m :: m in moves ==> ClockOk(m.event) }

  // ---------- legality ----------

  lemma {:induction false} LegalPrefix(p: Primitives, w: World, steps: seq<Step>, n: nat)
    requires LegalRun(p, w, steps) && n <= |steps|
    ensures LegalRun(p, w, steps[..n])
    decreases n
  {
    if n > 0 {
      LegalPrefix(p, Advance(w, steps[0]), steps[1..], n - 1);
      assert steps[..n][1..] == steps[1..][..n - 1];
    }
  }

  lemma {:induction false} LegalAppend(p: Primitives, w: World, steps: seq<Step>, s: Step)
    requires LegalRun(p, w, steps) && Legal(p, AdvanceAll(w, steps), s)
    ensures LegalRun(p, w, steps + [s])
    decreases |steps|
  {
    if steps == [] {
      assert [] + [s] == [s];
      assert [s][1..] == [];
    } else {
      LegalAppend(p, Advance(w, steps[0]), steps[1..], s);
      assert (steps + [s])[1..] == steps[1..] + [s];
    }
  }

  lemma LegalOne(p: Primitives, w: World, s: Step)
    requires Legal(p, w, s)
    ensures LegalRun(p, w, [s])
  {
    assert [s][1..] == [];
  }

  lemma LegalTwo(p: Primitives, w: World, s: Step, t: Step)
    requires Legal(p, w, s) && Legal(p, Advance(w, s), t)
    ensures LegalRun(p, w, [s, t])
  {
    LegalOne(p, Advance(w, s), t);
    assert [s, t][1..] == [t];
  }

  lemma {:induction false} LegalRemovals(p: Primitives, w: World, keys: seq<Key>)
    ensures LegalRun(p, w, RemoveSteps(keys))
    decreases |keys|
  {
    if keys != [] {
      LegalRemovals(p, Advance(w, RemoveUpload(keys[0])), keys[1..]);
      assert RemoveSteps(keys)[1..] == RemoveSteps(keys[1..]);
    }
  }

  lemma StepsToUpload(w: World, k: Key, raw: bytes)
    requires k !in w.disk.uploads
    ensures var w1 := Advance(w, MakeUpload(k));
      var w2 := Advance(w1, MakeChunksDir(k));
      var w3 := Advance(w2, WriteManifest(k, raw));
      && w1 == w.(disk := w.disk.(uploads := w.disk.uploads[k := EMPTY_UPLOAD]))
      && w2 == w.(disk := w.disk.(uploads := w.disk.uploads[k := EMPTY_UPLOAD.(chunksDir := true)]))
      && w3 == w.(disk := w.disk.(uploads :=
                    w.disk.uploads[k := EMPTY_UPLOAD.(chunksDir := true, manifest := Some(raw))]))
  {
    var d := w.disk.uploads;
    assert d[k := EMPTY_UPLOAD][k := EMPTY_UPLOAD.(chunksDir := true)] == d[k := EMPTY_UPLOAD.(chunksDir := true)];
    assert d[k := EMPTY_UPLOAD.(chunksDir := true)][k := EMPTY_UPLOAD.(chunksDir := true, manifest := Some(raw))]
        == d[k := EMPTY_UPLOAD.(chunksDir := true, manifest := Some(raw))];
  }

  lemma SetupUsage(w: World, k: Key, raw: bytes)
    ensures var w3 := Advance(Advance(Advance(w, MakeUpload(k)), MakeChunksDir(k)), WriteManifest(k, raw));
      UsedFiles(w3.disk, k.request) == UsedFiles(w.disk, k.request)
      && UsedBytes(w3.disk, k.request) == UsedBytes(w.disk, k.request)
  {
    StepKeepsUsage(w, MakeUpload(k), k.request);
    StepKeepsUsage(Advance(w, MakeUpload(k)), MakeChunksDir(k), k.request);
    StepKeepsUsage(Advance(Advance(w, MakeUpload(k)), MakeChunksDir(k)), WriteManifest(k, raw), k.request);
  }

  lemma SetupIsLegal(p: Primitives, w: World, k: Key, raw: bytes, m: Manifest, now: Time)
    requires k !in w.disk.uploads && ValidID(k.request) && ValidID(k.upload) && now != ZERO_TIME
    requires k.request in w.first && k.request !in w.disk.markers
    requires p.parseManifest(raw) == Some(m) && ValidManifest(p, w.first[k.request], m) && m.header.uploadID == k.upload
    requires UsedFiles(w.disk, k.request) < w.first[k.request].maxFiles
    requires m.header.plainSize <= w.first[k.request].maxBytes - UsedBytes(w.disk, k.request)
    ensures LegalRun(p, w, SetupSteps(k, raw, m, now))
  {
    hide DecodesBetween, DecodesTo32, EqualFold, Cryptobox.HeaderSHA256, Base64.Decode, UsedFiles, UsedBytes, Completed;
    var w1 := Advance(w, MakeUpload(k));
    var w2 := Advance(w1, MakeChunksDir(k));
    var w3 := Advance(w2, WriteManifest(k, raw));
    var s := SetupSteps(k, raw, m, now);
    StepsToUpload(w, k, raw);
    SetupUsage(w, k, raw);
    LegalTwo(p, w2, s[2], s[3]);
    assert s[1..] == [s[1], s[2], s[3]] && s[1..][1..] == [s[2], s[3]];
    assert LegalRun(p, w1, s[1..]);
  }

  lemma BeginIsLegal(p: Primitives, w: World, b: Bundle, raw: bytes, now: Time)
    requires Inv(p, w) && b in w.seen && now != ZERO_TIME
    ensures LegalRun(p, w, BeginUpload(p, w.disk, now, b, raw).steps)
  {
    hide DecodesBetween, DecodesTo32, EqualFold, Cryptobox.HeaderSHA256, Base64.Decode, UsedFiles, UsedBytes;
    var plan := BeginUpload(p, w.disk, now, b, raw);
    if plan.steps != [] {
      var m := CheckSetup(p, b, raw).value;
      var k := Key(b.id, m.header.uploadID);
      assert RequestOk(p, w.disk, w.first, b.id);
      SetupIsLegal(p, w, k, raw, m, now);
    }
  }

  lemma FinishIsLegal(p: Primitives, w: World, k: Key, now: Time)
    requires Inv(p, w)
    ensures LegalRun(p, w, Complete(p, w.disk, now, k).steps)
  {
    hide DecodesBetween, DecodesTo32, EqualFold, Cryptobox.HeaderSHA256, Cryptobox.ReceiptRoot, Base64.Decode;
    var plan := Complete(p, w.disk, now, k);
    if plan.steps != [] {
      var u := w.disk.uploads[k];
      assert UploadOk(p, w.first, k, u);
      var r := plan.result.value;
      assert Completed(p, k, u.(complete := Some(r)));
      LegalOne(p, w, WriteReceipt(k, r));
    }
  }

  lemma CloseIsLegal(p: Primitives, w: World, id: string, now: Time)
    requires Inv(p, w) && now != ZERO_TIME
    ensures LegalRun(p, w, CloseRequest(w.disk, now, id).steps)
  {
    var plan := CloseRequest(w.disk, now, id);
    assert RequestOk(p, w.disk, w.first, id);
    if |plan.steps| == 2 {
      LegalTwo(p, w, plan.steps[0], plan.steps[1]);
    } else if |plan.steps| == 1 {
      LegalOne(p, w, plan.steps[0]);
    }
  }

  lemma AckIsLegal(p: Primitives, w: World, b: Bundle, upload: string, now: Time)
    ensures LegalRun(p, w, Acknowledge(p, w.disk, now, b, upload).steps)
  {
    var plan := Acknowledge(p, w.disk, now, b, upload);
    if |plan.steps| == 2 {
      LegalTwo(p, w, plan.steps[0], plan.steps[1]);
    } else if |plan.steps| == 1 {
      LegalOne(p, w, plan.steps[0]);
    }
  }

  lemma CommitIsLegal(p: Primitives, w: World, t: Ticket, body: bytes)
    requires Inv(p, w)
    ensures LegalRun(p, w, PutCommit(w.disk, t.key, t.index, t.expected, body).steps)
  {
    if PutCommit(w.disk, t.key, t.index, t.expected, body).steps != [] {
      assert UploadOk(p, w.first, t.key, w.disk.uploads[t.key]);
      LegalOne(p, w, WriteChunk(t.key, t.index, body));
    }
  }

  /** Every operation of the store takes only legal steps. */
  lemma PlanIsLegal(p: Primitives, w: World, e: Event)
    requires Inv(p, w) && ClockOk(e)
    ensures LegalRun(p, w, PlannedSteps(p, w, e))
  {
    match e
    case Import(b) => if PlannedSteps(p, w, e) != [] { LegalOne(p, w, WriteBundle(b)); }
    case Begin(b, raw, now) => if b in w.seen { BeginIsLegal(p, w, b, raw, now); }
    case Commit(t, body) => CommitIsLegal(p, w, t, body);
    case Finish(k, now) => FinishIsLegal(p, w, k, now);
    case Close(id, now) => CloseIsLegal(p, w, id, now);
    case Ack(b, upload, now) => AckIsLegal(p, w, b, upload, now);
    case Purge(_, _, order) => LegalRemovals(p, w, order);
    case _ =>
  }

  lemma CutIsLegal(p: Primitives, w: World, steps: seq<Step>, fate: Fate)
    requires LegalRun(p, w, steps)
    ensures LegalRun(p, w, Cut(steps, fate))
  {
    match fate
    case Done =>
    case Crash(n) => LegalPrefix(p, w, steps, Min(n, |steps|));
    case Fault(n) =>
      LegalPrefix(p, w, steps, Min(n, |steps|));
      if 0 < n < |steps| && steps[0].MakeUpload? {
        LegalAppend(p, w, steps[..n], RemoveUpload(steps[0].key));
      }
  }

  lemma RememberKeepsInv(p: Primitives, w: World, e: Event)
    requires Inv(p, w)
    ensures Inv(p, Remember(p, w, e))
    ensures PlannedSteps(p, Remember(p, w, e), e) == PlannedSteps(p, w, e)
  {
    var v := Remember(p, w, e);
    if e.Authorize? { assert RequestOk(p, w.disk, w.first, e.id); }
    forall id ensures RequestOk(p, v.disk, v.first, id) { assert RequestOk(p, w.disk, w.first, id); }
    forall id ensures QuotaAt(v, id) { assert QuotaAt(w, id); }
  }

  /** Whatever interleaving, I/O error or crash: the invariant holds after every move of every run. */
  lemma MoveKeepsInv(p: Primitives, w: World, m: Move)
    requires Inv(p, w) && ClockOk(m.event)
    ensures Inv(p, Next(p, w, m))
  {
    var v := Remember(p, w, m.event);
    RememberKeepsInv(p, w, m.event);
    PlanIsLegal(p, v, m.event);
    CutIsLegal(p, v, PlannedSteps(p, v, m.event), m.fate);
    var steps := StepsTaken(p, w, m);
    assert steps == StepsTaken(p, v, m);
    PrefixKeepsInv(p, v, steps, |steps|);
    assert steps[..|steps|] == steps;
  }

  lemma {:induction false} RunKeepsInv(p: Primitives, from: World, moves: seq<Move>)
    requires Inv(p, from) && ClocksOk(moves)
    ensures Inv(p, Run(p, from, moves))
  {
    if moves != [] {
      var n := |moves| - 1;
      RunKeepsInv(p, from, moves[..n]);
      MoveKeepsInv(p, Run(p, from, moves[..n]), moves[n]);
    }
  }

  lemma StartInv(p: Primitives)
    ensures Inv(p, START)
  {
    forall id ensures QuotaAt(START, id) {}
  }
}

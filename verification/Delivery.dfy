/** No submission is lost: the store and any number of collectors running against each other with
    delete-after-collect, where every acknowledgement is sent by a collector that has published. */
module Delivery {
  import opened Prelude
  import opened Model
  import opened StoreSpec
  import opened StoreInvariant
  import opened StoreRuns
  import opened StoreTheorems
  import Browser
  import Collector
  import Publish
  import Uploader

  /** One collection in progress: the listed receipt, the output directory, and what has been read so far. */
  datatype Session = Session(key: Key, receipt: Receipt, out: string, raw: Option<bytes>, chunks: seq<bytes>,
                             published: bool)

  type Dirs = map<string, map<string, bytes>>

  /** The store, every upload as it was when it was completed, the collectors, and the recipients' directories. */
  datatype System = System(world: World, ledger: map<Key, Upload>, sessions: seq<Session>, dirs: Dirs)

  const IDLE := System(START, map[], [], map[])

  datatype Action =
    | Serve(move: Move)
    | Listed(key: Key, out: string)
    | FetchManifest(session: nat)
    | FetchChunk(session: nat)
    | Publish(session: nat, broken: set<string>)
    | Confirm(session: nat, bundle: Bundle, now: Time, fate: Fate)

  /** Each request's recipient has one key file. */
  type Keys = string -> KeyFile

  // ---------- the steps of the system ----------

  function DirOf(dirs: Dirs, out: string): map<string, bytes> { if out in dirs then dirs[out] else map[] }

  /** Completion enters the upload in the ledger. */
  ghost function Record(p: Primitives, y: System, m: Move): map<Key, Upload> {
    var after := Next(p, y.world, m).disk.uploads;
    if m.event.Finish? && StepsTaken(p, y.world, m) != [] && m.event.key in after then
      y.ledger[m.event.key := after[m.event.key]]
    else y.ledger
  }

  /** A listed receipt carries the acknowledgement mark. */
  function ListedReceipt(u: Upload): Receipt
    requires u.complete.Some?
  {
    u.complete.value.(acknowledged := u.acknowledged.Some?)
  }

  function Opening(p: Primitives, keys: Keys, s: Session): Option<Collector.Opened> {
    if s.raw.None? then None
    else
      match Collector.CheckManifest(p, keys(s.key.request), s.receipt, s.raw.value)
      case Err(_) => None
      case Ok(access) => Some(access)
  }

  /** Reading on: one more chunk, if the manifest was accepted and the store serves it. */
  function WithChunk(p: Primitives, keys: Keys, d: Disk, s: Session): Session {
    match Opening(p, keys, s)
    case None => s
    case Some(access) =>
      if |s.chunks| >= access.header.chunkCount then s
      else
        match OpenChunk(p, d, s.key, |s.chunks|)
        case Err(_) => s
        case Ok(c) => s.(chunks := s.chunks + [c])
  }

  /** Everything read and verified, under a name still free. */
  function Ready(p: Primitives, keys: Keys, dirs: Dirs, s: Session, broken: set<string>): Option<(string, bytes)> {
    match Opening(p, keys, s)
    case None => None
    case Some(access) =>
      if |s.chunks| != access.header.chunkCount then None
      else
        match Collector.Accepted(p, access, s.receipt, s.raw.value, s.chunks)
        case None => None
        case Some(plain) =>
          match Publish.Destination(DirOf(dirs, s.out).Keys, broken, access.name, 1)
          case Err(_) => None
          case Ok(path) => Some((path, plain))
  }

  ghost function Act(p: Primitives, keys: Keys, y: System, a: Action): System {
    match a
    case Serve(m) => y.(world := Next(p, y.world, m), ledger := Record(p, y, m))
    case Listed(k, out) =>
      var d := y.world.disk;
      if k in d.uploads && d.uploads[k].complete.Some? then
        y.(sessions := y.sessions + [Session(k, ListedReceipt(d.uploads[k]), out, None, [], false)])
      else y
    case FetchManifest(i) =>
      if i >= |y.sessions| || y.sessions[i].raw.Some? then y
      else
        (match ReadManifest(p, y.world.disk, y.sessions[i].key)
         case Err(_) => y
         case Ok((_, raw)) => y.(sessions := y.sessions[i := y.sessions[i].(raw := Some(raw))]))
    case FetchChunk(i) =>
      if i >= |y.sessions| then y
      else y.(sessions := y.sessions[i := WithChunk(p, keys, y.world.disk, y.sessions[i])])
    case Publish(i, broken) =>
      if i >= |y.sessions| then y
      else
        var s := y.sessions[i];
        (match Ready(p, keys, y.dirs, s, broken)
         case None => y
         case Some((path, plain)) =>
           y.(dirs := y.dirs[s.out := DirOf(y.dirs, s.out)[path := plain]],
              sessions := y.sessions[i := s.(published := true)]))
    case Confirm(i, b, now, fate) =>
      if i < |y.sessions| && y.sessions[i].published && y.sessions[i].key.request == b.id then
        y.(world := Next(p, y.world, Move(Ack(b, y.sessions[i].key.upload, now), fate)))
      else y
  }

  ghost function History(p: Primitives, keys: Keys, actions: seq<Action>): System {
    if actions == [] then IDLE
    else Act(p, keys, History(p, keys, actions[..|actions| - 1]), actions[|actions| - 1])
  }

  /** No purge, no acknowledgement but a collector's, no clock at zero, and no new upload under the id of a
      completed one. */
  ghost predicate Honest(p: Primitives, y: System, a: Action) {
    a.Serve? ==>
      && ClockOk(a.move.event) && !a.move.event.Purge? && !a.move.event.Ack?
      && forall k :: k in y.ledger ==> MakeUpload(k) !in StepsTaken(p, y.world, a.move)
  }

  ghost predicate HonestRun(p: Primitives, keys: Keys, actions: seq<Action>)
    decreases |actions|
  {
    actions == [] ||
      var n := |actions| - 1;
      HonestRun(p, keys, actions[..n]) && Honest(p, History(p, keys, actions[..n]), actions[n])
  }

  // ---------- what is never lost ----------

  /** The bytes are what the recipient's key makes of the completed upload, fully verified. */
  ghost predicate Recovers(p: Primitives, key: KeyFile, k: Key, u: Upload, plain: bytes) {
    && Completed(p, k, u)
    && var raw, receipt := u.manifest.value, u.complete.value;
       && Collector.CheckManifest(p, key, receipt, raw).Ok?
       && Collector.Accepted(p, Collector.CheckManifest(p, key, receipt, raw).value, receipt, raw,
           Uploader.StoredChunks(p, u))
            == Some(plain)
  }

  ghost predicate Delivered(p: Primitives, keys: Keys, dirs: Dirs, k: Key, u: Upload) {
    exists out, name :: out in dirs && name in dirs[out] && Recovers(p, keys(k.request), k, u, dirs[out][name])
  }

  /** Still on the store, as it was completed. */
  ghost predicate OnStore(d: Disk, k: Key, u: Upload) {
    k in d.uploads && KeepsSubmission(u, d.uploads[k])
  }

  ghost predicate IsComplete(d: Disk, k: Key) { k in d.uploads && d.uploads[k].complete.Some? }

  ghost predicate EntryOk(p: Primitives, keys: Keys, d: Disk, ledger: map<Key, Upload>, dirs: Dirs, k: Key) {
    && (k in ledger ==>
          && Completed(p, k, ledger[k])
          && (k in d.uploads ==> OnStore(d, k, ledger[k]))
          && (k in d.uploads || Delivered(p, keys, dirs, k, ledger[k])))
    && (IsComplete(d, k) ==> k in ledger)
  }

  /** A collector has read a part of what was completed. */
  ghost predicate SessionOk(p: Primitives, keys: Keys, y: System, s: Session) {
    && s.key in y.ledger
    && var u := y.ledger[s.key];
       && u.complete.Some? && s.receipt == u.complete.value.(acknowledged := s.receipt.acknowledged)
       && (s.raw.Some? ==> s.raw == u.manifest)
       && (forall i :: 0 <= i < |s.chunks| ==> i in u.chunks && s.chunks[i] == u.chunks[i])
       && (s.published ==> Delivered(p, keys, y.dirs, s.key, u))
  }

  ghost predicate SystemOk(p: Primitives, keys: Keys, y: System) {
    && Inv(p, y.world)
    && (forall k :: EntryOk(p, keys, y.world.disk, y.ledger, y.dirs, k))
    && (forall i :: 0 <= i < |y.sessions| ==> SessionOk(p, keys, y, y.sessions[i]))
  }

  // ---------- the store's moves ----------

  /** Steps that neither complete, remove nor begin anything in the ledger. */
  ghost predicate Quiet(steps: seq<Step>, k: Key) {
    forall s :: s in steps ==> s != RemoveUpload(k) && s != MakeUpload(k) && !(s.WriteReceipt? && s.key == k)
  }

  lemma QuietStep(p: Primitives, w: World, s: Step, k: Key, u: Upload)
    requires Legal(p, w, s) && s != RemoveUpload(k) && s != MakeUpload(k) && !(s.WriteReceipt? && s.key == k)
    requires u.complete.Some? && u.manifest.Some?
    ensures k in Advance(w, s).disk.uploads <==> k in w.disk.uploads
    ensures OnStore(w.disk, k, u) ==> OnStore(Advance(w, s).disk, k, u)
    ensures k in w.disk.uploads ==> Advance(w, s).disk.uploads[k].complete == w.disk.uploads[k].complete
  {
    if OnStore(w.disk, k, u) { ReceiptStep(w, s, k); }
  }

  lemma {:induction false} QuietSteps(p: Primitives, w: World, steps: seq<Step>, k: Key, u: Upload)
    requires LegalRun(p, w, steps) && Quiet(steps, k) && u.complete.Some? && u.manifest.Some?
    ensures var e := AdvanceAll(w, steps).disk;
      && (k in e.uploads <==> k in w.disk.uploads)
      && (OnStore(w.disk, k, u) ==> OnStore(e, k, u))
      && (k in w.disk.uploads ==> e.uploads[k].complete == w.disk.uploads[k].complete)
    decreases |steps|
  {
    if steps != [] {
      assert steps[0] in steps;
      QuietStep(p, w, steps[0], k, u);
      QuietSteps(p, Advance(w, steps[0]), steps[1..], k, u);
    }
  }

  /** Steps that neither remove anything nor complete k. */
  ghost predicate Tame(steps: seq<Step>, k: Key) {
    forall i :: 0 <= i < |steps| ==> !steps[i].RemoveUpload? && !(steps[i].WriteReceipt? && steps[i].key == k)
  }

  lemma BeginIsTame(d: Disk, b: Bundle, raw: bytes, now: Time, m: Manifest, k: Key)
    ensures Tame(BeginLocked(d, now, b, raw, m).steps, k)
  {}

  lemma CompleteIsTame(p: Primitives, d: Disk, j: Key, now: Time, k: Key)
    requires j != k
    ensures Tame(Complete(p, d, now, j).steps, k)
  {}

  lemma PlanIsTame(p: Primitives, w: World, e: Event, k: Key)
    requires !e.Purge? && !e.Ack? && !(e.Finish? && e.key == k)
    ensures Tame(PlannedSteps(p, w, e), k)
  {
    match e
    case Import(b) => assert Tame(ImportRequest(p, w.disk, b).steps, k);
    case Begin(b, raw, now) =>
      if CheckSetup(p, b, raw).Ok? { BeginIsTame(w.disk, b, raw, now, CheckSetup(p, b, raw).value, k); }
    case Commit(t, body) => assert Tame(PutCommit(w.disk, t.key, t.index, t.expected, body).steps, k);
    case Finish(j, now) => CompleteIsTame(p, w.disk, j, now, k);
    case Close(id, now) => assert Tame(CloseRequest(w.disk, now, id).steps, k);
    case _ =>
  }

  lemma CutIsQuiet(steps: seq<Step>, fate: Fate, k: Key)
    requires Tame(steps, k) && MakeUpload(k) !in Cut(steps, fate)
    ensures Quiet(Cut(steps, fate), k)
  {
    if fate.Fault? && 0 < fate.after < |steps| && steps[0].MakeUpload? {
      assert Cut(steps, fate)[0] == steps[0];
    }
  }

  /** No honest move but its own completion touches what the ledger holds of an upload. */
  lemma HonestMoveIsQuiet(p: Primitives, w: World, m: Move, k: Key)
    requires !m.event.Purge? && !m.event.Ack? && !(m.event.Finish? && m.event.key == k)
    requires MakeUpload(k) !in StepsTaken(p, w, m)
    ensures Quiet(StepsTaken(p, w, m), k)
  {
    PlanIsTame(p, w, m.event, k);
    CutIsQuiet(PlannedSteps(p, w, m.event), m.fate, k);
  }

  ghost predicate NoReceipt(steps: seq<Step>, k: Key) {
    forall s :: s in steps ==> !(s.WriteReceipt? && s.key == k)
  }

  lemma {:induction false} NoReceiptNoCompletion(w: World, steps: seq<Step>, k: Key)
    requires NoReceipt(steps, k) && IsComplete(AdvanceAll(w, steps).disk, k)
    ensures IsComplete(w.disk, k)
    decreases |steps|
  {
    if steps != [] {
      assert steps[0] in steps;
      NoReceiptNoCompletion(Advance(w, steps[0]), steps[1..], k);
    }
  }

  lemma TameWritesNoReceipt(steps: seq<Step>, fate: Fate, k: Key)
    requires Tame(steps, k)
    ensures NoReceipt(Cut(steps, fate), k)
  {}

  // ---------- the invariant ----------

  lemma OtherMove(p: Primitives, w: World, m: Move, k: Key, u: Upload)
    requires Inv(p, w) && ClockOk(m.event) && !m.event.Purge? && !m.event.Ack? && !(m.event.Finish? && m.event.key == k)
    requires MakeUpload(k) !in StepsTaken(p, w, m) && u.complete.Some? && u.manifest.Some?
    ensures k in Next(p, w, m).disk.uploads <==> k in w.disk.uploads
    ensures OnStore(w.disk, k, u) ==> OnStore(Next(p, w, m).disk, k, u)
  {
    MoveIsLegalSteps(p, w, m);
    HonestMoveIsQuiet(p, w, m, k);
    QuietSteps(p, Remember(p, w, m.event), StepsTaken(p, w, m), k, u);
  }

  lemma OnlyFinishCompletes(p: Primitives, w: World, m: Move, k: Key)
    requires !m.event.Purge? && !m.event.Ack? && !(m.event.Finish? && m.event.key == k)
    requires IsComplete(Next(p, w, m).disk, k)
    ensures IsComplete(w.disk, k)
  {
    PlanIsTame(p, w, m.event, k);
    TameWritesNoReceipt(PlannedSteps(p, w, m.event), m.fate, k);
    NoReceiptNoCompletion(Remember(p, w, m.event), StepsTaken(p, w, m), k);
  }

  lemma OtherEntry(p: Primitives, keys: Keys, w: World, m: Move, ledger: map<Key, Upload>, dirs: Dirs, k: Key)
    requires Inv(p, w) && ClockOk(m.event) && !m.event.Purge? && !m.event.Ack? && !(m.event.Finish? && m.event.key == k)
    requires k in ledger ==> MakeUpload(k) !in StepsTaken(p, w, m)
    requires EntryOk(p, keys, w.disk, ledger, dirs, k)
    ensures EntryOk(p, keys, Next(p, w, m).disk, ledger, dirs, k)
  {
    hide Delivered, KeepsSubmission, Inv, LegalRun, MakeReceipt, ChunksPresent;
    if k in ledger { OtherMove(p, w, m, k, ledger[k]); }
    if IsComplete(Next(p, w, m).disk, k) { OnlyFinishCompletes(p, w, m, k); }
  }

  lemma FinishTakesOneStep(p: Primitives, w: World, m: Move)
    requires m.event.Finish? && StepsTaken(p, w, m) != []
    ensures m.event.key in w.disk.uploads && w.disk.uploads[m.event.key].complete.None?
    ensures exists r :: StepsTaken(p, w, m) == [WriteReceipt(m.event.key, r)]
  {
    hide MakeReceipt, ChunksPresent;
    var plan := Complete(p, w.disk, m.event.now, m.event.key);
    assert StepsTaken(p, w, m) == plan.steps == [WriteReceipt(m.event.key, plan.result.value)];
  }

  lemma FinishCompletes(p: Primitives, w: World, m: Move)
    requires m.event.Finish? && StepsTaken(p, w, m) != []
    ensures IsComplete(Next(p, w, m).disk, m.event.key)
  {
    hide Complete, MakeReceipt;
    FinishTakesOneStep(p, w, m);
    var r :| StepsTaken(p, w, m) == [WriteReceipt(m.event.key, r)];
    assert [WriteReceipt(m.event.key, r)][1..] == [];
    assert Next(p, w, m) == AdvanceAll(Advance(w, WriteReceipt(m.event.key, r)), []);
  }

  lemma OwnEntry(p: Primitives, keys: Keys, y: System, m: Move)
    requires Inv(p, y.world) && ClockOk(m.event) && m.event.Finish?
    requires EntryOk(p, keys, y.world.disk, y.ledger, y.dirs, m.event.key)
    ensures EntryOk(p, keys, Next(p, y.world, m).disk, Record(p, y, m), y.dirs, m.event.key)
    ensures m.event.key in y.ledger ==> Record(p, y, m) == y.ledger
  {
    hide Delivered, Complete, MakeReceipt, ChunksPresent;
    var k, e := m.event.key, Next(p, y.world, m).disk;
    if StepsTaken(p, y.world, m) != [] {
      FinishTakesOneStep(p, y.world, m);
      FinishCompletes(p, y.world, m);
      MoveKeepsInv(p, y.world, m);
      assert UploadOk(p, Next(p, y.world, m).first, k, e.uploads[k]);
    }
  }

  lemma LedgerGrows(p: Primitives, keys: Keys, y: System, m: Move, k: Key)
    requires Inv(p, y.world) && ClockOk(m.event) && k in y.ledger
    requires EntryOk(p, keys, y.world.disk, y.ledger, y.dirs, k)
    ensures k in Record(p, y, m) && Record(p, y, m)[k] == y.ledger[k]
  {
    hide Completed, Delivered, KeepsSubmission, Inv;
    if m.event.Finish? && m.event.key == k { OwnEntry(p, keys, y, m); }
  }

  lemma EntryFrame(p: Primitives, keys: Keys, d: Disk, f: map<Key, Upload>, g: map<Key, Upload>, dirs: Dirs, k: Key)
    requires EntryOk(p, keys, d, f, dirs, k) && (k in f <==> k in g) && (k in f ==> g[k] == f[k])
    ensures EntryOk(p, keys, d, g, dirs, k)
  {}

  lemma ServeKeepsEntry(p: Primitives, keys: Keys, y: System, m: Move, k: Key)
    requires SystemOk(p, keys, y) && Honest(p, y, Serve(m))
    ensures EntryOk(p, keys, Next(p, y.world, m).disk, Record(p, y, m), y.dirs, k)
  {
    hide Completed, Delivered, KeepsSubmission, Inv;
    assert EntryOk(p, keys, y.world.disk, y.ledger, y.dirs, k);
    if m.event.Finish? && m.event.key == k {
      OwnEntry(p, keys, y, m);
    } else {
      OtherEntry(p, keys, y.world, m, y.ledger, y.dirs, k);
      EntryFrame(p, keys, Next(p, y.world, m).disk, y.ledger, Record(p, y, m), y.dirs, k);
    }
  }

  lemma ServeKeeps(p: Primitives, keys: Keys, y: System, m: Move)
    requires SystemOk(p, keys, y) && Honest(p, y, Serve(m))
    ensures SystemOk(p, keys, Act(p, keys, y, Serve(m)))
  {
    hide MakeReceipt, ChunksPresent, Collector.CheckManifest;
    var z := Act(p, keys, y, Serve(m));
    MoveKeepsInv(p, y.world, m);
    forall k ensures EntryOk(p, keys, z.world.disk, z.ledger, z.dirs, k) { ServeKeepsEntry(p, keys, y, m, k); }
    forall i | 0 <= i < |z.sessions| ensures SessionOk(p, keys, z, z.sessions[i]) {
      var s := y.sessions[i];
      assert SessionOk(p, keys, y, s) && EntryOk(p, keys, y.world.disk, y.ledger, y.dirs, s.key);
      LedgerGrows(p, keys, y, m, s.key);
    }
  }

  // ---------- the collectors' moves ----------

  /** Steps of an acknowledgement. */
  ghost predicate AckSteps(steps: seq<Step>, k: Key) {
    forall s :: s in steps ==> (s.WriteAck? && s.key == k) || s == RemoveUpload(k)
  }

  ghost predicate OnlyAcknowledged(d: Disk, e: Disk, k: Key) {
    && (forall j :: j != k ==>
          (j in e.uploads <==> j in d.uploads) && (j in d.uploads ==> e.uploads[j] == d.uploads[j]))
    && (k in e.uploads ==> k in d.uploads && KeepsSubmission(d.uploads[k], e.uploads[k]))
  }

  lemma {:induction false} AckEffect(w: World, steps: seq<Step>, k: Key)
    requires AckSteps(steps, k)
    ensures OnlyAcknowledged(w.disk, AdvanceAll(w, steps).disk, k)
    decreases |steps|
  {
    if steps != [] {
      assert steps[0] in steps;
      AckEffect(Advance(w, steps[0]), steps[1..], k);
    }
  }

  lemma AckMove(p: Primitives, w: World, b: Bundle, upload: string, now: Time, fate: Fate)
    ensures OnlyAcknowledged(w.disk, Next(p, w, Move(Ack(b, upload, now), fate)).disk, Key(b.id, upload))
  {
    var m := Move(Ack(b, upload, now), fate);
    assert AckSteps(PlannedSteps(p, w, m.event), Key(b.id, upload));
    AckEffect(w, StepsTaken(p, w, m), Key(b.id, upload));
  }

  lemma AckKeepsEntry(p: Primitives, keys: Keys, d: Disk, e: Disk, ledger: map<Key, Upload>, dirs: Dirs, k: Key, j: Key)
    requires EntryOk(p, keys, d, ledger, dirs, j) && OnlyAcknowledged(d, e, k)
    requires k in ledger ==> Delivered(p, keys, dirs, k, ledger[k])
    ensures EntryOk(p, keys, e, ledger, dirs, j)
  {
    hide Completed, Delivered;
  }

  lemma ConfirmKeeps(p: Primitives, keys: Keys, y: System, a: Action)
    requires SystemOk(p, keys, y) && a.Confirm?
    ensures SystemOk(p, keys, Act(p, keys, y, a))
  {
    var z := Act(p, keys, y, a);
    if z != y {
      var s := y.sessions[a.session];
      assert SessionOk(p, keys, y, s);
      var m := Move(Ack(a.bundle, s.key.upload, a.now), a.fate);
      MoveKeepsInv(p, y.world, m);
      AckMove(p, y.world, a.bundle, s.key.upload, a.now, a.fate);
      forall k ensures EntryOk(p, keys, z.world.disk, z.ledger, z.dirs, k) {
        AckKeepsEntry(p, keys, y.world.disk, z.world.disk, y.ledger, y.dirs, s.key, k);
      }
      forall i | 0 <= i < |z.sessions| ensures SessionOk(p, keys, z, z.sessions[i]) {
        assert SessionOk(p, keys, y, y.sessions[i]);
      }
    }
  }

  lemma ListedOk(p: Primitives, keys: Keys, y: System, k: Key, out: string)
    requires EntryOk(p, keys, y.world.disk, y.ledger, y.dirs, k) && IsComplete(y.world.disk, k)
    ensures SessionOk(p, keys, y, Session(k, ListedReceipt(y.world.disk.uploads[k]), out, None, [], false))
  {
    hide Delivered, MakeReceipt, ChunksPresent;
  }

  lemma ListedKeeps(p: Primitives, keys: Keys, y: System, a: Action)
    requires SystemOk(p, keys, y) && a.Listed?
    ensures SystemOk(p, keys, Act(p, keys, y, a))
  {
    hide Delivered, Inv, Completed;
    var z := Act(p, keys, y, a);
    assert EntryOk(p, keys, y.world.disk, y.ledger, y.dirs, a.key);
    if IsComplete(y.world.disk, a.key) { ListedOk(p, keys, y, a.key, a.out); }
    forall i | 0 <= i < |z.sessions| ensures SessionOk(p, keys, z, z.sessions[i]) {
      if i < |y.sessions| { assert SessionOk(p, keys, y, y.sessions[i]); }
    }
  }

  lemma SessionUpdate(p: Primitives, keys: Keys, y: System, i: nat, s: Session)
    requires SystemOk(p, keys, y) && i < |y.sessions| && SessionOk(p, keys, y, s)
    ensures SystemOk(p, keys, y.(sessions := y.sessions[i := s]))
  {
    var z := y.(sessions := y.sessions[i := s]);
    forall j | 0 <= j < |z.sessions| ensures SessionOk(p, keys, z, z.sessions[j]) {
      assert SessionOk(p, keys, y, y.sessions[j]);
    }
  }

  lemma ManifestKeeps(p: Primitives, keys: Keys, y: System, a: Action)
    requires SystemOk(p, keys, y) && a.FetchManifest?
    ensures SystemOk(p, keys, Act(p, keys, y, a))
  {
    hide Delivered, Inv;
    if a.session < |y.sessions| && y.sessions[a.session].raw.None? {
      var s := y.sessions[a.session];
      var read := ReadManifest(p, y.world.disk, s.key);
      if read.Ok? {
        assert SessionOk(p, keys, y, s) && EntryOk(p, keys, y.world.disk, y.ledger, y.dirs, s.key);
        SessionUpdate(p, keys, y, a.session, s.(raw := Some(read.value.1)));
      }
    }
  }

  lemma OpeningHeader(p: Primitives, keys: Keys, s: Session)
    requires Opening(p, keys, s).Some?
    ensures p.parseManifest(s.raw.value).Some?
    ensures Opening(p, keys, s).value.header == p.parseManifest(s.raw.value).value.header
  {
    if s.raw.Some? { Collector.CheckedHeader(p, keys(s.key.request), s.receipt, s.raw.value); }
  }

  /** The store serves the very chunks it had at completion. */
  lemma ServedAsCompleted(p: Primitives, d: Disk, k: Key, u: Upload, i: nat)
    requires Completed(p, k, u) && (k in d.uploads ==> OnStore(d, k, u)) && OpenChunk(p, d, k, i).Ok?
    ensures i in u.chunks && OpenChunk(p, d, k, i) == Ok(u.chunks[i])
  {
    hide MakeReceipt;
    var h := p.parseManifest(u.manifest.value).value.header;
    assert 0 <= i < h.chunkCount;
  }

  lemma ChunkReadsOn(p: Primitives, keys: Keys, y: System, s: Session)
    requires SessionOk(p, keys, y, s) && EntryOk(p, keys, y.world.disk, y.ledger, y.dirs, s.key)
    ensures SessionOk(p, keys, y, WithChunk(p, keys, y.world.disk, s))
  {
    hide Delivered, Opening, OpenChunk, Completed;
    var d, u := y.world.disk, y.ledger[s.key];
    if OpenChunk(p, d, s.key, |s.chunks|).Ok? { ServedAsCompleted(p, d, s.key, u, |s.chunks|); }
  }

  lemma ChunkKeeps(p: Primitives, keys: Keys, y: System, a: Action)
    requires SystemOk(p, keys, y) && a.FetchChunk?
    ensures SystemOk(p, keys, Act(p, keys, y, a))
  {
    hide Delivered, Inv, Completed, Opening, OpenChunk;
    if a.session < |y.sessions| {
      var s := y.sessions[a.session];
      assert SessionOk(p, keys, y, s) && EntryOk(p, keys, y.world.disk, y.ledger, y.dirs, s.key);
      ChunkReadsOn(p, keys, y, s);
      SessionUpdate(p, keys, y, a.session, WithChunk(p, keys, y.world.disk, s));
    }
  }

  /** The acknowledgement mark of a listed receipt plays no part in the verification. */
  lemma MarkIsIgnored(p: Primitives, key: KeyFile, r: Receipt, mark: bool, raw: bytes, chunks: seq<bytes>)
    ensures Collector.CheckManifest(p, key, r.(acknowledged := mark), raw) == Collector.CheckManifest(p, key, r, raw)
    ensures forall access :: Collector.Accepted(p, access, r.(acknowledged := mark), raw, chunks)
                          == Collector.Accepted(p, access, r, raw, chunks)
  {}

  /** What a collector is ready to publish is exactly what the completed upload decrypts to. */
  lemma ReadyRecovers(p: Primitives, keys: Keys, y: System, s: Session, broken: set<string>)
    requires SessionOk(p, keys, y, s) && Completed(p, s.key, y.ledger[s.key])
    requires Ready(p, keys, y.dirs, s, broken).Some?
    ensures Recovers(p, keys(s.key.request), s.key, y.ledger[s.key], Ready(p, keys, y.dirs, s, broken).value.1)
    ensures Ready(p, keys, y.dirs, s, broken).value.0 !in DirOf(y.dirs, s.out)
  {
    hide Collector.CheckManifest, Collector.Accepted, Publish.Destination, Delivered, MakeReceipt, ChunksPresent;
    var u := y.ledger[s.key];
    OpeningHeader(p, keys, s);
    assert s.chunks == Uploader.StoredChunks(p, u);
    MarkIsIgnored(p, keys(s.key.request), u.complete.value, s.receipt.acknowledged, s.raw.value, s.chunks);
    Publish.DestinationIsFree(DirOf(y.dirs, s.out).Keys, broken, Opening(p, keys, s).value.name, 1);
  }

  /** Publishing never touches what is already there. */
  lemma DeliveredStays(p: Primitives, keys: Keys, dirs: Dirs, out: string, path: string, plain: bytes, k: Key,
                       u: Upload)
    requires Delivered(p, keys, dirs, k, u) && path !in DirOf(dirs, out)
    ensures Delivered(p, keys, dirs[out := DirOf(dirs, out)[path := plain]], k, u)
  {
    hide Recovers;
    var o, name :| o in dirs && name in dirs[o] && Recovers(p, keys(k.request), k, u, dirs[o][name]);
    var after := dirs[out := DirOf(dirs, out)[path := plain]];
    assert o in after && name in after[o] && after[o][name] == dirs[o][name];
  }

  lemma PublishKeeps(p: Primitives, keys: Keys, y: System, a: Action)
    requires SystemOk(p, keys, y) && a.Publish?
    ensures SystemOk(p, keys, Act(p, keys, y, a))
  {
    hide Delivered, Ready, Inv, Completed;
    if a.session < |y.sessions| && Ready(p, keys, y.dirs, y.sessions[a.session], a.broken).Some? {
      var s := y.sessions[a.session];
      assert SessionOk(p, keys, y, s) && EntryOk(p, keys, y.world.disk, y.ledger, y.dirs, s.key);
      var (path, plain) := Ready(p, keys, y.dirs, s, a.broken).value;
      ReadyRecovers(p, keys, y, s, a.broken);
      PublishedKeeps(p, keys, y, s.out, path, plain);
      var z := y.(dirs := y.dirs[s.out := DirOf(y.dirs, s.out)[path := plain]]);
      assert s.out in z.dirs && path in z.dirs[s.out] && z.dirs[s.out][path] == plain;
      SessionUpdate(p, keys, z, a.session, s.(published := true));
    }
  }

  lemma PublishedKeeps(p: Primitives, keys: Keys, y: System, out: string, path: string, plain: bytes)
    requires SystemOk(p, keys, y) && path !in DirOf(y.dirs, out)
    ensures SystemOk(p, keys, y.(dirs := y.dirs[out := DirOf(y.dirs, out)[path := plain]]))
  {
    var z := y.(dirs := y.dirs[out := DirOf(y.dirs, out)[path := plain]]);
    forall k ensures EntryOk(p, keys, z.world.disk, z.ledger, z.dirs, k) {
      assert EntryOk(p, keys, y.world.disk, y.ledger, y.dirs, k);
      if k in y.ledger && Delivered(p, keys, y.dirs, k, y.ledger[k]) {
        DeliveredStays(p, keys, y.dirs, out, path, plain, k, y.ledger[k]);
      }
    }
    forall i | 0 <= i < |z.sessions| ensures SessionOk(p, keys, z, z.sessions[i]) {
      var s := y.sessions[i];
      assert SessionOk(p, keys, y, s);
      if s.published { DeliveredStays(p, keys, y.dirs, out, path, plain, s.key, y.ledger[s.key]); }
    }
  }

  lemma ActionKeeps(p: Primitives, keys: Keys, y: System, a: Action)
    requires SystemOk(p, keys, y) && Honest(p, y, a)
    ensures SystemOk(p, keys, Act(p, keys, y, a))
  {
    match a
    case Serve(m) => ServeKeeps(p, keys, y, m);
    case Listed(_, _) => ListedKeeps(p, keys, y, a);
    case FetchManifest(_) => ManifestKeeps(p, keys, y, a);
    case FetchChunk(_) => ChunkKeeps(p, keys, y, a);
    case Publish(_, _) => PublishKeeps(p, keys, y, a);
    case Confirm(_, _, _, _) => ConfirmKeeps(p, keys, y, a);
  }

  lemma {:induction false} HistoryOk(p: Primitives, keys: Keys, actions: seq<Action>)
    requires HonestRun(p, keys, actions)
    ensures SystemOk(p, keys, History(p, keys, actions))
  {
    if actions == [] {
      StartInv(p);
    } else {
      var n := |actions| - 1;
      HistoryOk(p, keys, actions[..n]);
      ActionKeeps(p, keys, History(p, keys, actions[..n]), actions[n]);
    }
  }

  /** No submission is lost: after every run of uploads, completions, closures, crashes and any number of
      collectors, each upload ever completed either is still on the store with the same manifest, receipt and
      chunks, or exactly the bytes it decrypts to are in a recipient's directory. */
  lemma NothingIsLost(p: Primitives, keys: Keys, actions: seq<Action>, k: Key)
    requires HonestRun(p, keys, actions) && k in History(p, keys, actions).ledger
    ensures var y := History(p, keys, actions);
      && Completed(p, k, y.ledger[k])
      && (OnStore(y.world.disk, k, y.ledger[k]) || Delivered(p, keys, y.dirs, k, y.ledger[k]))
  {
    HistoryOk(p, keys, actions);
    var y := History(p, keys, actions);
    assert EntryOk(p, keys, y.world.disk, y.ledger, y.dirs, k);
  }

  /** For a file the page sealed, what is delivered is that file. */
  lemma DeliveredIsTheFile(p: Primitives, k: Key, u: Upload, s: Browser.Sending, maxBytes: int, key: KeyFile,
                           plain: bytes)
    requires Lawful(p) && Browser.Sendable(p, s, maxBytes) && Browser.KeyMatches(p, key, s)
    requires p.parseMetadata(s.metadata).Some? && Recovers(p, key, k, u, plain)
    requires p.parseManifest(u.manifest.value) == Some(Browser.SealedManifest(p, s))
    requires Uploader.StoredChunks(p, u) == Browser.SealedChunks(p, s)
    ensures plain == s.file
  {
    hide Collector.CheckManifest, Collector.Accepted, Browser.SealedChunks, ChunksPresent, MakeReceipt,
        Browser.KeyMatches;
    Collector.AcceptedAgrees(p, key, u.complete.value, u.manifest.value, Uploader.StoredChunks(p, u));
    Browser.RoundTrip(p, s, maxBytes, key, u.complete.value, u.manifest.value);
  }
}

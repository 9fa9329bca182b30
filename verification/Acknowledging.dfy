/** When an acknowledgement removes just what its collector saved, and when something else: upload ids may be used
    again, uploads purged, and acknowledgements sent by anyone. */
module Acknowledging {
  import opened Prelude
  import opened Text
  import opened Model
  import opened StoreSpec
  import opened StoreInvariant
  import opened StoreRuns
  import opened StoreTheorems
  import opened Delivery
  import Assurance
  import Collector
  import Cryptobox
  import EndToEnd
  import Publish
  import Uploader

  // ---------- what a collector that has published holds ----------

  /** A published session has read everything, and the plaintext it verified is a file in its directory. */
  ghost predicate SessionSaved(p: Primitives, keys: Keys, dirs: Dirs, s: Session) {
    && s.raw.Some? && Opening(p, keys, s).Some?
    && var access := Opening(p, keys, s).value;
       && |s.chunks| == access.header.chunkCount
       && InDirectory(dirs, s.out, Collector.Accepted(p, access, s.receipt, s.raw.value, s.chunks))
  }

  ghost predicate InDirectory(dirs: Dirs, out: string, plain: Option<bytes>) {
    plain.Some? && out in dirs && exists name :: name in dirs[out] && dirs[out][name] == plain.value
  }

  ghost predicate AllSaved(p: Primitives, keys: Keys, y: System) {
    forall i :: 0 <= i < |y.sessions| && y.sessions[i].published ==> SessionSaved(p, keys, y.dirs, y.sessions[i])
  }

  lemma StaysInDirectory(dirs: Dirs, out: string, path: string, plain: bytes, o: string, x: Option<bytes>)
    requires InDirectory(dirs, o, x) && path !in DirOf(dirs, out)
    ensures InDirectory(dirs[out := DirOf(dirs, out)[path := plain]], o, x)
  {
    var name :| name in dirs[o] && dirs[o][name] == x.value;
    var after := dirs[out := DirOf(dirs, out)[path := plain]];
    assert name in after[o] && after[o][name] == x.value;
  }

  /** Once published, a session is not read on. */
  lemma SavedIsFrozen(p: Primitives, keys: Keys, d: Disk, dirs: Dirs, s: Session)
    requires SessionSaved(p, keys, dirs, s)
    ensures WithChunk(p, keys, d, s) == s
  {
    hide Opening, Collector.Accepted, OpenChunk;
  }

  lemma ReadyIsFree(p: Primitives, keys: Keys, dirs: Dirs, s: Session, broken: set<string>)
    requires Ready(p, keys, dirs, s, broken).Some?
    ensures var (path, plain) := Ready(p, keys, dirs, s, broken).value;
      && path !in DirOf(dirs, s.out) && s.raw.Some? && Opening(p, keys, s).Some?
      && |s.chunks| == Opening(p, keys, s).value.header.chunkCount
      && Collector.Accepted(p, Opening(p, keys, s).value, s.receipt, s.raw.value, s.chunks) == Some(plain)
  {
    hide Collector.CheckManifest, Collector.Accepted, Publish.Destination;
    Publish.DestinationIsFree(DirOf(dirs, s.out).Keys, broken, Opening(p, keys, s).value.name, 1);
  }

  lemma MarkedIsSaved(p: Primitives, keys: Keys, dirs: Dirs, s: Session)
    requires SessionSaved(p, keys, dirs, s)
    ensures SessionSaved(p, keys, dirs, s.(published := true))
  {
    hide Collector.CheckManifest, Collector.Accepted, InDirectory;
    assert Opening(p, keys, s.(published := true)) == Opening(p, keys, s);
  }

  lemma PublishSaves(p: Primitives, keys: Keys, y: System, a: Action)
    requires AllSaved(p, keys, y) && a.Publish? && a.session < |y.sessions|
    requires Ready(p, keys, y.dirs, y.sessions[a.session], a.broken).Some?
    ensures AllSaved(p, keys, Act(p, keys, y, a))
  {
    hide Ready, Opening, Collector.Accepted, InDirectory;
    var s, z := y.sessions[a.session], Act(p, keys, y, a);
    ReadyIsFree(p, keys, y.dirs, s, a.broken);
    var (path, plain) := Ready(p, keys, y.dirs, s, a.broken).value;
    assert InDirectory(z.dirs, s.out, Some(plain)) by { assert z.dirs[s.out][path]
        == plain; JustPublished(z.dirs, s.out, path); }
    MarkedIsSaved(p, keys, z.dirs, s);
    forall i | 0 <= i < |z.sessions| && z.sessions[i].published
      ensures SessionSaved(p, keys, z.dirs, z.sessions[i])
    {
      if i != a.session { SavedStays(p, keys, y.dirs, s.out, path, plain, y.sessions[i]); }
    }
  }

  lemma JustPublished(dirs: Dirs, out: string, path: string)
    requires out in dirs && path in dirs[out]
    ensures InDirectory(dirs, out, Some(dirs[out][path]))
  {}

  lemma SavedStays(p: Primitives, keys: Keys, dirs: Dirs, out: string, path: string, plain: bytes, s: Session)
    requires SessionSaved(p, keys, dirs, s) && path !in DirOf(dirs, out)
    ensures SessionSaved(p, keys, dirs[out := DirOf(dirs, out)[path := plain]], s)
  {
    hide Opening, Collector.Accepted, InDirectory;
    StaysInDirectory(dirs, out, path, plain, s.out,
                     Collector.Accepted(p, Opening(p, keys, s).value, s.receipt, s.raw.value, s.chunks));
  }

  lemma ActKeepsSaved(p: Primitives, keys: Keys, y: System, a: Action)
    requires AllSaved(p, keys, y)
    ensures AllSaved(p, keys, Act(p, keys, y, a))
  {
    hide Ready, SessionSaved, WithChunk, Next, Record, ReadManifest;
    if a.Publish? && a.session < |y.sessions| && Ready(p, keys, y.dirs, y.sessions[a.session], a.broken).Some? {
      PublishSaves(p, keys, y, a);
    } else if a.FetchChunk? && a.session < |y.sessions| && y.sessions[a.session].published {
      SavedIsFrozen(p, keys, y.world.disk, y.dirs, y.sessions[a.session]);
    } else if a.FetchManifest? && a.session < |y.sessions| && y.sessions[a.session].published {
      assert y.sessions[a.session].raw.Some? by { SavedHasRead(p, keys, y.dirs, y.sessions[a.session]); }
    } else if a.FetchChunk? && a.session < |y.sessions| {
      ReadingPublishesNothing(p, keys, y.world.disk, y.sessions[a.session]);
    }
  }

  lemma SavedHasRead(p: Primitives, keys: Keys, dirs: Dirs, s: Session)
    requires SessionSaved(p, keys, dirs, s)
    ensures s.raw.Some?
  {}

  lemma ReadingPublishesNothing(p: Primitives, keys: Keys, d: Disk, s: Session)
    ensures WithChunk(p, keys, d, s).published == s.published
  {
    hide Opening, OpenChunk;
  }

  // ---------- any history ----------

  /** No clock stands at zero; nothing else is asked of the actions. */
  ghost predicate Clocked(actions: seq<Action>) {
    forall a :: a in actions && a.Serve? ==> ClockOk(a.move.event)
  }

  lemma ActKeepsInv(p: Primitives, keys: Keys, y: System, a: Action)
    requires Inv(p, y.world) && (a.Serve? ==> ClockOk(a.move.event))
    ensures Inv(p, Act(p, keys, y, a).world)
  {
    hide Inv, Next, Ready, WithChunk, Record, ReadManifest;
    match a
    case Serve(m) => MoveKeepsInv(p, y.world, m);
    case Confirm(i, b, now, fate) =>
      if i < |y.sessions| { MoveKeepsInv(p, y.world, Move(Ack(b, y.sessions[i].key.upload, now), fate)); }
    case _ =>
  }

  lemma {:induction false} ClockedOk(p: Primitives, keys: Keys, actions: seq<Action>)
    requires Clocked(actions)
    ensures Inv(p, History(p, keys, actions).world) && AllSaved(p, keys, History(p, keys, actions))
  {
    hide Inv, AllSaved, Act;
    if actions == [] {
      StartInv(p);
      assert AllSaved(p, keys, IDLE) by { IdleSaved(p, keys); }
    } else {
      var n := |actions| - 1;
      ClockedOk(p, keys, actions[..n]);
      assert actions[n] in actions;
      ActKeepsInv(p, keys, History(p, keys, actions[..n]), actions[n]);
      ActKeepsSaved(p, keys, History(p, keys, actions[..n]), actions[n]);
    }
  }

  lemma IdleSaved(p: Primitives, keys: Keys)
    ensures AllSaved(p, keys, IDLE)
  {}

  // ---------- what one acknowledgement removes ----------

  /** The store holds exactly the manifest bytes and chunks that the collector read, verified and saved. */
  ghost predicate HoldsWhatWasRead(p: Primitives, u: Upload, s: Session)
    requires Completed(p, s.key, u)
  {
    u.manifest == s.raw && Uploader.StoredChunks(p, u) == s.chunks
  }

  /** Comparing what is stored with what was read finds a SHA-256 collision. */
  ghost predicate FindsCollision(p: Primitives, u: Upload, s: Session)
    requires Completed(p, s.key, u) && s.raw.Some?
  {
    Cryptobox.ExhibitsCollision(p,
      Cryptobox.FindCollision(p, u.manifest.value, Uploader.StoredChunks(p, u), s.raw.value, s.chunks))
  }

  /** The root of the stored receipt is the one the collector was listed: a test the store could make if an
      acknowledgement named the root. */
  predicate SameRoot(u: Upload, s: Session) {
    u.complete.Some? && EqualFold(u.complete.value.receiptSHA256, s.receipt.receiptSHA256)
  }

  lemma FoldSymmetric(a: string, b: string)
    requires EqualFold(a, b)
    ensures EqualFold(b, a)
  {}

  lemma FoldTransitive(a: string, b: string, c: string)
    requires EqualFold(a, b) && EqualFold(b, c)
    ensures EqualFold(a, c)
  {}

  /** Roots equal up to case are equal. */
  lemma RootsFold(p: Primitives, m1: bytes, c1: seq<bytes>, m2: bytes, c2: seq<bytes>)
    requires EqualFold(Root(p, m1, c1), Root(p, m2, c2))
    ensures Root(p, m1, c1) == Root(p, m2, c2)
  {
    hide EqualFold, HexEncode, HexDecode, Cryptobox.ReceiptInput;
    var x := p.sha256(Cryptobox.ReceiptInput(p, m1, Cryptobox.Digests(p, c1)));
    FoldedHexDecodes(Root(p, m1, c1), p.sha256(Cryptobox.ReceiptInput(p, m2, Cryptobox.Digests(p, c2))));
    HexRoundTrip(x);
  }

  function Root(p: Primitives, raw: bytes, chunks: seq<bytes>): string {
    Cryptobox.ReceiptRoot(p, raw, Cryptobox.Digests(p, chunks))
  }

  /** Two submissions have one root exactly if they are the same or comparing them finds a collision. */
  lemma RootsExactly(p: Primitives, m1: bytes, c1: seq<bytes>, m2: bytes, c2: seq<bytes>)
    requires Lawful(p)
    ensures Root(p, m1, c1) == Root(p, m2, c2)
       <==> ((m1 == m2 && c1 == c2) || Cryptobox.ExhibitsCollision(p, Cryptobox.FindCollision(p, m1, c1, m2, c2)))
  {
    hide Lawful;
    if Root(p, m1, c1) == Root(p, m2, c2) {
      Cryptobox.ReceiptBinding(p, m1, c1, m2, c2);
    } else if Cryptobox.ExhibitsCollision(p, Cryptobox.FindCollision(p, m1, c1, m2, c2)) {
      hide HexEncode, Cryptobox.FirstDifference, Cryptobox.Framed;
      assert false;
    }
  }

  /** What the collector read has the root it was listed. */
  lemma ReadRoot(p: Primitives, keys: Keys, dirs: Dirs, s: Session)
    requires SessionSaved(p, keys, dirs, s)
    ensures EqualFold(Root(p, s.raw.value, s.chunks), s.receipt.receiptSHA256)
  {
    hide Opening, Collector.Plaintext, Cryptobox.ReceiptRoot, EqualFold;
  }

  lemma StoredRoot(p: Primitives, k: Key, u: Upload)
    requires Completed(p, k, u)
    ensures u.complete.value.receiptSHA256 == Root(p, u.manifest.value, Uploader.StoredChunks(p, u))
  {
    hide Cryptobox.ReceiptRoot, ChunksPresent, TotalLength;
  }

  lemma TestIsExact(p: Primitives, keys: Keys, dirs: Dirs, s: Session, u: Upload)
    requires Lawful(p) && SessionSaved(p, keys, dirs, s) && Completed(p, s.key, u)
    ensures SameRoot(u, s) <==> (HoldsWhatWasRead(p, u, s) || FindsCollision(p, u, s))
  {
    var m, c := u.manifest.value, Uploader.StoredChunks(p, u);
    StoredRoot(p, s.key, u);
    ReadRoot(p, keys, dirs, s);
    RootsExactly(p, m, c, s.raw.value, s.chunks);
    assert u.complete.Some? && u.manifest.Some?;
    var a, b, r := Root(p, m, c), Root(p, s.raw.value, s.chunks), s.receipt.receiptSHA256;
    hide Lawful, Completed, SessionSaved, Root, EqualFold, Cryptobox.ExhibitsCollision, Cryptobox.FindCollision,
         Uploader.StoredChunks;
    FoldSymmetric(b, r);
    if EqualFold(a, r) {
      FoldTransitive(a, r, b);
      RootsFold(p, m, c, s.raw.value, s.chunks);
    }
  }

  /** In every history whatever: a collector that has published has saved what it read; and if its upload id is
      complete on the store, then what its acknowledgement would remove is exactly what it read and saved, or a
      collision is found, if and only if the stored root is the listed one. */
  lemma RemovesItsOwnExactly(p: Primitives, keys: Keys, actions: seq<Action>, i: nat)
    requires Lawful(p) && Clocked(actions)
    requires var y := History(p, keys, actions);
      i < |y.sessions| && y.sessions[i].published && IsComplete(y.world.disk, y.sessions[i].key)
    ensures var y := History(p, keys, actions);
      var s := y.sessions[i];
      var u := y.world.disk.uploads[s.key];
      && SessionSaved(p, keys, y.dirs, s) && Completed(p, s.key, u)
      && (SameRoot(u, s) <==> (HoldsWhatWasRead(p, u, s) || FindsCollision(p, u, s)))
  {
    var y := History(p, keys, actions);
    var s := y.sessions[i];
    ClockedOk(p, keys, actions);
    assert UploadOk(p, y.world.first, s.key, y.world.disk.uploads[s.key]);
    hide Completed, SessionSaved, History, SameRoot;
    TestIsExact(p, keys, y.dirs, s, y.world.disk.uploads[s.key]);
  }

  // ---------- histories in which acknowledgements are tested ----------

  /** The action acknowledges what is now completed under the id. */
  ghost predicate Acknowledges(y: System, a: Action, k: Key) {
    && a.Confirm? && a.session < |y.sessions| && y.sessions[a.session].published && y.sessions[a.session].key == k
    && IsComplete(y.world.disk, k)
  }

  /** Nothing removes a completed upload but collectors' acknowledgements, and these only if the stored root is the
      listed one. */
  ghost predicate Tested(p: Primitives, y: System, a: Action, k: Key) {
    && (a.Serve? ==> ClockOk(a.move.event))
    && (a.Serve? && IsComplete(y.world.disk, k) ==> RemoveUpload(k) !in StepsTaken(p, y.world, a.move))
    && (Acknowledges(y, a, k) ==> SameRoot(y.world.disk.uploads[k], y.sessions[a.session]))
  }

  ghost predicate TestedRun(p: Primitives, keys: Keys, actions: seq<Action>, k: Key)
    decreases |actions|
  {
    actions == [] ||
      var n := |actions| - 1;
      TestedRun(p, keys, actions[..n], k) && Tested(p, History(p, keys, actions[..n]), actions[n], k)
  }

  /** The action acknowledges an upload whose comparison with what was read finds a collision. */
  ghost predicate Collided(p: Primitives, y: System, a: Action, k: Key) {
    && Acknowledges(y, a, k)
    && var s, u := y.sessions[a.session], y.world.disk.uploads[k];
       Completed(p, k, u) && s.raw.Some? && FindsCollision(p, u, s)
  }

  ghost predicate CollidedIn(p: Primitives, keys: Keys, actions: seq<Action>, k: Key) {
    exists j :: 0 <= j < |actions| && Collided(p, History(p, keys, actions[..j]), actions[j], k)
  }

  /** Still on the store as it was completed, or its decrypted bytes are in a recipient's directory. */
  ghost predicate Kept(p: Primitives, keys: Keys, y: System, k: Key, u: Upload) {
    OnStore(y.world.disk, k, u) || Delivered(p, keys, y.dirs, k, u)
  }

  /** Only identifiers and sizes of the receipt matter to opening, and only its root to accepting. */
  lemma OtherReceipt(p: Primitives, key: KeyFile, r: Receipt, q: Receipt, raw: bytes, chunks: seq<bytes>)
    requires Collector.CheckManifest(p, key, r, raw).Ok?
    requires var h := Collector.CheckManifest(p, key, r, raw).value.header;
      q.uploadID == h.uploadID && q.chunkCount == h.chunkCount && q.plainSize == h.plainSize
    requires EqualFold(Root(p, raw, chunks), q.receiptSHA256)
    ensures Collector.CheckManifest(p, key, q, raw) == Collector.CheckManifest(p, key, r, raw)
    ensures var access := Collector.CheckManifest(p, key, r, raw).value;
      Collector.Accepted(p, access, r, raw, chunks).Some? ==>
        Collector.Accepted(p, access, q, raw, chunks) == Collector.Accepted(p, access, r, raw, chunks)
  {
    hide Cryptobox.ReceiptRoot, EqualFold, Collector.Plaintext, Cryptobox.NewOpener, Cryptobox.OpenMetadata;
    Collector.CheckedHeader(p, key, r, raw);
  }

  lemma OwnReceipt(p: Primitives, first: map<string, Bundle>, k: Key, u: Upload)
    requires UploadOk(p, first, k, u) && u.complete.Some?
    ensures Completed(p, k, u)
    ensures var h, q := p.parseManifest(u.manifest.value).value.header, u.complete.value;
      q.uploadID == h.uploadID && q.chunkCount == h.chunkCount && q.plainSize == h.plainSize
  {
    hide ValidManifest, Cryptobox.ReceiptRoot, ChunksPresent, TotalLength;
  }

  lemma OpeningIsChecking(p: Primitives, keys: Keys, s: Session)
    requires s.raw.Some? && Opening(p, keys, s).Some?
    ensures var checked := Collector.CheckManifest(p, keys(s.key.request), s.receipt, s.raw.value);
      checked.Ok? && checked.value == Opening(p, keys, s).value
  {
    hide Collector.CheckManifest;
  }

  lemma FileIsDelivered(p: Primitives, keys: Keys, dirs: Dirs, out: string, k: Key, u: Upload, plain: Option<bytes>)
    requires InDirectory(dirs, out, plain) && Recovers(p, keys(k.request), k, u, plain.value)
    ensures Delivered(p, keys, dirs, k, u)
  {
    hide Recovers;
    var name :| name in dirs[out] && dirs[out][name] == plain.value;
    assert Recovers(p, keys(k.request), k, u, dirs[out][name]);
  }

  /** A completed upload that is what the collector read is delivered by what the collector saved. */
  lemma SavedIsDelivered(p: Primitives, keys: Keys, first: map<string, Bundle>, dirs: Dirs, s: Session, v: Upload)
    requires SessionSaved(p, keys, dirs, s) && UploadOk(p, first, s.key, v) && v.complete.Some?
    requires HoldsWhatWasRead(p, v, s)
    ensures Delivered(p, keys, dirs, s.key, v)
  {
    var raw, r, q, key := s.raw.value, s.receipt, v.complete.value, keys(s.key.request);
    OwnReceipt(p, first, s.key, v);
    OpeningHeader(p, keys, s);
    OpeningIsChecking(p, keys, s);
    StoredRoot(p, s.key, v);
    EndToEnd.FoldReflexive(q.receiptSHA256);
    hide UploadOk, Completed, InDirectory, Root, EqualFold, Collector.CheckManifest, Collector.Accepted,
         Uploader.StoredChunks, Delivered, Opening;
    OtherReceipt(p, key, r, q, raw, s.chunks);
    FileIsDelivered(p, keys, dirs, s.out, s.key, v, Collector.Accepted(p, Opening(p, keys, s).value, r, raw, s.chunks));
  }

  lemma KeptChain(u: Upload, v: Upload, x: Upload)
    requires KeepsSubmission(u, v) && KeepsSubmission(v, x)
    ensures KeepsSubmission(u, x)
  {}

  /** What is delivered of the upload as it is on disk is delivered of it as it was completed. */
  lemma DeliveredAlike(p: Primitives, keys: Keys, dirs: Dirs, k: Key, u: Upload, v: Upload)
    requires Completed(p, k, u) && Completed(p, k, v) && KeepsSubmission(u, v) && Delivered(p, keys, dirs, k, v)
    ensures Delivered(p, keys, dirs, k, u)
  {
    Assurance.KeptChunks(p, k, u, v);
    Assurance.SameManifest(u, v);
    var out, name :| out in dirs && name in dirs[out] && Recovers(p, keys(k.request), k, v, dirs[out][name]);
    hide Completed, Collector.CheckManifest, Collector.Accepted, Uploader.StoredChunks;
    assert Recovers(p, keys(k.request), k, u, dirs[out][name]);
  }

  lemma ServeKeepsUpload(p: Primitives, keys: Keys, y: System, a: Action, k: Key, u: Upload)
    requires Inv(p, y.world) && a.Serve? && Tested(p, y, a, k) && Completed(p, k, u) && Kept(p, keys, y, k, u)
    ensures Kept(p, keys, Act(p, keys, y, a), k, u)
  {
    assert u.complete.Some?;
    hide Completed, Delivered, KeepsSubmission, Inv, Record, StepsTaken, Next;
    if OnStore(y.world.disk, k, u) {
      StillComplete(y.world.disk, k, u);
      ReceiptMove(p, y.world, a.move, k);
      KeptChain(u, y.world.disk.uploads[k], Next(p, y.world, a.move).disk.uploads[k]);
    }
  }

  lemma StillComplete(d: Disk, k: Key, u: Upload)
    requires OnStore(d, k, u) && u.complete.Some?
    ensures IsComplete(d, k)
  {}

  lemma PublishKeepsUpload(p: Primitives, keys: Keys, y: System, a: Action, k: Key, u: Upload)
    requires a.Publish? && Kept(p, keys, y, k, u)
    ensures Kept(p, keys, Act(p, keys, y, a), k, u)
  {
    hide Delivered, OnStore, Ready;
    if a.session < |y.sessions| && Ready(p, keys, y.dirs, y.sessions[a.session], a.broken).Some? {
      var s := y.sessions[a.session];
      ReadyIsFree(p, keys, y.dirs, s, a.broken);
      var (path, plain) := Ready(p, keys, y.dirs, s, a.broken).value;
      if Delivered(p, keys, y.dirs, k, u) { DeliveredStays(p, keys, y.dirs, s.out, path, plain, k, u); }
    }
  }

  /** An acknowledgement that passes the test removes only what its collector has saved. */
  lemma TestedRemoval(p: Primitives, keys: Keys, y: System, a: Action, k: Key, u: Upload)
    requires Lawful(p) && Inv(p, y.world) && AllSaved(p, keys, y) && Tested(p, y, a, k) && Acknowledges(y, a, k)
    requires Completed(p, k, u) && OnStore(y.world.disk, k, u)
    ensures Delivered(p, keys, y.dirs, k, u) || Collided(p, y, a, k)
  {
    var s, v := y.sessions[a.session], y.world.disk.uploads[k];
    assert UploadOk(p, y.world.first, k, v);
    assert Completed(p, k, v) && SessionSaved(p, keys, y.dirs, s);
    SavedHasRead(p, keys, y.dirs, s);
    hide Lawful, Inv, AllSaved, Completed, UploadOk, SessionSaved, Delivered, KeepsSubmission, HoldsWhatWasRead,
         FindsCollision, SameRoot;
    TestIsExact(p, keys, y.dirs, s, v);
    if HoldsWhatWasRead(p, v, s) {
      SavedIsDelivered(p, keys, y.world.first, y.dirs, s, v);
      DeliveredAlike(p, keys, y.dirs, k, u, v);
    }
  }

  lemma ConfirmKeepsUpload(p: Primitives, keys: Keys, y: System, a: Action, k: Key, u: Upload)
    requires Lawful(p) && Inv(p, y.world) && AllSaved(p, keys, y) && a.Confirm? && Tested(p, y, a, k)
    requires Completed(p, k, u) && Kept(p, keys, y, k, u)
    ensures Kept(p, keys, Act(p, keys, y, a), k, u) || Collided(p, y, a, k)
  {
    assert u.complete.Some?;
    hide Lawful, Inv, AllSaved, Completed, Delivered, Collided, KeepsSubmission, SameRoot, Act, Tested;
    ConfirmEffect(p, keys, y, a, k);
    if OnStore(y.world.disk, k, u) {
      StillComplete(y.world.disk, k, u);
      if Acknowledges(y, a, k) {
        TestedRemoval(p, keys, y, a, k, u);
      } else {
        KeptChain(u, y.world.disk.uploads[k], Act(p, keys, y, a).world.disk.uploads[k]);
      }
    }
  }

  /** An acknowledgement leaves alone what is stored under another id. */
  lemma ConfirmEffect(p: Primitives, keys: Keys, y: System, a: Action, k: Key)
    requires a.Confirm?
    ensures Act(p, keys, y, a).dirs == y.dirs
    ensures IsComplete(y.world.disk, k) && !Acknowledges(y, a, k) ==>
              OnStore(Act(p, keys, y, a).world.disk, k, y.world.disk.uploads[k])
  {
    hide Next;
    if a.session < |y.sessions| { AckMove(p, y.world, a.bundle, y.sessions[a.session].key.upload, a.now, a.fate); }
  }

  lemma ActKeepsUpload(p: Primitives, keys: Keys, y: System, a: Action, k: Key, u: Upload)
    requires Lawful(p) && Inv(p, y.world) && AllSaved(p, keys, y) && Tested(p, y, a, k)
    requires Completed(p, k, u) && Kept(p, keys, y, k, u)
    ensures Kept(p, keys, Act(p, keys, y, a), k, u) || Collided(p, y, a, k)
  {
    hide Lawful, Inv, AllSaved, Tested, Completed, Kept, Act, Collided;
    match a
    case Serve(_) => ServeKeepsUpload(p, keys, y, a, k, u);
    case Publish(_, _) => PublishKeepsUpload(p, keys, y, a, k, u);
    case Confirm(_, _, _, _) => ConfirmKeepsUpload(p, keys, y, a, k, u);
    case _ => ReadingKeepsUpload(p, keys, y, a, k, u);
  }

  lemma ReadingKeepsUpload(p: Primitives, keys: Keys, y: System, a: Action, k: Key, u: Upload)
    requires (a.Listed? || a.FetchManifest? || a.FetchChunk?) && Kept(p, keys, y, k, u)
    ensures Kept(p, keys, Act(p, keys, y, a), k, u)
  {
    hide Delivered, OnStore, WithChunk, ReadManifest;
  }

  lemma {:induction false} TestedIsClocked(p: Primitives, keys: Keys, actions: seq<Action>, k: Key)
    requires TestedRun(p, keys, actions, k)
    ensures Clocked(actions)
  {
    hide History, SameRoot, StepsTaken;
    if actions != [] {
      var n := |actions| - 1;
      TestedIsClocked(p, keys, actions[..n], k);
      forall a | a in actions && a.Serve? ensures ClockOk(a.move.event) {
        if a in actions[..n] {} else { assert a == actions[n]; }
      }
    }
  }

  lemma CollisionStays(p: Primitives, keys: Keys, actions: seq<Action>, n: nat, k: Key)
    requires n <= |actions| && CollidedIn(p, keys, actions[..n], k)
    ensures CollidedIn(p, keys, actions, k)
  {
    hide History, Collided;
    var j :| 0 <= j < n && Collided(p, History(p, keys, actions[..n][..j]), actions[..n][j], k);
    assert actions[..n][..j] == actions[..j];
  }

  /** With that test nothing is lost even where ids are used again: whatever was completed under the id at some point
      of the history is to the end on the store as it was completed, or its decrypted bytes are in a recipient's
      directory; or else some acknowledgement, compared with what its collector had read, finds a collision. */
  lemma {:induction false} TestedLosesNothing(p: Primitives, keys: Keys, actions: seq<Action>, i: nat, k: Key)
    requires Lawful(p) && TestedRun(p, keys, actions, k)
    requires i <= |actions| && IsComplete(History(p, keys, actions[..i]).world.disk, k)
    ensures var u := History(p, keys, actions[..i]).world.disk.uploads[k];
      && Completed(p, k, u)
      && (Kept(p, keys, History(p, keys, actions), k, u) || CollidedIn(p, keys, actions, k))
    decreases |actions|
  {
    hide Lawful, Inv, Completed, Delivered, OnStore, Kept, AllSaved, Tested, Act, Collided, History,
         CollidedIn;
    var u := History(p, keys, actions[..i]).world.disk.uploads[k];
    if i == |actions| {
      assert actions[..i] == actions;
      TestedIsClocked(p, keys, actions, k);
      CompleteIsKept(p, keys, actions, k);
    } else {
      var n := |actions| - 1;
      assert actions[..n][..i] == actions[..i];
      TestedLosesNothing(p, keys, actions[..n], i, k);
      if CollidedIn(p, keys, actions[..n], k) {
        CollisionStays(p, keys, actions, n, k);
      } else {
        LastKeepsUpload(p, keys, actions, k, u);
      }
    }
  }

  lemma CompleteIsKept(p: Primitives, keys: Keys, actions: seq<Action>, k: Key)
    requires Clocked(actions) && IsComplete(History(p, keys, actions).world.disk, k)
    ensures var y := History(p, keys, actions);
      Completed(p, k, y.world.disk.uploads[k]) && Kept(p, keys, y, k, y.world.disk.uploads[k])
  {
    ClockedOk(p, keys, actions);
    var y := History(p, keys, actions);
    assert UploadOk(p, y.world.first, k, y.world.disk.uploads[k]);
    hide UploadOk, Completed, History, Delivered;
  }

  lemma LastKeepsUpload(p: Primitives, keys: Keys, actions: seq<Action>, k: Key, u: Upload)
    requires Lawful(p) && actions != [] && TestedRun(p, keys, actions, k) && Completed(p, k, u)
    requires Kept(p, keys, History(p, keys, actions[..|actions| - 1]), k, u)
    ensures Kept(p, keys, History(p, keys, actions), k, u) || CollidedIn(p, keys, actions, k)
  {
    hide Lawful, Inv, Completed, Kept, AllSaved, Tested, Act, Collided;
    var n := |actions| - 1;
    TestedIsClocked(p, keys, actions[..n], k);
    ClockedOk(p, keys, actions[..n]);
    ActKeepsUpload(p, keys, History(p, keys, actions[..n]), actions[n], k, u);
  }

  // ---------- honest acknowledgements pass ----------

  lemma HonestRemovesNothing(p: Primitives, keys: Keys, y: System, m: Move, k: Key)
    requires SystemOk(p, keys, y) && Honest(p, y, Serve(m)) && IsComplete(y.world.disk, k)
    ensures RemoveUpload(k) !in StepsTaken(p, y.world, m)
  {
    assert EntryOk(p, keys, y.world.disk, y.ledger, y.dirs, k);
    hide SystemOk, EntryOk, StepsTaken;
    if m.event.Finish? && m.event.key == k {
      if StepsTaken(p, y.world, m) != [] { FinishTakesOneStep(p, y.world, m); }
    } else {
      HonestMoveIsQuiet(p, y.world, m, k);
    }
  }

  lemma HonestAckPasses(p: Primitives, keys: Keys, y: System, a: Action, k: Key)
    requires SystemOk(p, keys, y) && Acknowledges(y, a, k)
    ensures SameRoot(y.world.disk.uploads[k], y.sessions[a.session])
  {
    var s := y.sessions[a.session];
    assert SessionOk(p, keys, y, s) && EntryOk(p, keys, y.world.disk, y.ledger, y.dirs, k);
    hide SystemOk, Delivered, Completed, EqualFold;
    EndToEnd.FoldReflexive(s.receipt.receiptSHA256);
  }

  /** Where ids are fresh every acknowledgement passes the test. */
  lemma {:induction false} HonestIsTested(p: Primitives, keys: Keys, actions: seq<Action>, k: Key)
    requires HonestRun(p, keys, actions)
    ensures TestedRun(p, keys, actions, k)
  {
    hide SystemOk, History, StepsTaken, Acknowledges, SameRoot, IsComplete;
    if actions != [] {
      var n := |actions| - 1;
      var y, a := History(p, keys, actions[..n]), actions[n];
      HonestIsTested(p, keys, actions[..n], k);
      HistoryOk(p, keys, actions[..n]);
      if Acknowledges(y, a, k) { HonestAckPasses(p, keys, y, a, k); }
      if a.Serve? && IsComplete(y.world.disk, k) { HonestRemovesNothing(p, keys, y, a.move, k); }
    }
  }
}

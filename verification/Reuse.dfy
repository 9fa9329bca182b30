/** Why upload ids must be fresh: a history from the idle system in which a second file sent under the id of a
    collected one is lost. */
module Reuse {
  import opened Prelude
  import opened Text
  import opened Model
  import opened StoreSpec
  import opened StoreInvariant
  import opened StoreRuns
  import opened StoreLimits
  import opened StoreScenarios
  import opened Browser
  import opened Delivery
  import Base64
  import Collector
  import Cryptobox
  import EndToEnd
  import Filename
  import Publish
  import Uploader

  // ---------- histories ----------

  /** Every action but the j-th is honest. */
  ghost predicate HonestExcept(p: Primitives, keys: Keys, actions: seq<Action>, j: int) {
    forall i :: 0 <= i < |actions| && i != j ==> Honest(p, History(p, keys, actions[..i]), actions[i])
  }

  /** The actions lead from the idle system to this one. */
  ghost predicate Leads(p: Primitives, keys: Keys, actions: seq<Action>, j: int, y: System) {
    History(p, keys, actions) == y && HonestExcept(p, keys, actions, j)
  }

  lemma LeadsOn(p: Primitives, keys: Keys, actions: seq<Action>, j: int, y: System, a: Action)
    requires Leads(p, keys, actions, j, y) && (|actions| == j || Honest(p, y, a))
    ensures Leads(p, keys, actions + [a], j, Act(p, keys, y, a))
  {
    hide Honest, Act;
    var more := actions + [a];
    assert more[..|actions|] == actions;
    forall i | 0 <= i < |more| && i != j ensures Honest(p, History(p, keys, more[..i]), more[i]) {
      if i < |actions| { assert more[..i] == actions[..i]; }
    }
  }

  /** Moves that make no upload, do not purge and do not acknowledge are honest. */
  lemma HonestMove(p: Primitives, y: System, m: Move)
    requires ClockOk(m.event) && !m.event.Purge? && !m.event.Ack? && !m.event.Begin?
    ensures Honest(p, y, Serve(m))
  {
    hide StepsTaken;
    forall k ensures MakeUpload(k) !in StepsTaken(p, y.world, m) { NoMakingElsewhere(p, y.world, m, k); }
  }

  // ---------- one upload ----------

  function Submission(b: Bundle, k: Key, x: Draft, now: Time): seq<Action> {
    [Serve(Move(Begin(b, x.raw, now), Done))] + [Serve(Move(Prepare(k, 0, |x.chunk|), Done))]
    + [Serve(Move(Commit(First(k, x), x.chunk), Done))] + [Serve(Move(Finish(k, now), Done))]
  }

  /** A move of the store that neither completes, purges nor acknowledges anything. */
  lemma ServeLeads(p: Primitives, keys: Keys, actions: seq<Action>, j: int, y: System, m: Move, w: World)
    requires Leads(p, keys, actions, j, y) && Next(p, y.world, m) == w
    requires ClockOk(m.event) && !m.event.Purge? && !m.event.Ack? && !m.event.Finish?
    requires m.event.Begin? ==> |actions| == j || y.ledger == map[]
    ensures Leads(p, keys, actions + [Serve(m)], j, y.(world := w))
  {
    hide Next, Leads, StepsTaken;
    if !m.event.Begin? { HonestMove(p, y, m); }
    LeadsOn(p, keys, actions, j, y, Serve(m));
  }

  lemma FinishLeads(p: Primitives, keys: Keys, actions: seq<Action>, j: int, y: System, m: Move, w: World)
    requires Leads(p, keys, actions, j, y) && Next(p, y.world, m) == w && m.event.Finish?
    requires StepsTaken(p, y.world, m) != [] && m.event.key in w.disk.uploads
    ensures Leads(p, keys, actions + [Serve(m)], j,
                  y.(world := w, ledger := y.ledger[m.event.key := w.disk.uploads[m.event.key]]))
  {
    hide Next, Leads, StepsTaken;
    HonestMove(p, y, m);
    LeadsOn(p, keys, actions, j, y, Serve(m));
  }

  lemma SetUp(p: Primitives, keys: Keys, actions: seq<Action>, j: int, b: Bundle, tickets: set<Ticket>, k: Key,
              x: Draft, token: string, now: Time, y: System)
    requires Usable(p, b, token, now) && Drafted(p, b, k, x) && Leads(p, keys, actions, j, y)
    requires y.world == Opened(b, map[], tickets) && (|actions| == j || y.ledger == map[])
    ensures Leads(p, keys, actions + [Serve(Move(Begin(b, x.raw, now), Done))]
                           + [Serve(Move(Prepare(k, 0, |x.chunk|), Done))],
                  j, y.(world := Opened(b, Just(k, Begun(x, now, 4)), tickets + {First(k, x)})))
  {
    UsableTime(p, b, token, now);
    hide Usable, Drafted, Next, Leads;
    var begin, u := Move(Begin(b, x.raw, now), Done), Begun(x, now, 4);
    BeginMove(p, b, tickets, k, x, token, now);
    ServeLeads(p, keys, actions, j, y, begin, Opened(b, Just(k, u), tickets));
    PrepareMove(p, b, tickets, k, x, u);
    ServeLeads(p, keys, actions + [Serve(begin)], j, y.(world := Opened(b, Just(k, u), tickets)),
               Move(Prepare(k, 0, |x.chunk|), Done), Opened(b, Just(k, u), tickets + {First(k, x)}));
  }

  lemma Certify(p: Primitives, keys: Keys, actions: seq<Action>, j: int, b: Bundle, tickets: set<Ticket>, k: Key,
                x: Draft, now: Time, y: System)
    requires Drafted(p, b, k, x) && Leads(p, keys, actions, j, y)
    requires y.world == Opened(b, Just(k, Filled(Begun(x, now, 4), x)), tickets)
    ensures var u := Complete1(p, k, x, now);
      Leads(p, keys, actions + [Serve(Move(Finish(k, now), Done))], j,
            y.(world := Opened(b, Just(k, u), tickets), ledger := y.ledger[k := u]))
  {
    BegunFacts(x, now);
    hide Drafted, Next, Leads, Certificate, ChunkLength, Begun;
    FinishMove(p, b, tickets, k, x, Filled(Begun(x, now, 4), x), now);
    FinishLeads(p, keys, actions, j, y, Move(Finish(k, now), Done),
                Opened(b, Just(k, Complete1(p, k, x, now)), tickets));
  }

  lemma FillUp(p: Primitives, keys: Keys, actions: seq<Action>, j: int, b: Bundle, tickets: set<Ticket>, k: Key,
               x: Draft, now: Time, y: System)
    requires Drafted(p, b, k, x) && Leads(p, keys, actions, j, y) && First(k, x) in tickets
    requires y.world == Opened(b, Just(k, Begun(x, now, 4)), tickets)
    ensures var u := Complete1(p, k, x, now);
      Leads(p, keys, actions + [Serve(Move(Commit(First(k, x), x.chunk), Done))] + [Serve(Move(Finish(k, now), Done))],
            j, y.(world := Opened(b, Just(k, u), tickets), ledger := y.ledger[k := u]))
  {
    DraftFacts(p, b, k, x);
    BegunFacts(x, now);
    hide Drafted, Next, Leads, Complete1, ChunkLength, Begun;
    var commit, u, filled := Move(Commit(First(k, x), x.chunk), Done), Begun(x, now, 4), Filled(Begun(x, now, 4), x);
    CommitMove(p, b, tickets, k, First(k, x), u, x.chunk);
    assert u.(chunks := u.chunks[0 := x.chunk]) == filled;
    ServeLeads(p, keys, actions, j, y, commit, Opened(b, Just(k, filled), tickets));
    Certify(p, keys, actions + [Serve(commit)], j, b, tickets, k, x, now,
            y.(world := Opened(b, Just(k, filled), tickets)));
  }

  /** Setup, chunk and completion on a store without uploads. */
  lemma Submitting(p: Primitives, keys: Keys, actions: seq<Action>, j: int, b: Bundle, tickets: set<Ticket>, k: Key,
                   x: Draft, token: string, now: Time, y: System)
    requires Usable(p, b, token, now) && Drafted(p, b, k, x) && Leads(p, keys, actions, j, y)
    requires y.world == Opened(b, map[], tickets) && (|actions| == j || y.ledger == map[])
    ensures var u := Complete1(p, k, x, now);
      Leads(p, keys, actions + Submission(b, k, x, now), j,
            y.(world := Opened(b, Just(k, u), tickets + {First(k, x)}), ledger := y.ledger[k := u]))
  {
    hide Usable, Drafted, Leads, Complete1, Begun;
    var begin, prepare := Serve(Move(Begin(b, x.raw, now), Done)), Serve(Move(Prepare(k, 0, |x.chunk|), Done));
    SetUp(p, keys, actions, j, b, tickets, k, x, token, now, y);
    FillUp(p, keys, actions + [begin] + [prepare], j, b, tickets + {First(k, x)}, k, x, now,
           y.(world := Opened(b, Just(k, Begun(x, now, 4)), tickets + {First(k, x)})));
    assert actions + Submission(b, k, x, now)
        == actions + [begin] + [prepare] + [Serve(Move(Commit(First(k, x), x.chunk), Done))]
           + [Serve(Move(Finish(k, now), Done))];
  }

  // ---------- one collection ----------

  function Collection(k: Key, out: string, i: nat): seq<Action> {
    [Listed(k, out)] + [FetchManifest(i)] + [FetchChunk(i)] + [Action.Publish(i, {})]
  }

  /** A collector after some of its steps. */
  function Reader(k: Key, r: Receipt, out: string, raw: Option<bytes>, chunks: seq<bytes>, published: bool): Session {
    Session(k, r, out, raw, chunks, published)
  }

  /** The draft is the page's, and the file is the recipient's to open. */
  ghost predicate Readable(p: Primitives, keys: Keys, b: Bundle, s: Sending, x: Draft) {
    && EndToEnd.Prepared(p, b, s, x.raw) && KeyMatches(p, keys(s.requestID), s) && p.parseMetadata(s.metadata).Some?
    && ChunkCount(s) == 1 && x == DraftOf(p, s, x.raw)
  }

  lemma CertificateFacts(p: Primitives, s: Sending, x: Draft, k: Key, now: Time)
    requires 0 < s.chunkSize && ChunkCount(s) == 1 && x.m == SealedManifest(p, s) && k == EndToEnd.KeyOf(s)
    ensures var r := Certificate(p, k, x, now);
      && r.uploadID == s.choices.uploadID && r.chunkCount == ChunkCount(s) && r.plainSize == |s.file|
      && r.receiptSHA256 == Cryptobox.ReceiptRoot(p, x.raw, Cryptobox.Digests(p, [x.chunk]))
  {
    hide Cryptobox.ReceiptRoot, Cryptobox.HeaderSHA256, SealedMetadata, Base64.Encode, TotalLength;
  }

  lemma Verifies(p: Primitives, keys: Keys, b: Bundle, s: Sending, x: Draft, k: Key, out: string, now: Time,
                 chunks: seq<bytes>)
    returns (access: Collector.Opened)
    requires Readable(p, keys, b, s, x) && k == EndToEnd.KeyOf(s)
    ensures Opening(p, keys, Reader(k, Certificate(p, k, x, now), out, Some(x.raw), chunks, false)) == Some(access)
    ensures access.header.chunkCount == 1
    ensures Collector.Accepted(p, access, Certificate(p, k, x, now), x.raw, [x.chunk]) == Some(s.file)
  {
    assert [x.chunk] == SealedChunks(p, s);
    CertificateFacts(p, s, x, k, now);
    access := EndToEnd.AccessOf(p, s);
    hide Sendable, OpenerFor, SealedManifest, SealedChunks, Certificate, Collector.CheckManifest, Collector.Accepted,
         Cryptobox.ReceiptRoot, Filename.SafeFilename, EqualFold, Lawful, KeyMatches;
    EndToEnd.FoldReflexive(Certificate(p, k, x, now).receiptSHA256);
    RoundTrip(p, s, b.maxBytes, keys(s.requestID), Certificate(p, k, x, now), x.raw);
  }

  lemma ListedAct(p: Primitives, keys: Keys, y: System, k: Key, u: Upload, out: string)
    requires k in y.world.disk.uploads && y.world.disk.uploads[k] == u && u.complete.Some? && u.acknowledged.None?
    requires !u.complete.value.acknowledged
    ensures Act(p, keys, y, Listed(k, out))
         == y.(sessions := y.sessions + [Reader(k, u.complete.value, out, None, [], false)])
  {}

  lemma ManifestAct(p: Primitives, keys: Keys, y: System, before: seq<Session>, k: Key, r: Receipt, out: string,
                    m: Manifest, raw: bytes)
    requires y.sessions == before + [Reader(k, r, out, None, [], false)]
        && ReadManifest(p, y.world.disk, k) == Ok((m, raw))
    ensures Act(p, keys, y, FetchManifest(|before|))
         == y.(sessions := before + [Reader(k, r, out, Some(raw), [], false)])
  {
    hide ReadManifest;
  }

  lemma ChunkAct(p: Primitives, keys: Keys, y: System, before: seq<Session>, k: Key, r: Receipt, out: string,
                 raw: bytes,
                 access: Collector.Opened, c: bytes)
    requires y.sessions == before + [Reader(k, r, out, Some(raw), [], false)]
    requires Opening(p, keys, Reader(k, r, out, Some(raw), [], false)) == Some(access) && access.header.chunkCount == 1
    requires StoreSpec.OpenChunk(p, y.world.disk, k, 0) == Ok(c)
    ensures Act(p, keys, y, FetchChunk(|before|)) == y.(sessions := before + [Reader(k, r, out, Some(raw), [c], false)])
  {
    hide Opening, StoreSpec.OpenChunk;
    assert [] + [c] == [c];
  }

  lemma PublishAct(p: Primitives, keys: Keys, y: System, before: seq<Session>, s: Session, access: Collector.Opened,
                   plain: bytes)
    returns (path: string)
    requires y.sessions == before + [s] && s.raw.Some? && Opening(p, keys, s) == Some(access)
    requires |s.chunks| == access.header.chunkCount
    requires Collector.Accepted(p, access, s.receipt, s.raw.value, s.chunks) == Some(plain)
    requires |DirOf(y.dirs, s.out)| < Publish.MAX_NAME_COLLISIONS
    ensures Act(p, keys, y, Action.Publish(|before|, {}))
         == y.(dirs := y.dirs[s.out := DirOf(y.dirs, s.out)[path := plain]],
             sessions := before + [s.(published := true)])
  {
    hide Opening, Collector.Accepted, Publish.Destination;
    Publish.RoomEnough(DirOf(y.dirs, s.out).Keys, access.name);
    path := Publish.Destination(DirOf(y.dirs, s.out).Keys, {}, access.name, 1).value;
  }

  lemma StoredReads(p: Primitives, b: Bundle, k: Key, x: Draft, u: Upload, tickets: set<Ticket>)
    requires Drafted(p, b, k, x) && u.manifest == Some(x.raw) && u.chunks == map[0 := x.chunk] && u.complete.Some?
    ensures var d := Opened(b, Just(k, u), tickets).disk;
      ReadManifest(p, d, k) == Ok((x.m, x.raw)) && StoreSpec.OpenChunk(p, d, k, 0) == Ok(x.chunk)
  {
    DraftFacts(p, b, k, x);
    hide Drafted, ChunkLength;
  }

  /** What collectors do is always honest. */
  lemma CollectorLeads(p: Primitives, keys: Keys, actions: seq<Action>, j: int, y: System, a: Action, z: System)
    requires Leads(p, keys, actions, j, y) && !a.Serve? && Act(p, keys, y, a) == z
    ensures Leads(p, keys, actions + [a], j, z)
  {
    hide Leads, Act;
    LeadsOn(p, keys, actions, j, y, a);
  }

  /** A collector lists and reads the upload. */
  lemma Reading(p: Primitives, keys: Keys, actions: seq<Action>, j: int, y: System, k: Key, u: Upload, r: Receipt,
                out: string,
                m: Manifest, raw: bytes, c: bytes, access: Collector.Opened)
    requires Leads(p, keys, actions, j, y) && k in y.world.disk.uploads && y.world.disk.uploads[k] == u
    requires u.complete == Some(r) && u.acknowledged.None? && !r.acknowledged
    requires ReadManifest(p, y.world.disk, k) == Ok((m, raw)) && StoreSpec.OpenChunk(p, y.world.disk, k, 0) == Ok(c)
    requires Opening(p, keys, Reader(k, r, out, Some(raw), [], false)) == Some(access) && access.header.chunkCount == 1
    ensures var i := |y.sessions|;
      Leads(p, keys, actions + [Listed(k, out)] + [FetchManifest(i)] + [FetchChunk(i)], j,
            y.(sessions := y.sessions + [Reader(k, r, out, Some(raw), [c], false)]))
  {
    hide Leads, Act, Opening, ReadManifest, StoreSpec.OpenChunk, Reader;
    var before, i := y.sessions, |y.sessions|;
    var y1 := y.(sessions := before + [Reader(k, r, out, None, [], false)]);
    var y2 := y.(sessions := before + [Reader(k, r, out, Some(raw), [], false)]);
    var y3 := y.(sessions := before + [Reader(k, r, out, Some(raw), [c], false)]);
    ListedAct(p, keys, y, k, u, out);
    CollectorLeads(p, keys, actions, j, y, Listed(k, out), y1);
    ManifestAct(p, keys, y1, before, k, r, out, m, raw);
    CollectorLeads(p, keys, actions + [Listed(k, out)], j, y1, FetchManifest(i), y2);
    ChunkAct(p, keys, y2, before, k, r, out, raw, access, c);
    CollectorLeads(p, keys, actions + [Listed(k, out)] + [FetchManifest(i)], j, y2, FetchChunk(i), y3);
  }

  /** A collector lists, reads, verifies and publishes the upload. */
  lemma Collecting(p: Primitives, keys: Keys, actions: seq<Action>, j: int, b: Bundle, tickets: set<Ticket>, k: Key,
                   x: Draft, s: Sending, now: Time, out: string, y: System) returns (path: string)
    requires Drafted(p, b, k, x) && Readable(p, keys, b, s, x) && k == EndToEnd.KeyOf(s)
        && Leads(p, keys, actions, j, y)
    requires y.world == Opened(b, Just(k, Complete1(p, k, x, now)), tickets)
    requires |DirOf(y.dirs, out)| < Publish.MAX_NAME_COLLISIONS
    ensures Leads(p, keys, actions + Collection(k, out, |y.sessions|), j,
              y.(sessions := y.sessions + [Reader(k, Certificate(p, k, x, now), out, Some(x.raw), [x.chunk], true)],
                 dirs := y.dirs[out := DirOf(y.dirs, out)[path := s.file]]))
  {
    hide Drafted, Readable, Leads, Act, Complete1, Certificate, Opening, Collector.Accepted, ReadManifest,
        StoreSpec.OpenChunk;
    var u, r, before, i := Complete1(p, k, x, now), Certificate(p, k, x, now), y.sessions, |y.sessions|;
    StoredFields(p, k, x, now);
    StoredReads(p, b, k, x, u, tickets);
    var access := Verifies(p, keys, b, s, x, k, out, now, []);
    Reading(p, keys, actions, j, y, k, u, r, out, x.m, x.raw, x.chunk, access);
    access := Verifies(p, keys, b, s, x, k, out, now, [x.chunk]);
    var session := Reader(k, r, out, Some(x.raw), [x.chunk], false);
    var y3, a := y.(sessions := before + [session]), Action.Publish(i, {});
    path := PublishAct(p, keys, y3, before, session, access, s.file);
    var read := actions + [Listed(k, out)] + [FetchManifest(i)] + [FetchChunk(i)];
    CollectorLeads(p, keys, read, j, y3, a, Act(p, keys, y3, a));
    assert actions + Collection(k, out, i) == read + [a];
  }

  // ---------- acknowledgement ----------

  lemma Confirming(p: Primitives, keys: Keys, actions: seq<Action>, j: int, b: Bundle, tickets: set<Ticket>, k: Key,
                   u: Upload, now: Time, y: System, i: nat)
    requires Leads(p, keys, actions, j, y) && y.world == Opened(b, Just(k, u), tickets)
    requires ValidBundle(p, b) && b.deleteAfterCollect && ValidID(k.upload) && k.request == b.id
    requires u.complete.Some? && u.acknowledged.None?
    requires i < |y.sessions| && y.sessions[i].published && y.sessions[i].key == k
    ensures Leads(p, keys, actions + [Confirm(i, b, now, Done)], j, y.(world := Opened(b, map[], tickets)))
  {
    hide ValidBundle, Leads, Next;
    AckEmpties(p, b, tickets, k, u, now);
    LeadsOn(p, keys, actions, j, y, Confirm(i, b, now, Done));
  }

  // ---------- the history ----------

  /** Nothing but this file is in any directory. */
  ghost predicate OnlyFile(dirs: Dirs, file: bytes) {
    forall out, name :: out in dirs && name in dirs[out] ==> dirs[out][name] == file
  }

  lemma OpenedFromIdle(p: Primitives, keys: Keys, b: Bundle, token: string, now: Time, j: int)
    returns (actions: seq<Action>)
    requires Usable(p, b, token, now)
    ensures |actions| == 2 && Leads(p, keys, actions, j, IDLE.(world := Opened(b, map[], {})))
  {
    UsableIsValid(p, b, token, now);
    hide Usable, ValidBundle, Next;
    var i, a := Move(Import(b), Done), Move(Authorize(b.id, token, Submit), Done);
    var w := Opened(b, map[], {}).(seen := {});
    assert Leads(p, keys, [], j, IDLE);
    ImportMove(p, b);
    ServeLeads(p, keys, [], j, IDLE, i, w);
    AuthorizeMove(p, b, token, now);
    ServeLeads(p, keys, [] + [Serve(i)], j, IDLE.(world := w), a, Opened(b, map[], {}));
    actions := [] + [Serve(i)] + [Serve(a)];
  }

  lemma StillOnlyFile(dirs: Dirs, out: string, path: string, file: bytes)
    requires OnlyFile(dirs, file)
    ensures OnlyFile(dirs[out := DirOf(dirs, out)[path := file]], file)
    ensures |DirOf(dirs[out := DirOf(dirs, out)[path := file]], out)| <= |DirOf(dirs, out)| + 1
  {}

  /** Two collectors save the upload. */
  lemma PublishedTwice(p: Primitives, keys: Keys, actions: seq<Action>, j: int, b: Bundle, tickets: set<Ticket>, k: Key,
                       x: Draft, s: Sending, now: Time, out: string, y: System) returns (more: seq<Action>, z: System)
    requires Drafted(p, b, k, x) && Readable(p, keys, b, s, x) && k == EndToEnd.KeyOf(s)
        && Leads(p, keys, actions, j, y)
    requires y.world == Opened(b, Just(k, Complete1(p, k, x, now)), tickets) && y.sessions == [] && y.dirs == map[]
    ensures |more| == |actions| + 8 && Leads(p, keys, more, j, z)
    ensures z.world == y.world && z.ledger == y.ledger && OnlyFile(z.dirs, s.file) && |z.sessions| == 2
    ensures forall i :: 0 <= i < 2 ==> z.sessions[i].published && z.sessions[i].key == k
  {
    hide Drafted, Readable, Leads, Complete1, Certificate, OnlyFile;
    var session := Reader(k, Certificate(p, k, x, now), out, Some(x.raw), [x.chunk], true);
    var path := Collecting(p, keys, actions, j, b, tickets, k, x, s, now, out, y);
    NoFileYet(s.file);
    StillOnlyFile(map[], out, path, s.file);
    var d1 := y.dirs[out := DirOf(y.dirs, out)[path := s.file]];
    var y1 := y.(sessions := y.sessions + [session], dirs := d1);
    var path2 := Collecting(p, keys, actions + Collection(k, out, 0), j, b, tickets, k, x, s, now, out, y1);
    StillOnlyFile(d1, out, path2, s.file);
    z := y1.(sessions := y1.sessions + [session], dirs := d1[out := DirOf(d1, out)[path2 := s.file]]);
    more := actions + Collection(k, out, 0) + Collection(k, out, 1);
  }

  lemma NoFileYet(file: bytes)
    ensures OnlyFile(map[], file)
  {}

  /** And the first one's acknowledgement removes it. */
  lemma CollectedTwice(p: Primitives, keys: Keys, actions: seq<Action>, j: int, b: Bundle, tickets: set<Ticket>, k: Key,
                       x: Draft, s: Sending, now: Time, out: string, y: System) returns (more: seq<Action>, z: System)
    requires Drafted(p, b, k, x) && Readable(p, keys, b, s, x) && k == EndToEnd.KeyOf(s)
        && Leads(p, keys, actions, j, y)
    requires y.world == Opened(b, Just(k, Complete1(p, k, x, now)), tickets) && y.sessions == [] && y.dirs == map[]
    requires ValidBundle(p, b) && b.deleteAfterCollect
    ensures |more| == |actions| + 9 && Leads(p, keys, more, j, z)
    ensures z.world == Opened(b, map[], tickets) && z.ledger == y.ledger && OnlyFile(z.dirs, s.file)
    ensures |z.sessions| == 2 && z.sessions[1].published && z.sessions[1].key == k
  {
    DraftFacts(p, b, k, x);
    StoredFields(p, k, x, now);
    hide Drafted, Readable, Leads, Complete1, Certificate, ValidBundle, ChunkLength, OnlyFile;
    more, z := PublishedTwice(p, keys, actions, j, b, tickets, k, x, s, now, out, y);
    Confirming(p, keys, more, j, b, tickets, k, Complete1(p, k, x, now), now, z, 0);
    more, z := more + [Confirm(0, b, now, Done)], z.(world := Opened(b, map[], tickets));
  }

  /** What is lost: on record, but neither stored nor delivered. */
  ghost predicate Lost(p: Primitives, keys: Keys, y: System, k: Key) {
    k in y.ledger && !OnStore(y.world.disk, k, y.ledger[k]) && !Delivered(p, keys, y.dirs, k, y.ledger[k])
  }

  lemma NotDelivered(p: Primitives, keys: Keys, b: Bundle, k: Key, x: Draft, s: Sending, now: Time, dirs: Dirs,
                     other: bytes)
    requires Drafted(p, b, k, x) && Readable(p, keys, b, s, x) && k == EndToEnd.KeyOf(s)
    requires OnlyFile(dirs, other) && other != s.file
    ensures !Delivered(p, keys, dirs, k, Complete1(p, k, x, now))
  {
    DraftFacts(p, b, k, x);
    StoredFields(p, k, x, now);
    var u := Complete1(p, k, x, now);
    hide Drafted, Recovers, Complete1, Certificate, ChunkLength;
    if Delivered(p, keys, dirs, k, u) {
      var o, n :| o in dirs && n in dirs[o] && Recovers(p, keys(k.request), k, u, dirs[o][n]);
      RecoversOnlyTheFile(p, keys, b, k, x, s, u, dirs[o][n]);
    }
  }

  lemma ReadableFacts(p: Primitives, keys: Keys, b: Bundle, s: Sending, x: Draft)
    requires Readable(p, keys, b, s, x)
    ensures Lawful(p) && Sendable(p, s, b.maxBytes) && KeyMatches(p, keys(s.requestID), s)
        && p.parseMetadata(s.metadata).Some?
    ensures p.parseManifest(x.raw) == Some(x.m) && x.m == SealedManifest(p, s) && ChunkCount(s) == 1
    ensures [x.chunk] == SealedChunks(p, s)
  {
    hide Lawful, Sendable, KeyMatches, SealedManifest, SealedChunk;
  }

  lemma StoredIsTheChunk(p: Primitives, k: Key, u: Upload, x: Draft)
    requires Completed(p, k, u) && u.manifest == Some(x.raw) && u.chunks == map[0 := x.chunk]
    requires p.parseManifest(x.raw) == Some(x.m) && x.m.header.chunkCount == 1
    ensures Uploader.StoredChunks(p, u) == [x.chunk]
  {
    hide MakeReceipt, ChunkLength;
  }

  lemma RecoversOnlyTheFile(p: Primitives, keys: Keys, b: Bundle, k: Key, x: Draft, s: Sending, u: Upload, plain: bytes)
    requires Readable(p, keys, b, s, x) && k == EndToEnd.KeyOf(s) && Recovers(p, keys(k.request), k, u, plain)
    requires u.manifest == Some(x.raw) && u.chunks == map[0 := x.chunk]
    ensures plain == s.file
  {
    assert Completed(p, k, u);
    ReadableFacts(p, keys, b, s, x);
    ManifestCounts(p, s, x);
    hide SealedManifest, SealedChunks, Recovers, Lawful, Sendable, KeyMatches, Completed, Readable,
        Uploader.StoredChunks;
    StoredIsTheChunk(p, k, u, x);
    DeliveredIsTheFile(p, k, u, s, b.maxBytes, keys(k.request), plain);
  }

  lemma ManifestCounts(p: Primitives, s: Sending, x: Draft)
    requires 0 < s.chunkSize && ChunkCount(s) == 1 && x.m == SealedManifest(p, s)
    ensures x.m.header.chunkCount == 1
  {}

  /** Two one-chunk files of different content, sealed by the page under one id for one open request. */
  ghost predicate SameId(p: Primitives, keys: Keys, b: Bundle, token: string, k: Key, x: Draft, s: Sending, y: Draft,
                         t: Sending,
                         now: Time)
  {
    && Usable(p, b, token, now) && b.deleteAfterCollect && s.file != t.file
    && Drafted(p, b, k, x) && Readable(p, keys, b, s, x) && k == EndToEnd.KeyOf(s)
    && Drafted(p, b, k, y) && Readable(p, keys, b, t, y) && k == EndToEnd.KeyOf(t)
  }

  lemma FirstSent(p: Primitives, keys: Keys, b: Bundle, token: string, k: Key, x: Draft, now: Time)
    returns (actions: seq<Action>, y: System)
    requires Usable(p, b, token, now) && Drafted(p, b, k, x)
    ensures |actions| == 6 && Leads(p, keys, actions, 15, y) && y.sessions == [] && y.dirs == map[]
    ensures y.world == Opened(b, Just(k, Complete1(p, k, x, now)), {First(k, x)})
    ensures y.ledger == map[k := Complete1(p, k, x, now)]
  {
    hide Usable, Drafted, Leads, Complete1;
    actions := OpenedFromIdle(p, keys, b, token, now, 15);
    y := IDLE.(world := Opened(b, map[], {}));
    Submitting(p, keys, actions, 15, b, {}, k, x, token, now, y);
    var u := Complete1(p, k, x, now);
    assert {} + {First(k, x)} == {First(k, x)} && map[][k := u] == map[k := u];
    y := y.(world := Opened(b, Just(k, u), {First(k, x)}), ledger := map[k := u]);
    actions := actions + Submission(b, k, x, now);
  }

  /** Up to the first acknowledgement. */
  lemma FirstFile(p: Primitives, keys: Keys, b: Bundle, token: string, k: Key, x: Draft, s: Sending, now: Time,
                  out: string)
    returns (actions: seq<Action>, y: System)
    requires Usable(p, b, token, now) && b.deleteAfterCollect
    requires Drafted(p, b, k, x) && Readable(p, keys, b, s, x) && k == EndToEnd.KeyOf(s)
    ensures |actions| == 15 && Leads(p, keys, actions, 15, y)
    ensures y.world == Opened(b, map[], {First(k, x)}) && k in y.ledger && OnlyFile(y.dirs, s.file)
    ensures |y.sessions| == 2 && y.sessions[1].published && y.sessions[1].key == k
  {
    UsableIsValid(p, b, token, now);
    hide Usable, Drafted, Readable, Leads, Complete1, ValidBundle, OnlyFile;
    actions, y := FirstSent(p, keys, b, token, k, x, now);
    actions, y := CollectedTwice(p, keys, actions, 15, b, {First(k, x)}, k, x, s, now, out, y);
  }

  lemma SecondSent(p: Primitives, keys: Keys, before: seq<Action>, b: Bundle, token: string, tickets: set<Ticket>,
                   k: Key,
                   y: Draft, now: Time, v: System) returns (actions: seq<Action>, z: System)
    requires Usable(p, b, token, now) && Drafted(p, b, k, y)
    requires |before| == 15 && Leads(p, keys, before, 15, v) && v.world == Opened(b, map[], tickets)
    ensures before < actions && actions[15] == Serve(Move(Begin(b, y.raw, now), Done)) && Leads(p, keys, actions, 15, z)
    ensures var u := Complete1(p, k, y, now);
      z == v.(world := Opened(b, Just(k, u), tickets + {First(k, y)}), ledger := v.ledger[k := u])
  {
    hide Usable, Drafted, Leads, Complete1;
    Submitting(p, keys, before, 15, b, tickets, k, y, token, now, v);
    var u := Complete1(p, k, y, now);
    z := v.(world := Opened(b, Just(k, u), tickets + {First(k, y)}), ledger := v.ledger[k := u]);
    actions := before + Submission(b, k, y, now);
  }

  /** Up to the second acknowledgement. */
  lemma SecondFile(p: Primitives, keys: Keys, before: seq<Action>, b: Bundle, token: string, tickets: set<Ticket>,
                   k: Key,
                   y: Draft, now: Time, v: System) returns (actions: seq<Action>, z: System)
    requires Usable(p, b, token, now) && b.deleteAfterCollect && Drafted(p, b, k, y)
    requires |before| == 15 && Leads(p, keys, before, 15, v) && v.world == Opened(b, map[], tickets)
    requires |v.sessions| == 2 && v.sessions[1].published && v.sessions[1].key == k
    ensures before < actions && actions[15] == Serve(Move(Begin(b, y.raw, now), Done)) && Leads(p, keys, actions, 15, z)
    ensures z.ledger == v.ledger[k := Complete1(p, k, y, now)] && z.dirs == v.dirs && k !in z.world.disk.uploads
  {
    UsableIsValid(p, b, token, now);
    DraftFacts(p, b, k, y);
    StoredFields(p, k, y, now);
    hide Usable, Drafted, Leads, Complete1, Certificate, ValidBundle, ChunkLength;
    actions, z := SecondSent(p, keys, before, b, token, tickets, k, y, now, v);
    var more := tickets + {First(k, y)};
    Confirming(p, keys, actions, 15, b, more, k, Complete1(p, k, y, now), now, z, 1);
    actions, z := actions + [Confirm(1, b, now, Done)], z.(world := Opened(b, map[], more));
  }

  /** From the idle system: two collectors save the first file, the first acknowledgement removes it, the id is set
      up again for the second file and completed, and the second acknowledgement removes that. Every action is honest
      but the one that uses the id again, and the second file is neither stored nor delivered. */
  lemma ReusedIdIsLost(p: Primitives, keys: Keys, b: Bundle, token: string, k: Key, x: Draft, s: Sending, y: Draft,
                       t: Sending,
                       now: Time, out: string) returns (actions: seq<Action>)
    requires SameId(p, keys, b, token, k, x, s, y, t, now)
    ensures |actions| > 15 && HonestExcept(p, keys, actions, 15)
        && actions[15] == Serve(Move(Begin(b, y.raw, now), Done))
    ensures k in History(p, keys, actions[..15]).ledger
    ensures k in History(p, keys, actions).ledger && History(p, keys, actions).ledger[k].manifest == Some(y.raw)
    ensures Lost(p, keys, History(p, keys, actions), k)
  {
    StoredFields(p, k, y, now);
    hide Usable, Drafted, Readable, Complete1, OnlyFile, Delivered, History, Certificate;
    var before, v := FirstFile(p, keys, b, token, k, x, s, now, out);
    var z;
    actions, z := SecondFile(p, keys, before, b, token, {First(k, x)}, k, y, now, v);
    assert actions[..15] == before;
    NotDelivered(p, keys, b, k, y, t, now, z.dirs, s.file);
  }

  lemma ToyKeyMatches(s: Sending)
    requires s.recipient == [] && s.requestID == EndToEnd.SomeID()
    ensures KeyMatches(EndToEnd.ToyFor(TwoTexts()), KeyFile(EndToEnd.SomeID(), ""), s)
  {
    assert Base64.Decode("") == Some([]);
  }

  lemma ToyIsReadable(p: Primitives, keys: Keys, b: Bundle, s: Sending, raw: bytes) returns (x: Draft)
    requires p == EndToEnd.ToyFor(TwoTexts()) && b == EndToEnd.SomeBundle() && raw in TwoTexts() && s == TwoTexts()[raw]
    requires keys(s.requestID) == KeyFile(EndToEnd.SomeID(), "")
    ensures Readable(p, keys, b, s, x) && Drafted(p, b, EndToEnd.KeyOf(s), x)
  {
    assert s.recipient == [] && s.requestID == EndToEnd.SomeID() && |raw| == 1 && p.validPoint([]);
    hide EndToEnd.ToyFor, TwoTexts, EndToEnd.Prepared, KeyMatches, ValidBundle, Readable, Drafted, Lawful,
        SealedManifest;
    ToyPrepares(raw);
    ToyKeyMatches(s);
    EndToEnd.SomeBundleIsValid(p);
    x := ToyDraft(p, keys, b, s, raw);
  }

  lemma ToyDraft(p: Primitives, keys: Keys, b: Bundle, s: Sending, raw: bytes) returns (x: Draft)
    requires EndToEnd.Prepared(p, b, s, raw) && KeyMatches(p, keys(s.requestID), s) && p.parseMetadata(s.metadata).Some?
    requires ChunkCount(s) == 1 && b.id == s.requestID && ValidBundle(p, b) && |raw| == 1
    ensures Readable(p, keys, b, s, x) && Drafted(p, b, EndToEnd.KeyOf(s), x)
  {
    assert 0 < s.chunkSize by { hide Lawful, SealedManifest; }
    hide Lawful, ValidBundle, Drafted, KeyMatches, EndToEnd.Prepared, SealedManifest, SealedChunk;
    SealedIsDrafted(p, b, s, raw);
    x := DraftOf(p, s, raw);
  }

  /** There are such files. */
  lemma SuchHistoriesExist() returns (p: Primitives, keys: Keys, b: Bundle, token: string, k: Key, x: Draft, s: Sending,
                                      y: Draft, t: Sending, now: Time)
    ensures SameId(p, keys, b, token, k, x, s, y, t, now)
  {
    p, b, token, now := EndToEnd.ToyFor(TwoTexts()), EndToEnd.SomeBundle(), "t", 5;
    s, t, k := EndToEnd.EmptyFile(), OneByte(), EndToEnd.KeyOf(EndToEnd.EmptyFile());
    keys := _ => KeyFile(EndToEnd.SomeID(), "");
    SomeBundleIsUsable(p, token);
    TwoFiles();
    hide Usable, Drafted, Readable, EndToEnd.ToyFor, TwoTexts, EndToEnd.SomeBundle, EndToEnd.EmptyFile, OneByte;
    x := ToyIsReadable(p, keys, b, s, [0]);
    y := ToyIsReadable(p, keys, b, t, [1]);
  }
}

/** Runs from the empty store in which its weaker promises show: a chunk of a stale length, a completed upload the
    quota does not count, and a closure that conflicts. */
module StoreScenarios {
  import opened Prelude
  import opened Text
  import opened Model
  import opened StoreSpec
  import opened StoreInvariant
  import opened StoreRuns
  import opened StoreTheorems
  import opened StoreLimits
  import opened Browser
  import opened EndToEnd
  import Cryptobox

  /** A file of one chunk on its way: manifest bytes, manifest, and the sealed chunk. */
  datatype Draft = Draft(raw: bytes, m: Manifest, chunk: bytes)

  /** The server accepts the draft for the request, under the given id. */
  ghost predicate Drafted(p: Primitives, b: Bundle, k: Key, x: Draft) {
    && CheckSetup(p, b, x.raw) == Ok(x.m) && k == Key(b.id, x.m.header.uploadID)
    && Matching(p, k, x.raw, x.m, [x.chunk])
    && 0 <= x.m.header.plainSize <= b.maxBytes
  }

  /** A valid request, unexpired at the given time, with a submit token for it. */
  ghost predicate Usable(p: Primitives, b: Bundle, token: string, now: Time) {
    && ValidBundle(p, b) && now < b.expiresAt && now != ZERO_TIME
    && token != "" && HexDecode(b.submitTokenHash) == Some(p.sha256(Utf8(token))) && |p.sha256(Utf8(token))| == 32
  }

  /** The store with one open request, known to the handlers. */
  function Opened(b: Bundle, uploads: map<Key, Upload>, tickets: set<Ticket>): World {
    World(Disk(map[b.id := b], map[], map[], uploads), map[b.id := b], {b}, tickets)
  }

  function Just(k: Key, u: Upload): map<Key, Upload> { map[k := u] }

  // ---------- single moves ----------

  lemma RunSnoc(p: Primitives, moves: seq<Move>, m: Move)
    ensures Run(p, START, moves + [m]) == Next(p, Run(p, START, moves), m)
  {
    assert (moves + [m])[..|moves|] == moves;
  }

  lemma ClockSnoc(moves: seq<Move>, m: Move)
    requires ClocksOk(moves) && ClockOk(m.event)
    ensures ClocksOk(moves + [m])
  {}

  lemma OneStepTaken(w: World, s: Step)
    ensures AdvanceAll(w, [s]) == Advance(w, s)
  {
    assert [s][1..] == [];
  }

  function OpeningMoves(b: Bundle, token: string): seq<Move> {
    [Move(Import(b), Done), Move(Authorize(b.id, token, Submit), Done)]
  }

  lemma ImportMove(p: Primitives, b: Bundle)
    requires ValidBundle(p, b)
    ensures Next(p, START, Move(Import(b), Done)) == Opened(b, map[], {}).(seen := {})
  {
    hide ValidBundle;
    OneStepTaken(START, WriteBundle(b));
  }

  lemma AuthorizeMove(p: Primitives, b: Bundle, token: string, now: Time)
    requires Usable(p, b, token, now)
    ensures Next(p, Opened(b, map[], {}).(seen := {}), Move(Authorize(b.id, token, Submit), Done))
         == Opened(b, map[], {})
  {
    assert ValidID(b.id);
    hide ValidBundle, HexDecode;
  }

  lemma OpeningRuns(p: Primitives, b: Bundle, token: string, now: Time)
    requires Usable(p, b, token, now)
    ensures Run(p, START, OpeningMoves(b, token)) == Opened(b, map[], {})
  {
    hide Next, Usable;
    assert ValidBundle(p, b) by { assert Usable(p, b, token, now); UsableIsValid(p, b, token, now); }
    var i, a := Move(Import(b), Done), Move(Authorize(b.id, token, Submit), Done);
    ImportMove(p, b);
    AuthorizeMove(p, b, token, now);
    RunSnoc(p, [], i);
    RunSnoc(p, [i], a);
    assert [] + [i] == [i] && [i] + [a] == OpeningMoves(b, token);
  }

  lemma UsableIsValid(p: Primitives, b: Bundle, token: string, now: Time)
    requires Usable(p, b, token, now)
    ensures ValidBundle(p, b) && ValidID(b.id) && b.maxFiles >= 1
  {}

  /** What the first n steps of a setup leave. */
  function Begun(x: Draft, now: Time, n: nat): Upload {
    Upload(n >= 2, if n >= 3 then Some(x.raw) else None, if n >= 4 then Some(InitialState(x.m, now)) else None,
           map[], None, None)
  }

  lemma BeginPlan(p: Primitives, b: Bundle, tickets: set<Ticket>, k: Key, x: Draft, token: string, now: Time)
    requires Usable(p, b, token, now) && Drafted(p, b, k, x)
    ensures PlannedSteps(p, Opened(b, map[], tickets), Begin(b, x.raw, now)) == SetupSteps(k, x.raw, x.m, now)
  {
    UsableIsValid(p, b, token, now);
    hide CheckSetup, Matching, ValidBundle;
    var d := Opened(b, map[], tickets).disk;
    assert Counted(d.uploads, b.id) == {};
  }

  lemma SetupTaken(b: Bundle, tickets: set<Ticket>, k: Key, x: Draft, now: Time)
    ensures var w, s := Opened(b, map[], tickets), SetupSteps(k, x.raw, x.m, now);
      && AdvanceAll(w, s) == Opened(b, Just(k, Begun(x, now, 4)), tickets)
      && AdvanceAll(w, s[..3]) == Opened(b, Just(k, Begun(x, now, 3)), tickets)
  {
    hide InitialState;
    var w, s := Opened(b, map[], tickets), SetupSteps(k, x.raw, x.m, now);
    StepsToUpload(w, k, x.raw);
    TakeFour(w, s[0], s[1], s[2], s[3]);
    assert s[..3] == [s[0], s[1], s[2]];
    var w3 := Advance(Advance(Advance(w, s[0]), s[1]), s[2]);
    assert w3.disk.uploads == Just(k, Begun(x, now, 3));
    LastSetupStep(w3, k, Begun(x, now, 3), InitialState(x.m, now));
  }

  lemma LastSetupStep(w: World, k: Key, u: Upload, state: ServerState)
    requires w.disk.uploads == Just(k, u) && u.server.None?
    ensures Advance(w, WriteServer(k, state)) == w.(disk := w.disk.(uploads := Just(k, u.(server := Some(state)))))
  {
    assert w.disk.uploads[k := u.(server := Some(state))] == Just(k, u.(server := Some(state)));
  }

  /** BeginUpload on the empty store: whole, or cut by a crash after the manifest. */
  lemma BeginMove(p: Primitives, b: Bundle, tickets: set<Ticket>, k: Key, x: Draft, token: string, now: Time)
    requires Usable(p, b, token, now) && Drafted(p, b, k, x)
    ensures var w := Opened(b, map[], tickets);
      && Next(p, w, Move(Begin(b, x.raw, now), Done)) == Opened(b, Just(k, Begun(x, now, 4)), tickets)
      && Next(p, w, Move(Begin(b, x.raw, now), Crash(3))) == Opened(b, Just(k, Begun(x, now, 3)), tickets)
  {
    BeginPlan(p, b, tickets, k, x, token, now);
    hide PlannedSteps, Usable, Drafted, InitialState, AdvanceAll, Begun;
    SetupTaken(b, tickets, k, x, now);
  }

  function First(k: Key, x: Draft): Ticket { Ticket(k, 0, |x.chunk|) }

  lemma PrepareMove(p: Primitives, b: Bundle, tickets: set<Ticket>, k: Key, x: Draft, u: Upload)
    requires Drafted(p, b, k, x) && u.manifest == Some(x.raw)
    ensures Next(p, Opened(b, Just(k, u), tickets), Move(Prepare(k, 0, |x.chunk|), Done))
         == Opened(b, Just(k, u), tickets + {First(k, x)})
  {
    hide CheckSetup, ChunkLength;
    assert [x.chunk][0] == x.chunk;
  }

  lemma CommitMove(p: Primitives, b: Bundle, tickets: set<Ticket>, k: Key, t: Ticket, u: Upload, body: bytes)
    requires t in tickets && t.key == k && k.request == b.id && |body| == t.expected && u.chunksDir
        && t.index !in u.chunks
    ensures Next(p, Opened(b, Just(k, u), tickets), Move(Commit(t, body), Done))
         == Opened(b, Just(k, u.(chunks := u.chunks[t.index := body])), tickets)
  {
    var w, s := Opened(b, Just(k, u), tickets), WriteChunk(k, t.index, body);
    OneStepTaken(w, s);
    assert StepsTaken(p, w, Move(Commit(t, body), Done)) == [s];
    assert w.disk.uploads[k := Inside(u, s)] == Just(k, Inside(u, s));
  }

  /** A reserved upload with its only chunk. */
  function Filled(u: Upload, x: Draft): Upload { u.(chunks := map[0 := x.chunk]) }

  function Certificate(p: Primitives, k: Key, x: Draft, done: Time): Receipt {
    MakeReceipt(p, k, done, x.m.header, x.raw, [x.chunk])
  }

  lemma FinishMove(p: Primitives, b: Bundle, tickets: set<Ticket>, k: Key, x: Draft, u: Upload, done: Time)
    requires Drafted(p, b, k, x) && u.manifest == Some(x.raw) && u.complete.None? && u.chunks == map[0 := x.chunk]
    ensures Next(p, Opened(b, Just(k, u), tickets), Move(Finish(k, done), Done))
         == Opened(b, Just(k, u.(complete := Some(Certificate(p, k, x, done)))), tickets)
    ensures StepsTaken(p, Opened(b, Just(k, u), tickets), Move(Finish(k, done), Done)) != []
  {
    hide CheckSetup, ChunkLength, MakeReceipt;
    var w, r := Opened(b, Just(k, u), tickets), Certificate(p, k, x, done);
    assert [x.chunk][0] == x.chunk;
    assert ChunkList(u.chunks, 1) == [x.chunk];
    var s := WriteReceipt(k, r);
    assert StepsTaken(p, w, Move(Finish(k, done), Done)) == [s];
    OneStepTaken(w, s);
    assert w.disk.uploads[k := Inside(u, s)] == Just(k, Inside(u, s));
  }

  /** The upload of a one-chunk file when it is completed. */
  function Complete1(p: Primitives, k: Key, x: Draft, now: Time): Upload {
    Filled(Begun(x, now, 4), x).(complete := Some(Certificate(p, k, x, now)))
  }

  lemma StoredFields(p: Primitives, k: Key, x: Draft, now: Time)
    ensures var u := Complete1(p, k, x, now);
      && u.complete == Some(Certificate(p, k, x, now)) && !u.complete.value.acknowledged && u.acknowledged.None?
      && u.manifest == Some(x.raw) && u.chunks == map[0 := x.chunk]
  {
    BegunFacts(x, now);
    hide Begun, Cryptobox.ReceiptRoot, TotalLength;
  }

  lemma AckEmpties(p: Primitives, b: Bundle, tickets: set<Ticket>, k: Key, u: Upload, now: Time)
    requires ValidBundle(p, b) && b.deleteAfterCollect && ValidID(k.upload) && k.request == b.id
    requires u.complete.Some? && u.acknowledged.None?
    ensures Next(p, Opened(b, Just(k, u), tickets), Move(Ack(b, k.upload, now), Done)) == Opened(b, map[], tickets)
  {
    hide ValidBundle;
    var w := Opened(b, Just(k, u), tickets);
    assert Key(b.id, k.upload) == k;
    assert StepsTaken(p, w, Move(Ack(b, k.upload, now), Done)) == [WriteAck(k, now), RemoveUpload(k)];
    TwoStepsTaken(w, WriteAck(k, now), RemoveUpload(k));
    assert Just(k, u)[k := Inside(u, WriteAck(k, now))] - {k} == map[];
  }

  // ---------- the runs ----------

  lemma UsableTime(p: Primitives, b: Bundle, token: string, now: Time)
    requires Usable(p, b, token, now)
    ensures now != ZERO_TIME
  {}

  lemma DraftFacts(p: Primitives, b: Bundle, k: Key, x: Draft)
    requires Drafted(p, b, k, x)
    ensures ValidID(k.request) && ValidID(k.upload) && k.request == b.id && p.parseManifest(x.raw) == Some(x.m)
    ensures x.m.header.chunkCount == 1 && |x.chunk| == ChunkLength(x.m.header, 0)
  {
    hide CheckSetup, ChunkLength;
    assert [x.chunk][0] == x.chunk;
  }

  lemma BegunFacts(x: Draft, now: Time)
    ensures var u := Begun(x, now, 4);
      u.chunksDir && u.manifest == Some(x.raw) && u.server.Some? && u.complete.None? && u.acknowledged.None?
      && u.chunks == map[]
  {}

  /** A setup crashes after its manifest, and a chunk request reads that manifest. */
  function CrashedRun(b: Bundle, token: string, k: Key, x: Draft, now: Time): seq<Move> {
    OpeningMoves(b, token) + [Move(Begin(b, x.raw, now), Crash(3))] + [Move(Prepare(k, 0, |x.chunk|), Done)]
  }

  lemma CrashedRuns(p: Primitives, b: Bundle, token: string, k: Key, x: Draft, now: Time)
    requires Usable(p, b, token, now) && Drafted(p, b, k, x)
    ensures Run(p, START, CrashedRun(b, token, k, x, now)) == Opened(b, Just(k, Begun(x, now, 3)), {First(k, x)})
    ensures ClocksOk(CrashedRun(b, token, k, x, now))
  {
    UsableTime(p, b, token, now);
    assert ClocksOk(OpeningMoves(b, token));
    hide Next, Usable, Drafted, Run, ClocksOk;
    ClockSnoc(OpeningMoves(b, token), Move(Begin(b, x.raw, now), Crash(3)));
    ClockSnoc(OpeningMoves(b, token) + [Move(Begin(b, x.raw, now), Crash(3))], Move(Prepare(k, 0, |x.chunk|), Done));
    OpeningRuns(p, b, token, now);
    BeginMove(p, b, {}, k, x, token, now);
    RunSnoc(p, OpeningMoves(b, token), Move(Begin(b, x.raw, now), Crash(3)));
    PrepareMove(p, b, {}, k, x, Begun(x, now, 3));
    RunSnoc(p, OpeningMoves(b, token) + [Move(Begin(b, x.raw, now), Crash(3))], Move(Prepare(k, 0, |x.chunk|), Done));
  }

  /** A file is sent whole, and a chunk request reads its manifest once more. */
  function SentRun(b: Bundle, token: string, k: Key, x: Draft, now: Time): seq<Move> {
    OpeningMoves(b, token) + [Move(Begin(b, x.raw, now), Done)] + [Move(Prepare(k, 0, |x.chunk|), Done)]
    + [Move(Commit(First(k, x), x.chunk), Done)] + [Move(Finish(k, now), Done)]
    + [Move(Prepare(k, 0, |x.chunk|), Done)]
  }

  /** The moves lead from the empty store to this one, with clocks that run. */
  ghost predicate Reaches(p: Primitives, moves: seq<Move>, w: World) {
    Run(p, START, moves) == w && ClocksOk(moves)
  }

  lemma ReachesOn(p: Primitives, moves: seq<Move>, w: World, m: Move, v: World)
    requires Reaches(p, moves, w) && Next(p, w, m) == v && ClockOk(m.event)
    ensures Reaches(p, moves + [m], v)
  {
    hide Next, ClocksOk;
    ClockSnoc(moves, m);
    RunSnoc(p, moves, m);
  }

  lemma OpeningReaches(p: Primitives, b: Bundle, token: string, now: Time)
    requires Usable(p, b, token, now)
    ensures Reaches(p, OpeningMoves(b, token), Opened(b, map[], {}))
  {
    OpeningRuns(p, b, token, now);
    hide Usable, Run;
  }

  lemma ReservedRuns(p: Primitives, b: Bundle, token: string, k: Key, x: Draft, now: Time)
    requires Usable(p, b, token, now) && Drafted(p, b, k, x)
    ensures Reaches(p, OpeningMoves(b, token) + [Move(Begin(b, x.raw, now), Done)]
                       + [Move(Prepare(k, 0, |x.chunk|), Done)],
                    Opened(b, Just(k, Begun(x, now, 4)), {First(k, x)}))
  {
    UsableTime(p, b, token, now);
    BegunFacts(x, now);
    OpeningReaches(p, b, token, now);
    hide Next, Usable, Drafted, Reaches, OpeningMoves, Begun;
    var u, begin := Begun(x, now, 4), Move(Begin(b, x.raw, now), Done);
    BeginMove(p, b, {}, k, x, token, now);
    ReachesOn(p, OpeningMoves(b, token), Opened(b, map[], {}), begin, Opened(b, Just(k, u), {}));
    PrepareMove(p, b, {}, k, x, u);
    ReachesOn(p, OpeningMoves(b, token) + [begin], Opened(b, Just(k, u), {}), Move(Prepare(k, 0, |x.chunk|), Done),
              Opened(b, Just(k, u), {First(k, x)}));
  }

  lemma SentRuns(p: Primitives, b: Bundle, token: string, k: Key, x: Draft, now: Time)
    requires Usable(p, b, token, now) && Drafted(p, b, k, x)
    ensures Reaches(p, SentRun(b, token, k, x, now), Opened(b, Just(k, Complete1(p, k, x, now)), {First(k, x)}))
  {
    DraftFacts(p, b, k, x);
    BegunFacts(x, now);
    hide Next, Usable, Drafted, Reaches, Complete1, ChunkLength, OpeningMoves, Begun;
    ReservedRuns(p, b, token, k, x, now);
    var u, t := Begun(x, now, 4), First(k, x);
    var moves := OpeningMoves(b, token) + [Move(Begin(b, x.raw, now), Done)] + [Move(Prepare(k, 0, |x.chunk|), Done)];
    CommitMove(p, b, {t}, k, t, u, x.chunk);
    assert u.(chunks := u.chunks[0 := x.chunk]) == Filled(u, x);
    ReachesOn(p, moves, Opened(b, Just(k, u), {t}), Move(Commit(t, x.chunk), Done),
              Opened(b, Just(k, Filled(u, x)), {t}));
    CompletedRuns(p, moves + [Move(Commit(t, x.chunk), Done)], b, k, x, now);
  }

  lemma CompletedRuns(p: Primitives, moves: seq<Move>, b: Bundle, k: Key, x: Draft, now: Time)
    requires Drafted(p, b, k, x)
    requires Reaches(p, moves, Opened(b, Just(k, Filled(Begun(x, now, 4), x)), {First(k, x)}))
    ensures Reaches(p, moves + [Move(Finish(k, now), Done)] + [Move(Prepare(k, 0, |x.chunk|), Done)],
                    Opened(b, Just(k, Complete1(p, k, x, now)), {First(k, x)}))
  {
    BegunFacts(x, now);
    StoredFields(p, k, x, now);
    hide Next, Drafted, Reaches, Certificate, ChunkLength, Begun;
    var t, filled, u := First(k, x), Filled(Begun(x, now, 4), x), Complete1(p, k, x, now);
    FinishMove(p, b, {t}, k, x, filled, now);
    ReachesOn(p, moves, Opened(b, Just(k, filled), {t}), Move(Finish(k, now), Done), Opened(b, Just(k, u), {t}));
    PrepareMove(p, b, {t}, k, x, u);
    assert {t} + {t} == {t};
    ReachesOn(p, moves + [Move(Finish(k, now), Done)], Opened(b, Just(k, u), {t}),
              Move(Prepare(k, 0, |x.chunk|), Done), Opened(b, Just(k, u), {t}));
  }

  /** Then an acknowledgement removes the upload, the id is set up again for another file, and only now that request
      stores its chunk. */
  function StaleRun(b: Bundle, token: string, k: Key, x: Draft, y: Draft, now: Time): seq<Move> {
    SentRun(b, token, k, x, now) + [Move(Ack(b, k.upload, now), Done)] + [Move(Begin(b, y.raw, now), Done)]
    + [Move(Commit(First(k, x), x.chunk), Done)]
  }

  lemma StaleRuns(p: Primitives, b: Bundle, token: string, k: Key, x: Draft, y: Draft, now: Time)
    requires Usable(p, b, token, now) && b.deleteAfterCollect && Drafted(p, b, k, x) && Drafted(p, b, k, y)
    ensures Reaches(p, StaleRun(b, token, k, x, y, now), Opened(b, Just(k, Filled(Begun(y, now, 4), x)), {First(k, x)}))
  {
    UsableTime(p, b, token, now);
    UsableIsValid(p, b, token, now);
    DraftFacts(p, b, k, y);
    BegunFacts(y, now);
    StoredFields(p, k, x, now);
    SentRuns(p, b, token, k, x, now);
    hide Next, Usable, Drafted, Reaches, SentRun, Certificate, Complete1, ChunkLength, ValidBundle, Begun;
    var t, u, ack := First(k, x), Begun(y, now, 4), Move(Ack(b, k.upload, now), Done);
    var m1 := SentRun(b, token, k, x, now);
    var w1, w2 := Opened(b, Just(k, Complete1(p, k, x, now)), {t}), Opened(b, map[], {t});
    AckEmpties(p, b, {t}, k, Complete1(p, k, x, now), now);
    ReachesOn(p, m1, w1, ack, w2);
    BeginMove(p, b, {t}, k, y, token, now);
    ReachesOn(p, m1 + [ack], w2, Move(Begin(b, y.raw, now), Done), Opened(b, Just(k, u), {t}));
    CommitMove(p, b, {t}, k, t, u, x.chunk);
    assert u.(chunks := u.chunks[0 := x.chunk]) == Filled(u, x);
    ReachesOn(p, m1 + [ack] + [Move(Begin(b, y.raw, now), Done)], Opened(b, Just(k, u), {t}),
              Move(Commit(t, x.chunk), Done), Opened(b, Just(k, Filled(u, x)), {t}));
  }

  /** Whatever two files of different chunk length the server accepts under one id: this run stores the chunk of the
      first in the upload of the second, which can then never be completed until it is removed. */
  lemma StaleTicketIsReal(p: Primitives, b: Bundle, token: string, k: Key, x: Draft, y: Draft, now: Time)
    requires Usable(p, b, token, now) && b.deleteAfterCollect
    requires Drafted(p, b, k, x) && Drafted(p, b, k, y) && |x.chunk| != |y.chunk|
    ensures ClocksOk(StaleRun(b, token, k, x, y, now))
    ensures Wedged(p, Run(p, START, StaleRun(b, token, k, x, y, now)).disk, k, y.raw, 0)
  {
    DraftFacts(p, b, k, y);
    StaleRuns(p, b, token, k, x, y, now);
    hide Usable, Drafted, Run, ChunkLength, ClocksOk, StaleRun;
  }

  /** Or the upload whose setup had crashed is filled and completed all the same. */
  function UncountedRun(b: Bundle, token: string, k: Key, x: Draft, now: Time): seq<Move> {
    CrashedRun(b, token, k, x, now) + [Move(Commit(First(k, x), x.chunk), Done)] + [Move(Finish(k, now), Done)]
  }

  lemma UncountedRuns(p: Primitives, b: Bundle, token: string, k: Key, x: Draft, now: Time)
    requires Usable(p, b, token, now) && Drafted(p, b, k, x)
    ensures Run(p, START, UncountedRun(b, token, k, x, now))
         == Opened(b, Just(k, Filled(Begun(x, now, 3), x).(complete := Some(Certificate(p, k, x, now)))), {First(k, x)})
    ensures ClocksOk(UncountedRun(b, token, k, x, now))
  {
    DraftFacts(p, b, k, x);
    hide Next, Usable, Drafted, Run, Certificate, ChunkLength, CrashedRun, ClocksOk;
    var u, m2 := Begun(x, now, 3), CrashedRun(b, token, k, x, now);
    var m3 := m2 + [Move(Commit(First(k, x), x.chunk), Done)];
    CrashedRuns(p, b, token, k, x, now);
    CommitMove(p, b, {First(k, x)}, k, First(k, x), u, x.chunk);
    assert u.(chunks := u.chunks[0 := x.chunk]) == Filled(u, x);
    RunSnoc(p, m2, Move(Commit(First(k, x), x.chunk), Done));
    FinishMove(p, b, {First(k, x)}, k, x, Filled(u, x), now);
    RunSnoc(p, m3, Move(Finish(k, now), Done));
    ClockSnoc(m2, Move(Commit(First(k, x), x.chunk), Done));
    ClockSnoc(m3, Move(Finish(k, now), Done));
  }

  /** The quota does not see a completed upload whose setup had crashed. */
  lemma UncountedCompletion(p: Primitives, b: Bundle, token: string, k: Key, x: Draft, now: Time)
    requires Usable(p, b, token, now) && Drafted(p, b, k, x)
    ensures ClocksOk(UncountedRun(b, token, k, x, now))
    ensures var d := Run(p, START, UncountedRun(b, token, k, x, now)).disk;
      k in d.uploads && d.uploads[k].complete.Some? && Unreserved(d, k) && Counted(d.uploads, b.id) == {}
  {
    UncountedRuns(p, b, token, k, x, now);
    hide Usable, Drafted, Run, Certificate, ClocksOk, UncountedRun;
  }

  /** A request is imported, closed and imported again. */
  function ReimportRun(b: Bundle, now: Time): seq<Move> {
    [Move(Import(b), Done)] + [Move(Close(b.id, now), Done)] + [Move(Import(b), Done)]
  }

  /** Then closing it again is a conflict, although its first closure stands. */
  lemma ClosingAgainConflicts(p: Primitives, b: Bundle, now: Time, later: Time)
    requires ValidBundle(p, b) && now != ZERO_TIME
    ensures var moves := ReimportRun(b, now);
      var d := Run(p, START, moves).disk;
      && ClocksOk(moves) && b.id in d.markers && d.markers[b.id].closedAt == now
      && CloseRequest(d, later, b.id).result == Err(Conflict)
  {
    assert ValidID(b.id);
    hide ValidBundle;
    var i, c := Move(Import(b), Done), Move(Close(b.id, now), Done);
    ImportMove(p, b);
    RunSnoc(p, [], i);
    var w1 := Opened(b, map[], {}).(seen := {});
    assert [] + [i] == [i];
    var closure := Closure(SCHEMA_VERSION, b.id, now);
    assert StepsTaken(p, w1, c) == [WriteMarker(closure), MoveBundle(b.id)];
    TwoStepsTaken(w1, WriteMarker(closure), MoveBundle(b.id));
    var w2 := Next(p, w1, c);
    RunSnoc(p, [i], c);
    assert w2.disk.closed == map[b.id := b] && b.id !in w2.disk.active && w2.disk.markers == map[b.id := closure];
    OneStepTaken(w2, WriteBundle(b));
    assert StepsTaken(p, w2, i) == [WriteBundle(b)];
    RunSnoc(p, [i] + [c], i);
  }

  lemma TwoStepsTaken(w: World, s: Step, t: Step)
    ensures AdvanceAll(w, [s, t]) == Advance(Advance(w, s), t)
  {
    assert [s, t][1..] == [t] && [t][1..] == [];
    assert AdvanceAll(Advance(w, s), [t]) == AdvanceAll(Advance(Advance(w, s), t), []);
  }

  // ---------- there are such files ----------

  /** What the page sends for a file of one chunk. */
  function DraftOf(p: Primitives, s: Sending, raw: bytes): Draft
    requires 0 < s.chunkSize && 1 <= ChunkCount(s) < Cryptobox.METADATA_INDEX
  {
    Draft(raw, SealedManifest(p, s), SealedChunks(p, s)[0])
  }

  lemma SealedIsDrafted(p: Primitives, b: Bundle, s: Sending, raw: bytes)
    requires Prepared(p, b, s, raw) && ValidBundle(p, b) && b.id == s.requestID && ChunkCount(s) == 1
    requires 0 < |raw| <= MAX_MANIFEST
    ensures Drafted(p, b, KeyOf(s), DraftOf(p, s, raw)) && [DraftOf(p, s, raw).chunk] == SealedChunks(p, s)
    ensures |DraftOf(p, s, raw).chunk| == |s.file| + 16
  {
    BrowserMatches(p, b, s, raw);
    ManifestIsValid(p, s, b);
    assert SealedChunks(p, s) == [SealedChunks(p, s)[0]];
    hide ValidBundle, ValidManifest, Cryptobox.HeaderSHA256, SealedMetadata, HexEncode;
    SizesAccepted(p, s, b.maxBytes);
    ChunkLengthsMatch(p, s, b.maxBytes, 0);
  }

  function OneByte(): Sending { EmptyFile().(file := [7]) }

  /** The page's manifests for an empty file and for a file of one byte, under one upload id. */
  function TwoTexts(): map<bytes, Sending> { map[[0] := EmptyFile(), [1] := OneByte()] }

  lemma ToyPrepares(raw: bytes)
    requires raw in TwoTexts()
    ensures Prepared(ToyFor(TwoTexts()), SomeBundle(), TwoTexts()[raw], raw)
    ensures ChunkCount(TwoTexts()[raw]) == 1 && TwoTexts()[raw].requestID == SomeBundle().id
    ensures KeyOf(TwoTexts()[raw]) == KeyOf(EmptyFile()) && forall t :: ToyFor(TwoTexts()).parseMetadata(t).Some?
  {
    hide SealedManifest, Lawful;
    ToyReads(TwoTexts(), raw);
  }

  lemma SomeBundleIsUsable(p: Primitives, token: string)
    requires p.validPoint([]) && token != "" && p.sha256(Utf8(token)) == Repeat(0, 32)
    ensures Usable(p, SomeBundle(), token, 5)
  {
    SomeBundleIsValid(p);
    HexRoundTrip(Repeat(0, 32));
    hide ValidBundle, Utf8, HexEncode, HexDecode;
  }

  lemma TwoFiles()
    ensures [0] in TwoTexts() && TwoTexts()[[0]] == EmptyFile()
    ensures [1] in TwoTexts() && TwoTexts()[[1]] == OneByte()
    ensures EmptyFile().file != OneByte().file && KeyOf(OneByte()) == KeyOf(EmptyFile())
    ensures EmptyFile().requestID == SomeID() == OneByte().requestID
    ensures SomeBundle().deleteAfterCollect
  {}

  lemma PreparedSize(p: Primitives, b: Bundle, s: Sending, raw: bytes)
    requires Prepared(p, b, s, raw)
    ensures 0 < s.chunkSize
  {
    hide Lawful, SealedManifest;
  }

  lemma ToyIsDrafted(p: Primitives, b: Bundle, s: Sending, raw: bytes) returns (x: Draft)
    requires p == ToyFor(TwoTexts()) && b == SomeBundle() && raw in TwoTexts() && s == TwoTexts()[raw] && |raw| == 1
    requires ValidBundle(p, b)
    ensures Drafted(p, b, KeyOf(EmptyFile()), x) && |x.chunk| == |s.file| + 16
  {
    hide SealedManifest, SealedChunks, Lawful, ValidBundle, ToyFor, TwoTexts, SomeBundle, Drafted, EmptyFile, OneByte;
    hide Prepared;
    ToyPrepares(raw);
    PreparedSize(p, b, s, raw);
    SealedIsDrafted(p, b, s, raw);
    x := DraftOf(p, s, raw);
  }

  /** The runs above exist: there are a request and two files of different chunk length under one id. */
  lemma SuchFilesExist() returns (p: Primitives, b: Bundle, token: string, k: Key, x: Draft, y: Draft, now: Time)
    ensures Usable(p, b, token, now) && b.deleteAfterCollect
    ensures Drafted(p, b, k, x) && Drafted(p, b, k, y) && |x.chunk| != |y.chunk|
  {
    p, b, token, k, now := ToyFor(TwoTexts()), SomeBundle(), "t", KeyOf(EmptyFile()), 5;
    SomeBundleIsUsable(p, token);
    UsableIsValid(p, b, token, now);
    TwoFiles();
    assert |EmptyFile().file| != |OneByte().file|;
    hide ToyFor, TwoTexts, SomeBundle, EmptyFile, OneByte, ValidBundle, Usable, Drafted;
    x := ToyIsDrafted(p, b, EmptyFile(), [0]);
    y := ToyIsDrafted(p, b, OneByte(), [1]);
  }
}

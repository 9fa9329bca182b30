/** Exactly when the store's chunks fit their manifests, and exactly which uploads escape the quota. */
module StoreLimits {
  import opened Prelude
  import opened Text
  import opened Model
  import opened StoreSpec
  import opened StoreInvariant
  import opened StoreRuns
  import opened StoreTheorems

  // ---------- chunks that fit ----------

  /** The index and the length are those the stored manifest allows. */
  ghost predicate Allowed(p: Primitives, u: Upload, index: int, length: int) {
    && u.manifest.Some? && p.parseManifest(u.manifest.value).Some?
    && var h := p.parseManifest(u.manifest.value).value.header;
       0 <= index < h.chunkCount && length == ChunkLength(h, index)
  }

  ghost predicate ChunksFit(p: Primitives, u: Upload) {
    forall i :: i in u.chunks ==> Allowed(p, u, i, |u.chunks[i]|)
  }

  ghost predicate TicketFits(p: Primitives, d: Disk, t: Ticket) {
    t.key in d.uploads && Allowed(p, d.uploads[t.key], t.index, t.expected)
  }

  /** Every chunk stored for the upload, and every chunk length a handler holds for it, fits the stored manifest. */
  ghost predicate Fit(p: Primitives, w: World, k: Key) {
    && (k in w.disk.uploads ==> ChunksFit(p, w.disk.uploads[k]))
    && (forall t :: t in w.tickets && t.key == k ==> TicketFits(p, w.disk, t))
  }

  lemma StepKeepsFit(p: Primitives, w: World, s: Step, k: Key)
    requires Fit(p, w, k) && s != RemoveUpload(k) && !(s.WriteChunk? && s.key == k)
    ensures Fit(p, Advance(w, s), k)
  {
    hide ChunkLength;
    var v := Advance(w, s);
    if k in w.disk.uploads {
      var u, x := w.disk.uploads[k], v.disk.uploads[k];
      assert x.chunks == u.chunks && (u.manifest.Some? ==> x.manifest == u.manifest);
      forall i, n | Allowed(p, u, i, n) ensures Allowed(p, x, i, n) {}
      forall t | t in v.tickets && t.key == k ensures TicketFits(p, v.disk, t) { assert TicketFits(p, w.disk, t); }
    }
  }

  /** Steps that neither remove the upload nor write a chunk of it. */
  ghost predicate Spares(steps: seq<Step>, k: Key) {
    forall s :: s in steps ==> s != RemoveUpload(k) && !(s.WriteChunk? && s.key == k)
  }

  lemma {:induction false} SparedStaysFit(p: Primitives, w: World, steps: seq<Step>, k: Key)
    requires Fit(p, w, k) && Spares(steps, k)
    ensures Fit(p, AdvanceAll(w, steps), k)
    decreases |steps|
  {
    hide Fit;
    if steps != [] {
      assert steps[0] in steps;
      StepKeepsFit(p, w, steps[0], k);
      SparedStaysFit(p, Advance(w, steps[0]), steps[1..], k);
    }
  }

  predicate WritesNoChunk(steps: seq<Step>, k: Key) {
    forall i :: 0 <= i < |steps| ==> !(steps[i].WriteChunk? && steps[i].key == k)
  }

  lemma BeginWritesNoChunk(d: Disk, b: Bundle, raw: bytes, now: Time, m: Manifest, k: Key)
    ensures WritesNoChunk(BeginLocked(d, now, b, raw, m).steps, k)
  {}

  lemma CompleteWritesNoChunk(p: Primitives, d: Disk, j: Key, now: Time, k: Key)
    ensures WritesNoChunk(Complete(p, d, now, j).steps, k)
  {}

  /** Only PutChunk writes chunks. */
  lemma OnlyCommitsWriteChunks(p: Primitives, w: World, e: Event, k: Key)
    requires !(e.Commit? && e.ticket.key == k)
    ensures WritesNoChunk(PlannedSteps(p, w, e), k)
  {
    match e
    case Import(b) => assert WritesNoChunk(ImportRequest(p, w.disk, b).steps, k);
    case Begin(b, raw, now) =>
      if CheckSetup(p, b, raw).Ok? { BeginWritesNoChunk(w.disk, b, raw, now, CheckSetup(p, b, raw).value, k); }
    case Commit(t, body) => assert WritesNoChunk(PutCommit(w.disk, t.key, t.index, t.expected, body).steps, k);
    case Finish(j, now) => CompleteWritesNoChunk(p, w.disk, j, now, k);
    case Close(id, now) => assert WritesNoChunk(CloseRequest(w.disk, now, id).steps, k);
    case Ack(b, upload, now) => assert WritesNoChunk(Acknowledge(p, w.disk, now, b, upload).steps, k);
    case Purge(_, _, order) => assert WritesNoChunk(RemoveSteps(order), k);
    case _ =>
  }

  lemma CutSpares(steps: seq<Step>, fate: StoreRuns.Fate, k: Key)
    requires WritesNoChunk(steps, k) && RemoveUpload(k) !in Cut(steps, fate)
    ensures Spares(Cut(steps, fate), k)
  {}

  /** A chunk request reads the manifest, so what it learns fits when it learns it. */
  lemma RememberKeepsFit(p: Primitives, w: World, e: Event, k: Key)
    requires Fit(p, w, k)
    ensures Fit(p, Remember(p, w, e), k)
  {
    hide ChunksFit, Authenticate, ChunkLength;
    var v := Remember(p, w, e);
    forall t | t in v.tickets && t.key == k ensures TicketFits(p, v.disk, t) {
      if t in w.tickets { assert TicketFits(p, w.disk, t); }
    }
  }

  lemma CommitKeepsFit(p: Primitives, w: World, m: Move, k: Key)
    requires Fit(p, w, k) && m.event.Commit? && m.event.ticket.key == k
    ensures Fit(p, Next(p, w, m), k)
  {
    hide ChunkLength;
    var t, steps := m.event.ticket, StepsTaken(p, w, m);
    if steps != [] {
      assert steps == [WriteChunk(k, t.index, m.event.body)] && steps[1..] == [];
      assert Next(p, w, m) == AdvanceAll(Advance(w, steps[0]), []);
      assert TicketFits(p, w.disk, t);
      ChunkFits(p, w, t, m.event.body);
    }
  }

  lemma ChunkFits(p: Primitives, w: World, t: Ticket, body: bytes)
    requires Fit(p, w, t.key) && TicketFits(p, w.disk, t) && |body| == t.expected
    ensures Fit(p, Advance(w, WriteChunk(t.key, t.index, body)), t.key)
  {
    hide ChunkLength;
    var v := Advance(w, WriteChunk(t.key, t.index, body));
    var u, x := w.disk.uploads[t.key], v.disk.uploads[t.key];
    forall i, n | Allowed(p, u, i, n) ensures Allowed(p, x, i, n) {}
    forall j | j in v.tickets && j.key == t.key ensures TicketFits(p, v.disk, j) { assert TicketFits(p, w.disk, j); }
  }

  lemma MoveKeepsFit(p: Primitives, w: World, m: Move, k: Key)
    requires Fit(p, w, k) && RemoveUpload(k) !in StepsTaken(p, w, m)
    ensures Fit(p, Next(p, w, m), k)
  {
    hide Fit, PlannedSteps;
    if m.event.Commit? && m.event.ticket.key == k {
      CommitKeepsFit(p, w, m, k);
    } else {
      OnlyCommitsWriteChunks(p, w, m.event, k);
      CutSpares(PlannedSteps(p, w, m.event), m.fate, k);
      RememberKeepsFit(p, w, m.event, k);
      SparedStaysFit(p, Remember(p, w, m.event), StepsTaken(p, w, m), k);
    }
  }

  /** In every run that never removes the upload, every chunk stored and every length held for it is exactly what
      its stored manifest says, so it can never be stuck with a chunk of the wrong length. */
  lemma {:induction false} ChunksFitUntilRemoved(p: Primitives, moves: seq<Move>, k: Key, raw: bytes, i: int)
    requires NeverRemoved(p, START, moves, k)
    ensures var w := Run(p, START, moves); Fit(p, w, k) && !Wedged(p, w.disk, k, raw, i)
  {
    hide ChunkLength;
    if moves != [] {
      var n := |moves| - 1;
      ChunksFitUntilRemoved(p, moves[..n], k, raw, i);
      MoveKeepsFit(p, Run(p, START, moves[..n]), moves[n], k);
    }
    FitIsNotWedged(p, Run(p, START, moves), k, raw, i);
  }

  lemma FitIsNotWedged(p: Primitives, w: World, k: Key, raw: bytes, i: int)
    requires Fit(p, w, k)
    ensures !Wedged(p, w.disk, k, raw, i)
  {
    hide ChunkLength;
    if k in w.disk.uploads && i in w.disk.uploads[k].chunks {
      assert Allowed(p, w.disk.uploads[k], i, |w.disk.uploads[k].chunks[i]|);
    }
  }

  // ---------- exactly when every stored chunk fits ----------

  ghost predicate FitsNow(p: Primitives, d: Disk, k: Key) {
    k in d.uploads ==> ChunksFit(p, d.uploads[k])
  }

  /** A chunk is stored only with a length the manifest still has. */
  ghost predicate LengthIsFresh(p: Primitives, w: World, m: Move, k: Key) {
    m.event.Commit? && m.event.ticket.key == k && StepsTaken(p, w, m) != [] ==> TicketFits(p, w.disk, m.event.ticket)
  }

  lemma StepFitsNow(p: Primitives, w: World, s: Step, k: Key)
    requires FitsNow(p, w.disk, k) && !(s.WriteChunk? && s.key == k)
    ensures FitsNow(p, Advance(w, s).disk, k)
  {
    hide ChunkLength;
    var d := Advance(w, s).disk;
    if k in w.disk.uploads && k in d.uploads {
      var u, x := w.disk.uploads[k], d.uploads[k];
      assert x.chunks == u.chunks && (u.manifest.Some? ==> x.manifest == u.manifest);
      forall i | i in u.chunks ensures Allowed(p, x, i, |x.chunks[i]|) { assert Allowed(p, u, i, |u.chunks[i]|); }
    }
  }

  lemma {:induction false} StepsFitNow(p: Primitives, w: World, steps: seq<Step>, k: Key)
    requires FitsNow(p, w.disk, k) && WritesNoChunk(steps, k)
    ensures FitsNow(p, AdvanceAll(w, steps).disk, k)
    decreases |steps|
  {
    hide FitsNow;
    if steps != [] {
      StepFitsNow(p, w, steps[0], k);
      StepsFitNow(p, Advance(w, steps[0]), steps[1..], k);
    }
  }

  lemma CutWritesNoChunk(steps: seq<Step>, fate: StoreRuns.Fate, k: Key)
    requires WritesNoChunk(steps, k)
    ensures WritesNoChunk(Cut(steps, fate), k)
  {}

  lemma ChunkFitsExactly(p: Primitives, w: World, t: Ticket, body: bytes)
    requires FitsNow(p, w.disk, t.key) && t.key in w.disk.uploads && w.disk.uploads[t.key].chunksDir
        && |body| == t.expected
    ensures FitsNow(p, Advance(w, WriteChunk(t.key, t.index, body)).disk, t.key) <==> TicketFits(p, w.disk, t)
  {
    hide ChunkLength;
    var u := w.disk.uploads[t.key];
    var x := u.(chunks := u.chunks[t.index := body]);
    forall i, n ensures Allowed(p, u, i, n) <==> Allowed(p, x, i, n) {}
    if ChunksFit(p, x) { assert Allowed(p, x, t.index, |x.chunks[t.index]|); }
  }

  lemma MoveFitsExactly(p: Primitives, w: World, m: Move, k: Key)
    requires FitsNow(p, w.disk, k)
    ensures FitsNow(p, Next(p, w, m).disk, k) <==> LengthIsFresh(p, w, m, k)
  {
    hide ChunksFit;
    var steps, r := StepsTaken(p, w, m), Remember(p, w, m.event);
    if m.event.Commit? && m.event.ticket.key == k {
      var t := m.event.ticket;
      if steps != [] {
        assert steps == [WriteChunk(k, t.index, m.event.body)] && steps[1..] == [];
        assert Next(p, w, m) == AdvanceAll(Advance(w, steps[0]), []);
        ChunkFitsExactly(p, w, t, m.event.body);
      }
    } else {
      OnlyCommitsWriteChunks(p, w, m.event, k);
      CutWritesNoChunk(PlannedSteps(p, w, m.event), m.fate, k);
      StepsFitNow(p, r, steps, k);
    }
  }

  ghost predicate AlwaysFits(p: Primitives, moves: seq<Move>, k: Key)
    decreases |moves|
  {
    FitsNow(p, Run(p, START, moves).disk, k) && (moves == [] || AlwaysFits(p, moves[..|moves| - 1], k))
  }

  ghost predicate AlwaysFresh(p: Primitives, moves: seq<Move>, k: Key)
    decreases |moves|
  {
    moves == [] ||
      var n := |moves| - 1;
      AlwaysFresh(p, moves[..n], k) && LengthIsFresh(p, Run(p, START, moves[..n]), moves[n], k)
  }

  /** In every run all stored chunks of an upload fit its manifest at all times exactly if no chunk is stored with a
      length read from a manifest that is there no longer. */
  lemma {:induction false} ChunksFitExactly(p: Primitives, moves: seq<Move>, k: Key)
    ensures AlwaysFits(p, moves, k) <==> AlwaysFresh(p, moves, k)
  {
    hide FitsNow, LengthIsFresh, Next;
    if moves == [] {
      NothingFits(p, k);
    } else {
      var n := |moves| - 1;
      ChunksFitExactly(p, moves[..n], k);
      if AlwaysFits(p, moves[..n], k) { MoveFitsExactly(p, Run(p, START, moves[..n]), moves[n], k); }
    }
  }

  lemma NothingFits(p: Primitives, k: Key)
    ensures FitsNow(p, START.disk, k)
  {}

  // ---------- uploads without a reservation ----------

  /** On disk, but not counted by the quota. */
  ghost predicate Unreserved(d: Disk, k: Key) { k in d.uploads && d.uploads[k].server.None? }

  /** The directory was made by a setup that a crash cut short before server.json, and is still there. */
  ghost predicate LeftByCrash(p: Primitives, moves: seq<Move>, k: Key)
    decreases |moves|
  {
    moves != [] &&
      var n := |moves| - 1;
      var steps := StepsTaken(p, Run(p, START, moves[..n]), moves[n]);
      if RemoveUpload(k) in steps then false
      else if MakeUpload(k) in steps then moves[n].fate.Crash? && moves[n].fate.after < 4
      else LeftByCrash(p, moves[..n], k)
  }

  /** Steps that leave it open whether the upload exists and is reserved. */
  ghost predicate KeepsReservation(steps: seq<Step>, k: Key) {
    forall s :: s in steps ==> s != MakeUpload(k) && s != RemoveUpload(k) && !(s.WriteServer? && s.key == k)
  }

  lemma {:induction false} ReservationUnchanged(w: World, steps: seq<Step>, k: Key)
    requires KeepsReservation(steps, k)
    ensures Unreserved(AdvanceAll(w, steps).disk, k) <==> Unreserved(w.disk, k)
    decreases |steps|
  {
    if steps != [] {
      assert steps[0] in steps;
      ReservationUnchanged(Advance(w, steps[0]), steps[1..], k);
    }
  }

  predicate ReservesNothing(steps: seq<Step>) {
    forall i :: 0 <= i < |steps| ==> !steps[i].MakeUpload? && !steps[i].WriteServer?
  }

  lemma CompleteReservesNothing(p: Primitives, d: Disk, j: Key, now: Time)
    ensures ReservesNothing(Complete(p, d, now, j).steps)
  {}

  /** Only BeginUpload makes uploads and writes server.json. */
  lemma OnlyBeginReserves(p: Primitives, w: World, e: Event)
    requires !e.Begin?
    ensures ReservesNothing(PlannedSteps(p, w, e))
  {
    match e
    case Import(b) => assert ReservesNothing(ImportRequest(p, w.disk, b).steps);
    case Commit(t, body) => assert ReservesNothing(PutCommit(w.disk, t.key, t.index, t.expected, body).steps);
    case Finish(j, now) => CompleteReservesNothing(p, w.disk, j, now);
    case Close(id, now) => assert ReservesNothing(CloseRequest(w.disk, now, id).steps);
    case Ack(b, upload, now) => assert ReservesNothing(Acknowledge(p, w.disk, now, b, upload).steps);
    case Purge(_, _, order) => assert ReservesNothing(RemoveSteps(order));
    case _ =>
  }

  lemma CutReservesNothing(steps: seq<Step>, fate: StoreRuns.Fate)
    requires ReservesNothing(steps)
    ensures ReservesNothing(Cut(steps, fate))
  {}

  /** A setup either does nothing or takes the four steps for an upload that does not exist. */
  lemma BeginSteps(p: Primitives, w: World, e: Event) returns (k: Key, m: Manifest)
    requires e.Begin?
    ensures PlannedSteps(p, w, e) == []
         || (k !in w.disk.uploads && PlannedSteps(p, w, e) == SetupSteps(k, e.raw, m, e.now))
  {
    hide CheckSetup, UsedFiles, UsedBytes, ReplayMatches;
    var checked := CheckSetup(p, e.bundle, e.raw);
    k, m := Key("", ""), Manifest(Header(0, "", "", "", "", "", "", 0, 0, 0), "", "");
    if checked.Ok? {
      m := checked.value;
      k := Key(e.bundle.id, m.header.uploadID);
    }
  }

  lemma SetupCut(w: World, k: Key, raw: bytes, m: Manifest, now: Time, n: nat)
    requires k !in w.disk.uploads && 1 <= n <= 4
    ensures Unreserved(AdvanceAll(w, SetupSteps(k, raw, m, now)[..n]).disk, k) <==> n < 4
  {
    var s := SetupSteps(k, raw, m, now);
    StepsToUpload(w, k, raw);
    var w1 := Advance(w, s[0]);
    var w2 := Advance(w1, s[1]);
    var w3 := Advance(w2, s[2]);
    assert s[..1] == [s[0]] && s[..2] == [s[0], s[1]] && s[..3] == [s[0], s[1], s[2]] && s[..4] == s;
    TakeFour(w, s[0], s[1], s[2], s[3]);
  }

  lemma TakeFour(w: World, a: Step, b: Step, c: Step, d: Step)
    ensures AdvanceAll(w, [a]) == Advance(w, a)
    ensures AdvanceAll(w, [a, b]) == Advance(Advance(w, a), b)
    ensures AdvanceAll(w, [a, b, c]) == Advance(Advance(Advance(w, a), b), c)
    ensures AdvanceAll(w, [a, b, c, d]) == Advance(Advance(Advance(Advance(w, a), b), c), d)
  {
    hide Advance;
    assert [a][1..] == [] && [b][1..] == [] && [c][1..] == [] && [d][1..] == [];
    assert [a, b][1..] == [b] && [b, c][1..] == [c] && [c, d][1..] == [d];
    assert [a, b, c][1..] == [b, c] && [b, c, d][1..] == [c, d] && [a, b, c, d][1..] == [b, c, d];
    var v := Advance(w, a);
    assert AdvanceAll(v, [b]) == AdvanceAll(Advance(v, b), []);
    assert AdvanceAll(v, [b, c]) == AdvanceAll(Advance(v, b), [c]) == AdvanceAll(Advance(Advance(v, b), c), []);
    var x := Advance(Advance(v, b), c);
    assert AdvanceAll(v, [b, c, d]) == AdvanceAll(Advance(v, b), [c, d]) == AdvanceAll(x, [d])
        == AdvanceAll(Advance(x, d), []);
  }

  lemma {:induction false} AdvanceAllSnoc(w: World, steps: seq<Step>, s: Step)
    ensures AdvanceAll(w, steps + [s]) == Advance(AdvanceAll(w, steps), s)
    decreases |steps|
  {
    hide Advance;
    if steps == [] {
      assert [] + [s] == [s] && [s][1..] == [];
    } else {
      assert (steps + [s])[1..] == steps[1..] + [s];
      AdvanceAllSnoc(Advance(w, steps[0]), steps[1..], s);
    }
  }

  lemma {:induction false} StaysAway(w: World, steps: seq<Step>, k: Key)
    requires k !in w.disk.uploads && MakeUpload(k) !in steps
    ensures k !in AdvanceAll(w, steps).disk.uploads
    decreases |steps|
  {
    if steps != [] {
      assert steps[0] in steps;
      StaysAway(Advance(w, steps[0]), steps[1..], k);
    }
  }

  lemma {:induction false} RemovedStaysAway(w: World, steps: seq<Step>, k: Key)
    requires RemoveUpload(k) in steps && MakeUpload(k) !in steps
    ensures k !in AdvanceAll(w, steps).disk.uploads
    decreases |steps|
  {
    assert steps[0] in steps;
    if steps[0] == RemoveUpload(k) {
      StaysAway(Advance(w, steps[0]), steps[1..], k);
    } else {
      RemovedStaysAway(Advance(w, steps[0]), steps[1..], k);
    }
  }

  /** What one move does to the reservation of an upload. */
  ghost predicate MoveReserves(p: Primitives, w: World, m: Move, k: Key) {
    var steps, d := StepsTaken(p, w, m), Next(p, w, m).disk;
    if RemoveUpload(k) in steps then k !in d.uploads
    else if MakeUpload(k) in steps then (Unreserved(d, k) <==> m.fate.Crash? && m.fate.after < 4)
    else Unreserved(d, k) <==> Unreserved(w.disk, k)
  }

  lemma OtherMoveReserves(p: Primitives, w: World, m: Move, k: Key)
    requires !m.event.Begin?
    ensures MoveReserves(p, w, m, k)
  {
    hide PlannedSteps, Unreserved;
    OnlyBeginReserves(p, w, m.event);
    CutReservesNothing(PlannedSteps(p, w, m.event), m.fate);
    var steps, r := StepsTaken(p, w, m), Remember(p, w, m.event);
    if RemoveUpload(k) in steps {
      RemovedStaysAway(r, steps, k);
    } else {
      ReservationUnchanged(r, steps, k);
    }
  }

  lemma SetupMoveReserves(p: Primitives, w: World, m: Move, j: Key, x: Manifest, k: Key)
    requires m.event.Begin? && j !in w.disk.uploads
    requires PlannedSteps(p, w, m.event) == SetupSteps(j, m.event.raw, x, m.event.now)
    ensures MoveReserves(p, w, m, k)
  {
    hide PlannedSteps, Unreserved, InitialState;
    var setup, steps := SetupSteps(j, m.event.raw, x, m.event.now), StepsTaken(p, w, m);
    assert setup[..4] == setup;
    if j != k || steps == [] {
      ReservationUnchanged(w, steps, k);
    } else if m.fate.Fault? && m.fate.after < 4 {
      AdvanceAllSnoc(w, setup[..m.fate.after], RemoveUpload(k));
      assert steps[|steps| - 1] == RemoveUpload(k);
    } else {
      var n := if m.fate.Crash? then Min(m.fate.after, 4) else 4;
      assert steps == setup[..n] && steps[0] == MakeUpload(k);
      SetupCut(w, k, m.event.raw, x, m.event.now, n);
    }
  }

  lemma EveryMoveReserves(p: Primitives, w: World, m: Move, k: Key)
    ensures MoveReserves(p, w, m, k)
  {
    if m.event.Begin? {
      var j, x := BeginSteps(p, w, m.event);
      if PlannedSteps(p, w, m.event) == [] {
        hide PlannedSteps, Unreserved;
        assert StepsTaken(p, w, m) == [];
      } else {
        SetupMoveReserves(p, w, m, j, x, k);
      }
    } else {
      OtherMoveReserves(p, w, m, k);
    }
  }

  /** Exactly the uploads whose setup a crash cut short, and which were not removed since, escape the quota. */
  lemma {:induction false} UnreservedExactly(p: Primitives, moves: seq<Move>, k: Key)
    ensures Unreserved(Run(p, START, moves).disk, k) <==> LeftByCrash(p, moves, k)
  {
    hide Next, StepsTaken;
    if moves != [] {
      var n := |moves| - 1;
      UnreservedExactly(p, moves[..n], k);
      EveryMoveReserves(p, Run(p, START, moves[..n]), moves[n], k);
    }
  }

  ghost predicate NoSetupCrashes(moves: seq<Move>) {
    forall m :: m in moves && m.event.Begin? ==> !m.fate.Crash?
  }

  lemma {:induction false} NothingLeftByCrash(p: Primitives, moves: seq<Move>, k: Key)
    requires NoSetupCrashes(moves)
    ensures !LeftByCrash(p, moves, k)
  {
    hide StepsTaken, Run;
    if moves != [] {
      var n := |moves| - 1;
      NothingLeftByCrash(p, moves[..n], k);
      if !moves[n].event.Begin? { NoMakingElsewhere(p, Run(p, START, moves[..n]), moves[n], k); }
    }
  }

  lemma NoMakingElsewhere(p: Primitives, w: World, m: Move, k: Key)
    requires !m.event.Begin?
    ensures MakeUpload(k) !in StepsTaken(p, w, m)
  {
    hide PlannedSteps;
    OnlyBeginReserves(p, w, m.event);
    CutReservesNothing(PlannedSteps(p, w, m.event), m.fate);
  }

  ghost function AllUploads(uploads: map<Key, Upload>, request: string): set<Key> {
    set k | k in uploads && k.request == request
  }

  /** Where no crash cut a setup short, every upload of a request has its reservation, so the quota bounds all of
      them. */
  lemma QuotaBoundsAll(p: Primitives, moves: seq<Move>, id: string)
    requires ClocksOk(moves) && NoSetupCrashes(moves) && id in Run(p, START, moves).first
    ensures var w := Run(p, START, moves);
      && (forall k :: k in w.disk.uploads ==> w.disk.uploads[k].server.Some?)
      && |AllUploads(w.disk.uploads, id)| <= w.first[id].maxFiles
      && PlainSum(w.disk.uploads, AllUploads(w.disk.uploads, id)) <= w.first[id].maxBytes
  {
    hide Run, PlainSum, LeftByCrash, ValidBundle;
    var w := Run(p, START, moves);
    assert Reachable(p, w);
    QuotaHolds(p, w, id);
    forall k | k in w.disk.uploads ensures w.disk.uploads[k].server.Some? && ValidID(k.upload) {
      UnreservedExactly(p, moves, k);
      NothingLeftByCrash(p, moves, k);
      UploadIDIsValid(p, w, k);
    }
    assert AllUploads(w.disk.uploads, id) == Counted(w.disk.uploads, id);
  }

  lemma UploadIDIsValid(p: Primitives, w: World, k: Key)
    requires Reachable(p, w) && k in w.disk.uploads
    ensures ValidID(k.upload)
  {
    ReachableInv(p, w);
    assert UploadOk(p, w.first, k, w.disk.uploads[k]);
  }
}

/** Over whole runs: uploads begin before their request expires, with manifests every collector can read, and what is
    completed stays where nobody asks for its deletion. */
module Lifetimes {
  import opened Prelude
  import opened Model
  import opened StoreSpec
  import opened StoreInvariant
  import opened StoreRuns
  import opened StoreTheorems
  import opened Delivery
  import Acknowledging
  import Collector
  import Outcomes

  // ---------- nothing begins after the request has expired ----------

  /** No setup directory is made for an expired request, whatever becomes of the operation. */
  lemma NothingBegunLate(p: Primitives, w: World, b: Bundle, raw: bytes, now: Time, fate: Fate, k: Key)
    requires MakeUpload(k) in StepsTaken(p, w, Move(Begin(b, raw, now), fate))
    ensures now < b.expiresAt
  {
    hide BeginUpload;
    Outcomes.ExpiredIsRefused(p, w.disk, now, b, raw);
  }

  /** A reservation is made before its request expires, and a manifest can be read whole by a collector. */
  ghost predicate InTime(first: map<string, Bundle>, s: Step) {
    && (s.WriteServer? ==> s.key.request in first && s.state.createdAt < first[s.key.request].expiresAt)
    && (s.WriteManifest? ==> 0 < |s.raw| <= Collector.MANIFEST_LIMIT)
  }

  ghost predicate TimelyUpload(first: map<string, Bundle>, k: Key, u: Upload) {
    && (u.server.Some? ==> k.request in first && u.server.value.createdAt < first[k.request].expiresAt)
    && (u.manifest.Some? ==> 0 < |u.manifest.value| <= Collector.MANIFEST_LIMIT)
  }

  ghost predicate Timely(w: World) {
    forall k :: k in w.disk.uploads ==> TimelyUpload(w.first, k, w.disk.uploads[k])
  }

  lemma StepInTime(w: World, s: Step)
    requires Timely(w) && InTime(w.first, s)
    ensures Timely(Advance(w, s)) && forall t :: InTime(w.first, t) ==> InTime(Advance(w, s).first, t)
  {
    var v := Advance(w, s);
    forall k | k in v.disk.uploads ensures TimelyUpload(v.first, k, v.disk.uploads[k]) {
      if k in w.disk.uploads { assert TimelyUpload(w.first, k, w.disk.uploads[k]); }
    }
  }

  lemma {:induction false} StepsInTime(w: World, steps: seq<Step>)
    requires Timely(w) && forall s :: s in steps ==> InTime(w.first, s)
    ensures Timely(AdvanceAll(w, steps))
    decreases |steps|
  {
    hide Timely, InTime;
    if steps != [] {
      StepInTime(w, steps[0]);
      StepsInTime(Advance(w, steps[0]), steps[1..]);
    }
  }

  /** Only a setup writes manifests and reservations. */
  predicate NoSetup(steps: seq<Step>) {
    forall i :: 0 <= i < |steps| ==> !steps[i].WriteServer? && !steps[i].WriteManifest?
  }

  lemma OtherPlans(p: Primitives, w: World, e: Event)
    requires !e.Begin?
    ensures NoSetup(PlannedSteps(p, w, e))
  {
    hide ReadManifest, ChunksPresent, MakeReceipt, ReadClosure, ValidBundle;
  }

  lemma BeginInTime(p: Primitives, w: World, b: Bundle, raw: bytes, now: Time)
    requires Inv(p, w) && b in w.seen
    ensures forall s :: s in BeginUpload(p, w.disk, now, b, raw).steps ==> InTime(w.first, s)
  {
    if BeginUpload(p, w.disk, now, b, raw).steps != [] {
      var m := CheckSetup(p, b, raw).value;
      Outcomes.ExpiredIsRefused(p, w.disk, now, b, raw);
      Outcomes.AcceptedID(p, b, raw, m);
      assert b == w.first[b.id];
      hide CheckSetup, Inv;
      assert BeginUpload(p, w.disk, now, b, raw).steps == SetupSteps(Key(b.id, m.header.uploadID), raw, m, now);
    }
  }

  lemma CutInTime(first: map<string, Bundle>, steps: seq<Step>, fate: Fate)
    requires forall s :: s in steps ==> InTime(first, s)
    ensures forall s :: s in Cut(steps, fate) ==> InTime(first, s)
  {}

  lemma MoveInTime(p: Primitives, w: World, m: Move)
    requires Inv(p, w) && ClockOk(m.event) && Timely(w)
    ensures Timely(Next(p, w, m))
  {
    var steps := PlannedSteps(p, w, m.event);
    if m.event.Begin? {
      if m.event.bundle in w.seen { BeginInTime(p, w, m.event.bundle, m.event.raw, m.event.now); }
    } else {
      OtherPlans(p, w, m.event);
    }
    assert forall s :: s in steps ==> InTime(w.first, s);
    hide Inv, PlannedSteps, InTime, Timely;
    CutInTime(w.first, steps, m.fate);
    MoveIsLegalSteps(p, w, m);
    SameTimely(w, Remember(p, w, m.event));
    StepsInTime(Remember(p, w, m.event), StepsTaken(p, w, m));
  }

  lemma SameTimely(w: World, v: World)
    requires Timely(w) && v.disk == w.disk && v.first == w.first
    ensures Timely(v)
  {}

  /** In every reachable state each reservation was made before its request, as first imported, expired, and each
      stored manifest is within what a collector reads. */
  lemma {:induction false} ReservedInTime(p: Primitives, moves: seq<Move>)
    requires ClocksOk(moves)
    ensures Timely(Run(p, START, moves))
  {
    hide Timely;
    if moves == [] {
      assert Timely(START) by { StartInTime(); }
    } else {
      var n := |moves| - 1;
      ReservedInTime(p, moves[..n]);
      StartInv(p);
      RunKeepsInv(p, START, moves[..n]);
      MoveInTime(p, Run(p, START, moves[..n]), moves[n]);
    }
  }

  lemma StartInTime()
    ensures Timely(START)
  {}

  // ---------- what is completed stays where nobody asks for its deletion ----------

  /** The event is no purge of the upload, and no acknowledgement of it that asks for deletion. */
  predicate Sparing(e: Event, k: Key) {
    && (e.Purge? ==> k !in e.order)
    && (e.Ack? && Key(e.bundle.id, e.upload) == k ==> !e.bundle.deleteAfterCollect)
  }

  predicate Removes(steps: seq<Step>, k: Key) { RemoveUpload(k) in steps }

  lemma SparingPlan(p: Primitives, w: World, e: Event, k: Key)
    requires Sparing(e, k)
    ensures !Removes(PlannedSteps(p, w, e), k)
  {
    hide ReadManifest, ChunksPresent, MakeReceipt, ReadClosure, ValidBundle, CheckSetup, ReplayMatches, PurgeSet;
  }

  lemma SparingCut(p: Primitives, w: World, steps: seq<Step>, fate: Fate, k: Key)
    requires !Removes(steps, k) && k in w.disk.uploads && LegalRun(p, w, Cut(steps, fate))
    ensures !Removes(Cut(steps, fate), k)
  {
    if fate.Fault? && 0 < fate.after < |steps| && steps[0].MakeUpload? {
      assert Cut(steps, fate)[0] == steps[0];
      assert Legal(p, w, steps[0]);
    }
  }

  lemma SparingMove(p: Primitives, w: World, m: Move, k: Key)
    requires Inv(p, w) && ClockOk(m.event) && Sparing(m.event, k) && IsComplete(w.disk, k)
    ensures RemoveUpload(k) !in StepsTaken(p, w, m)
    ensures k in Next(p, w, m).disk.uploads && KeepsSubmission(w.disk.uploads[k], Next(p, w, m).disk.uploads[k])
  {
    hide Inv, PlannedSteps, LegalRun, Legal, KeepsSubmission;
    MoveIsLegalSteps(p, w, m);
    SparingPlan(p, w, m.event, k);
    SparingCut(p, Remember(p, w, m.event), PlannedSteps(p, w, m.event), m.fate, k);
    ReceiptMove(p, w, m, k);
  }

  /** Without deletion a completed upload keeps manifest, receipt and chunks in every run, however often it is
      acknowledged, and with crashes and errors at any point. */
  lemma {:induction false} KeptWithoutDeletion(p: Primitives, w: World, moves: seq<Move>, k: Key)
    requires Inv(p, w) && ClocksOk(moves) && IsComplete(w.disk, k)
    requires forall m :: m in moves ==> Sparing(m.event, k)
    ensures var v := Run(p, w, moves);
      k in v.disk.uploads && KeepsSubmission(w.disk.uploads[k], v.disk.uploads[k])
  {
    hide Inv, Next, Sparing;
    if moves != [] {
      var n := |moves| - 1;
      KeptWithoutDeletion(p, w, moves[..n], k);
      RunKeepsInv(p, w, moves[..n]);
      SparingMove(p, Run(p, w, moves[..n]), moves[n], k);
    }
  }

  /** No action purges the upload, and none acknowledges it for a bundle that asks for deletion. */
  ghost predicate SparingAction(y: System, a: Action, k: Key) {
    && (a.Serve? ==> ClockOk(a.move.event) && Sparing(a.move.event, k))
    && (a.Confirm? && a.session < |y.sessions| && y.sessions[a.session].key == k ==> !a.bundle.deleteAfterCollect)
  }

  ghost predicate SparingRun(p: Primitives, keys: Keys, actions: seq<Action>, k: Key)
    decreases |actions|
  {
    actions == [] ||
      var n := |actions| - 1;
      SparingRun(p, keys, actions[..n], k) && SparingAction(History(p, keys, actions[..n]), actions[n], k)
  }

  lemma SparingAct(p: Primitives, keys: Keys, y: System, a: Action, k: Key, u: Upload)
    requires Inv(p, y.world) && SparingAction(y, a, k) && OnStore(y.world.disk, k, u) && u.complete.Some?
    ensures OnStore(Act(p, keys, y, a).world.disk, k, u)
  {
    hide Inv, Next, KeepsSubmission, Delivery.Ready, WithChunk, Record, ReadManifest;
    Acknowledging.StillComplete(y.world.disk, k, u);
    var m := if a.Serve? then Some(a.move)
             else if a.Confirm? && a.session < |y.sessions| then
               Some(Move(Ack(a.bundle, y.sessions[a.session].key.upload, a.now), a.fate)) else None;
    if m.Some? && Act(p, keys, y, a).world != y.world {
      SparingMove(p, y.world, m.value, k);
      Acknowledging.KeptChain(u, y.world.disk.uploads[k], Next(p, y.world, m.value).disk.uploads[k]);
    }
  }

  lemma {:induction false} SparingIsClocked(p: Primitives, keys: Keys, actions: seq<Action>, k: Key)
    requires SparingRun(p, keys, actions, k)
    ensures Acknowledging.Clocked(actions)
  {
    hide History, Sparing;
    if actions != [] {
      var n := |actions| - 1;
      SparingIsClocked(p, keys, actions[..n], k);
      forall a | a in actions && a.Serve? ensures ClockOk(a.move.event) {
        if a in actions[..n] {} else { assert a == actions[n]; }
      }
    }
  }

  /** With any number of collectors: what was completed at some point of the history, of a request collected without
      deletion, is to the end on the store as it was completed. */
  lemma {:induction false} CollectedAndKept(p: Primitives, keys: Keys, actions: seq<Action>, i: nat, k: Key)
    requires SparingRun(p, keys, actions, k)
    requires i <= |actions| && IsComplete(History(p, keys, actions[..i]).world.disk, k)
    ensures OnStore(History(p, keys, actions).world.disk, k, History(p, keys, actions[..i]).world.disk.uploads[k])
    decreases |actions|
  {
    hide History, Act, SparingAction, KeepsSubmission, Inv;
    var u := History(p, keys, actions[..i]).world.disk.uploads[k];
    if i == |actions| {
      assert actions[..i] == actions;
      KeptAsItIs(u);
    } else {
      var n := |actions| - 1;
      assert actions[..n][..i] == actions[..i];
      CollectedAndKept(p, keys, actions[..n], i, k);
      SparingIsClocked(p, keys, actions[..n], k);
      Acknowledging.ClockedOk(p, keys, actions[..n]);
      SparingAct(p, keys, History(p, keys, actions[..n]), actions[n], k, u);
      HistorySnoc(p, keys, actions);
    }
  }

  lemma KeptAsItIs(u: Upload)
    ensures KeepsSubmission(u, u)
  {}

  lemma HistorySnoc(p: Primitives, keys: Keys, actions: seq<Action>)
    requires actions != []
    ensures var n := |actions| - 1;
      History(p, keys, actions) == Act(p, keys, History(p, keys, actions[..n]), actions[n])
  {
    hide Act;
  }
}

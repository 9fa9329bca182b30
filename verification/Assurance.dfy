/** What the receipt on the sender's screen means in the end, with collectors that delete what they collected. */
module Assurance {
  import opened Prelude
  import opened Model
  import opened StoreSpec
  import opened StoreInvariant
  import opened StoreRuns
  import opened StoreTheorems
  import opened Delivery
  import Browser
  import Cryptobox
  import Uploader

  lemma {:induction false} AppliedDisk(w: World, steps: seq<Step>)
    ensures AdvanceAll(w, steps).disk == ApplyAll(w.disk, steps)
    decreases |steps|
  {
    if steps != [] { AppliedDisk(Advance(w, steps[0]), steps[1..]); }
  }

  lemma {:induction false} HonestPrefix(p: Primitives, keys: Keys, actions: seq<Action>, i: nat)
    requires HonestRun(p, keys, actions) && i <= |actions|
    ensures HonestRun(p, keys, actions[..i])
    ensures i < |actions| ==> Honest(p, History(p, keys, actions[..i]), actions[i])
    decreases |actions|
  {
    hide Honest, History;
    if i == |actions| {
      assert actions[..i] == actions;
    } else {
      var n := |actions| - 1;
      HonestPrefix(p, keys, actions[..n], i);
      assert actions[..n][..i] == actions[..i];
    }
  }

  lemma CollectorsKeepLedger(p: Primitives, keys: Keys, y: System, a: Action)
    requires !a.Serve?
    ensures Act(p, keys, y, a).ledger == y.ledger
  {
    hide Opening, WithChunk, Delivery.Ready, ReadManifest, Next;
  }

  lemma ActKeepsLedger(p: Primitives, keys: Keys, y: System, a: Action, k: Key)
    requires SystemOk(p, keys, y) && Honest(p, y, a) && k in y.ledger
    ensures k in Act(p, keys, y, a).ledger && Act(p, keys, y, a).ledger[k] == y.ledger[k]
  {
    if a.Serve? {
      assert EntryOk(p, keys, y.world.disk, y.ledger, y.dirs, k) && ClockOk(a.move.event);
      hide EntryOk, Inv, SessionOk, Record, Next, StepsTaken;
      LedgerGrows(p, keys, y, a.move, k);
    } else {
      hide Act, SystemOk;
      CollectorsKeepLedger(p, keys, y, a);
    }
  }

  /** What was completed stays on record as it was, through every honest run. */
  lemma {:induction false} LedgerStays(p: Primitives, keys: Keys, actions: seq<Action>, i: nat, k: Key)
    requires HonestRun(p, keys, actions) && i <= |actions| && k in History(p, keys, actions[..i]).ledger
    ensures k in History(p, keys, actions).ledger
    ensures History(p, keys, actions).ledger[k] == History(p, keys, actions[..i]).ledger[k]
    decreases |actions|
  {
    hide Honest, Act, SystemOk;
    if i == |actions| {
      assert actions[..i] == actions;
    } else {
      var n := |actions| - 1;
      assert actions[..n][..i] == actions[..i];
      LedgerStays(p, keys, actions[..n], i, k);
      HistoryOk(p, keys, actions[..n]);
      ActKeepsLedger(p, keys, History(p, keys, actions[..n]), actions[n], k);
    }
  }

  /** The upload is on disk with exactly these manifest bytes and chunks. */
  ghost predicate Holds(u: Upload, raw: bytes, chunks: seq<bytes>) {
    u.manifest == Some(raw) && forall j :: 0 <= j < |chunks| ==> j in u.chunks && u.chunks[j] == chunks[j]
  }

  lemma KeptChunks(p: Primitives, k: Key, u: Upload, v: Upload)
    requires Completed(p, k, u) && Completed(p, k, v) && KeepsSubmission(u, v)
    ensures Uploader.StoredChunks(p, u) == Uploader.StoredChunks(p, v)
    ensures Holds(v, u.manifest.value, Uploader.StoredChunks(p, u))
  {
    hide MakeReceipt, ChunkLength;
  }

  lemma KeptHolds(p: Primitives, k: Key, u: Upload, v: Upload)
    requires Completed(p, k, u) && KeepsSubmission(u, v)
    ensures Holds(v, u.manifest.value, Uploader.StoredChunks(p, u))
  {
    hide MakeReceipt, ChunkLength;
  }

  lemma FinishDisk(p: Primitives, keys: Keys, y: System, k: Key, now: Time)
    ensures Act(p, keys, y, Serve(Move(Finish(k, now), Done))).world.disk
         == ApplyAll(y.world.disk, Complete(p, y.world.disk, now, k).steps)
  {
    hide Complete;
    AppliedDisk(y.world, Complete(p, y.world.disk, now, k).steps);
  }

  /** The candidate for a collision found by comparing what was completed with what was sent. */
  ghost function FoundIn(p: Primitives, k: Key, u: Upload, raw: bytes, chunks: seq<bytes>): Option<(bytes, bytes)>
    requires Completed(p, k, u)
  {
    Cryptobox.FindCollision(p, u.manifest.value, Uploader.StoredChunks(p, u), raw, chunks)
  }

  /** An upload whose completion was answered with a certain root is on record with the contents of that root. */
  lemma AnsweredIsRecorded(p: Primitives, keys: Keys, y: System, k: Key, now: Time, raw: bytes, chunks: seq<bytes>)
    requires Lawful(p) && SystemOk(p, keys, y) && Honest(p, y, Serve(Move(Finish(k, now), Done)))
    requires Complete(p, y.world.disk, now, k).result.Ok?
    requires Complete(p, y.world.disk, now, k).result.value.receiptSHA256
          == Cryptobox.ReceiptRoot(p, raw, Cryptobox.Digests(p, chunks))
    ensures var z := Act(p, keys, y, Serve(Move(Finish(k, now), Done)));
      && k in z.ledger && Completed(p, k, z.ledger[k])
      && ((z.ledger[k].manifest == Some(raw) && Uploader.StoredChunks(p, z.ledger[k]) == chunks)
          || Cryptobox.ExhibitsCollision(p, FoundIn(p, k, z.ledger[k], raw, chunks)))
  {
    var m := Move(Finish(k, now), Done);
    var z := Act(p, keys, y, Serve(m));
    ActionKeeps(p, keys, y, Serve(m));
    FinishDisk(p, keys, y, k, now);
    Uploader.ReceiptProvesStorage(p, y.world, k, now, raw, chunks);
    assert EntryOk(p, keys, z.world.disk, z.ledger, z.dirs, k);
    hide Act, Complete, Completed, Inv, SessionOk, Delivered, Honest, Cryptobox.ExhibitsCollision,
        Cryptobox.FindCollision,
         Lawful, Uploader.StoredChunks, Cryptobox.ReceiptRoot, KeepsSubmission;
    var u, v := z.ledger[k], z.world.disk.uploads[k];
    KeptChunks(p, k, u, v);
    SameManifest(u, v);
  }

  lemma SameManifest(u: Upload, v: Upload)
    requires KeepsSubmission(u, v)
    ensures u.manifest == v.manifest
  {}

  /** The receipt root that the page computed for a file it sealed. */
  function PageRoot(p: Primitives, s: Browser.Sending, raw: bytes): string
    requires 0 < s.chunkSize && Browser.ChunkCount(s) < Cryptobox.METADATA_INDEX
  {
    Cryptobox.ReceiptRoot(p, raw, Cryptobox.Digests(p, Browser.SealedChunks(p, s)))
  }

  /** The page's file, for a recipient who can open it. */
  ghost predicate ForRecipient(p: Primitives, keys: Keys, k: Key, s: Browser.Sending, maxBytes: int, raw: bytes) {
    && Lawful(p) && Browser.Sendable(p, s, maxBytes) && Browser.KeyMatches(p, keys(k.request), s)
    && p.parseMetadata(s.metadata).Some? && p.parseManifest(raw) == Some(Browser.SealedManifest(p, s))
  }

  ghost predicate HasFile(dirs: Dirs, file: bytes) {
    exists out, name :: out in dirs && name in dirs[out] && dirs[out][name] == file
  }

  lemma DeliveredHasFile(p: Primitives, keys: Keys, dirs: Dirs, k: Key, u: Upload, s: Browser.Sending, maxBytes: int,
                         raw: bytes)
    requires ForRecipient(p, keys, k, s, maxBytes, raw) && Delivered(p, keys, dirs, k, u)
    requires Completed(p, k, u) && u.manifest == Some(raw) && Uploader.StoredChunks(p, u) == Browser.SealedChunks(p, s)
    ensures HasFile(dirs, s.file)
  {
    var out, name :| out in dirs && name in dirs[out] && Recovers(p, keys(k.request), k, u, dirs[out][name]);
    hide Completed, Recovers, Uploader.StoredChunks, Browser.SealedChunks, Browser.SealedManifest, Lawful,
        Browser.Sendable,
         Browser.KeyMatches, Delivered;
    DeliveredIsTheFile(p, k, u, s, maxBytes, keys(k.request), dirs[out][name]);
  }

  lemma RecordedIsSafe(p: Primitives, keys: Keys, y: System, k: Key, s: Browser.Sending, maxBytes: int, raw: bytes)
    requires k in y.ledger && Completed(p, k, y.ledger[k]) && ForRecipient(p, keys, k, s, maxBytes, raw)
    requires OnStore(y.world.disk, k, y.ledger[k]) || Delivered(p, keys, y.dirs, k, y.ledger[k])
    requires y.ledger[k].manifest == Some(raw) && Uploader.StoredChunks(p, y.ledger[k]) == Browser.SealedChunks(p, s)
    ensures Safe(p, y, k, s, raw)
  {
    hide Completed, Browser.SealedChunks, Uploader.StoredChunks, ForRecipient, Delivered, KeepsSubmission, Holds,
        HasFile;
    if Delivered(p, keys, y.dirs, k, y.ledger[k]) {
      DeliveredHasFile(p, keys, y.dirs, k, y.ledger[k], s, maxBytes, raw);
    } else {
      KeptHolds(p, k, y.ledger[k], y.world.disk.uploads[k]);
    }
  }

  /** The store holds exactly the page's manifest and chunks, or the file itself is in a recipient's directory. */
  ghost predicate Safe(p: Primitives, y: System, k: Key, s: Browser.Sending, raw: bytes)
    requires 0 < s.chunkSize && Browser.ChunkCount(s) < Cryptobox.METADATA_INDEX
  {
    || (k in y.world.disk.uploads && Holds(y.world.disk.uploads[k], raw, Browser.SealedChunks(p, s)))
    || HasFile(y.dirs, s.file)
  }

  /** The completion at this point of the history was answered with the root the page computed for its file. */
  ghost predicate Answered(p: Primitives, keys: Keys, before: seq<Action>, k: Key, now: Time, s: Browser.Sending,
                           raw: bytes)
    requires 0 < s.chunkSize && Browser.ChunkCount(s) < Cryptobox.METADATA_INDEX
  {
    var answer := Complete(p, History(p, keys, before).world.disk, now, k).result;
    answer.Ok? && answer.value.receiptSHA256 == PageRoot(p, s, raw)
  }

  /** In every honest run in which the completion of an upload was answered with the root the page computed for its
      file: to the end the store holds exactly the page's manifest and chunks, or the file itself is in a recipient's
      directory; or else comparing what was completed with what the page sent finds a SHA-256 collision. */
  lemma ReceiptMeansSafe(p: Primitives, keys: Keys, actions: seq<Action>, i: nat, k: Key, now: Time,
                         s: Browser.Sending, maxBytes: int, raw: bytes)
    requires HonestRun(p, keys, actions) && i < |actions| && actions[i] == Serve(Move(Finish(k, now), Done))
    requires ForRecipient(p, keys, k, s, maxBytes, raw) && Answered(p, keys, actions[..i], k, now, s, raw)
    ensures var y := History(p, keys, actions);
      && k in y.ledger && Completed(p, k, y.ledger[k])
      && (|| Safe(p, y, k, s, raw)
          || Cryptobox.ExhibitsCollision(p, FoundIn(p, k, y.ledger[k], raw, Browser.SealedChunks(p, s))))
  {
    var chunks, before := Browser.SealedChunks(p, s), History(p, keys, actions[..i]);
    HonestPrefix(p, keys, actions, i);
    HistoryOk(p, keys, actions[..i]);
    HistoryStep(p, keys, actions, i);
    hide History, HonestRun, Honest, Act, SystemOk, Complete, Completed, Cryptobox.ReceiptRoot,
        Cryptobox.ExhibitsCollision,
         Browser.SealedChunks, Uploader.StoredChunks, FoundIn, Delivered, OnStore, Safe, Browser.Sendable,
             Browser.KeyMatches,
             Lawful;
    AnsweredIsRecorded(p, keys, before, k, now, raw, chunks);
    LedgerStays(p, keys, actions, i + 1, k);
    NothingIsLost(p, keys, actions, k);
    var u := History(p, keys, actions).ledger[k];
    if u.manifest == Some(raw) && Uploader.StoredChunks(p, u) == chunks {
      RecordedIsSafe(p, keys, History(p, keys, actions), k, s, maxBytes, raw);
    }
  }

  lemma HistoryStep(p: Primitives, keys: Keys, actions: seq<Action>, i: nat)
    requires i < |actions|
    ensures History(p, keys, actions[..i + 1]) == Act(p, keys, History(p, keys, actions[..i]), actions[i])
  {
    hide Act;
    assert actions[..i + 1][..i] == actions[..i];
  }
}

/** The store itself: methods that read and change the disk under the lock, step by step
    (internal/store/store.go). Each is proved to carry out its plan in StoreSpec. */
module StoreServer {
  import opened Prelude
  import opened Text
  import opened Model
  import opened StoreSpec
  import Cryptobox

  lemma {:induction false} ApplyAllSnoc(d: Disk, steps: seq<Step>, s: Step)
    ensures ApplyAll(d, steps + [s]) == Apply(ApplyAll(d, steps), s)
    decreases |steps|
  {
    if steps == [] {
      assert steps + [s] == [s];
      assert ApplyAll(Apply(d, s), [s][1..]) == Apply(d, s);
    } else {
      assert (steps + [s])[1..] == steps[1..] + [s];
      ApplyAllSnoc(Apply(d, steps[0]), steps[1..], s);
    }
  }

  lemma {:induction false} PlainSumRemove(uploads: map<Key, Upload>, keys: set<Key>, k: Key)
    requires k in keys
    ensures PlainSum(uploads, keys) == PlainOf(uploads, k) + PlainSum(uploads, keys - {k})
    decreases keys
  {
    var j :| j in keys && PlainSum(uploads, keys) == PlainOf(uploads, j) + PlainSum(uploads, keys - {j});
    if j != k {
      PlainSumRemove(uploads, keys - {j}, k);
      PlainSumRemove(uploads, keys - {k}, j);
      assert keys - {j} - {k} == keys - {k} - {j};
    }
  }

  class Store {
    const p: Primitives
    var disk: Disk
    /** Every atomic step taken so far. */
    ghost var journal: seq<Step>

    constructor (p: Primitives)
      ensures this.p == p && disk == Disk(map[], map[], map[], map[]) && journal == []
    {
      this.p := p;
      disk := Disk(map[], map[], map[], map[]);
      journal := [];
    }

    /** The plan ran to its end and nothing else happened. */
    ghost predicate Performed<T>(before: Disk, past: seq<Step>, plan: Plan<T>, result: Result<T, Error>)
      reads this
    {
      result == plan.result && disk == ApplyAll(before, plan.steps) && journal == past + plan.steps
    }

    method Do(s: Step)
      modifies this
      ensures disk == Apply(old(disk), s) && journal == old(journal) + [s]
    {
      disk := Apply(disk, s);
      journal := journal + [s];
    }

    method ImportRequest(b: Bundle) returns (result: Result<(), Error>)
      modifies this
      ensures Performed(old(disk), old(journal), StoreSpec.ImportRequest(p, old(disk), b), result)
    {
      if !ValidBundle(p, b) { return Err(Invalid); }
      if b.id in disk.active { return Err(Conflict); }
      ApplyAllSnoc(disk, [], WriteBundle(b));
      Do(WriteBundle(b));
      return Ok(());
    }

    method CloseRequest(now: Time, id: string) returns (result: Result<Closure, Error>)
      modifies this
      ensures Performed(old(disk), old(journal), StoreSpec.CloseRequest(old(disk), now, id), result)
    {
      if !ValidID(id) { return Err(NotFound); }
      var recorded := ReadClosure(disk, id);
      if recorded.Err? && recorded.error != NotFound { return Err(recorded.error); }
      var activeExists, closedExists := id in disk.active, id in disk.closed;
      if !activeExists && !closedExists { return Err(NotFound); }
      if activeExists && closedExists { return Err(Conflict); }
      var closure := if recorded.Ok? then recorded.value else Closure(SCHEMA_VERSION, id, now);
      ghost var steps := [];
      if recorded.Err? {
        ApplyAllSnoc(disk, [], WriteMarker(closure));
        steps := [WriteMarker(closure)];
        Do(WriteMarker(closure));
      }
      if activeExists {
        ApplyAllSnoc(old(disk), steps, MoveBundle(id));
        Do(MoveBundle(id));
      }
      return Ok(closure);
    }

    /** Walks the request's directory with two accumulators. */
    method Usage(request: string) returns (files: int, bytes: int)
      ensures files == UsedFiles(disk, request) && bytes == UsedBytes(disk, request)
    {
      ghost var all := Counted(disk.uploads, request);
      var entries := set k | k in disk.uploads && k.request == request;
      files, bytes := 0, 0;
      ghost var left := all;
      while entries != {}
        invariant left == set k | k in entries && k in all
        invariant left <= all && entries <= disk.uploads.Keys
        invariant forall k :: k in entries ==> k.request == request
        invariant files + |left| == |all|
        invariant bytes + PlainSum(disk.uploads, left) == PlainSum(disk.uploads, all)
        decreases |entries|
      {
        var k :| k in entries;
        if ValidID(k.upload) && disk.uploads[k].server.Some? {
          PlainSumRemove(disk.uploads, left, k);
          files := files + 1;
          bytes := bytes + disk.uploads[k].server.value.plainSize;
        } else {
          assert left - {k} == left;
        }
        entries := entries - {k};
        left := left - {k};
      }
      assert left == {};
    }

    method BeginUpload(now: Time, b: Bundle, raw: bytes) returns (result: Result<Manifest, Error>)
      modifies this
      ensures Performed(old(disk), old(journal), StoreSpec.BeginUpload(p, old(disk), now, b, raw), result)
    {
      var checked := CheckSetup(p, b, raw);
      if checked.Err? { return checked; }
      var m := checked.value;
      if b.id in disk.markers { return Err(Closed); }
      if b.expiresAt <= now { return Err(Expired); }
      var k := Key(b.id, m.header.uploadID);
      if k in disk.uploads {
        return if ReplayMatches(disk.uploads[k], m, raw) then Ok(m) else Err(Conflict);
      }
      var files, used := Usage(b.id);
      if files >= b.maxFiles || m.header.plainSize > b.maxBytes - used { return Err(Quota); }
      Setup(k, raw, m, now);
      return Ok(m);
    }

    method Setup(k: Key, raw: bytes, m: Manifest, now: Time)
      modifies this
      ensures disk == ApplyAll(old(disk), SetupSteps(k, raw, m, now))
      ensures journal == old(journal) + SetupSteps(k, raw, m, now)
    {
      SetupInOrder(disk, k, raw, m, now);
      Do(MakeUpload(k));
      Do(MakeChunksDir(k));
      Do(WriteManifest(k, raw));
      Do(WriteServer(k, InitialState(m, now)));
    }

    static lemma SetupInOrder(d: Disk, k: Key, raw: bytes, m: Manifest, now: Time)
      ensures ApplyAll(d, SetupSteps(k, raw, m, now))
           == Apply(Apply(Apply(Apply(d, MakeUpload(k)), MakeChunksDir(k)), WriteManifest(k, raw)),
                    WriteServer(k, InitialState(m, now)))
    {
      var s := SetupSteps(k, raw, m, now);
      assert s == ([s[0], s[1], s[2]]) + [s[3]] && [s[0], s[1], s[2]] == [s[0], s[1]] + [s[2]];
      assert [s[0], s[1]] == [s[0]] + [s[1]] && [s[0]] == [] + [s[0]];
      ApplyAllSnoc(d, [], s[0]);
      ApplyAllSnoc(d, [s[0]], s[1]);
      ApplyAllSnoc(d, [s[0], s[1]], s[2]);
      ApplyAllSnoc(d, [s[0], s[1], s[2]], s[3]);
    }

    method PutCommit(k: Key, index: int, expected: int, body: bytes) returns (result: Result<(), Error>)
      modifies this
      ensures Performed(old(disk), old(journal), StoreSpec.PutCommit(old(disk), k, index, expected, body), result)
    {
      if k.request in disk.markers { return Err(Closed); }
      if k in disk.uploads && index in disk.uploads[k].chunks { return Err(Conflict); }
      if k !in disk.uploads || !disk.uploads[k].chunksDir { return Err(Internal); }
      if |body| != expected { return Err(Invalid); }
      ApplyAllSnoc(disk, [], WriteChunk(k, index, body));
      Do(WriteChunk(k, index, body));
      return Ok(());
    }

    /** Without interleaving, the unlocked read and the locked part see the same disk. */
    method PutChunk(k: Key, index: int, contentLength: int, body: bytes) returns (result: Result<(), Error>)
      modifies this
      ensures var ready := PutPrepare(p, old(disk), k, index, contentLength);
        Performed(old(disk), old(journal), if ready.Err? then Plan([], Err(ready.error))
                  else StoreSpec.PutCommit(old(disk), k, index, ready.value, body), result)
    {
      var ready := PutPrepare(p, disk, k, index, contentLength);
      if ready.Err? { return Err(ready.error); }
      result := PutCommit(k, index, ready.value, body);
    }

    /** Looks at every chunk in order, gathering its digest and its length. */
    static method Gather(p: Primitives, h: Header, chunks: map<int, bytes>)
      returns (ok: bool, digests: seq<bytes>, cipherBytes: nat)
      ensures ok == ChunksPresent(h, chunks)
      ensures ok ==> var list := ChunkList(chunks, Max(0, h.chunkCount));
        digests == Cryptobox.Digests(p, list) && cipherBytes == TotalLength(list)
    {
      ok, digests, cipherBytes := true, [], 0;
      for i := 0 to Max(0, h.chunkCount)
        invariant forall j :: 0 <= j < i ==> j in chunks && |chunks[j]| == ChunkLength(h, j)
        invariant ok
        invariant digests == Cryptobox.Digests(p, ChunkList(chunks, i))
        invariant cipherBytes == TotalLength(ChunkList(chunks, i))
      {
        if i !in chunks || |chunks[i]| != ChunkLength(h, i) {
          ok := false;
          return;
        }
        assert ChunkList(chunks, i + 1)[..i] == ChunkList(chunks, i);
        digests := digests + [p.sha256(chunks[i])];
        cipherBytes := cipherBytes + |chunks[i]|;
      }
    }

    method Complete(now: Time, k: Key) returns (result: Result<Receipt, Error>)
      modifies this
      ensures Performed(old(disk), old(journal), StoreSpec.Complete(p, old(disk), now, k), result)
    {
      if k.request in disk.markers { return Err(Closed); }
      if k in disk.uploads && disk.uploads[k].complete.Some? { return Ok(disk.uploads[k].complete.value); }
      var read := ReadManifest(p, disk, k);
      if read.Err? { return Err(read.error); }
      result := Certify(now, k, read.value.0.header, read.value.1);
    }

    /** Checks every chunk, and writes the receipt if none is missing or of the wrong length. */
    method Certify(now: Time, k: Key, h: Model.Header, raw: bytes) returns (result: Result<Receipt, Error>)
      requires k in disk.uploads
      modifies this
      ensures Performed(old(disk), old(journal), Certified(p, now, k, h, raw, old(disk).uploads[k].chunks), result)
    {
      var ok, digests, cipherBytes := Gather(p, h, disk.uploads[k].chunks);
      if !ok { return Err(Conflict); }
      var root := Cryptobox.ComputeReceiptRoot(p, raw, digests);
      var receipt := Receipt(1, k.request, k.upload, now, h.plainSize, cipherBytes, h.chunkCount, root, false);
      ApplyAllSnoc(disk, [], WriteReceipt(k, receipt));
      Do(WriteReceipt(k, receipt));
      return Ok(receipt);
    }

    method Acknowledge(now: Time, b: Bundle, upload: string) returns (result: Result<(), Error>)
      modifies this
      ensures Performed(old(disk), old(journal), StoreSpec.Acknowledge(p, old(disk), now, b, upload), result)
    {
      if !ValidBundle(p, b) || !ValidID(upload) { return Err(Invalid); }
      var k := Key(b.id, upload);
      if k !in disk.uploads || disk.uploads[k].complete.None? { return Err(NotFound); }
      ghost var steps := [];
      if disk.uploads[k].acknowledged.None? {
        ApplyAllSnoc(disk, [], WriteAck(k, now));
        steps := [WriteAck(k, now)];
        Do(WriteAck(k, now));
      }
      if b.deleteAfterCollect {
        ApplyAllSnoc(old(disk), steps, RemoveUpload(k));
        Do(RemoveUpload(k));
      }
      return Ok(());
    }

    /** What a purge has done so far: it reported the keys, and removed them in some order unless it is a dry run. */
    ghost predicate Purged(d: Disk, past: seq<Step>, apply: bool, reported: set<Key>, order: seq<Key>)
      reads this
    {
      && disk == d.(uploads := d.uploads - if apply then reported else {})
      && journal == past + (if apply then RemoveSteps(order) else [])
      && (forall k :: k in order <==> k in reported)
    }

    /** Walks requests and their uploads; a dry run only reports. */
    method Purge(apply: bool, now: Time, stale: int) returns (reported: set<Key>, ghost order: seq<Key>)
      modifies this
      ensures reported == PurgeSet(old(disk), now, stale)
      ensures Purged(old(disk), old(journal), apply, reported, order)
    {
      reported, order := {}, [];
      ghost var d := disk;
      assert d.uploads - {} == d.uploads;
      var requests := set k | k in disk.uploads :: k.request;
      while requests != {}
        invariant Purged(d, old(journal), apply, reported, order)
        invariant reported == set k | k in PurgeSet(d, now, stale) && k.request !in requests
        decreases requests
      {
        var r :| r in requests;
        reported, order := PurgeRequest(apply, now, stale, r, reported, d, PurgeSet(d, now, stale), order,
            old(journal));
        requests := requests - {r};
      }
      assert reported == PurgeSet(d, now, stale);
    }

    static ghost function UploadsOf(d: Disk, r: string): set<Key> { set k | k in d.uploads && k.request == r }

    method PurgeRequest(apply: bool, now: Time, stale: int, r: string, before: set<Key>,
                        ghost d: Disk, ghost doomed: set<Key>, ghost done: seq<Key>, ghost past: seq<Step>)
      returns (reported: set<Key>, ghost order: seq<Key>)
      requires Purged(d, past, apply, before, done)
      requires forall k :: k in before ==> k.request != r
      requires forall k :: k in d.uploads ==> (k in doomed <==> Purgeable(d, now, stale, k))
      modifies this
      ensures Purged(d, past, apply, reported, order)
      ensures reported == before + UploadsOf(d, r) * doomed
    {
      reported, order := before, done;
      var entries := set k | k in disk.uploads && k.request == r;
      ghost var all := UploadsOf(d, r);
      assert entries == all;
      assert before + (all - entries) * doomed == before;
      while entries != {}
        invariant entries <= all && entries !! reported
        invariant Purged(d, past, apply, reported, order)
        invariant reported == before + (all - entries) * doomed
        decreases entries
      {
        var k :| k in entries;
        PurgeProgress(before, all, entries, doomed, k);
        reported, order := PurgeEntry(apply, now, stale, k, reported, d, doomed, order, past);
        entries := entries - {k};
      }
    }

    method PurgeEntry(apply: bool, now: Time, stale: int, k: Key, before: set<Key>,
                      ghost d: Disk, ghost doomed: set<Key>, ghost done: seq<Key>, ghost past: seq<Step>)
      returns (reported: set<Key>, ghost order: seq<Key>)
      requires Purged(d, past, apply, before, done) && k in d.uploads && k !in before
      requires k in doomed <==> Purgeable(d, now, stale, k)
      modifies this
      ensures Purged(d, past, apply, reported, order)
      ensures reported == before + {k} * doomed
    {
      reported, order := before, done;
      PurgeableFrame(d, disk, now, stale, k);
      if Purgeable(disk, now, stale, k) {
        PurgeOne(d.uploads, before, done, k);
        reported, order := before + {k}, done + [k];
        if apply { Do(RemoveUpload(k)); }
      }
    }

    static lemma PurgeProgress(before: set<Key>, all: set<Key>, entries: set<Key>, doomed: set<Key>, k: Key)
      requires k in entries && entries <= all
      ensures before + (all - entries) * doomed + {k} * doomed == before + (all - (entries - {k})) * doomed
    {
      assert all - (entries - {k}) == (all - entries) + {k};
    }

    static lemma PurgeableFrame(d: Disk, e: Disk, now: Time, stale: int, k: Key)
      requires k in d.uploads && k in e.uploads && d.uploads[k] == e.uploads[k]
      requires d.active == e.active && d.closed == e.closed
      ensures Purgeable(d, now, stale, k) == Purgeable(e, now, stale, k)
    {}

    static lemma PurgeOne(uploads: map<Key, Upload>, reported: set<Key>, order: seq<Key>, k: Key)
      requires k !in reported
      ensures uploads - (reported + {k}) == (uploads - reported) - {k}
      ensures RemoveSteps(order + [k]) == RemoveSteps(order) + [RemoveUpload(k)]
    {}
  }
}

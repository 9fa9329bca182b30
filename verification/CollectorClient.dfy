/** The collector at work on an output directory: single submissions and batches. */
module CollectorClient {
  import opened Prelude
  import opened Text
  import opened Model
  import opened Cryptobox
  import opened Retry
  import opened Filename
  import opened Publish
  import opened Collector
  import Waiting

  // ---------- a batch, as a function ----------

  /** The directory after the attempted jobs, and one result for each of them, in order. */
  datatype Batch = Batch(dir: map<string, bytes>, results: seq<Collected>)

  /** After which results Collect gives up: fail-fast, trouble with the output, or a cancelled context. */
  predicate Stops(failFast: bool, cancelled: bool, result: Collected) {
    result.error.Some? && (failFast || result.error == Some(OutputFailed) || cancelled)
  }

  function CollectBatch(dir: map<string, bytes>, items: seq<Item>, acknowledge: bool, failFast: bool): (batch: Batch)
    ensures |batch.results| <= |items|
    decreases |items|
  {
    if items == [] then Batch(dir, [])
    else
      var (result, after) := Save(dir, items[0], acknowledge);
      if Stops(failFast, items[0].cancelled, result) then Batch(after, [result])
      else
        var rest := CollectBatch(after, items[1..], acknowledge, failFast);
        Batch(rest.dir, [result] + rest.results)
  }

  lemma SaveAddsOnePath(dir: map<string, bytes>, item: Item, acknowledge: bool)
    ensures var (result, after) := Save(dir, item, acknowledge);
      after.Keys == dir.Keys + if result.path.Some? then {result.path.value} else {}
  {}

  /** The batch after its first results. */
  function Joined(results: seq<Collected>, rest: Batch): Batch { Batch(rest.dir, results + rest.results) }

  lemma BatchStep(dir: map<string, bytes>, items: seq<Item>, results: seq<Collected>, acknowledge: bool, failFast: bool)
    ensures var b := CollectBatch(dir, items, acknowledge, failFast);
      if items == [] then Joined(results, b) == Batch(dir, results)
      else
        var (result, after) := Save(dir, items[0], acknowledge);
        Joined(results, b) == if Stops(failFast, items[0].cancelled, result) then Batch(after, results + [result])
                              else Joined(results + [result], CollectBatch(after, items[1..], acknowledge, failFast))
  {
    hide Save;
    if items != [] {
      var (result, after) := Save(dir, items[0], acknowledge);
      var rest := CollectBatch(after, items[1..], acknowledge, failFast).results;
      assert results + ([result] + rest) == (results + [result]) + rest;
    }
  }

  /** No cancellation and no trouble with the output directory. */
  predicate Undisturbed(item: Item) {
    item.checked != Err(OutputFailed) && item.brokenLinks == {} && !item.cancelled
  }

  /** With room in the directory an undisturbed collection saves exactly when the submission verifies. */
  lemma UndisturbedOne(dir: map<string, bytes>, item: Item, acknowledge: bool)
    requires Undisturbed(item) && |dir| < MAX_NAME_COLLISIONS
    ensures var (result, after) := Save(dir, item, acknowledge);
      && !Stops(false, item.cancelled, result)
      && (result.path.Some? <==> item.checked.Ok?)
      && (result.path.Some? ==> (result.path.value !in dir && after == dir[result.path.value := item.checked.value.1]))
      && (result.path.None? ==> after == dir)
      && |after| <= |dir| + 1
  {
    if item.checked.Ok? {
      RoomEnough(dir.Keys, item.checked.value.0);
      DestinationIsFree(dir.Keys, {}, item.checked.value.0, 1);
    }
  }

  /** Job i was treated on its own merits: saved exactly when it verifies, and then with its own plaintext. */
  ghost predicate OwnMerits(before: map<string, bytes>, item: Item, result: Collected, after: map<string, bytes>) {
    && (result.path.Some? <==> item.checked.Ok?)
    && (result.path.Some? ==> (
          && result.path.value !in before && result.path.value in after
          && after[result.path.value] == item.checked.value.1))
  }

  ghost predicate Extends(before: map<string, bytes>, after: map<string, bytes>) {
    forall name :: name in before ==> name in after && after[name] == before[name]
  }

  /** Batch isolation: without fail-fast, cancellation or output trouble every submission is attempted and each
      is treated on its own merits, whatever happens to the others; nothing already there changes. */
  lemma {:induction false} BatchIsolation(dir: map<string, bytes>, items: seq<Item>, acknowledge: bool)
    requires forall i :: 0 <= i < |items| ==> Undisturbed(items[i])
    requires |dir| + |items| <= MAX_NAME_COLLISIONS
    ensures var b := CollectBatch(dir, items, acknowledge, false);
      && |b.results| == |items| && Extends(dir, b.dir)
      && forall i :: 0 <= i < |items| ==> OwnMerits(dir, items[i], b.results[i], b.dir)
    decreases |items|
  {
    if items != [] {
      var (result, after) := Save(dir, items[0], acknowledge);
      UndisturbedOne(dir, items[0], acknowledge);
      BatchIsolation(after, items[1..], acknowledge);
      var rest := CollectBatch(after, items[1..], acknowledge, false);
      var b := CollectBatch(dir, items, acknowledge, false);
      assert Extends(dir, after);
      forall i | 0 <= i < |items| ensures OwnMerits(dir, items[i], b.results[i], b.dir) {
        if i > 0 {
          assert items[i] == items[1..][i - 1] && b.results[i] == rest.results[i - 1];
          assert OwnMerits(after, items[1..][i - 1], rest.results[i - 1], rest.dir);
        }
      }
    }
  }

  function ItemsOf(p: Primitives, key: KeyFile, policy: Policy, jobs: seq<Job>): (items: seq<Item>)
    ensures |items| == |jobs|
    ensures forall i :: 0 <= i < |jobs| ==> items[i] == ItemOf(p, key, policy, jobs[i])
  {
    seq(|jobs|, i requires 0 <= i < |jobs| => ItemOf(p, key, policy, jobs[i]))
  }

  /** The upload ids of the saved submissions, in order. */
  function SavedIDs(jobs: seq<Job>, results: seq<Collected>): seq<string>
    requires |results| <= |jobs|
  {
    if results == [] then []
    else
      var n := |results| - 1;
      SavedIDs(jobs, results[..n]) + if results[n].path.Some? then [jobs[n].receipt.uploadID] else []
  }

  lemma NothingSaved(jobs: seq<Job>)
    ensures SavedIDs(jobs, []) == []
  {}

  lemma SavedSnoc(jobs: seq<Job>, results: seq<Collected>, result: Collected)
    requires |results| < |jobs|
    ensures SavedIDs(jobs, results + [result])
         == SavedIDs(jobs, results) + if result.path.Some? then [jobs[|results|].receipt.uploadID] else []
  {
    assert (results + [result])[..|results|] == results;
  }

  /** A batch ends early exactly at the first failure after which the source gives up: any with fail-fast, and without
      it trouble with the output or a cancelled context. */
  lemma {:induction false} BatchEndsExactly(dir: map<string, bytes>, items: seq<Item>, acknowledge: bool,
                                            failFast: bool)
    ensures var results := CollectBatch(dir, items, acknowledge, failFast).results;
      && (forall i :: 0 <= i < |results| - 1 && results[i].error.Some? ==>
            !failFast && results[i].error != Some(OutputFailed) && !items[i].cancelled)
      && (|results| < |items| ==> (
            && results != []
            && var n := |results| - 1;
               results[n].error.Some? && (failFast || results[n].error == Some(OutputFailed) || items[n].cancelled)))
    decreases |items|
  {
    hide Save;
    if items != [] {
      var (result, after) := Save(dir, items[0], acknowledge);
      if !Stops(failFast, items[0].cancelled, result) {
        BatchEndsExactly(after, items[1..], acknowledge, failFast);
        var rest := CollectBatch(after, items[1..], acknowledge, failFast).results;
        assert forall i :: 0 < i < |items| ==> items[i] == items[1..][i - 1];
        assert forall i :: 0 < i <= |rest| ==> ([result] + rest)[i] == rest[i - 1];
      }
    }
  }

  /** The receipt was selected and its submission treated on its own merits. */
  ghost predicate HasResult(p: Primitives, key: KeyFile, policy: Policy, jobOf: Receipt -> Job,
                            before: map<string, bytes>, selected: seq<Receipt>, b: Batch, r: Receipt)
  {
    exists i :: 0 <= i < |selected| && i < |b.results| && selected[i] == r
                && OwnMerits(before, ItemOf(p, key, policy, jobOf(r)), b.results[i], b.dir)
  }

  /** Nothing interferes with any of the submissions, and there is room for all of them. */
  ghost predicate Calm(p: Primitives, key: KeyFile, policy: Policy, jobOf: Receipt -> Job, dir: map<string, bytes>,
                       list: seq<Receipt>)
  {
    && |dir| + |list| <= MAX_NAME_COLLISIONS
    && forall r :: r in list ==> Undisturbed(ItemOf(p, key, policy, jobOf(r)))
  }

  /** Collecting without ids leaves out no unacknowledged submission of the list. */
  lemma EveryPendingHasResult(p: Primitives, key: KeyFile, policy: Policy, jobOf: Receipt -> Job,
                              dir: map<string, bytes>, list: seq<Receipt>, acknowledge: bool)
    requires Calm(p, key, policy, jobOf, dir, list)
    ensures var selected := Waiting.Select(list, []).0;
      var b := CollectBatch(dir, ItemsOf(p, key, policy, JobsOf(jobOf, selected)), acknowledge, false);
      && |b.results| == |selected|
      && forall r :: r in list && !r.acknowledged ==> HasResult(p, key, policy, jobOf, dir, selected, b, r)
  {
    hide Undisturbed, CollectBatch, ItemOf, OwnMerits, Waiting.Select;
    var selected := Waiting.Select(list, []).0;
    var items := ItemsOf(p, key, policy, JobsOf(jobOf, selected));
    var places := Waiting.PendingPlaces(list);
    PlacesAreFew(places, |list|);
    forall i | 0 <= i < |items| ensures Undisturbed(items[i]) { assert list[places[i]] in list; }
    BatchIsolation(dir, items, acknowledge);
    var b := CollectBatch(dir, items, acknowledge, false);
    forall r | r in list && !r.acknowledged ensures HasResult(p, key, policy, jobOf, dir, selected, b, r) {
      var j :| 0 <= j < |list| && list[j] == r;
      var i :| 0 <= i < |places| && places[i] == j;
      assert selected[i] == r && items[i] == ItemOf(p, key, policy, jobOf(r));
    }
  }

  lemma {:induction false} PlacesAreFew(places: seq<nat>, n: nat)
    requires forall i, j :: 0 <= i < j < |places| ==> places[i] < places[j]
    requires forall i :: 0 <= i < |places| ==> places[i] < n
    ensures |places| <= n
  {
    if places != [] { PlacesAreFew(places[..|places| - 1], places[|places| - 1]); }
  }

  /** The batch is what has been done so far and what the remaining items will add. */
  ghost predicate SoFar(before: map<string, bytes>, items: seq<Item>, acknowledge: bool, failFast: bool,
                        dir: map<string, bytes>, results: seq<Collected>)
  {
    && |results| <= |items|
    && CollectBatch(before, items, acknowledge, failFast)
         == Joined(results, CollectBatch(dir, items[|results|..], acknowledge, failFast))
  }

  lemma NothingSoFar(dir: map<string, bytes>, items: seq<Item>, acknowledge: bool, failFast: bool)
    ensures SoFar(dir, items, acknowledge, failFast, dir, [])
  {
    hide CollectBatch;
    assert items[0..] == items;
  }

  lemma OneMore(before: map<string, bytes>, items: seq<Item>, acknowledge: bool, failFast: bool,
                dir: map<string, bytes>, results: seq<Collected>)
    requires SoFar(before, items, acknowledge, failFast, dir, results) && |results| < |items|
    ensures var (result, after) := Save(dir, items[|results|], acknowledge);
      if Stops(failFast, items[|results|].cancelled, result)
      then CollectBatch(before, items, acknowledge, failFast) == Batch(after, results + [result])
      else SoFar(before, items, acknowledge, failFast, after, results + [result])
  {
    hide CollectBatch, Save, Stops;
    var rest := items[|results|..];
    assert rest[0] == items[|results|] && rest[1..] == items[|results| + 1..];
    BatchStep(dir, rest, results, acknowledge, failFast);
  }

  lemma AllDone(before: map<string, bytes>, items: seq<Item>, acknowledge: bool, failFast: bool,
                dir: map<string, bytes>, results: seq<Collected>)
    requires SoFar(before, items, acknowledge, failFast, dir, results) && |results| == |items|
    ensures CollectBatch(before, items, acknowledge, failFast) == Batch(dir, results)
  {
    hide CollectBatch;
    BatchStep(dir, items[|results|..], results, acknowledge, failFast);
  }

  function JobsOf(jobOf: Receipt -> Job, receipts: seq<Receipt>): (jobs: seq<Job>)
    ensures |jobs| == |receipts| && forall i :: 0 <= i < |jobs| ==> jobs[i] == jobOf(receipts[i])
  {
    seq(|receipts|, i requires 0 <= i < |receipts| => jobOf(receipts[i]))
  }

  /** How a whole collection ends: the wait failed, or the list was there and some submissions were tried. */
  datatype Outcome =
    | WaitFailed(error: Waiting.WaitError)
    | Tried(list: seq<Receipt>, failures: seq<Waiting.SelectError>, results: seq<Collected>)

  /** What the wait came to. */
  function WaitOf(outcome: Outcome): Result<seq<Receipt>, Waiting.WaitError> {
    match outcome
    case WaitFailed(e) => Err(e)
    case Tried(list, _, _) => Ok(list)
  }

  // ---------- the client ----------

  class Client {
    const p: Primitives
    const key: KeyFile
    const policy: Policy
    /** The output directory, temporary files included. */
    var dir: map<string, bytes>
    /** Acknowledgements sent, in order. */
    var acks: seq<string>

    constructor (p: Primitives, key: KeyFile, policy: Policy, dir: map<string, bytes>)
      ensures this.p == p && this.key == key && this.policy == policy && this.dir == dir && acks == []
    {
      this.p, this.key, this.policy, this.dir, this.acks := p, key, policy, dir, [];
    }

    /** Fetches, opens and appends every chunk to the temporary file; gives up at the first thing wrong. */
    method Download(job: Job, access: Opened) returns (error: Option<CollectError>, chunks: seq<bytes>)
      requires policy.maxDelay <= INT64_MAX && job.temp in dir && dir[job.temp] == [] && access.header.chunkCount >= 0
      modifies this`dir
      ensures var g := Gathered(p, policy, job, access, access.header.chunkCount);
        match g
        case Err(e) => error == Some(e) && dir.Keys == old(dir).Keys && dir == old(dir)[job.temp := dir[job.temp]]
        case Ok((c, plain)) => error == None && chunks == c && dir == old(dir)[job.temp := plain]
    {
      hide OpenChunk, Fetched;
      chunks := [];
      var h := access.header;
      for i := 0 to h.chunkCount
        invariant job.temp in dir && Gathered(p, policy, job, access, i) == Ok((chunks, dir[job.temp]))
        invariant dir == old(dir)[job.temp := dir[job.temp]]
      {
        var c, _ := BytesRequest(a => job.wire.chunk(i, a), h.chunkSize + 17, policy);
        assert c == ServedChunk(policy, job, h, i);
        hide ServedChunk;
        if c.None? { GatheredStops(p, policy, job, access, i + 1, h.chunkCount); return Some(ReadFailed), chunks; }
        var x := OpenChunk(p, access.opener, i, c.value);
        if x.None? { GatheredStops(p, policy, job, access, i + 1, h.chunkCount); return Some(BadChunk), chunks; }
        if !ChunkFits(h, i, |x.value|, |dir[job.temp]|) {
          GatheredStops(p, policy, job, access, i + 1, h.chunkCount);
          return Some(WrongSize), chunks;
        }
        if i in job.faults.writes {
          GatheredStops(p, policy, job, access, i + 1, h.chunkCount);
          return Some(OutputFailed), chunks;
        }
        chunks := chunks + [c.value];
        dir := dir[job.temp := dir[job.temp] + x.value];
      }
      error := None;
    }

    /** Tries the candidates in order; each link either fails or puts the file there. */
    method PublishOutput(temp: string, name: string, broken: set<string>) returns (result: Result<string, PublishError>)
      requires temp in dir
      modifies this`dir
      ensures result == Destination(old(dir).Keys, broken, name, 1)
      ensures dir == if result.Ok? then old(dir)[result.value := old(dir)[temp]] - {temp} else old(dir)
    {
      for attempt := 1 to MAX_NAME_COLLISIONS + 1
        invariant Destination(old(dir).Keys, broken, name, 1) == Destination(old(dir).Keys, broken, name, attempt)
        invariant dir == old(dir)
      {
        var candidate := Candidate(name, attempt);
        if candidate !in dir {
          if candidate in broken { return Err(LinkFailed); }
          dir := dir[candidate := dir[temp]];
          dir := dir - {temp};
          return Ok(candidate);
        }
      }
      return Err(TooManyCollisions);
    }

    /** manifestMetadata: the manifest bytes, checked against the receipt and the key. */
    method Admit(job: Job) returns (result: Result<(bytes, Opened), CollectError>)
      requires policy.maxDelay <= INT64_MAX
      ensures result == Admitted(p, key, policy, job)
    {
      var receipt := job.receipt;
      if receipt.requestID != key.requestID || !ValidID(receipt.uploadID) { return Err(ForeignReceipt); }
      var raw, _ := BytesRequest(job.wire.manifest, MANIFEST_LIMIT, policy);
      if raw.None? { return Err(ReadFailed); }
      var checked := CheckManifest(p, key, receipt, raw.value);
      if checked.Err? { return Err(checked.error); }
      return Ok((raw.value, checked.value));
    }

    /** Collects one submission. The temporary file is always removed, and the acknowledgement is sent at most
        once, only after the file has been published. */
    method CollectOne(job: Job, acknowledge: bool) returns (result: Collected)
      requires policy.maxDelay <= INT64_MAX
      requires job.temp !in dir && job.temp != "" && job.temp[0] == '.'
      modifies this
      ensures (result, dir) == Save(old(dir), ItemOf(p, key, policy, job), acknowledge)
      ensures acks == old(acks) + if result.path.Some? && acknowledge then [job.receipt.uploadID] else []
      ensures result.path.Some? ==> SafeComponent(result.path.value)
    {
      var admitted := Admit(job);
      if admitted.Err? { return Collected(None, Some(admitted.error)); }
      var (raw, access) := admitted.value;
      var plain := SaveTemporary(job, raw, access);
      if plain.Err? { return Collected(None, Some(plain.error)); }
      CheckedNameIsSafe(p, key, policy, job);
      TemporaryComesAndGoes(old(dir), job.temp, plain.value);
      result := Finish(job, access.name, plain.value, acknowledge);
    }

    /** The part of CollectOne between the manifest and publication; leaves the verified temporary file behind. */
    method SaveTemporary(job: Job, raw: bytes, access: Opened) returns (plain: Result<bytes, CollectError>)
      requires policy.maxDelay <= INT64_MAX && job.temp !in dir
      modifies this`dir
      ensures plain == Downloaded(p, policy, job, raw, access)
      ensures dir == if plain.Ok? then old(dir)[job.temp := plain.value] else old(dir)
    {
      if job.faults.prepare { return Err(OutputFailed); }
      if access.header.chunkCount < 0 { return Err(Panicked); }
      dir := dir[job.temp := []];
      var error, chunks := Download(job, access);
      plain := Judge(job, raw, access, error, chunks, dir[job.temp]);
      TemporaryComesAndGoes(old(dir), job.temp, dir[job.temp]);
      if plain.Err? { dir := dir - {job.temp}; }
    }

    /** The checks after the last chunk. */
    method Judge(job: Job, raw: bytes, access: Opened, error: Option<CollectError>, chunks: seq<bytes>, written: bytes)
      returns (plain: Result<bytes, CollectError>)
      requires !job.faults.prepare && access.header.chunkCount >= 0
      requires Gathered(p, policy, job, access, access.header.chunkCount)
            == if error.Some? then Err(error.value) else Ok((chunks, written))
      ensures plain == Downloaded(p, policy, job, raw, access) && (plain.Ok? ==> plain.value == written)
    {
      if error.Some? { return Err(error.value); }
      if |written| != access.header.plainSize { return Err(WrongSize); }
      var root := ComputeReceiptRoot(p, raw, Digests(p, chunks));
      if !EqualFold(root, job.receipt.receiptSHA256) { return Err(WrongReceipt); }
      if job.faults.cancelled { return Err(Cancelled); }
      if job.faults.sync { return Err(OutputFailed); }
      return Ok(written);
    }

    /** Publication and acknowledgement. */
    method Finish(job: Job, name: string, plain: bytes, acknowledge: bool) returns (result: Collected)
      requires job.temp in dir && dir[job.temp] == plain && job.temp != "" && job.temp[0] == '.'
      requires SafeComponent(name)
      modifies this
      ensures var before := old(dir) - {job.temp};
        match Destination(before.Keys, job.faults.brokenLinks, name, 1)
        case Err(_) => result == Collected(None, Some(OutputFailed)) && dir == before && acks == old(acks)
        case Ok(path) =>
          && result == Collected(Some(path), if acknowledge && !job.wire.ack then Some(AckFailed) else None)
          && dir == before[path := plain]
          && acks == old(acks) + (if acknowledge then [job.receipt.uploadID] else [])
          && SafeComponent(path)
    {
      ghost var before := dir - {job.temp};
      HiddenNamesDoNotMatter(dir.Keys, job.temp, job.faults.brokenLinks, name, 1);
      assert dir.Keys + {job.temp} == dir.Keys && dir.Keys - {job.temp} == before.Keys;
      var published := PublishOutput(job.temp, name, job.faults.brokenLinks);
      if published.Err? {
        dir := dir - {job.temp};
        return Collected(None, Some(OutputFailed));
      }
      DestinationIsVisible(before.Keys, job.faults.brokenLinks, name, 1);
      if acknowledge {
        acks := acks + [job.receipt.uploadID];
        if !job.wire.ack { return Collected(Some(published.value), Some(AckFailed)); }
      }
      return Collected(Some(published.value), None);
    }

    /** The loop over the selected submissions. */
    method CollectEach(jobs: seq<Job>, acknowledge: bool, failFast: bool) returns (results: seq<Collected>)
      requires policy.maxDelay <= INT64_MAX
      requires forall i :: 0 <= i < |jobs| ==> jobs[i].temp != "" && jobs[i].temp[0] == '.' && jobs[i].temp !in dir
      modifies this
      ensures Batch(dir, results) == CollectBatch(old(dir), ItemsOf(p, key, policy, jobs), acknowledge, failFast)
      ensures acks == old(acks) + if acknowledge then SavedIDs(jobs, results) else []
    {
      hide CollectBatch, Save, Checked, SoFar, Stops, SavedIDs;
      results := [];
      ghost var before, items := dir, ItemsOf(p, key, policy, jobs);
      NothingSoFar(dir, items, acknowledge, failFast);
      NothingSaved(jobs);
      while |results| < |jobs|
        invariant |results| <= |jobs|
        invariant forall j :: |results| <= j < |jobs| ==> jobs[j].temp !in dir
        invariant SoFar(before, items, acknowledge, failFast, dir, results)
        invariant acks == old(acks) + if acknowledge then SavedIDs(jobs, results) else []
        decreases |jobs| - |results|
      {
        var job := jobs[|results|];
        OneMore(before, items, acknowledge, failFast, dir, results);
        SaveAddsOnePath(dir, items[|results|], acknowledge);
        var result := CollectOne(job, acknowledge);
        SavedSnoc(jobs, results, result);
        results := results + [result];
        if Stops(failFast, job.faults.cancelled, result) { return; }
      }
      AllDone(before, items, acknowledge, failFast, dir, results);
    }

    /** Waits, selects, and collects what was selected; jobOf gives what the server answers for each receipt. */
    method Collect(lists: nat -> Option<seq<Receipt>>, cost: nat -> nat, start: Time, ids: seq<string>, timeout: int,
                   interval: int, jobOf: Receipt -> Job, acknowledge: bool, failFast: bool) returns (outcome: Outcome)
      requires policy.maxDelay <= INT64_MAX
      requires forall r: Receipt :: jobOf(r).temp != "" && jobOf(r).temp[0] == '.' && jobOf(r).temp !in dir
      modifies this
      ensures exists polls :: Waiting.Waits(lists, cost, start, ids, false, timeout, interval, WaitOf(outcome), polls)
      ensures outcome.WaitFailed? ==> dir == old(dir) && acks == old(acks)
      ensures outcome.Tried? ==>
        && (exists i: nat :: lists(i) == Some(outcome.list))
        && (timeout != 0 ==> Waiting.Ready(outcome.list, ids, false))
        && outcome.failures == Waiting.Select(outcome.list, ids).1
        && var jobs := JobsOf(jobOf, Waiting.Select(outcome.list, ids).0);
           if failFast && outcome.failures != [] then outcome.results == [] && dir == old(dir) && acks == old(acks)
           else
             && Batch(dir, outcome.results)
                  == CollectBatch(old(dir), ItemsOf(p, key, policy, jobs), acknowledge, failFast)
             && acks == old(acks) + if acknowledge then SavedIDs(jobs, outcome.results) else []
      ensures outcome.Tried? && ids == [] && !failFast && Calm(p, key, policy, jobOf, old(dir), outcome.list) ==>
        forall r :: r in outcome.list && !r.acknowledged ==>
          HasResult(p, key, policy, jobOf, old(dir), Waiting.Select(outcome.list, []).0, Batch(dir, outcome.results), r)
    {
      hide CollectBatch, Save, Checked, Calm, HasResult, Waiting.Waits, Waiting.Ready;
      var waited, polls, _ := Waiting.WaitForReceipts(lists, cost, start, ids, false, timeout, interval);
      if waited.Err? {
        outcome := WaitFailed(waited.error);
        assert WaitOf(outcome) == waited;
        return;
      }
      var selected, failures := Waiting.SelectReceipts(waited.value, ids);
      if failFast && failures != [] {
        outcome := Tried(waited.value, failures, []);
        assert WaitOf(outcome) == waited;
        return;
      }
      var results := CollectEach(JobsOf(jobOf, selected), acknowledge, failFast);
      if ids == [] && !failFast && Calm(p, key, policy, jobOf, old(dir), waited.value) {
        EveryPendingHasResult(p, key, policy, jobOf, old(dir), waited.value, acknowledge);
      }
      outcome := Tried(waited.value, failures, results);
      assert WaitOf(outcome) == waited;
    }
  }

  lemma {:induction false} GatheredStops(p: Primitives, policy: Policy, job: Job, access: Opened, n: nat, m: nat)
    requires n <= m && Gathered(p, policy, job, access, n).Err?
    ensures Gathered(p, policy, job, access, m) == Gathered(p, policy, job, access, n)
  {
    if n < m { GatheredStops(p, policy, job, access, n, m - 1); }
  }

  lemma DestinationIsVisible(taken: set<string>, broken: set<string>, name: string, attempt: nat)
    requires SafeComponent(name) && 1 <= attempt && Destination(taken, broken, name, attempt).Ok?
    ensures SafeComponent(Destination(taken, broken, name, attempt).value)
  {
    DestinationIsFree(taken, broken, name, attempt);
    var i :| attempt <= i <= MAX_NAME_COLLISIONS
        && Destination(taken, broken, name, attempt).value == Candidate(name, i);
    CandidateIsSafe(name, i);
  }

  lemma TemporaryComesAndGoes(dir: map<string, bytes>, temp: string, x: bytes)
    requires temp !in dir
    ensures dir[temp := x] - {temp} == dir
    ensures dir[temp := []][temp := x] == dir[temp := x]
  {}

  lemma ManifestNameIsSafe(p: Primitives, key: KeyFile, receipt: Receipt, raw: bytes)
    requires CheckManifest(p, key, receipt, raw).Ok?
    ensures SafeComponent(CheckManifest(p, key, receipt, raw).value.name)
    ensures Fits(CheckManifest(p, key, receipt, raw).value.name, MAX_BYTES, MAX_UNITS)
  {
    hide SafeComponent, SafeFilename, Fits;
    var m := p.parseManifest(raw).value;
    var o := NewOpener(p, key, m).value;
    SafeFilenameIsSafe(OpenMetadata(p, o, m.encryptedMetadata).value.name);
  }

  lemma CheckedNameIsSafe(p: Primitives, key: KeyFile, policy: Policy, job: Job)
    requires Checked(p, key, policy, job).Ok?
    ensures SafeComponent(Checked(p, key, policy, job).value.0)
    ensures Fits(Checked(p, key, policy, job).value.0, MAX_BYTES, MAX_UNITS)
  {
    AdmittedIsChecked(p, key, policy, job);
    ManifestNameIsSafe(p, key, job.receipt, Admitted(p, key, policy, job).value.0);
  }
}

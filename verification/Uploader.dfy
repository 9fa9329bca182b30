/** The browser uploading one file over a network that may lose any request before or after the server has
    carried it out (uploadFile, putChunk and retryUpload in internal/server/web/app.js, run in retry.js). */
module Uploader {
  import opened Prelude
  import opened Text
  import opened Model
  import opened StoreSpec
  import opened Browser
  import opened EndToEnd
  import opened Filename
  import opened Publish
  import Retry
  import opened StoreInvariant
  import opened StoreRuns
  import opened StoreTheorems
  import Cryptobox
  import StoreServer

  const TOTAL_ATTEMPTS := 4
  const MAX_DELAY := 30_000 // milliseconds

  // ---------- what the server or a proxy asks for ----------

  /** A wish to be asked again later, in milliseconds. */
  datatype Wish = Wait(ms: nat) | Forever

  const MAX_SAFE_INTEGER := 0x1f_ffff_ffff_ffff

  predicate IsDigits(s: string) { s != "" && forall c :: c in s ==> '0' <= c <= '9' }

  /** The white space that String.prototype.trim removes. */
  predicate Blank(c: char) {
    var n := c as int;
    || 9 <= n <= 13 || n == 32 || n == 0xa0 || n == 0x1680 || 0x2000 <= n <= 0x200a
    || n == 0x2028 || n == 0x2029 || n == 0x202f || n == 0x205f || n == 0x3000 || n == 0xfeff
  }

  /** The Retry-After header: seconds, or a date that the platform reads. */
  function RetryAfterDelay(header: string, now: int, parseDate: string -> Option<int>): Wish {
    var trimmed := Trim(header, c => Blank(c));
    if trimmed == "" then Wait(0)
    else if IsDigits(trimmed) then
      if DigitsValue(trimmed) > MAX_SAFE_INTEGER / 1000 then Forever else Wait(1000 * DigitsValue(trimmed))
    else
      match parseDate(trimmed)
      case None => Wait(0)
      case Some(when) => Wait(Max(0, when - now))
  }

  /** A number of seconds is taken at its word, unless it is beyond exact numbers. */
  lemma SecondsAreRead(seconds: nat, now: int, parseDate: string -> Option<int>)
    ensures RetryAfterDelay(Decimal(seconds), now, parseDate)
         == if 1000 * seconds <= MAX_SAFE_INTEGER then Wait(1000 * seconds) else Forever
  {
    var s := Decimal(seconds);
    assert s[0] in s && s[|s| - 1] in s;
    DecimalRoundTrip(seconds);
    assert Trim(s, c => Blank(c)) == s;
  }

  /** A date is awaited, and what is neither seconds nor a date asks for nothing. */
  lemma DatesAreAwaited(header: string, now: int, parseDate: string -> Option<int>, when: int)
    requires var trimmed := Trim(header, c => Blank(c)); trimmed != "" && !IsDigits(trimmed)
    ensures parseDate(Trim(header, c => Blank(c))) == None ==> RetryAfterDelay(header, now, parseDate) == Wait(0)
    ensures parseDate(Trim(header, c => Blank(c))) == Some(when) ==>
              RetryAfterDelay(header, now, parseDate) == Wait(if when > now then when - now else 0)
  {
    hide Trim, IsDigits;
  }

  // ---------- attempts ----------

  /** What the network does to one request; a proxy in the way may ask to retry later. */
  datatype Fate = Delivered | LostBefore(retryAfter: Wish) | LostAfter(retryAfter: Wish)

  /** One attempt of an operation: its request, and the digest check that may follow a chunk's conflict. */
  datatype Exchange = Exchange(request: Fate, check: Fate)

  /** What the page sees. */
  datatype Response<T> = Fine(value: T) | Refused(error: Error) | Broken(retryAfter: Wish)

  function Seen<T>(result: Result<T, Error>): Response<T> {
    match result
    case Ok(value) => Fine(value)
    case Err(error) => Refused(error)
  }

  /** After a conflict a chunk counts as sent if the one stored has our digest. */
  function Compared(stored: Result<string, Error>, digest: string): Response<()> {
    match stored
    case Ok(d) => if d == digest then Fine(()) else Refused(Conflict)
    case Err(error) => Refused(error)
  }

  /** After a conflict the page takes its chunk for stored exactly if the request is open and a chunk of that digest is
      there: its own bytes, or bytes that collide with them. */
  lemma SameDigestSameChunk(p: Primitives, d: Disk, k: Key, i: int, m: Manifest, raw: bytes, body: bytes)
    requires ReadManifest(p, d, k) == Ok((m, raw))
    ensures Compared(ChunkDigest(p, d, k, i), HexEncode(p.sha256(body))).Fine?
       <==> k.request !in d.markers && 0 <= i < m.header.chunkCount && i in d.uploads[k].chunks
            && (d.uploads[k].chunks[i] == body || Cryptobox.Collides(p, d.uploads[k].chunks[i], body))
  {
    hide HexEncode, HexDecode;
    if i in d.uploads[k].chunks && HexEncode(p.sha256(d.uploads[k].chunks[i])) == HexEncode(p.sha256(body)) {
      HexInjective(p.sha256(d.uploads[k].chunks[i]), p.sha256(body));
    }
  }

  predicate Retryable<T>(r: Response<T>) { r.Broken? || (r.Refused? && r.error.Internal?) }

  function RetryAfter<T>(r: Response<T>): Wish { if r.Broken? then r.retryAfter else Wait(0) }

  predicate Bearable(wish: Wish) { wish.Wait? && wish.ms <= MAX_DELAY }

  /** The pause after a failed attempt: 250, 500, 1000 ms, or longer if asked for. */
  function Pause(attempt: nat, retryAfter: nat): nat
    requires attempt >= 1
  {
    Max(retryAfter, if attempt == 1 then 250 else if attempt == 2 then 500 else 1000)
  }

  /** Without a wish the pauses double from 250 ms up to a second. */
  lemma PausesDouble(attempt: nat, retryAfter: nat)
    requires 1 <= attempt <= TOTAL_ATTEMPTS
    ensures Pause(attempt, retryAfter) == Max(retryAfter, Min(1000, 250 * Retry.Power(attempt - 1)))
  {
    if attempt > 1 { assert Retry.Power(attempt - 1) == 2 * Retry.Power(attempt - 2); }
    if attempt > 2 { assert Retry.Power(attempt - 2) == 2 * Retry.Power(attempt - 3); }
    if attempt > 3 { assert Retry.Power(attempt - 3) == 2 * Retry.Power(attempt - 4); }
  }

  /** n pauses, none longer than the page accepts. */
  predicate Short(pauses: seq<nat>, n: int) {
    |pauses| == n && forall i :: 0 <= i < n ==> pauses[i] <= MAX_DELAY
  }

  /** After a failed attempt: pause and try again, or give up. */
  method Again<T>(r: Response<T>, attempt: nat, before: seq<nat>) returns (again: bool, pauses: seq<nat>)
    requires 1 <= attempt <= TOTAL_ATTEMPTS && Short(before, attempt - 1)
    ensures again <==> Retryable(r) && attempt < TOTAL_ATTEMPTS && Bearable(RetryAfter(r))
    ensures pauses == if again then before + [Pause(attempt, RetryAfter(r).ms)] else before
    ensures Short(pauses, if again then attempt else attempt - 1)
  {
    if !Retryable(r) || attempt == TOTAL_ATTEMPTS { return false, before; }
    if !Bearable(RetryAfter(r)) { return false, before; }
    return true, before + [Pause(attempt, RetryAfter(r).ms)];
  }

  predicate Good(e: Exchange) { e.request.Delivered? && e.check.Delivered? }

  predicate Waitable(f: Fate) { f.Delivered? || Bearable(f.retryAfter) }

  /** At most three attempts fail, and no lost one asks for a longer pause than the page accepts. */
  ghost predicate Budget(attempts: nat -> Exchange, from: nat) {
    exists a: nat :: from <= a <= TOTAL_ATTEMPTS && Good(attempts(a))
      && forall j: nat :: from <= j < a ==> Waitable(attempts(j).request) && Waitable(attempts(j).check)
  }

  lemma BudgetStep(attempts: nat -> Exchange, from: nat)
    requires Budget(attempts, from) && !Good(attempts(from))
    ensures from < TOTAL_ATTEMPTS && Budget(attempts, from + 1)
    ensures Waitable(attempts(from).request) && Waitable(attempts(from).check)
  {
    var a: nat :| from <= a <= TOTAL_ATTEMPTS && Good(attempts(a))
      && forall j: nat :: from <= j < a ==> Waitable(attempts(j).request) && Waitable(attempts(j).check);
    assert from < a;
  }

  // ---------- the states of one upload ----------

  function FirstChunks(chunks: seq<bytes>, n: nat): map<int, bytes>
    requires n <= |chunks|
  {
    map i | 0 <= i < n :: chunks[i]
  }

  lemma FirstChunksStep(chunks: seq<bytes>, n: nat)
    requires n < |chunks|
    ensures FirstChunks(chunks, n)[n := chunks[n]] == FirstChunks(chunks, n + 1)
  {}

  /** One file on its way: the disk it found, its directory, and what is sent. */
  datatype Submission = Submission(d: Disk, k: Key, raw: bytes, m: Manifest, chunks: seq<bytes>) {
    /** Reserved at a certain time, with the first n chunks. */
    function After(at: Time, n: nat): Disk
      requires n <= |chunks|
    {
      Partial(d, k, raw, InitialState(m, at), FirstChunks(chunks, n))
    }

    function Receipt(p: Primitives, done: Time): Receipt { MakeReceipt(p, k, done, m.header, raw, chunks) }

    /** Completed. */
    function Whole(p: Primitives, at: Time, done: Time): Disk {
      Finished(d, k, raw, InitialState(m, at), FirstChunks(chunks, |chunks|), Receipt(p, done))
    }
  }

  ghost predicate CanSend(p: Primitives, t: Submission) {
    Matching(p, t.k, t.raw, t.m, t.chunks) && t.k.request !in t.d.markers
  }

  /** What the upload needs of the server, without closure, purge or a rival under its id. */
  ghost predicate Ready(p: Primitives, t: Submission, b: Bundle) {
    && CheckSetup(p, b, t.raw) == Ok(t.m) && t.k == Key(b.id, t.m.header.uploadID) && t.k !in t.d.uploads
    && t.m.header.requestID == b.id
    && UsedFiles(t.d, b.id) < b.maxFiles && t.m.header.plainSize <= b.maxBytes - UsedBytes(t.d, b.id)
  }

  predicate InTime(b: Bundle, now: Time) { now < b.expiresAt && now != ZERO_TIME }

  /** The disk at any moment of the upload. */
  ghost predicate Stage(p: Primitives, t: Submission, at: Time, done: Time, e: Disk) {
    e == t.d || e == t.Whole(p, at, done) || exists n :: 0 <= n <= |t.chunks| && e == t.After(at, n)
  }

  lemma FirstSetup(p: Primitives, t: Submission, now: Time, b: Bundle)
    requires CanSend(p, t) && Ready(p, t, b) && InTime(b, now)
    ensures BeginUpload(p, t.d, now, b, t.raw) == Plan(SetupSteps(t.k, t.raw, t.m, now), Ok(t.m))
    ensures ApplyAll(t.d, SetupSteps(t.k, t.raw, t.m, now)) == t.After(now, 0)
  {
    SetupEffect(t.d, t.k, t.raw, t.m, now);
    assert FirstChunks(t.chunks, 0) == map[];
  }

  lemma RepeatedSetup(p: Primitives, t: Submission, at: Time, now: Time, b: Bundle)
    requires CanSend(p, t) && Ready(p, t, b) && InTime(b, now) && at != ZERO_TIME
    ensures BeginUpload(p, t.After(at, 0), now, b, t.raw) == Plan([], Ok(t.m))
  {
    assert ReplayMatches(t.After(at, 0).uploads[t.k], t.m, t.raw);
  }

  lemma FirstPut(p: Primitives, t: Submission, at: Time, i: nat)
    requires CanSend(p, t) && i < |t.chunks|
    ensures PutPrepare(p, t.After(at, i), t.k, i, |t.chunks[i]|) == Ok(|t.chunks[i]|)
    ensures PutCommit(t.After(at, i), t.k, i, |t.chunks[i]|, t.chunks[i])
         == Plan([WriteChunk(t.k, i, t.chunks[i])], Ok(()))
    ensures ApplyAll(t.After(at, i), [WriteChunk(t.k, i, t.chunks[i])]) == t.After(at, i + 1)
  {
    PartialReads(p, t.d, t.k, t.raw, InitialState(t.m, at), FirstChunks(t.chunks, i), t.m);
    PartialWrite(t.d, t.k, t.raw, InitialState(t.m, at), FirstChunks(t.chunks, i), i, t.chunks[i]);
    FirstChunksStep(t.chunks, i);
  }

  lemma RepeatedPut(p: Primitives, t: Submission, at: Time, i: nat)
    requires CanSend(p, t) && i < |t.chunks|
    ensures PutPrepare(p, t.After(at, i + 1), t.k, i, |t.chunks[i]|) == Ok(|t.chunks[i]|)
    ensures PutCommit(t.After(at, i + 1), t.k, i, |t.chunks[i]|, t.chunks[i]) == Plan([], Err(Conflict))
    ensures ChunkDigest(p, t.After(at, i + 1), t.k, i) == Ok(HexEncode(p.sha256(t.chunks[i])))
  {
    PartialReads(p, t.d, t.k, t.raw, InitialState(t.m, at), FirstChunks(t.chunks, i + 1), t.m);
  }

  lemma FirstComplete(p: Primitives, t: Submission, at: Time, now: Time)
    requires CanSend(p, t)
    ensures Complete(p, t.After(at, |t.chunks|), now, t.k)
         == Plan([WriteReceipt(t.k, t.Receipt(p, now))], Ok(t.Receipt(p, now)))
    ensures ApplyAll(t.After(at, |t.chunks|), [WriteReceipt(t.k, t.Receipt(p, now))]) == t.Whole(p, at, now)
  {
    hide Cryptobox.ReceiptRoot, ReadManifest;
    CompleteSucceeds(p, t.d, t.k, t.raw, t.m, t.chunks, InitialState(t.m, at), FirstChunks(t.chunks, |t.chunks|), now);
  }

  /** Every later completion gives the first receipt. */
  lemma RepeatedComplete(p: Primitives, t: Submission, at: Time, done: Time, now: Time)
    requires CanSend(p, t)
    ensures Complete(p, t.Whole(p, at, done), now, t.k) == Plan([], Ok(t.Receipt(p, done)))
  {
    hide MakeReceipt, ReadManifest;
  }

  function Attempts(attempts: (nat, nat) -> Exchange, operation: nat): nat -> Exchange {
    (attempt: nat) => attempts(operation, attempt)
  }

  function Clock(clock: (nat, nat) -> Time, operation: nat): nat -> Time {
    (attempt: nat) => clock(operation, attempt)
  }

  /** One of the times at which the operation was attempted. */
  ghost predicate Attempted(clock: nat -> Time, at: Time) {
    exists j: nat :: 1 <= j <= TOTAL_ATTEMPTS && at == clock(j)
  }

  // ---------- the uploader ----------

  class Page {
    const store: StoreServer.Store

    constructor (store: StoreServer.Store)
      ensures this.store == store
    {
      this.store := store;
    }

    /** One setup request, for an upload not begun or one reserved before. */
    method PostSetup(now: Time, b: Bundle, fate: Fate, t: Submission, ghost before: Time)
      returns (r: Response<Manifest>, ghost at: Time)
      requires CanSend(store.p, t) && Ready(store.p, t, b) && InTime(b, now)
      requires store.disk == t.d || (store.disk == t.After(before, 0) && before != ZERO_TIME)
      modifies store
      ensures at == if old(store.disk) == t.d then now else before
      ensures store.disk == if fate.LostBefore? then old(store.disk) else t.After(at, 0)
      ensures r == if fate.Delivered? then Fine(t.m) else Broken(fate.retryAfter)
    {
      at := if store.disk == t.d then now else before;
      if fate.LostBefore? { r := Broken(fate.retryAfter); return; }
      FirstSetup(store.p, t, now, b);
      if before != ZERO_TIME { RepeatedSetup(store.p, t, before, now, b); }
      var result := store.BeginUpload(now, b, t.raw);
      r := if fate.LostAfter? then Broken(fate.retryAfter) else Seen(result);
    }

    /** File setup with retries: reserved at most once, at the time of one of the attempts. */
    method Setup(b: Bundle, clock: nat -> Time, attempts: nat -> Exchange, t: Submission)
      returns (ok: bool, pauses: seq<nat>, ghost at: Time)
      requires CanSend(store.p, t) && Ready(store.p, t, b) && store.disk == t.d
      requires forall j: nat :: 1 <= j <= TOTAL_ATTEMPTS ==> InTime(b, clock(j))
      modifies store
      ensures store.disk == t.d || (store.disk == t.After(at, 0) && Attempted(clock, at))
      ensures ok ==> store.disk == t.After(at, 0) && Attempted(clock, at)
      ensures Budget(attempts, 1) ==> ok
      ensures exists n :: n < TOTAL_ATTEMPTS && Short(pauses, n)
    {
      hide CheckSetup, Matching, UsedFiles, UsedBytes, SetupSteps, InitialState;
      ok, pauses, at := false, [], clock(1);
      for attempt := 1 to TOTAL_ATTEMPTS + 1
        invariant store.disk == t.d || store.disk == t.After(at, 0)
        invariant Attempted(clock, at) && InTime(b, at)
        invariant Budget(attempts, 1) ==> Budget(attempts, attempt)
        invariant Short(pauses, attempt - 1) && attempt <= TOTAL_ATTEMPTS
      {
        var r;
        r, at := PostSetup(clock(attempt), b, attempts(attempt).request, t, at);
        if r.Fine? { ok := true; return; }
        if Budget(attempts, attempt) { BudgetStep(attempts, attempt); }
        var again;
        again, pauses := Again(r, attempt, pauses);
        if !again { return; }
      }
    }

    /** One attempt at a chunk: the request, and on a conflict the check that the stored chunk has our digest. */
    method PutChunk(i: nat, digest: string, e: Exchange, t: Submission, ghost at: Time) returns (r: Response<()>)
      requires CanSend(store.p, t) && i < |t.chunks| && store.disk in {t.After(at, i), t.After(at, i + 1)}
      requires digest == HexEncode(store.p.sha256(t.chunks[i]))
      modifies store
      ensures store.disk == if e.request.LostBefore? then old(store.disk) else t.After(at, i + 1)
      ensures Good(e) ==> r.Fine?
      ensures r.Fine? ==> store.disk == t.After(at, i + 1)
      ensures r.Fine? || r.Broken?
      ensures r.Broken? && Waitable(e.request) && Waitable(e.check) ==> Bearable(r.retryAfter)
    {
      if e.request.LostBefore? { return Broken(e.request.retryAfter); }
      FirstPut(store.p, t, at, i);
      RepeatedPut(store.p, t, at, i);
      var result := store.PutChunk(t.k, i, |t.chunks[i]|, t.chunks[i]);
      if e.request.LostAfter? { return Broken(e.request.retryAfter); }
      if result != Err(Conflict) { return Seen(result); }
      if !e.check.Delivered? { return Broken(e.check.retryAfter); }
      r := Compared(ChunkDigest(store.p, store.disk, t.k, i), digest);
    }

    /** One chunk with retries. */
    method Put(i: nat, attempts: nat -> Exchange, t: Submission, ghost at: Time) returns (ok: bool, pauses: seq<nat>)
      requires CanSend(store.p, t) && i < |t.chunks| && store.disk == t.After(at, i)
      modifies store
      ensures store.disk in {t.After(at, i), t.After(at, i + 1)} && (ok ==> store.disk == t.After(at, i + 1))
      ensures Budget(attempts, 1) ==> ok
      ensures exists n :: n < TOTAL_ATTEMPTS && Short(pauses, n)
    {
      var digest := HexEncode(store.p.sha256(t.chunks[i]));
      pauses := [];
      for attempt := 1 to TOTAL_ATTEMPTS + 1
        invariant store.disk in {t.After(at, i), t.After(at, i + 1)}
        invariant Budget(attempts, 1) ==> Budget(attempts, attempt)
        invariant Short(pauses, attempt - 1) && attempt <= TOTAL_ATTEMPTS
      {
        var r := PutChunk(i, digest, attempts(attempt), t, at);
        if r.Fine? { return true, pauses; }
        if Budget(attempts, attempt) { BudgetStep(attempts, attempt); }
        var again;
        again, pauses := Again(r, attempt, pauses);
        if !again { return false, pauses; }
      }
      ok := false;
    }

    /** One completion request, for an upload with all its chunks or one completed before. */
    method PostComplete(now: Time, fate: Fate, t: Submission, ghost at: Time, ghost before: Time)
      returns (r: Response<Receipt>, ghost done: Time)
      requires CanSend(store.p, t) && store.disk in {t.After(at, |t.chunks|), t.Whole(store.p, at, before)}
      modifies store
      ensures done == if old(store.disk) == t.After(at, |t.chunks|) then now else before
      ensures store.disk == if fate.LostBefore? then old(store.disk) else t.Whole(store.p, at, done)
      ensures r == if fate.Delivered? then Fine(t.Receipt(store.p, done)) else Broken(fate.retryAfter)
    {
      hide MakeReceipt, Matching, InitialState;
      done := if store.disk == t.After(at, |t.chunks|) then now else before;
      if fate.LostBefore? { r := Broken(fate.retryAfter); return; }
      FirstComplete(store.p, t, at, now);
      RepeatedComplete(store.p, t, at, before, now);
      var result := store.Complete(now, t.k);
      r := if fate.LostAfter? then Broken(fate.retryAfter) else Seen(result);
    }

    /** Receipt finalization with retries: completed at most once, at the time of one of the attempts. */
    method Finish(clock: nat -> Time, attempts: nat -> Exchange, t: Submission, ghost at: Time)
      returns (receipt: Option<Receipt>, pauses: seq<nat>, ghost done: Time)
      requires CanSend(store.p, t) && store.disk == t.After(at, |t.chunks|)
      modifies store
      ensures store.disk == old(store.disk) || (store.disk == t.Whole(store.p, at, done) && Attempted(clock, done))
      ensures receipt.Some? ==> store.disk == t.Whole(store.p, at, done) && receipt.value == t.Receipt(store.p, done)
                                && Attempted(clock, done)
      ensures Budget(attempts, 1) ==> receipt.Some?
      ensures exists n :: n < TOTAL_ATTEMPTS && Short(pauses, n)
    {
      hide MakeReceipt, Matching, InitialState, Partial, Finished, FirstChunks;
      receipt, pauses, done := None, [], clock(1);
      for attempt := 1 to TOTAL_ATTEMPTS + 1
        invariant store.disk in {t.After(at, |t.chunks|), t.Whole(store.p, at, done)} && Attempted(clock, done)
        invariant Budget(attempts, 1) ==> Budget(attempts, attempt)
        invariant Short(pauses, attempt - 1) && attempt <= TOTAL_ATTEMPTS
      {
        var r;
        r, done := PostComplete(clock(attempt), attempts(attempt).request, t, at, done);
        if r.Fine? { receipt := Some(r.value); return; }
        if Budget(attempts, attempt) { BudgetStep(attempts, attempt); }
        var again;
        again, pauses := Again(r, attempt, pauses);
        if !again { return; }
      }
    }

    /** The chunks in order; also gathers their digests. */
    method SendChunks(attempts: (nat, nat) -> Exchange, t: Submission, ghost at: Time)
      returns (ok: bool, chunkDigests: seq<bytes>)
      requires CanSend(store.p, t) && store.disk == t.After(at, 0)
      modifies store
      ensures exists n :: 0 <= n <= |t.chunks| && store.disk == t.After(at, n)
      ensures ok ==> store.disk == t.After(at, |t.chunks|) && chunkDigests == Cryptobox.Digests(store.p, t.chunks)
      ensures (forall i: nat :: 1 <= i <= |t.chunks| ==> Budget(Attempts(attempts, i), 1)) ==> ok
    {
      chunkDigests := [];
      for i := 0 to |t.chunks|
        invariant store.disk == t.After(at, i)
        invariant chunkDigests == Cryptobox.Digests(store.p, t.chunks[..i])
      {
        chunkDigests := chunkDigests + [store.p.sha256(t.chunks[i])];
        var put, _ := Put(i, Attempts(attempts, i + 1), t, at);
        if !put { return false, chunkDigests; }
      }
      ok := true;
      assert t.chunks[..|t.chunks|] == t.chunks;
    }

    /** The whole upload: setup, the chunks in order, completion, and the comparison of the server's receipt with
        the one computed here. A file reported as uploaded is on the store exactly as sent, completed; whatever
        the network does, the disk is at some stage of this one upload; and with at most three failed attempts
        for each operation, and setup attempts before the request expires, it always gets there. */
    method UploadFile(b: Bundle, clock: (nat, nat) -> Time, attempts: (nat, nat) -> Exchange, t: Submission)
      returns (result: Option<Receipt>, ghost at: Time, ghost done: Time)
      requires CanSend(store.p, t) && Ready(store.p, t, b) && store.disk == t.d
      requires forall j: nat :: 1 <= j <= TOTAL_ATTEMPTS ==> InTime(b, Clock(clock, 0)(j))
      modifies store
      ensures Stage(store.p, t, at, done, store.disk)
      ensures result.Some? ==> result.value == t.Receipt(store.p, done) && store.disk == t.Whole(store.p, at, done)
                               && Attempted(Clock(clock, 0), at) && Attempted(Clock(clock, |t.chunks| + 1), done)
      ensures (forall operation: nat :: operation <= |t.chunks| + 1 ==> Budget(Attempts(attempts, operation), 1))
              ==> result.Some?
    {
      hide CheckSetup, Budget, Matching, Cryptobox.ReceiptRoot, SetupSteps;
      var ok, pauses;
      result, done := None, 0;
      ok, pauses, at := Setup(b, Clock(clock, 0), Attempts(attempts, 0), t);
      if !ok { return; }
      var sent, chunkDigests := SendChunks(attempts, t, at);
      if !sent { return; }
      var receipt: Option<Receipt>;
      receipt, pauses, done := Finish(Clock(clock, |t.chunks| + 1), Attempts(attempts, |t.chunks| + 1), t, at);
      if receipt.None? { return; }
      var localReceipt := Cryptobox.ComputeReceiptRoot(store.p, t.raw, chunkDigests);
      if localReceipt == receipt.value.receiptSHA256 { result := receipt; }
    }
  }

  // ---------- what a returned upload means, whoever else writes ----------

  /** After a setup was answered with success the reservation exists, with exactly the bytes sent. */
  lemma SetupAnswered(p: Primitives, d: Disk, now: Time, b: Bundle, raw: bytes)
    requires BeginUpload(p, d, now, b, raw).result.Ok?
    ensures var plan := BeginUpload(p, d, now, b, raw);
      var k, e := Key(b.id, plan.result.value.header.uploadID), ApplyAll(d, plan.steps);
      k in e.uploads && Reserves(e.uploads[k], raw, plan.result.value)
  {
    var m := CheckSetup(p, b, raw).value;
    var k := Key(b.id, m.header.uploadID);
    if k !in d.uploads { SetupEffect(d, k, raw, m, now); }
  }

  predicate Reserves(u: Upload, raw: bytes, m: Manifest) {
    u.manifest == Some(raw) && u.server.Some? && u.server.value == InitialState(m, u.server.value.createdAt)
  }

  lemma {:induction false} ReservationStays(w: World, steps: seq<Step>, k: Key, raw: bytes, m: Manifest)
    requires RemoveUpload(k) !in steps && k in w.disk.uploads && Reserves(w.disk.uploads[k], raw, m)
    ensures var e := AdvanceAll(w, steps).disk;
      k in e.uploads && Reserves(e.uploads[k], raw, m)
    decreases |steps|
  {
    hide InitialState;
    if steps != [] {
      assert steps[0] in steps;
      ReservationStays(Advance(w, steps[0]), steps[1..], k, raw, m);
    }
  }

  lemma {:induction false} ReservationStaysInRun(p: Primitives, w: World, moves: seq<Move>, k: Key, raw: bytes,
                                                 m: Manifest)
    requires NeverRemoved(p, w, moves, k) && k in w.disk.uploads && Reserves(w.disk.uploads[k], raw, m)
    ensures var v := Run(p, w, moves);
      k in v.disk.uploads && Reserves(v.disk.uploads[k], raw, m)
  {
    if moves != [] {
      var n := |moves| - 1;
      var v := Run(p, w, moves[..n]);
      ReservationStaysInRun(p, w, moves[..n], k, raw, m);
      ReservationStays(Remember(p, v, moves[n].event), StepsTaken(p, v, moves[n]), k, raw, m);
    }
  }

  /** What a successful completion leaves in the upload's directory. */
  lemma CompletePlan(p: Primitives, d: Disk, k: Key, later: Time)
    requires Complete(p, d, later, k).result.Ok?
    requires k in d.uploads && d.uploads[k].complete.Some? ==> Completed(p, k, d.uploads[k])
    requires forall raw :: k in d.uploads && d.uploads[k].manifest == Some(raw) && p.parseManifest(raw).Some?
               ==> p.parseManifest(raw).value.header.chunkCount >= 1
    ensures k in d.uploads
    ensures var plan := Complete(p, d, later, k);
      && Completed(p, k, d.uploads[k].(complete := Some(plan.result.value)))
      && (d.uploads[k].complete.Some? ==> d.uploads[k].complete.value == plan.result.value)
      && plan.steps == if d.uploads[k].complete.Some? then [] else [WriteReceipt(k, plan.result.value)]
  {}

  lemma ReceiptWritten(d: Disk, k: Key, r: Receipt, steps: seq<Step>)
    requires k in d.uploads && (d.uploads[k].complete.Some? ==> d.uploads[k].complete.value == r)
    requires steps == if d.uploads[k].complete.Some? then [] else [WriteReceipt(k, r)]
    ensures k in ApplyAll(d, steps).uploads
    ensures ApplyAll(d, steps).uploads[k] == d.uploads[k].(complete := Some(r))
  {
    if steps != [] { OneStep(d, WriteReceipt(k, r)); }
  }

  lemma CompletedAfter(p: Primitives, w: World, k: Key, later: Time)
    requires Inv(p, w) && Complete(p, w.disk, later, k).result.Ok?
    ensures var plan := Complete(p, w.disk, later, k);
      var e := ApplyAll(w.disk, plan.steps);
      k in e.uploads && e.uploads[k].complete == Some(plan.result.value) && Completed(p, k, e.uploads[k])
  {
    hide Completed, Complete, UploadOk;
    if k in w.disk.uploads { UploadFacts(p, w, k); }
    CompletePlan(p, w.disk, k, later);
    var plan := Complete(p, w.disk, later, k);
    ReceiptWritten(w.disk, k, plan.result.value, plan.steps);
  }

  lemma UploadFacts(p: Primitives, w: World, k: Key)
    requires Inv(p, w) && k in w.disk.uploads
    ensures w.disk.uploads[k].complete.Some? ==> Completed(p, k, w.disk.uploads[k])
    ensures forall raw :: w.disk.uploads[k].manifest == Some(raw) && p.parseManifest(raw).Some?
              ==> p.parseManifest(raw).value.header.chunkCount >= 1
  {
    assert UploadOk(p, w.first, k, w.disk.uploads[k]);
  }

  /** Rivals, crashes, removals and all: if completion answers with the receipt the page computed itself, then
      at that moment the store holds exactly the page's manifest and ciphertext chunks, or the two submissions
      exhibit a SHA-256 collision. */
  lemma ReceiptProvesStorage(p: Primitives, w: World, k: Key, later: Time, raw: bytes, chunks: seq<bytes>)
    requires Lawful(p) && Inv(p, w) && Complete(p, w.disk, later, k).result.Ok?
    requires Complete(p, w.disk, later, k).result.value.receiptSHA256
          == Cryptobox.ReceiptRoot(p, raw, Cryptobox.Digests(p, chunks))
    ensures var e := ApplyAll(w.disk, Complete(p, w.disk, later, k).steps);
      && k in e.uploads && e.uploads[k].complete == Some(Complete(p, w.disk, later, k).result.value)
      && Completed(p, k, e.uploads[k])
      && var stored := StoredChunks(p, e.uploads[k]);
         || (e.uploads[k].manifest == Some(raw) && stored == chunks)
         || Cryptobox.ExhibitsCollision(p, Cryptobox.FindCollision(p, e.uploads[k].manifest.value, stored, raw, chunks))
  {
    CompletedAfter(p, w, k, later);
    var u := ApplyAll(w.disk, Complete(p, w.disk, later, k).steps).uploads[k];
    RootBinds(p, k, u, raw, chunks);
  }

  lemma RootBinds(p: Primitives, k: Key, u: Upload, raw: bytes, chunks: seq<bytes>)
    requires Lawful(p) && Completed(p, k, u)
    requires u.complete.value.receiptSHA256 == Cryptobox.ReceiptRoot(p, raw, Cryptobox.Digests(p, chunks))
    ensures var stored := StoredChunks(p, u);
      || (u.manifest == Some(raw) && stored == chunks)
      || Cryptobox.ExhibitsCollision(p, Cryptobox.FindCollision(p, u.manifest.value, stored, raw, chunks))
  {
    Cryptobox.ReceiptBinding(p, u.manifest.value, StoredChunks(p, u), raw, chunks);
  }

  ghost function StoredChunks(p: Primitives, u: Upload): seq<bytes>
    requires u.manifest.Some? && p.parseManifest(u.manifest.value).Some?
    requires var h := p.parseManifest(u.manifest.value).value.header;
      h.chunkCount >= 0 && ChunksPresent(h, u.chunks)
  {
    ChunkList(u.chunks, p.parseManifest(u.manifest.value).value.header.chunkCount)
  }

  /** Apart from this one upload the two disks are the same. */
  ghost predicate OnlyUpload(d: Disk, e: Disk, k: Key) {
    && e == d.(uploads := e.uploads)
    && forall j :: j != k ==> (j in e.uploads <==> j in d.uploads) && (j in d.uploads ==> e.uploads[j] == d.uploads[j])
  }

  lemma ReservedOnce(d: Disk, e: Disk, k: Key, m: Manifest, raw: bytes)
    requires k !in d.uploads && ValidID(k.upload) && OnlyUpload(d, e, k)
    requires k in e.uploads && Reserves(e.uploads[k], raw, m)
    ensures UsedFiles(e, k.request) == UsedFiles(d, k.request) + 1
    ensures UsedBytes(e, k.request) == UsedBytes(d, k.request) + m.header.plainSize
  {
    var before, after := Counted(d.uploads, k.request), Counted(e.uploads, k.request);
    assert after == before + {k} && after - {k} == before;
    StoreServer.PlainSumRemove(e.uploads, after, k);
    StoreInvariant.PlainSumFrame(d.uploads, e.uploads, before);
  }

  /** Whatever the network did, nothing but this upload was touched, and its file is counted against the quota
      at most once, however often requests were repeated: once exactly from the first effective setup on. */
  lemma StagesAreExact(p: Primitives, t: Submission, at: Time, done: Time, b: Bundle, e: Disk)
    requires CanSend(p, t) && Ready(p, t, b) && Stage(p, t, at, done, e)
    ensures OnlyUpload(t.d, e, t.k)
    ensures e != t.d ==> UsedFiles(e, b.id) == UsedFiles(t.d, b.id) + 1
                         && UsedBytes(e, b.id) == UsedBytes(t.d, b.id) + t.m.header.plainSize
  {
    if e != t.d { ReservedOnce(t.d, e, t.k, t.m, t.raw); }
  }

  // ---------- the page's own files ----------

  function SubmissionOf(p: Primitives, d: Disk, s: Sending, raw: bytes): Submission
    requires 0 < s.chunkSize && ChunkCount(s) < Cryptobox.METADATA_INDEX
  {
    Submission(d, KeyOf(s), raw, SealedManifest(p, s), SealedChunks(p, s))
  }

  /** A file sealed by the page for an open request is ready to be uploaded. */
  lemma SealedIsReady(p: Primitives, d: Disk, now: Time, b: Bundle, s: Sending, raw: bytes)
    requires Open(p, d, now, b, s, raw) && Prepared(p, b, s, raw) && now != ZERO_TIME
    ensures var t := SubmissionOf(p, d, s, raw); CanSend(p, t) && Ready(p, t, b) && InTime(b, now)
  {
    hide Cryptobox.HeaderSHA256, SealedMetadata;
    BrowserMatches(p, b, s, raw);
    ManifestIsValid(p, s, b);
  }

  /** Collecting a file that a lossy upload reported as done publishes exactly that file. */
  lemma UploadedIsCollected(p: Primitives, d: Disk, at: Time, done: Time, b: Bundle, s: Sending, raw: bytes,
                            key: KeyFile, policy: Retry.Policy, temp: string, dir: map<string, bytes>,
                                acknowledge: bool)
    requires Prepared(p, b, s, raw) && KeyMatches(p, key, s) && |raw| <= MAX_MANIFEST
    requires p.parseMetadata(s.metadata).Some? && |dir| < MAX_NAME_COLLISIONS
    ensures var t := SubmissionOf(p, d, s, raw);
      Published(p, t.Whole(p, at, done), t.Receipt(p, done), KeyOf(s), NameOf(p, s), s.file, key, policy, temp, dir,
                acknowledge)
  {
    hide Collector.CheckManifest, Cryptobox.ReceiptRoot, SafeFilename;
    var chunks := SealedChunks(p, s);
    CollectsTheFile(p, d, b, s, raw, at, done, FirstChunks(chunks, |chunks|), key, policy, temp);
    SavesTheFile(dir, SafeFilename(p.parseMetadata(s.metadata).value.name), s.file, acknowledge);
  }
}

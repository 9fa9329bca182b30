/** Collecting one submission, and a batch of them (internal/collector/collector.go). */
module Collector {
  import opened Prelude
  import opened Text
  import opened Model
  import opened Cryptobox
  import opened Retry
  import opened Filename
  import opened Publish

  const MANIFEST_LIMIT := 0x1_0000

  datatype CollectError =
    | ForeignReceipt | ReadFailed | BadManifest | Disagreement | BadHeader | BadMetadata
    | BadChunk | WrongSize | WrongReceipt | Cancelled | OutputFailed | AckFailed | Panicked

  /** Everything the server answers while one submission is collected, attempt by attempt. */
  datatype Wire = Wire(manifest: nat -> Outcome<bytes>, chunk: (nat, nat) -> Outcome<bytes>, ack: bool)

  /** What may go wrong locally. */
  datatype Faults = Faults(prepare: bool, writes: set<int>, sync: bool, cancelled: bool, brokenLinks: set<string>)

  datatype Job = Job(receipt: Receipt, wire: Wire, temp: string, faults: Faults)

  /** The result of collecting one submission: where it was saved, and what failed. */
  datatype Collected = Collected(path: Option<string>, error: Option<CollectError>)

  // ---------- verification ----------

  datatype Opened = Opened(header: Header, opener: Opener, name: string)

  /** manifestMetadata on the manifest bytes served. */
  function CheckManifest(p: Primitives, key: KeyFile, receipt: Receipt, raw: bytes): Result<Opened, CollectError> {
    match p.parseManifest(raw)
    case None => Err(BadManifest)
    case Some(m) =>
      var h := m.header;
      if h.requestID != key.requestID || h.uploadID != receipt.uploadID
         || h.chunkCount != receipt.chunkCount || h.plainSize != receipt.plainSize then Err(Disagreement)
      else
        match NewOpener(p, key, m)
        case None => Err(BadHeader)
        case Some(o) =>
          match OpenMetadata(p, o, m.encryptedMetadata)
          case None => Err(BadMetadata)
          case Some(metadata) => Ok(Opened(h, o, SafeFilename(metadata.name)))
  }

  lemma CheckedHeader(p: Primitives, key: KeyFile, receipt: Receipt, raw: bytes)
    requires CheckManifest(p, key, receipt, raw).Ok?
    ensures p.parseManifest(raw).Some?
    ensures CheckManifest(p, key, receipt, raw).value.header == p.parseManifest(raw).value.header
  {}

  /** Whether a decrypted chunk fits what the manifest announced. */
  predicate ChunkFits(h: Header, index: int, length: int, written: int) {
    length <= h.plainSize - written && (index < h.chunkCount - 1 ==> length == h.chunkSize)
  }

  /** The plaintext of the first n ciphertexts, each opened at its own index and of a fitting size. */
  function Plaintext(p: Primitives, o: Opener, h: Header, chunks: seq<bytes>, n: nat): Option<bytes>
    requires n <= |chunks|
  {
    if n == 0 then Some([])
    else
      match Plaintext(p, o, h, chunks, n - 1)
      case None => None
      case Some(done) =>
        match OpenChunk(p, o, n - 1, chunks[n - 1])
        case None => None
        case Some(x) => if ChunkFits(h, n - 1, |x|, |done|) then Some(done + x) else None
  }

  /** The whole verification of what was served; the plaintext is accepted only if everything agrees. */
  function Accepted(p: Primitives, access: Opened, receipt: Receipt, raw: bytes, chunks: seq<bytes>): Option<bytes> {
    match Plaintext(p, access.opener, access.header, chunks, |chunks|)
    case None => None
    case Some(plain) =>
      if |plain| == access.header.plainSize
         && EqualFold(ReceiptRoot(p, raw, Digests(p, chunks)), receipt.receiptSHA256) then Some(plain)
      else None
  }

  /** What is accepted agrees with the receipt. */
  lemma AcceptedAgrees(p: Primitives, key: KeyFile, receipt: Receipt, raw: bytes, chunks: seq<bytes>)
    requires CheckManifest(p, key, receipt, raw).Ok?
    requires Accepted(p, CheckManifest(p, key, receipt, raw).value, receipt, raw, chunks).Some?
    ensures p.parseManifest(raw).Some?
    ensures var h := p.parseManifest(raw).value.header;
      h.requestID == key.requestID && h.uploadID == receipt.uploadID
      && h.chunkCount == receipt.chunkCount && h.plainSize == receipt.plainSize
    ensures EqualFold(ReceiptRoot(p, raw, Digests(p, chunks)), receipt.receiptSHA256)
  {
    hide ReceiptRoot, NewOpener, OpenMetadata, Plaintext;
  }

  lemma {:induction false} PlaintextPrefix(p: Primitives, o: Opener, h: Header, a: seq<bytes>, b: seq<bytes>, n: nat)
    requires n <= |a| && n <= |b| && a[..n] == b[..n]
    ensures Plaintext(p, o, h, a, n) == Plaintext(p, o, h, b, n)
  {
    if n > 0 {
      assert a[..n - 1] == a[..n][..n - 1] && b[..n - 1] == b[..n][..n - 1];
      assert a[n - 1] == a[..n][n - 1] && b[n - 1] == b[..n][n - 1];
      PlaintextPrefix(p, o, h, a, b, n - 1);
    }
  }

  /** The pieces one after the other. */
  function Concatenated(pieces: seq<bytes>): bytes {
    if pieces == [] then [] else Concatenated(pieces[..|pieces| - 1]) + pieces[|pieces| - 1]
  }

  lemma {:induction false} PlaintextPieces(p: Primitives, o: Opener, h: Header, chunks: seq<bytes>, n: nat)
    returns (pieces: seq<bytes>)
    requires n <= |chunks| && Plaintext(p, o, h, chunks, n).Some?
    ensures |pieces| == n && Plaintext(p, o, h, chunks, n).value == Concatenated(pieces)
    ensures forall i :: 0 <= i < n ==> OpenChunk(p, o, i, chunks[i]) == Some(pieces[i])
    ensures forall i :: 0 <= i < n && i < h.chunkCount - 1 ==> |pieces[i]| == h.chunkSize
  {
    hide OpenChunk;
    if n == 0 {
      pieces := [];
    } else {
      var before := PlaintextPieces(p, o, h, chunks, n - 1);
      pieces := before + [OpenChunk(p, o, n - 1, chunks[n - 1]).value];
      assert pieces[..n - 1] == before;
    }
  }

  /** What is accepted is the chunks, each opened at its own index, one after the other: all but the last of exactly the
      chunk size, and together of exactly the announced size. */
  lemma AcceptedPieces(p: Primitives, access: Opened, receipt: Receipt, raw: bytes, chunks: seq<bytes>)
    returns (pieces: seq<bytes>)
    requires Accepted(p, access, receipt, raw, chunks).Some? && |chunks| == access.header.chunkCount
    ensures |pieces| == |chunks|
    ensures Accepted(p, access, receipt, raw, chunks) == Some(Concatenated(pieces))
    ensures |Concatenated(pieces)| == access.header.plainSize
    ensures forall i :: 0 <= i < |chunks| ==> OpenChunk(p, access.opener, i, chunks[i]) == Some(pieces[i])
    ensures forall i :: 0 <= i < |chunks| - 1 ==> |pieces[i]| == access.header.chunkSize
  {
    hide Plaintext, ReceiptRoot;
    pieces := PlaintextPieces(p, access.opener, access.header, chunks, |chunks|);
  }

  // ---------- one submission ----------

  function ServedManifest(policy: Policy, job: Job): Option<bytes> {
    Fetched(job.wire.manifest, MANIFEST_LIMIT, policy)
  }

  function ServedChunk(policy: Policy, job: Job, h: Header, i: nat): Option<bytes> {
    Fetched(a => job.wire.chunk(i, a), h.chunkSize + 17, policy)
  }

  /** Reading, opening and writing the first n chunks, in order; stops at the first thing wrong. */
  function Gathered(p: Primitives, policy: Policy, job: Job, access: Opened, n: nat)
    : Result<(seq<bytes>, bytes), CollectError>
  {
    if n == 0 then Ok(([], []))
    else
      match Gathered(p, policy, job, access, n - 1)
      case Err(e) => Err(e)
      case Ok((chunks, plain)) =>
        match ServedChunk(policy, job, access.header, n - 1)
        case None => Err(ReadFailed)
        case Some(c) =>
          match OpenChunk(p, access.opener, n - 1, c)
          case None => Err(BadChunk)
          case Some(x) =>
            if !ChunkFits(access.header, n - 1, |x|, |plain|) then Err(WrongSize)
            else if n - 1 in job.faults.writes then Err(OutputFailed)
            else Ok((chunks + [c], plain + x))
  }

  /** The receipt, the manifest and its metadata. */
  function Admitted(p: Primitives, key: KeyFile, policy: Policy, job: Job): Result<(bytes, Opened), CollectError> {
    if job.receipt.requestID != key.requestID || !ValidID(job.receipt.uploadID) then Err(ForeignReceipt)
    else
      match ServedManifest(policy, job)
      case None => Err(ReadFailed)
      case Some(raw) =>
        match CheckManifest(p, key, job.receipt, raw)
        case Err(e) => Err(e)
        case Ok(access) => Ok((raw, access))
  }

  /** The chunks, the sizes and the receipt, given an admitted manifest. */
  function Downloaded(p: Primitives, policy: Policy, job: Job, raw: bytes, access: Opened)
    : Result<bytes, CollectError>
  {
    if job.faults.prepare then Err(OutputFailed)
    else if access.header.chunkCount < 0 then Err(Panicked)
    else
      match Gathered(p, policy, job, access, access.header.chunkCount)
      case Err(e) => Err(e)
      case Ok((chunks, plain)) =>
        if |plain| != access.header.plainSize then Err(WrongSize)
        else if !EqualFold(ReceiptRoot(p, raw, Digests(p, chunks)), job.receipt.receiptSHA256) then Err(WrongReceipt)
        else if job.faults.cancelled then Err(Cancelled)
        else if job.faults.sync then Err(OutputFailed)
        else Ok(plain)
  }

  /** The name asked for and the verified plaintext, or what went wrong before publication. */
  function Checked(p: Primitives, key: KeyFile, policy: Policy, job: Job): Result<(string, bytes), CollectError> {
    match Admitted(p, key, policy, job)
    case Err(e) => Err(e)
    case Ok((raw, access)) =>
      match Downloaded(p, policy, job, raw, access)
      case Err(e) => Err(e)
      case Ok(plain) => Ok((access.name, plain))
  }

  /** What verification makes of a submission, and what may still go wrong after it. */
  datatype Item = Item(checked: Result<(string, bytes), CollectError>, brokenLinks: set<string>, ackSucceeds: bool,
                       cancelled: bool)

  function ItemOf(p: Primitives, key: KeyFile, policy: Policy, job: Job): Item {
    Item(Checked(p, key, policy, job), job.faults.brokenLinks, job.wire.ack, job.faults.cancelled)
  }

  /** The outcome of collecting one submission, and the directory afterwards. */
  function Save(dir: map<string, bytes>, item: Item, acknowledge: bool): (Collected, map<string, bytes>) {
    match item.checked
    case Err(e) => (Collected(None, Some(e)), dir)
    case Ok((name, plain)) =>
      match Destination(dir.Keys, item.brokenLinks, name, 1)
      case Err(_) => (Collected(None, Some(OutputFailed)), dir)
      case Ok(path) =>
        (Collected(Some(path), if acknowledge && !item.ackSucceeds then Some(AckFailed) else None), dir[path := plain])
  }

  lemma {:induction false} GatheredIsPlaintext(p: Primitives, policy: Policy, job: Job, access: Opened, n: nat)
    requires Gathered(p, policy, job, access, n).Ok?
    ensures var (chunks, plain) := Gathered(p, policy, job, access, n).value;
      && |chunks| == n && Plaintext(p, access.opener, access.header, chunks, n) == Some(plain)
      && forall i :: 0 <= i < n ==> ServedChunk(policy, job, access.header, i) == Some(chunks[i])
  {
    hide ServedChunk, OpenChunk;
    if n > 0 {
      GatheredIsPlaintext(p, policy, job, access, n - 1);
      var (before, done) := Gathered(p, policy, job, access, n - 1).value;
      var (chunks, plain) := Gathered(p, policy, job, access, n).value;
      assert chunks[..n - 1] == before[..n - 1];
      PlaintextPrefix(p, access.opener, access.header, before, chunks, n - 1);
    }
  }

  /** All that was checked before a file appears: the manifest and every chunk arrived, every chunk opened at
      its own index with a fitting size, the sizes add up to the announced one, and the receipt matches. */
  ghost predicate Verified(p: Primitives, key: KeyFile, policy: Policy, job: Job,
                           raw: bytes, access: Opened, chunks: seq<bytes>, plain: bytes)
  {
    && ServedManifest(policy, job) == Some(raw) && CheckManifest(p, key, job.receipt, raw) == Ok(access)
    && |chunks| == access.header.chunkCount
    && (forall i :: 0 <= i < |chunks| ==> ServedChunk(policy, job, access.header, i) == Some(chunks[i]))
    && Accepted(p, access, job.receipt, raw, chunks) == Some(plain)
  }

  lemma DownloadIsAccepted(p: Primitives, policy: Policy, job: Job, raw: bytes, access: Opened)
    returns (chunks: seq<bytes>)
    requires Downloaded(p, policy, job, raw, access).Ok?
    ensures |chunks| == access.header.chunkCount
    ensures forall i :: 0 <= i < |chunks| ==> ServedChunk(policy, job, access.header, i) == Some(chunks[i])
    ensures Accepted(p, access, job.receipt, raw, chunks) == Some(Downloaded(p, policy, job, raw, access).value)
  {
    GatheredIsPlaintext(p, policy, job, access, access.header.chunkCount);
    chunks := Gathered(p, policy, job, access, access.header.chunkCount).value.0;
  }

  lemma AdmittedIsChecked(p: Primitives, key: KeyFile, policy: Policy, job: Job)
    requires Admitted(p, key, policy, job).Ok?
    ensures var (raw, access) := Admitted(p, key, policy, job).value;
      ServedManifest(policy, job) == Some(raw) && CheckManifest(p, key, job.receipt, raw) == Ok(access)
  {}

  lemma CheckedIsVerified(p: Primitives, key: KeyFile, policy: Policy, job: Job)
    returns (raw: bytes, access: Opened, chunks: seq<bytes>)
    requires Checked(p, key, policy, job).Ok?
    ensures Verified(p, key, policy, job, raw, access, chunks, Checked(p, key, policy, job).value.1)
    ensures Checked(p, key, policy, job).value.0 == access.name
  {
    AdmittedIsChecked(p, key, policy, job);
    raw, access := Admitted(p, key, policy, job).value.0, Admitted(p, key, policy, job).value.1;
    chunks := DownloadIsAccepted(p, policy, job, raw, access);
  }

  /** Nothing went wrong locally before publication. */
  predicate Smooth(job: Job, n: int) {
    && !job.faults.prepare && !job.faults.cancelled && !job.faults.sync
    && forall i :: 0 <= i < n ==> i !in job.faults.writes
  }

  lemma {:induction false} PlaintextIsGathered(p: Primitives, policy: Policy, job: Job, access: Opened,
                                               chunks: seq<bytes>, n: nat)
    requires n <= |chunks| && Plaintext(p, access.opener, access.header, chunks, n).Some? && Smooth(job, n)
    requires forall i :: 0 <= i < n ==> ServedChunk(policy, job, access.header, i) == Some(chunks[i])
    ensures Gathered(p, policy, job, access, n)
         == Ok((chunks[..n], Plaintext(p, access.opener, access.header, chunks, n).value))
  {
    hide ServedChunk, OpenChunk;
    if n > 0 {
      PlaintextIsGathered(p, policy, job, access, chunks, n - 1);
      assert chunks[..n] == chunks[..n - 1] + [chunks[n - 1]];
    }
  }

  lemma {:induction false} GatheredWrites(p: Primitives, policy: Policy, job: Job, access: Opened, n: nat)
    requires Gathered(p, policy, job, access, n).Ok?
    ensures forall i :: 0 <= i < n ==> i !in job.faults.writes
  {
    hide ServedChunk, OpenChunk;
    if n > 0 { GatheredWrites(p, policy, job, access, n - 1); }
  }

  /** Exactly when a submission is ready to be published: its receipt is one of ours, everything served verifies, and
      nothing goes wrong locally. */
  lemma CheckedExactly(p: Primitives, key: KeyFile, policy: Policy, job: Job, name: string, plain: bytes)
    ensures Checked(p, key, policy, job) == Ok((name, plain))
       <==> job.receipt.requestID == key.requestID && ValidID(job.receipt.uploadID)
            && exists raw, access, chunks :: Verified(p, key, policy, job, raw, access, chunks, plain)
                 && name == access.name && Smooth(job, |chunks|)
  {
    if Checked(p, key, policy, job) == Ok((name, plain)) {
      CheckedIsOurs(p, key, policy, job);
      var raw, access, chunks := CheckedIsVerified(p, key, policy, job);
      CheckedIsSmooth(p, key, policy, job, raw, access);
    }
    if job.receipt.requestID == key.requestID && ValidID(job.receipt.uploadID)
       && exists raw, access, chunks :: Verified(p, key, policy, job, raw, access, chunks, plain)
            && name == access.name && Smooth(job, |chunks|)
    {
      var raw, access, chunks :| Verified(p, key, policy, job, raw, access, chunks, plain)
                                 && name == access.name && Smooth(job, |chunks|);
      VerifiedIsChecked(p, key, policy, job, raw, access, chunks, plain);
    }
  }

  lemma CheckedIsOurs(p: Primitives, key: KeyFile, policy: Policy, job: Job)
    requires Checked(p, key, policy, job).Ok?
    ensures job.receipt.requestID == key.requestID && ValidID(job.receipt.uploadID)
  {
    hide ServedManifest, CheckManifest, Downloaded;
  }

  lemma CheckedIsSmooth(p: Primitives, key: KeyFile, policy: Policy, job: Job, raw: bytes, access: Opened)
    requires Checked(p, key, policy, job).Ok?
    requires ServedManifest(policy, job) == Some(raw) && CheckManifest(p, key, job.receipt, raw) == Ok(access)
    ensures Smooth(job, access.header.chunkCount)
  {
    hide ServedManifest, CheckManifest, Gathered, ReceiptRoot;
    GatheredWrites(p, policy, job, access, access.header.chunkCount);
  }

  lemma VerifiedIsChecked(p: Primitives, key: KeyFile, policy: Policy, job: Job, raw: bytes, access: Opened,
                          chunks: seq<bytes>, plain: bytes)
    requires job.receipt.requestID == key.requestID && ValidID(job.receipt.uploadID)
    requires Verified(p, key, policy, job, raw, access, chunks, plain) && Smooth(job, |chunks|)
    ensures Checked(p, key, policy, job) == Ok((access.name, plain))
  {
    hide ServedManifest, CheckManifest, Gathered, ReceiptRoot, ServedChunk, Plaintext, ValidID;
    PlaintextIsGathered(p, policy, job, access, chunks, |chunks|);
    assert chunks[..|chunks|] == chunks;
  }

  /** A file appears only after full verification, with exactly the verified plaintext and under a name that
      was free; every failure before that leaves the directory as it was. */
  lemma AllOrNothing(p: Primitives, key: KeyFile, policy: Policy, dir: map<string, bytes>, job: Job, acknowledge: bool)
    ensures var (result, after) := Save(dir, ItemOf(p, key, policy, job), acknowledge);
      if result.path.None? then after == dir && result.error.Some? && result.error != Some(AckFailed)
      else
        && result.path.value !in dir
        && (exists raw, access, chunks, plain :: Verified(p, key, policy, job, raw, access, chunks, plain)
              && after == dir[result.path.value := plain])
  {
    var checked := Checked(p, key, policy, job);
    NeverAckFailedBefore(p, key, policy, job);
    if checked.Ok? {
      var raw, access, chunks := CheckedIsVerified(p, key, policy, job);
      DestinationIsFree(dir.Keys, job.faults.brokenLinks, checked.value.0, 1);
    }
  }

  lemma {:induction false} GatheredErrors(p: Primitives, policy: Policy, job: Job, access: Opened, n: nat)
    ensures Gathered(p, policy, job, access, n) != Err(AckFailed)
  {
    if n > 0 { GatheredErrors(p, policy, job, access, n - 1); }
  }

  lemma NeverAckFailedBefore(p: Primitives, key: KeyFile, policy: Policy, job: Job)
    ensures Checked(p, key, policy, job) != Err(AckFailed)
  {
    hide ServedChunk, OpenChunk, NewOpener, OpenMetadata;
    if Admitted(p, key, policy, job).Ok? {
      var access := Admitted(p, key, policy, job).value.1;
      GatheredErrors(p, policy, job, access, Max(0, access.header.chunkCount));
    }
  }
}

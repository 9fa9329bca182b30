/** What the browser sends for one file (uploadFile in internal/server/web/app.js), and that the recipient
    gets exactly that file back. */
module Browser {
  import opened Prelude
  import opened Text
  import opened Model
  import opened Chunks
  import opened Cryptobox
  import opened StoreSpec
  import opened Filename
  import Base64
  import Collector

  /** The browser's random choices for one file. */
  datatype Choices = Choices(uploadID: string, scalar: bytes, salt: bytes, noncePrefix: bytes)

  /** One file to send: to whom, with what choices, and in which chunk size (the page uses 1 MiB). */
  datatype Sending = Sending(requestID: string, recipient: bytes, choices: Choices, chunkSize: int,
                             file: bytes, metadata: bytes)

  function ChunkCount(s: Sending): int
    requires 0 < s.chunkSize
  {
    Max(1, (|s.file| + s.chunkSize - 1) / s.chunkSize)
  }

  function SealedHeader(p: Primitives, s: Sending): Header
    requires 0 < s.chunkSize
  {
    var c := s.choices;
    Header(1, s.requestID, c.uploadID, ALGORITHM, Base64.Encode(p.publicKey(c.scalar)), Base64.Encode(c.salt),
           Base64.Encode(c.noncePrefix), s.chunkSize, ChunkCount(s), |s.file|)
  }

  function FileKey(p: Primitives, s: Sending): bytes {
    p.hkdf(p.ecdh(s.choices.scalar, s.recipient), s.choices.salt, KDFInfo(s.requestID, s.choices.uploadID))
  }

  function SealedMetadata(p: Primitives, s: Sending, headerHash: string): bytes {
    p.seal(FileKey(p, s), Nonce(s.choices.noncePrefix, METADATA_INDEX),
           MetadataAAD(s.requestID, s.choices.uploadID, headerHash), s.metadata)
  }

  function SealedManifest(p: Primitives, s: Sending): Manifest
    requires 0 < s.chunkSize
  {
    var headerHash := HeaderSHA256(p, SealedHeader(p, s));
    Manifest(SealedHeader(p, s), headerHash, Base64.Encode(SealedMetadata(p, s, headerHash)))
  }

  function SealedChunk(p: Primitives, s: Sending, headerHash: string, i: int): bytes
    requires 0 < s.chunkSize && 0 <= i <= METADATA_INDEX
  {
    p.seal(FileKey(p, s), Nonce(s.choices.noncePrefix, i),
           ChunkAAD(s.requestID, s.choices.uploadID, headerHash, i), Slice(s.file, s.chunkSize, i))
  }

  function SealedChunks(p: Primitives, s: Sending): (chunks: seq<bytes>)
    requires 0 < s.chunkSize && ChunkCount(s) < METADATA_INDEX
    ensures |chunks| == ChunkCount(s)
  {
    var headerHash := HeaderSHA256(p, SealedHeader(p, s));
    seq(ChunkCount(s), i requires 0 <= i < ChunkCount(s) => SealedChunk(p, s, headerHash, i))
  }

  /** A file the server may take for this request: a legal chunk size and count, and no more than maxBytes. */
  predicate Sendable(p: Primitives, s: Sending, maxBytes: int) {
    && ValidID(s.requestID) && ValidID(s.choices.uploadID) && p.validScalar(s.choices.scalar)
    && |s.choices.salt| == 32 && |s.choices.noncePrefix| == 8 && |s.metadata| <= 0x4000 - TAG_SIZE
    && MIN_CHUNK_SIZE <= s.chunkSize <= MAX_CHUNK_SIZE && |s.file| <= maxBytes && ChunkCount(s) < METADATA_INDEX
  }

  /** The recipient's key file belongs to the point the browser encrypts to. */
  ghost predicate KeyMatches(p: Primitives, key: KeyFile, s: Sending) {
    && key.requestID == s.requestID && Base64.Decode(key.privateKey).Some?
    && var scalar := Base64.Decode(key.privateKey).value;
       p.validScalar(scalar) && s.recipient == p.publicKey(scalar)
  }

  lemma CountAgrees(s: Sending)
    requires 0 < s.chunkSize
    ensures ChunkCount(s) == ExpectedChunks(|s.file|, s.chunkSize)
  {
    CountBounds(|s.file|, s.chunkSize);
  }

  lemma SizesAccepted(p: Primitives, s: Sending, maxBytes: int)
    requires Sendable(p, s, maxBytes)
    ensures AcceptedSizes(maxBytes, |s.file|, s.chunkSize, ChunkCount(s))
  {
    CountAgrees(s);
  }

  // ---------- what the server sees ----------

  lemma HeaderFields(p: Primitives, s: Sending)
    requires 0 < s.chunkSize
    ensures var h := SealedHeader(p, s);
      && Base64.Decode(h.ephemeralPublicKey) == Some(p.publicKey(s.choices.scalar))
      && Base64.Decode(h.salt) == Some(s.choices.salt) && Base64.Decode(h.noncePrefix) == Some(s.choices.noncePrefix)
  {
    Base64.RoundTrip(p.publicKey(s.choices.scalar));
    Base64.RoundTrip(s.choices.salt);
    Base64.RoundTrip(s.choices.noncePrefix);
  }

  lemma HashFields(p: Primitives, h: Header)
    requires Lawful(p)
    ensures HexDecode(HeaderSHA256(p, h)) == Some(p.sha256(Utf8(HeaderCanonical(h))))
    ensures DecodesTo32(HeaderSHA256(p, h)) && EqualFold(HeaderSHA256(p, h), HeaderSHA256(p, h))
  {
    HexRoundTrip(p.sha256(Utf8(HeaderCanonical(h))));
  }

  /** The server accepts every manifest the browser builds. */
  lemma ManifestIsValid(p: Primitives, s: Sending, b: Bundle)
    requires Lawful(p) && Sendable(p, s, b.maxBytes) && b.id == s.requestID
    ensures ValidManifest(p, b, SealedManifest(p, s))
  {
    var m := SealedManifest(p, s);
    SizesAccepted(p, s, b.maxBytes);
    HeaderFields(p, s);
    HashFields(p, m.header);
    Base64.RoundTrip(SealedMetadata(p, s, m.headerSHA256));
  }

  /** Every chunk the browser sends has exactly the length the server expects for its index. */
  lemma ChunkLengthsMatch(p: Primitives, s: Sending, maxBytes: int, i: int)
    requires Lawful(p) && Sendable(p, s, maxBytes) && 0 <= i < ChunkCount(s)
    ensures |SealedChunks(p, s)[i]| == ChunkLength(SealedHeader(p, s), i)
    ensures |SealedChunks(p, s)[i]| <= s.chunkSize + 17
  {
    SizesAccepted(p, s, maxBytes);
    SliceLength(s.file, maxBytes, s.chunkSize, ChunkCount(s), i);
    ChunkLengths(maxBytes, |s.file|, s.chunkSize, ChunkCount(s), i);
  }

  // ---------- what the recipient opens ----------

  ghost function OpenerFor(p: Primitives, s: Sending): Opener
    requires 0 < s.chunkSize
  {
    Opener(FileKey(p, s), s.choices.noncePrefix, s.requestID, s.choices.uploadID, HeaderSHA256(p, SealedHeader(p, s)))
  }

  lemma OpenerAgrees(p: Primitives, s: Sending, key: KeyFile)
    requires Lawful(p) && 0 < s.chunkSize && p.validScalar(s.choices.scalar) && KeyMatches(p, key, s)
    requires |s.choices.salt| == 32 && |s.choices.noncePrefix| == 8
    ensures NewOpener(p, key, SealedManifest(p, s)) == Some(OpenerFor(p, s))
  {
    HeaderFields(p, s);
    HashFields(p, SealedHeader(p, s));
    var scalar := Base64.Decode(key.privateKey).value;
    assert p.ecdh(scalar, p.publicKey(s.choices.scalar)) == p.ecdh(s.choices.scalar, p.publicKey(scalar));
  }

  lemma MetadataOpens(p: Primitives, s: Sending)
    requires Lawful(p) && 0 < s.chunkSize
    ensures OpenMetadata(p, OpenerFor(p, s), SealedManifest(p, s).encryptedMetadata) == p.parseMetadata(s.metadata)
  {
    var headerHash := HeaderSHA256(p, SealedHeader(p, s));
    var sealed := SealedMetadata(p, s, headerHash);
    Base64.RoundTrip(sealed);
    assert p.open(FileKey(p, s), Nonce(s.choices.noncePrefix, METADATA_INDEX),
                  MetadataAAD(s.requestID, s.choices.uploadID, headerHash), sealed) == Some(s.metadata);
  }

  lemma ChunkOpens(p: Primitives, s: Sending, i: int)
    requires Lawful(p) && 0 < s.chunkSize && ChunkCount(s) < METADATA_INDEX && 0 <= i < ChunkCount(s)
    ensures Cryptobox.OpenChunk(p, OpenerFor(p, s), i, SealedChunks(p, s)[i]) == Some(Slice(s.file, s.chunkSize, i))
  {
    var headerHash := HeaderSHA256(p, SealedHeader(p, s));
    assert SealedChunks(p, s)[i] == SealedChunk(p, s, headerHash, i);
  }

  lemma {:induction false} PlaintextIsSlices(p: Primitives, s: Sending, maxBytes: int, n: nat)
    requires Lawful(p) && Sendable(p, s, maxBytes) && n <= ChunkCount(s)
    ensures Collector.Plaintext(p, OpenerFor(p, s), SealedHeader(p, s), SealedChunks(p, s), n)
         == Some(Slices(s.file, s.chunkSize, n))
  {
    hide Cryptobox.OpenChunk, SealedChunks, OpenerFor, Slice;
    if n > 0 {
      PlaintextIsSlices(p, s, maxBytes, n - 1);
      ChunkOpens(p, s, n - 1);
      SizesAccepted(p, s, maxBytes);
      SlicesFit(s.file, maxBytes, s.chunkSize, ChunkCount(s), n - 1);
    }
  }

  lemma SlicesFit(file: bytes, maxBytes: int, chunk: int, count: int, i: int)
    requires AcceptedSizes(maxBytes, |file|, chunk, count) && 0 <= i < count
    ensures |Slice(file, chunk, i)| <= |file| - |Slices(file, chunk, i)|
    ensures i < count - 1 ==> |Slice(file, chunk, i)| == chunk
  {
    ChunkLengths(maxBytes, |file|, chunk, count, i);
    SliceLength(file, maxBytes, chunk, count, i);
    SlicesPrefix(file, chunk, i);
    SlicesPrefix(file, chunk, i + 1);
  }

  /** Sealing and collecting are inverse: whatever the file, every chunk opens, the sizes agree, and the
      plaintext accepted is exactly the file. */
  lemma RoundTrip(p: Primitives, s: Sending, maxBytes: int, key: KeyFile, receipt: Receipt, raw: bytes)
    requires Lawful(p) && Sendable(p, s, maxBytes) && KeyMatches(p, key, s)
    requires p.parseManifest(raw) == Some(SealedManifest(p, s)) && p.parseMetadata(s.metadata).Some?
    requires receipt.uploadID == s.choices.uploadID && receipt.chunkCount == ChunkCount(s)
    requires receipt.plainSize == |s.file|
    requires EqualFold(ReceiptRoot(p, raw, Digests(p, SealedChunks(p, s))), receipt.receiptSHA256)
    ensures var access := Collector.Opened(SealedHeader(p, s), OpenerFor(p, s),
                                           SafeFilename(p.parseMetadata(s.metadata).value.name));
      && Collector.CheckManifest(p, key, receipt, raw) == Ok(access)
      && Collector.Accepted(p, access, receipt, raw, SealedChunks(p, s)) == Some(s.file)
  {
    OpenerAgrees(p, s, key);
    MetadataOpens(p, s);
    SizesAccepted(p, s, maxBytes);
    PlaintextIsSlices(p, s, maxBytes, ChunkCount(s));
    SlicesAreTheFile(s.file, maxBytes, s.chunkSize, ChunkCount(s));
  }
}

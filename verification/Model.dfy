/** The records that cross the network and the disk (internal/model/model.go). */
module Model {
  import opened Prelude

  const SCHEMA_VERSION := 1
  const PROTOCOL_VERSION := 1
  const ALGORITHM := "ECDH-P256+HKDF-SHA256+AES-256-GCM-CHUNKED"

  /** Instants in nanoseconds; ZERO_TIME is Go's zero time, which no clock reads. */
  type Time = int
  const ZERO_TIME: Time := 0

  datatype Bundle = Bundle(
    schemaVersion: int, id: string, caption: string, createdAt: Time, expiresAt: Time,
    maxFiles: int, maxBytes: int, deleteAfterCollect: bool, publicKey: string,
    submitTokenHash: string, collectTokenHash: string)

  datatype Closure = Closure(schemaVersion: int, requestID: string, closedAt: Time)

  datatype KeyFile = KeyFile(requestID: string, privateKey: string)

  /** The ten header fields, in their canonical order. */
  datatype Header = Header(
    version: int, requestID: string, uploadID: string, algorithm: string,
    ephemeralPublicKey: string, salt: string, noncePrefix: string,
    chunkSize: int, chunkCount: int, plainSize: int)

  datatype Manifest = Manifest(header: Header, headerSHA256: string, encryptedMetadata: string)

  datatype FileMetadata = FileMetadata(name: string, kind: string, lastModified: int)

  datatype ServerState = ServerState(
    requestID: string, uploadID: string, createdAt: Time,
    plainSize: int, chunkSize: int, chunkCount: int)

  datatype Receipt = Receipt(
    version: int, requestID: string, uploadID: string, completedAt: Time,
    plainSize: int, cipherBytes: int, chunkCount: int, receiptSHA256: string, acknowledged: bool)

  /** The cryptographic and JSON primitives are parameters of the model. */
  datatype Primitives = Primitives(
    sha256: bytes -> bytes,
    seal: (bytes, bytes, string, bytes) -> bytes,        // key, nonce, associated data, plaintext
    open: (bytes, bytes, string, bytes) -> Option<bytes>, // key, nonce, associated data, ciphertext
    validScalar: bytes -> bool,
    validPoint: bytes -> bool,
    publicKey: bytes -> bytes,                           // scalar to point
    ecdh: (bytes, bytes) -> bytes,                       // scalar, point
    hkdf: (bytes, bytes, string) -> bytes,               // secret, salt, info
    parseManifest: bytes -> Option<Manifest>,
    parseMetadata: bytes -> Option<FileMetadata>)

  /** What the model relies on. Nothing here says that SHA-256 has no collisions. */
  ghost predicate Lawful(p: Primitives) {
    && (forall x :: |p.sha256(x)| == 32)
    && (forall k, n, a, x :: |p.seal(k, n, a, x)| == |x| + 16)
    && (forall k, n, a, x :: p.open(k, n, a, p.seal(k, n, a, x)) == Some(x))
    && (forall k, n, a, c :: p.open(k, n, a, c).Some? ==> c == p.seal(k, n, a, p.open(k, n, a, c).value))
    && (forall s :: p.validScalar(s) ==> p.validPoint(p.publicKey(s)))
    && (forall s, t :: p.validScalar(s) && p.validScalar(t)
          ==> p.ecdh(s, p.publicKey(t)) == p.ecdh(t, p.publicKey(s)))
  }

  function Repeat(x: byte, n: nat): (b: bytes)
    ensures |b| == n
  {
    seq(n, _ => x)
  }

  // ---------- the assumptions are consistent ----------

  const TAG := Repeat(0, 16)

  function ToySeal(key: bytes, nonce: bytes, data: string, x: bytes): bytes { x + TAG }

  function ToyOpen(key: bytes, nonce: bytes, data: string, c: bytes): Option<bytes> {
    if |c| >= 16 && c[|c| - 16..] == TAG then Some(c[..|c| - 16]) else None
  }

  /** Primitives without any secrecy, which read manifests from a given table. */
  function Toy(texts: map<bytes, Manifest>): Primitives {
    Primitives(_ => Repeat(0, 32), ToySeal, ToyOpen, _ => true, _ => true, s => s, (s, t) => [], (s, t, i) => [],
               r => if r in texts then Some(texts[r]) else None, _ => Some(FileMetadata("", "", 0)))
  }

  /** A toy instance meets all the assumptions. */
  lemma ToyIsLawful(texts: map<bytes, Manifest>)
    ensures Lawful(Toy(texts))
  {
    var p := Toy(texts);
    forall k, n, a, x ensures p.open(k, n, a, p.seal(k, n, a, x)) == Some(x) {
      assert (x + TAG)[|x|..] == TAG && (x + TAG)[..|x|] == x;
    }
    forall k, n, a, c | p.open(k, n, a, c).Some?
      ensures c == p.seal(k, n, a, p.open(k, n, a, c).value)
    {
      assert c == c[..|c| - 16] + c[|c| - 16..];
    }
  }
}

/** The chunk arithmetic shared by the server (internal/store/store.go), the browser
    (internal/server/web/app.js) and the collector. */
module Chunks {
  import opened Prelude

  const MIN_CHUNK_SIZE := 0x1_0000
  const MAX_CHUNK_SIZE := 0x80_0000
  const TAG_SIZE := 16
  const MAX_REQUEST_BYTES := 0x4_0000_0000_0000 // 1 << 50

  function ExpectedChunks(plain: int, chunk: int): int
    requires 0 <= plain && 0 < chunk
  {
    var n := (plain + chunk - 1) / chunk;
    if n == 0 then 1 else n
  }

  /** The size checks of validateManifest. */
  predicate AcceptedSizes(maxBytes: int, plain: int, chunk: int, count: int) {
    && 0 <= plain <= maxBytes
    && MIN_CHUNK_SIZE <= chunk <= MAX_CHUNK_SIZE
    && count == ExpectedChunks(plain, chunk)
    && 1 <= count < 0xffff_ffff
  }

  function PlainLength(plain: int, chunk: int, count: int, index: int): int {
    if index == count - 1 then plain - index * chunk else chunk
  }

  function ExpectedCipherChunkSize(plain: int, chunk: int, count: int, index: int): int {
    PlainLength(plain, chunk, count, index) + TAG_SIZE
  }

  /** Total of the first n expected cipher chunk sizes. */
  ghost function CipherTotal(plain: int, chunk: int, count: int, n: nat): int {
    if n == 0 then 0
    else CipherTotal(plain, chunk, count, n - 1) + ExpectedCipherChunkSize(plain, chunk, count, n - 1)
  }

  /** The browser reads file.slice(start, min(size, start + chunk)). */
  function Slice(file: bytes, chunk: int, index: int): bytes
    requires 0 < chunk && 0 <= index
  {
    var start := Min(|file|, index * chunk);
    StartNonNegative(index, chunk);
    file[start..Min(|file|, start + chunk)]
  }

  /** The first n slices, in order. */
  ghost function Slices(file: bytes, chunk: int, n: nat): bytes
    requires 0 < chunk
  {
    if n == 0 then [] else Slices(file, chunk, n - 1) + Slice(file, chunk, n - 1)
  }

  lemma ScaleMonotone(a: int, b: int, c: int)
    requires 0 < c
    ensures a <= b ==> a * c <= b * c
  {}

  lemma StartNonNegative(index: int, chunk: int)
    requires 0 <= index && 0 < chunk
    ensures 0 <= index * chunk
  {}

  lemma CountBounds(plain: int, chunk: int)
    requires 0 <= plain && 0 < chunk
    ensures var n := ExpectedChunks(plain, chunk);
            n >= 1 && (n - 1) * chunk <= plain <= n * chunk && (plain > 0 ==> (n - 1) * chunk < plain)
            && (plain == 0 ==> n == 1)
  {
    var q := (plain + chunk - 1) / chunk;
    var r := (plain + chunk - 1) % chunk;
    assert plain + chunk - 1 == q * chunk + r;
    assert (q - 1) * chunk == q * chunk - chunk;
    ScaleMonotone(1, q, chunk);
    ScaleMonotone(q, 0, chunk);
  }

  /** The server's count is the browser's max(1, ceil(size / chunk)): the only n >= 1 that fits. */
  lemma CountIsCeiling(plain: int, chunk: int, n: int)
    requires 0 <= plain && 0 < chunk
    ensures n == ExpectedChunks(plain, chunk)
       <==> n >= 1 && plain <= n * chunk && (n == 1 || (n - 1) * chunk < plain)
  {
    CountBounds(plain, chunk);
    var m := ExpectedChunks(plain, chunk);
    if n >= 1 && plain <= n * chunk && (n == 1 || (n - 1) * chunk < plain) {
      ScaleMonotone(n, m - 1, chunk);
      ScaleMonotone(m, n - 1, chunk);
    }
  }

  /** Lengths of the single chunks: only the last one may be short, and only an empty file has an empty chunk. */
  lemma ChunkLengths(maxBytes: int, plain: int, chunk: int, count: int, index: int)
    requires AcceptedSizes(maxBytes, plain, chunk, count) && 0 <= index < count
    ensures index < count - 1 ==> PlainLength(plain, chunk, count, index) == chunk
    ensures index == count - 1 ==>
      if plain == 0 then count == 1 && PlainLength(plain, chunk, count, index) == 0
      else 1 <= PlainLength(plain, chunk, count, index) <= chunk
    ensures 0 <= index * chunk <= plain
  {
    CountBounds(plain, chunk);
    ScaleMonotone(index, count - 1, chunk);
    assert (count - 1) * chunk + chunk == count * chunk;
    StartNonNegative(index, chunk);
  }

  /** No step of the arithmetic leaves 64 bits. */
  lemma NoOverflow(maxBytes: int, plain: int, chunk: int, count: int, index: int)
    requires AcceptedSizes(maxBytes, plain, chunk, count) && 0 <= index < count
    requires maxBytes <= MAX_REQUEST_BYTES
    ensures 0 <= plain + chunk - 1 <= INT64_MAX
    ensures 0 <= index * chunk <= index * chunk + chunk <= INT64_MAX
    ensures 0 < ExpectedCipherChunkSize(plain, chunk, count, index) + 1 <= INT64_MAX
    ensures 0 <= plain + TAG_SIZE * count <= INT64_MAX
  {
    ChunkLengths(maxBytes, plain, chunk, count, index);
  }

  lemma {:induction false} CipherPrefix(plain: int, chunk: int, count: int, n: nat)
    requires n < count
    ensures CipherTotal(plain, chunk, count, n) == n * chunk + TAG_SIZE * n
  {
    if n > 0 {
      CipherPrefix(plain, chunk, count, n - 1);
      assert n * chunk == (n - 1) * chunk + chunk;
    }
  }

  /** All chunks together are the file plus one tag a chunk. */
  lemma CipherTotalExact(plain: int, chunk: int, count: int)
    requires count >= 1
    ensures CipherTotal(plain, chunk, count, count) == plain + TAG_SIZE * count
  {
    CipherPrefix(plain, chunk, count, count - 1);
  }

  lemma {:induction false} SlicesPrefix(file: bytes, chunk: int, n: nat)
    requires 0 < chunk
    ensures n * chunk >= 0 && Slices(file, chunk, n) == file[..Min(|file|, n * chunk)]
  {
    StartNonNegative(n, chunk);
    if n > 0 {
      StartNonNegative(n - 1, chunk);
      SlicesPrefix(file, chunk, n - 1);
      assert n * chunk == (n - 1) * chunk + chunk;
      var a, b := Min(|file|, (n - 1) * chunk), Min(|file|, n * chunk);
      assert Slice(file, chunk, n - 1) == file[a..b];
      assert file[..a] + file[a..b] == file[..b];
    }
  }

  lemma SliceLength(file: bytes, maxBytes: int, chunk: int, count: int, i: int)
    requires AcceptedSizes(maxBytes, |file|, chunk, count) && 0 <= i < count
    ensures |Slice(file, chunk, i)| == PlainLength(|file|, chunk, count, i)
  {
    CountBounds(|file|, chunk);
    ChunkLengths(maxBytes, |file|, chunk, count, i);
    ScaleMonotone(i + 1, count - 1, chunk);
    assert (i + 1) * chunk == i * chunk + chunk;
    assert (count - 1) * chunk + chunk == count * chunk;
  }

  /** The browser's slices are exactly the server's expected lengths, and together the file. */
  lemma SlicesAreTheFile(file: bytes, maxBytes: int, chunk: int, count: int)
    requires AcceptedSizes(maxBytes, |file|, chunk, count)
    ensures Slices(file, chunk, count) == file
    ensures forall i :: 0 <= i < count ==> |Slice(file, chunk, i)| == PlainLength(|file|, chunk, count, i)
  {
    CountBounds(|file|, chunk);
    SlicesPrefix(file, chunk, count);
    assert file[..|file|] == file;
    forall i | 0 <= i < count ensures |Slice(file, chunk, i)| == PlainLength(|file|, chunk, count, i) {
      SliceLength(file, maxBytes, chunk, count, i);
    }
  }
}

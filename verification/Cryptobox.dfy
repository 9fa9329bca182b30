/** Framing of the encrypted upload (internal/cryptobox/cryptobox.go): canonical header,
    nonces, associated data, receipt root, and the recipient's opener. */
module Cryptobox {
  import opened Prelude
  import opened Text
  import opened Model
  import Base64

  const METADATA_INDEX := 0xffff_ffff

  ghost predicate Collides(p: Primitives, x: bytes, y: bytes) {
    x != y && p.sha256(x) == p.sha256(y)
  }

  // ---------- canonical header ----------

  const HEADER_TITLE := "opaquedrop/v1/header\n"
  const HEADER_NAMES := [
    "version", "request_id", "upload_id", "algorithm", "ephemeral_public_key",
    "salt", "nonce_prefix", "chunk_size", "chunk_count", "plain_size"]

  function HeaderValues(h: Header): seq<string> {
    [DecimalInt(h.version), h.requestID, h.uploadID, h.algorithm, h.ephemeralPublicKey,
     h.salt, h.noncePrefix, DecimalInt(h.chunkSize), DecimalInt(h.chunkCount), DecimalInt(h.plainSize)]
  }

  function Lines(names: seq<string>, values: seq<string>): string
    requires |names| == |values|
  {
    if names == [] then ""
    else names[0] + "=" + (values[0] + "\n" + Lines(names[1..], values[1..]))
  }

  function HeaderCanonical(h: Header): string {
    HEADER_TITLE + Lines(HEADER_NAMES, HeaderValues(h))
  }

  function HeaderSHA256(p: Primitives, h: Header): string {
    HexEncode(p.sha256(Utf8(HeaderCanonical(h))))
  }

  /** The '='-separated pieces of x followed by the lines. */
  ghost function Pieces(x: string, names: seq<string>, values: seq<string>): seq<string>
    requires |names| == |values|
    decreases |names|
  {
    if names == [] then [x] else [x + names[0]] + Pieces(values[0] + "\n", names[1..], values[1..])
  }

  /** Reads the values back: each piece after the first is a value, a newline and the next name. */
  function ReadValues(names: seq<string>, pieces: seq<string>): seq<string> {
    if names == [] || |pieces| < 2 then []
    else
      var suffix := 1 + if |names| > 1 then |names[1]| else 0;
      [pieces[1][..Max(0, |pieces[1]| - suffix)]] + ReadValues(names[1..], pieces[1..])
  }

  /** A parser for canonical headers: splits at '=' and keeps a reading only if it is the one encoded. */
  function ParseHeader(s: string): Option<Header> {
    var v := ReadValues(HEADER_NAMES, Split(s, '='));
    if |v| != 10 then None
    else
      var h := Header(ParseInt(v[0]), v[1], v[2], v[3], v[4], v[5], v[6],
                      ParseInt(v[7]), ParseInt(v[8]), ParseInt(v[9]));
      if HeaderCanonical(h) == s then Some(h) else None
  }

  /** The syntactic part of what the server and the recipient accept. */
  predicate AcceptedFields(h: Header) {
    && ValidID(h.requestID) && ValidID(h.uploadID) && h.algorithm == ALGORITHM
    && Base64.Decode(h.ephemeralPublicKey).Some?
    && Base64.Decode(h.salt).Some?
    && Base64.Decode(h.noncePrefix).Some?
  }

  lemma {:induction false} SplitLines(x: string, names: seq<string>, values: seq<string>)
    requires |names| == |values| && '=' !in x
    requires forall i :: 0 <= i < |names| ==> '=' !in names[i] && '=' !in values[i]
    ensures Split(x + Lines(names, values), '=') == Pieces(x, names, values)
    decreases |names|
  {
    if names == [] {
      SplitAfter(x, "", '=');
      assert x + "" == x;
    } else {
      var rest := Lines(names[1..], values[1..]);
      SplitLines(values[0] + "\n", names[1..], values[1..]);
      SplitField(x + names[0], values[0] + "\n" + rest, '=');
      assert x + Lines(names, values) == (x + names[0]) + ['='] + (values[0] + "\n" + rest);
    }
  }

  lemma {:induction false} ReadPieces(x: string, names: seq<string>, values: seq<string>)
    requires |names| == |values|
    ensures ReadValues(names, Pieces(x, names, values)) == values
    decreases |names|
  {
    if names != [] {
      var pieces := Pieces(x, names, values);
      assert pieces[1..] == Pieces(values[0] + "\n", names[1..], values[1..]);
      ReadPieces(values[0] + "\n", names[1..], values[1..]);
      var next := if |names| > 1 then names[1] else "";
      assert pieces[1] == values[0] + "\n" + next by {
        assert values[0] + "\n" + "" == values[0] + "\n";
      }
      assert pieces[1][..|values[0]|] == values[0];
      assert [values[0]] + values[1..] == values;
    }
  }

  lemma NamesHaveNoEqualsSign()
    ensures forall i :: 0 <= i < 10 ==> '=' !in HEADER_NAMES[i]
  {
    assert '=' !in "version" && '=' !in "request_id" && '=' !in "upload_id";
    assert '=' !in "algorithm" && '=' !in "ephemeral_public_key" && '=' !in "salt";
    assert '=' !in "nonce_prefix" && '=' !in "chunk_size" && '=' !in "chunk_count";
    assert '=' !in "plain_size";
  }

  lemma DecodableHasNoEqualsSign(s: string)
    requires Base64.Decode(s).Some?
    ensures '=' !in s
  {
    Base64.DecodableField(s);
  }

  lemma NumberHasNoEqualsSign(n: int)
    ensures '=' !in DecimalInt(n)
  {}

  lemma ValuesHaveNoEqualsSign(h: Header)
    requires AcceptedFields(h)
    ensures forall i :: 0 <= i < 10 ==> '=' !in HeaderValues(h)[i]
  {
    hide Base64.Decode, DecimalInt;
    forall i | 0 <= i < 10 ensures '=' !in HeaderValues(h)[i] {
      if i == 0 { NumberHasNoEqualsSign(h.version); }
      else if i == 4 { DecodableHasNoEqualsSign(h.ephemeralPublicKey); }
      else if i == 5 { DecodableHasNoEqualsSign(h.salt); }
      else if i == 6 { DecodableHasNoEqualsSign(h.noncePrefix); }
      else if i == 7 { NumberHasNoEqualsSign(h.chunkSize); }
      else if i == 8 { NumberHasNoEqualsSign(h.chunkCount); }
      else if i == 9 { NumberHasNoEqualsSign(h.plainSize); }
    }
  }

  /** The canonical header is uniquely parseable, although accepted fields may contain newlines. */
  lemma HeaderRoundTrip(h: Header)
    requires AcceptedFields(h)
    ensures ParseHeader(HeaderCanonical(h)) == Some(h)
  {
    NamesHaveNoEqualsSign();
    ValuesHaveNoEqualsSign(h);
    SplitLines(HEADER_TITLE, HEADER_NAMES, HeaderValues(h));
    ReadPieces(HEADER_TITLE, HEADER_NAMES, HeaderValues(h));
    DecimalIntRoundTrip(h.version);
    DecimalIntRoundTrip(h.chunkSize);
    DecimalIntRoundTrip(h.chunkCount);
    DecimalIntRoundTrip(h.plainSize);
  }

  lemma HeaderInjective(g: Header, h: Header)
    requires AcceptedFields(g) && AcceptedFields(h) && HeaderCanonical(g) == HeaderCanonical(h)
    ensures g == h
  {
    HeaderRoundTrip(g);
    HeaderRoundTrip(h);
  }

  lemma {:induction false} AsciiLines(names: seq<string>, values: seq<string>)
    requires |names| == |values|
    requires forall i :: 0 <= i < |names| ==> Ascii(names[i]) && Ascii(values[i])
    ensures Ascii(Lines(names, values))
    decreases |names|
  {
    if names != [] {
      AsciiLines(names[1..], values[1..]);
      assert Ascii(values[0] + "\n" + Lines(names[1..], values[1..]));
    }
  }

  lemma DecodableIsAscii(s: string)
    requires Base64.Decode(s).Some?
    ensures Ascii(s)
  {
    Base64.DecodableField(s);
    assert forall i :: 0 <= i < |s| ==> s[i] in s;
  }

  lemma IDIsAscii(s: string)
    requires ValidID(s)
    ensures Ascii(s)
  {
    assert forall i :: 0 <= i < |s| ==> s[i] in s;
  }

  lemma NumberIsAscii(n: int)
    ensures Ascii(DecimalInt(n))
  {
    var s := Decimal(if n < 0 then -n else n);
    assert forall i :: 0 <= i < |s| ==> s[i] in s;
  }

  lemma NamesAreAscii()
    ensures forall i :: 0 <= i < 10 ==> Ascii(HEADER_NAMES[i])
  {
    assert Ascii("version") && Ascii("request_id") && Ascii("upload_id") && Ascii("algorithm");
    assert Ascii("ephemeral_public_key") && Ascii("salt") && Ascii("nonce_prefix");
    assert Ascii("chunk_size") && Ascii("chunk_count") && Ascii("plain_size");
  }

  lemma AlgorithmIsAscii()
    ensures Ascii(ALGORITHM)
  {}

  lemma ValuesAreAscii(h: Header)
    requires AcceptedFields(h)
    ensures forall i :: 0 <= i < 10 ==> Ascii(HeaderValues(h)[i])
  {
    hide Base64.Decode, DecimalInt, Ascii;
    forall i | 0 <= i < 10 ensures Ascii(HeaderValues(h)[i]) {
      if i == 0 { NumberIsAscii(h.version); }
      else if i == 1 { IDIsAscii(h.requestID); }
      else if i == 2 { IDIsAscii(h.uploadID); }
      else if i == 3 { AlgorithmIsAscii(); }
      else if i == 4 { DecodableIsAscii(h.ephemeralPublicKey); }
      else if i == 5 { DecodableIsAscii(h.salt); }
      else if i == 6 { DecodableIsAscii(h.noncePrefix); }
      else if i == 7 { NumberIsAscii(h.chunkSize); }
      else if i == 8 { NumberIsAscii(h.chunkCount); }
      else if i == 9 { NumberIsAscii(h.plainSize); }
    }
  }

  lemma AsciiConcat(s: string, t: string)
    requires Ascii(s) && Ascii(t)
    ensures Ascii(s + t)
  {}

  lemma HeaderIsAscii(h: Header)
    requires AcceptedFields(h)
    ensures Ascii(HeaderCanonical(h))
  {
    NamesAreAscii();
    ValuesAreAscii(h);
    AsciiLines(HEADER_NAMES, HeaderValues(h));
    AsciiConcat(HEADER_TITLE, Lines(HEADER_NAMES, HeaderValues(h)));
  }

  /** The header hash binds all ten fields, up to an exhibited collision of SHA-256. */
  lemma HeaderBinding(p: Primitives, g: Header, h: Header)
    requires AcceptedFields(g) && AcceptedFields(h)
    requires HeaderSHA256(p, g) == HeaderSHA256(p, h)
    ensures g == h || Collides(p, Utf8(HeaderCanonical(g)), Utf8(HeaderCanonical(h)))
  {
    var x, y := Utf8(HeaderCanonical(g)), Utf8(HeaderCanonical(h));
    HexInjective(p.sha256(x), p.sha256(y));
    if x == y {
      HeaderIsAscii(g);
      HeaderIsAscii(h);
      Utf8AsciiInjective(HeaderCanonical(g), HeaderCanonical(h));
      HeaderInjective(g, h);
    }
  }

  // ---------- nonces ----------

  function BigEndian32(i: int): bytes
    requires 0 <= i <= 0xffff_ffff
  {
    [i / 0x100_0000, i / 0x1_0000 % 0x100, i / 0x100 % 0x100, i % 0x100]
  }

  /** The first eight bytes of the prefix, zero-padded, then the index. */
  function Nonce(prefix: bytes, index: int): (n: bytes)
    requires 0 <= index <= METADATA_INDEX
    ensures |n| == 12
  {
    seq(8, i requires 0 <= i < 8 => if i < |prefix| then prefix[i] else 0) + BigEndian32(index)
  }

  /** Fills a 12-byte buffer in place, as the source does. */
  method MakeNonce(prefix: bytes, index: int) returns (nonce: array<byte>)
    requires 0 <= index <= METADATA_INDEX
    ensures fresh(nonce) && nonce[..] == Nonce(prefix, index)
  {
    nonce := new byte[12](_ => 0);
    var i := 0;
    while i < |prefix| && i < 12
      invariant 0 <= i <= 12 && i <= |prefix|
      invariant forall j :: 0 <= j < 12 ==> nonce[j] == if j < i then prefix[j] else 0
    {
      nonce[i] := prefix[i];
      i := i + 1;
    }
    nonce[8] := index / 0x100_0000;
    nonce[9] := index / 0x1_0000 % 0x100;
    nonce[10] := index / 0x100 % 0x100;
    nonce[11] := index % 0x100;
    assert forall j :: 0 <= j < 8 ==> nonce[j] == Nonce(prefix, index)[j];
  }

  lemma BigEndianValue(i: int)
    requires 0 <= i <= 0xffff_ffff
    ensures var b := BigEndian32(i);
      i == 0x100_0000 * (b[0] as int) + 0x1_0000 * (b[1] as int) + 0x100 * (b[2] as int) + b[3] as int
  {
    assert i / 0x100 / 0x100 == i / 0x1_0000;
    assert i / 0x1_0000 / 0x100 == i / 0x100_0000;
  }

  lemma NonceInjective(prefix: bytes, i: int, j: int)
    requires 0 <= i <= METADATA_INDEX && 0 <= j <= METADATA_INDEX
    requires Nonce(prefix, i) == Nonce(prefix, j)
    ensures i == j
  {
    assert Nonce(prefix, i)[8..] == BigEndian32(i) && Nonce(prefix, j)[8..] == BigEndian32(j);
    BigEndianValue(i);
    BigEndianValue(j);
  }

  /** One upload never uses a nonce twice: its chunks and its metadata all differ. */
  lemma NoncesDistinct(prefix: bytes, chunkCount: int)
    requires 1 <= chunkCount < METADATA_INDEX
    ensures forall i, j :: 0 <= i < j < chunkCount ==> Nonce(prefix, i) != Nonce(prefix, j)
    ensures forall i :: 0 <= i < chunkCount ==> Nonce(prefix, i) != Nonce(prefix, METADATA_INDEX)
  {
    forall i, j | 0 <= i < j < chunkCount ensures Nonce(prefix, i) != Nonce(prefix, j) {
      if Nonce(prefix, i) == Nonce(prefix, j) { NonceInjective(prefix, i, j); }
    }
    forall i | 0 <= i < chunkCount ensures Nonce(prefix, i) != Nonce(prefix, METADATA_INDEX) {
      if Nonce(prefix, i) == Nonce(prefix, METADATA_INDEX) { NonceInjective(prefix, i, METADATA_INDEX); }
    }
  }

  // ---------- associated data ----------

  function KDFInfo(request: string, upload: string): string {
    "OpaqueDrop/v1/request/" + request + "/upload/" + upload
  }

  /** The fields are separated by '|'. */
  function MetadataAAD(request: string, upload: string, headerHash: string): string {
    Join(["opaquedrop/v1", request, upload, "header", headerHash, "metadata"], '|')
  }

  function ChunkAAD(request: string, upload: string, headerHash: string, index: int): string {
    Join(["opaquedrop/v1", request, upload, "header", headerHash, "chunk", DecimalInt(index)], '|')
  }

  /** What a piece of associated data says it protects. */
  datatype Protected = ProtectedMetadata | ProtectedChunk(index: int)

  function AAD(request: string, upload: string, headerHash: string, what: Protected): string {
    match what
    case ProtectedMetadata => MetadataAAD(request, upload, headerHash)
    case ProtectedChunk(i) => ChunkAAD(request, upload, headerHash, i)
  }

  ghost function AADParts(request: string, upload: string, headerHash: string, what: Protected): seq<string> {
    match what
    case ProtectedMetadata => ["opaquedrop/v1", request, upload, "header", headerHash, "metadata"]
    case ProtectedChunk(i) => ["opaquedrop/v1", request, upload, "header", headerHash, "chunk", DecimalInt(i)]
  }

  /** Associated data separates requests, uploads, headers, kinds and positions. */
  lemma AADInjective(r1: string, u1: string, h1: bytes, w1: Protected, r2: string, u2: string, h2: bytes, w2: Protected)
    requires ValidID(r1) && ValidID(u1) && ValidID(r2) && ValidID(u2)
    requires AAD(r1, u1, HexEncode(h1), w1) == AAD(r2, u2, HexEncode(h2), w2)
    ensures r1 == r2 && u1 == u2 && h1 == h2 && w1 == w2
  {
    var x, y := AADParts(r1, u1, HexEncode(h1), w1), AADParts(r2, u2, HexEncode(h2), w2);
    PartsHaveNoBar(r1, u1, h1, w1);
    PartsHaveNoBar(r2, u2, h2, w2);
    SplitJoin(x, '|');
    SplitJoin(y, '|');
    assert x[1] == y[1] && x[2] == y[2] && x[4] == y[4];
    HexInjective(h1, h2);
    assert |x| == |y|;
    if w1.ProtectedChunk? {
      assert x[6] == y[6];
      DecimalIntRoundTrip(w1.index);
      DecimalIntRoundTrip(w2.index);
    }
  }

  lemma PartsHaveNoBar(r: string, u: string, h: bytes, w: Protected)
    requires ValidID(r) && ValidID(u)
    ensures forall part :: part in AADParts(r, u, HexEncode(h), w) ==> '|' !in part
  {
    assert '|' !in r && '|' !in u && '|' !in HexEncode(h);
    assert '|' !in "opaquedrop/v1" && '|' !in "header" && '|' !in "metadata" && '|' !in "chunk";
    if w.ProtectedChunk? { assert '|' !in DecimalInt(w.index); }
  }

  // ---------- receipt root ----------

  const RECEIPT_PREFIX := "OpaqueDrop receipt v1\0"

  function Concat(blocks: seq<bytes>): bytes {
    if blocks == [] then [] else blocks[0] + Concat(blocks[1..])
  }

  function Framed(tag: bytes, first: bytes, blocks: seq<bytes>): bytes {
    tag + first + Concat(blocks)
  }

  function ReceiptInput(p: Primitives, manifest: bytes, digests: seq<bytes>): bytes {
    Framed(Utf8(RECEIPT_PREFIX), p.sha256(manifest), digests)
  }

  function ReceiptRoot(p: Primitives, manifest: bytes, digests: seq<bytes>): string {
    HexEncode(p.sha256(ReceiptInput(p, manifest, digests)))
  }

  function Digests(p: Primitives, chunks: seq<bytes>): (d: seq<bytes>)
    ensures |d| == |chunks| && forall i :: 0 <= i < |d| ==> d[i] == p.sha256(chunks[i])
  {
    seq(|chunks|, i requires 0 <= i < |chunks| => p.sha256(chunks[i]))
  }

  lemma {:induction false} ConcatSnoc(blocks: seq<bytes>, b: bytes)
    ensures Concat(blocks + [b]) == Concat(blocks) + b
  {
    if blocks == [] {
      assert blocks + [b] == [b];
      assert Concat([b]) == b + Concat([]);
    } else {
      assert (blocks + [b])[1..] == blocks[1..] + [b];
      ConcatSnoc(blocks[1..], b);
    }
  }

  lemma FramedStep(tag: bytes, first: bytes, blocks: seq<bytes>, i: nat)
    requires i < |blocks|
    ensures Framed(tag, first, blocks[..i + 1]) == Framed(tag, first, blocks[..i]) + blocks[i]
  {
    assert blocks[..i + 1] == blocks[..i] + [blocks[i]];
    ConcatSnoc(blocks[..i], blocks[i]);
    assert tag + first + (Concat(blocks[..i]) + blocks[i]) == (tag + first + Concat(blocks[..i])) + blocks[i];
  }

  /** Feeds the hasher piece by piece, as the source does. */
  method ComputeReceiptRoot(p: Primitives, manifest: bytes, digests: seq<bytes>) returns (root: string)
    ensures root == ReceiptRoot(p, manifest, digests)
  {
    var tag := Utf8(RECEIPT_PREFIX);
    var first := p.sha256(manifest);
    var fed := tag + first;
    assert fed == Framed(tag, first, digests[..0]) by { assert fed + [] == fed; }
    for i := 0 to |digests|
      invariant fed == Framed(tag, first, digests[..i])
    {
      FramedStep(tag, first, digests, i);
      fed := fed + digests[i];
    }
    assert digests[..|digests|] == digests;
    root := HexEncode(p.sha256(fed));
  }

  lemma {:induction false} ConcatLength(a: seq<bytes>)
    requires forall i :: 0 <= i < |a| ==> |a[i]| == 32
    ensures |Concat(a)| == 32 * |a|
  {
    if a != [] { ConcatLength(a[1..]); }
  }

  /** 32-byte blocks decode uniquely. */
  lemma {:induction false} BlocksInjective(a: seq<bytes>, b: seq<bytes>)
    requires forall i :: 0 <= i < |a| ==> |a[i]| == 32
    requires forall i :: 0 <= i < |b| ==> |b[i]| == 32
    requires Concat(a) == Concat(b)
    ensures a == b
  {
    ConcatLength(a);
    ConcatLength(b);
    if a != [] {
      assert Concat(a)[..32] == a[0] && Concat(b)[..32] == b[0];
      assert Concat(a)[32..] == Concat(a[1..]) && Concat(b)[32..] == Concat(b[1..]);
      BlocksInjective(a[1..], b[1..]);
      assert a == [a[0]] + a[1..] && b == [b[0]] + b[1..];
    }
  }

  lemma FramedInjective(tag: bytes, f: bytes, a: seq<bytes>, g: bytes, b: seq<bytes>)
    requires |f| == 32 && |g| == 32
    requires forall i :: 0 <= i < |a| ==> |a[i]| == 32
    requires forall i :: 0 <= i < |b| ==> |b[i]| == 32
    requires Framed(tag, f, a) == Framed(tag, g, b)
    ensures f == g && a == b
  {
    var x, y, n := Framed(tag, f, a), Framed(tag, g, b), |tag|;
    assert x[n..n + 32] == f && y[n..n + 32] == g;
    assert x[n + 32..] == Concat(a) && y[n + 32..] == Concat(b);
    BlocksInjective(a, b);
  }

  function FirstDifference(a: seq<bytes>, b: seq<bytes>): Option<(bytes, bytes)> {
    if a == [] || b == [] then None
    else if a[0] != b[0] then Some((a[0], b[0]))
    else FirstDifference(a[1..], b[1..])
  }

  /** Computes a collision from two different submissions with one receipt root. */
  function FindCollision(p: Primitives, m1: bytes, c1: seq<bytes>, m2: bytes, c2: seq<bytes>): Option<(bytes, bytes)> {
    FindFramedCollision(p, Utf8(RECEIPT_PREFIX), m1, c1, m2, c2)
  }

  function FindFramedCollision(p: Primitives, tag: bytes, m1: bytes, c1: seq<bytes>, m2: bytes, c2: seq<bytes>)
    : Option<(bytes, bytes)>
  {
    var x := Framed(tag, p.sha256(m1), Digests(p, c1));
    var y := Framed(tag, p.sha256(m2), Digests(p, c2));
    if x != y then Some((x, y))
    else if m1 != m2 then Some((m1, m2))
    else FirstDifference(c1, c2)
  }

  ghost predicate ExhibitsCollision(p: Primitives, pair: Option<(bytes, bytes)>) {
    pair.Some? && Collides(p, pair.value.0, pair.value.1)
  }

  lemma {:induction false} DifferenceCollides(p: Primitives, a: seq<bytes>, b: seq<bytes>)
    requires Digests(p, a) == Digests(p, b)
    ensures a == b || ExhibitsCollision(p, FirstDifference(a, b))
  {
    assert |a| == |Digests(p, a)| == |b|;
    if a != [] {
      assert Digests(p, a)[0] == Digests(p, b)[0];
      if a[0] == b[0] {
        assert Digests(p, a[1..]) == Digests(p, a)[1..] && Digests(p, b[1..]) == Digests(p, b)[1..];
        DifferenceCollides(p, a[1..], b[1..]);
        assert a == [a[0]] + a[1..] && b == [b[0]] + b[1..];
      }
    }
  }

  lemma FramedBinding(p: Primitives, tag: bytes, m1: bytes, c1: seq<bytes>, m2: bytes, c2: seq<bytes>)
    requires Lawful(p)
    requires p.sha256(Framed(tag, p.sha256(m1), Digests(p, c1))) == p.sha256(Framed(tag, p.sha256(m2), Digests(p, c2)))
    ensures (m1 == m2 && c1 == c2) || ExhibitsCollision(p, FindFramedCollision(p, tag, m1, c1, m2, c2))
  {
    var d1, d2 := Digests(p, c1), Digests(p, c2);
    if Framed(tag, p.sha256(m1), d1) == Framed(tag, p.sha256(m2), d2) {
      FramedInjective(tag, p.sha256(m1), d1, p.sha256(m2), d2);
      DifferenceCollides(p, c1, c2);
    }
  }

  /** The receipt root binds the manifest bytes and the ordered chunks, up to an exhibited collision. */
  lemma ReceiptBinding(p: Primitives, m1: bytes, c1: seq<bytes>, m2: bytes, c2: seq<bytes>)
    requires Lawful(p)
    requires ReceiptRoot(p, m1, Digests(p, c1)) == ReceiptRoot(p, m2, Digests(p, c2))
    ensures (m1 == m2 && c1 == c2) || ExhibitsCollision(p, FindCollision(p, m1, c1, m2, c2))
  {
    HexInjective(p.sha256(ReceiptInput(p, m1, Digests(p, c1))), p.sha256(ReceiptInput(p, m2, Digests(p, c2))));
    FramedBinding(p, Utf8(RECEIPT_PREFIX), m1, c1, m2, c2);
  }

  // ---------- the recipient's opener ----------

  datatype Opener = Opener(key: bytes, noncePrefix: bytes, requestID: string, uploadID: string, headerHash: string)

  function NewOpener(p: Primitives, key: KeyFile, m: Manifest): Option<Opener> {
    var h := m.header;
    if h.version != PROTOCOL_VERSION || h.algorithm != ALGORITHM then None
    else if h.requestID != key.requestID then None
    else if HexDecode(m.headerSHA256) != Some(p.sha256(Utf8(HeaderCanonical(h)))) then None
    else
      match (Base64.Decode(key.privateKey), Base64.Decode(h.ephemeralPublicKey),
             Base64.Decode(h.salt), Base64.Decode(h.noncePrefix))
      case (Some(scalar), Some(point), Some(salt), Some(prefix)) =>
        if p.validScalar(scalar) && p.validPoint(point) && |salt| == 32 && |prefix| == 8 then
          Some(Opener(p.hkdf(p.ecdh(scalar, point), salt, KDFInfo(h.requestID, h.uploadID)),
                      prefix, h.requestID, h.uploadID, HeaderSHA256(p, h)))
        else None
      case _ => None
  }

  function OpenChunk(p: Primitives, o: Opener, index: int, ciphertext: bytes): Option<bytes> {
    if index < 0 || index >= METADATA_INDEX then None
    else p.open(o.key, Nonce(o.noncePrefix, index),
                ChunkAAD(o.requestID, o.uploadID, o.headerHash, index), ciphertext)
  }

  function OpenMetadata(p: Primitives, o: Opener, ciphertext: string): Option<FileMetadata> {
    match Base64.Decode(ciphertext)
    case None => None
    case Some(b) =>
      match p.open(o.key, Nonce(o.noncePrefix, METADATA_INDEX),
                   MetadataAAD(o.requestID, o.uploadID, o.headerHash), b)
      case None => None
      case Some(plain) => p.parseMetadata(plain)
  }
}

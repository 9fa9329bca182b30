/** What the server accepts the recipient can open, and an opened manifest is bound to its header: validateManifest in
    internal/store/store.go against NewOpener in internal/cryptobox/cryptobox.go. */
module Admission {
  import opened Prelude
  import opened Text
  import opened Model
  import opened Cryptobox
  import opened StoreSpec
  import opened StoreInvariant
  import opened StoreTheorems
  import Base64
  import Filename
  import Lifetimes
  import Collector

  /** A key file for the request, with a scalar in it. */
  predicate KeyFor(p: Primitives, key: KeyFile, request: string) {
    && key.requestID == request && Base64.Decode(key.privateKey).Some?
    && p.validScalar(Base64.Decode(key.privateKey).value)
  }

  /** The two validations agree: every manifest that the server accepts passes all checks of the recipient's opener. */
  lemma AcceptedOpens(p: Primitives, b: Bundle, m: Manifest, key: KeyFile)
    requires ValidManifest(p, b, m) && KeyFor(p, key, b.id)
    ensures NewOpener(p, key, m).Some?
  {
    hide HexDecode, HexEncode, HeaderCanonical, KDFInfo, Utf8;
    FoldedHexDecodes(m.headerSHA256, p.sha256(Utf8(HeaderCanonical(m.header))));
  }

  /** The recorded hash may be in capitals. */
  lemma CapitalsAreAccepted(p: Primitives, b: Bundle, m: Manifest)
    requires ValidManifest(p, b, m)
    ensures ValidManifest(p, b, m.(headerSHA256 := Filename.Upper(m.headerSHA256)))
  {
    var upper := Filename.Upper(m.headerSHA256);
    hide HexDecode, HexEncode, HeaderCanonical, Utf8;
    assert EqualFold(upper, HeaderSHA256(p, m.header));
    FoldedHexDecodes(m.headerSHA256, p.sha256(Utf8(HeaderCanonical(m.header))));
    FoldedHexDecodes(upper, p.sha256(Utf8(HeaderCanonical(m.header))));
  }

  /** The store never holds a manifest that the holder of the request's key could not open, or could not read within the
      limit. */
  lemma StoredOpens(p: Primitives, w: World, k: Key, key: KeyFile)
    requires Reachable(p, w) && k in w.disk.uploads && w.disk.uploads[k].manifest.Some? && KeyFor(p, key, k.request)
    ensures var raw := w.disk.uploads[k].manifest.value;
      && 0 < |raw| <= Collector.MANIFEST_LIMIT && p.parseManifest(raw).Some?
      && p.parseManifest(raw).value.header.uploadID == k.upload
      && NewOpener(p, key, p.parseManifest(raw).value).Some?
  {
    ReachableInv(p, w);
    var moves :| StoreRuns.ClocksOk(moves) && w == StoreRuns.Run(p, START, moves);
    Lifetimes.ReservedInTime(p, moves);
    assert UploadOk(p, w.first, k, w.disk.uploads[k]) && RequestOk(p, w.disk, w.first, k.request);
    assert Lifetimes.TimelyUpload(w.first, k, w.disk.uploads[k]);
    hide Inv, Reachable, ValidManifest, ValidBundle, KeyFor, NewOpener;
    AcceptedOpens(p, w.first[k.request], p.parseManifest(w.disk.uploads[k].manifest.value).value, key);
  }

  /** An opener is only made for a manifest of this protocol and request whose recorded hash is that of its header. */
  lemma OpenerIsBound(p: Primitives, key: KeyFile, m: Manifest)
    requires NewOpener(p, key, m).Some?
    ensures var o, h := NewOpener(p, key, m).value, m.header;
      && h.version == PROTOCOL_VERSION && h.algorithm == ALGORITHM && h.requestID == key.requestID
      && o.requestID == h.requestID && o.uploadID == h.uploadID && o.headerHash == HeaderSHA256(p, h)
      && HexDecode(m.headerSHA256) == Some(p.sha256(Utf8(HeaderCanonical(h))))
      && |o.noncePrefix| == 8 && Base64.Decode(h.noncePrefix) == Some(o.noncePrefix)
  {
    hide HexDecode, HexEncode, HeaderCanonical, KDFInfo, Utf8;
  }

  /** Two openable manifests with one recorded hash, in whatever case, have the same header in every field, or their
      canonical headers collide. */
  lemma HashFixesHeader(p: Primitives, key: KeyFile, m: Manifest, n: Manifest)
    requires NewOpener(p, key, m).Some? && NewOpener(p, key, n).Some?
    requires ValidID(key.requestID) && ValidID(m.header.uploadID) && ValidID(n.header.uploadID)
    requires HexDecode(m.headerSHA256) == HexDecode(n.headerSHA256)
    ensures m.header == n.header || Collides(p, Utf8(HeaderCanonical(m.header)), Utf8(HeaderCanonical(n.header)))
  {
    OpenerIsBound(p, key, m);
    OpenerIsBound(p, key, n);
    OpenerFields(p, key, m);
    OpenerFields(p, key, n);
    hide NewOpener, HexDecode, HeaderCanonical, Utf8, ValidID;
    HeaderBinding(p, m.header, n.header);
  }

  lemma OpenerFields(p: Primitives, key: KeyFile, m: Manifest)
    requires NewOpener(p, key, m).Some? && ValidID(key.requestID) && ValidID(m.header.uploadID)
    ensures AcceptedFields(m.header)
  {
    hide HexDecode, HexEncode, HeaderCanonical, KDFInfo, Utf8, ValidID;
  }

  /** Each upload has a key derivation of its own: the info string determines request and upload. */
  lemma KDFInfoInjective(request: string, upload: string, request2: string, upload2: string)
    requires ValidID(request) && ValidID(upload) && ValidID(request2) && ValidID(upload2)
    requires KDFInfo(request, upload) == KDFInfo(request2, upload2)
    ensures request == request2 && upload == upload2
  {
    var head, middle := "OpaqueDrop/v1/request/", "/upload/";
    var x, y := KDFInfo(request, upload)[|head|..], KDFInfo(request2, upload2)[|head|..];
    assert '/' !in request && '/' !in request2;
    hide ValidID, KDFInfo;
    KDFTail(request, upload);
    KDFTail(request2, upload2);
    BeforeSlash(request, middle + upload);
    BeforeSlash(request2, middle + upload2);
    assert x == y && |upload| == |upload2|;
    assert x[|x| - |upload|..] == upload && y[|y| - |upload2|..] == upload2;
  }

  lemma KDFTail(request: string, upload: string)
    ensures |KDFInfo(request, upload)| >= 22 && KDFInfo(request, upload)[22..] == request + ("/upload/" + upload)
  {
    var head := "OpaqueDrop/v1/request/";
    assert |head| == 22 && KDFInfo(request, upload) == head + (request + ("/upload/" + upload));
  }

  /** The first field is what stands before the first slash. */
  lemma BeforeSlash(a: string, s: string)
    requires '/' !in a && s != "" && s[0] == '/'
    ensures Split(a + s, '/')[0] == a
  {
    SplitAfter(a, s, '/');
    assert a + "" == a;
  }
}

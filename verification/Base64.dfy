/** Unpadded base64url (RFC 4648 section 5) with the leniency of Go's decoder:
    carriage returns and line feeds are skipped, and unused trailing bits are not checked. */
module Base64 {
  import opened Prelude

  function Symbol(v: int): char
    requires 0 <= v < 64
  {
    if v < 26 then ('A' as int + v) as char
    else if v < 52 then ('a' as int + v - 26) as char
    else if v < 62 then ('0' as int + v - 52) as char
    else if v == 62 then '-'
    else '_'
  }

  function CharValue(c: char): (v: Option<int>)
    ensures v.Some? ==> 0 <= v.value < 64
  {
    if 'A' <= c <= 'Z' then Some(c as int - 'A' as int)
    else if 'a' <= c <= 'z' then Some(c as int - 'a' as int + 26)
    else if '0' <= c <= '9' then Some(c as int - '0' as int + 52)
    else if c == '-' then Some(62)
    else if c == '_' then Some(63)
    else None
  }

  function Encode(b: bytes): string {
    if |b| == 0 then ""
    else if |b| == 1 then [Symbol(b[0] / 4), Symbol(b[0] % 4 * 16)]
    else if |b| == 2 then
      [Symbol(b[0] / 4), Symbol(b[0] % 4 * 16 + b[1] / 16), Symbol(b[1] % 16 * 4)]
    else
      [Symbol(b[0] / 4), Symbol(b[0] % 4 * 16 + b[1] / 16),
       Symbol(b[1] % 16 * 4 + b[2] / 64), Symbol(b[2] % 64)] + Encode(b[3..])
  }

  function SkipNewlines(s: string): string {
    if s == "" then ""
    else if s[0] == '\r' || s[0] == '\n' then SkipNewlines(s[1..])
    else [s[0]] + SkipNewlines(s[1..])
  }

  function DecodeBlocks(s: string): Option<bytes> {
    if |s| == 0 then Some([])
    else if |s| == 1 then None
    else
      match (CharValue(s[0]), CharValue(s[1]))
      case (Some(a), Some(b)) =>
        if |s| == 2 then Some([a * 4 + b / 16])
        else (
          match CharValue(s[2])
          case None => None
          case Some(c) =>
            if |s| == 3 then Some([a * 4 + b / 16, b % 16 * 16 + c / 4])
            else
              match (CharValue(s[3]), DecodeBlocks(s[4..]))
              case (Some(d), Some(rest)) =>
                Some([a * 4 + b / 16, b % 16 * 16 + c / 4, c % 4 * 64 + d] + rest)
              case _ => None)
      case _ => None
  }

  function Decode(s: string): Option<bytes> { DecodeBlocks(SkipNewlines(s)) }

  /** What a decodable field may contain. */
  predicate FieldChar(c: char) {
    || 'A' <= c <= 'Z' || 'a' <= c <= 'z' || '0' <= c <= '9' || c == '-' || c == '_'
    || c == '\r' || c == '\n'
  }

  lemma SymbolValue(i: int)
    requires 0 <= i < 64
    ensures CharValue(Symbol(i)) == Some(i)
  {}

  lemma {:induction false} EncodeAlphabet(b: bytes)
    ensures forall c :: c in Encode(b) ==> CharValue(c).Some?
  {
    if |b| >= 1 {
      SymbolValue(b[0] / 4);
      SymbolValue(b[0] % 4 * 16);
    }
    if |b| >= 2 {
      SymbolValue(b[0] % 4 * 16 + b[1] / 16);
      SymbolValue(b[1] % 16 * 4);
    }
    if |b| >= 3 {
      SymbolValue(b[1] % 16 * 4 + b[2] / 64);
      SymbolValue(b[2] % 64);
      EncodeAlphabet(b[3..]);
    }
  }

  lemma {:induction false} NoNewlines(s: string)
    requires forall c :: c in s ==> CharValue(c).Some?
    ensures SkipNewlines(s) == s
  {
    if s != "" {
      assert s[0] in s;
      NoNewlines(s[1..]);
    }
  }

  /** Regrouping six-bit values gives back the bytes. */
  lemma Regrouped(x: byte, y: byte, z: byte)
    ensures var (a, b, c, d) := (x / 4, x % 4 * 16 + y / 16, y % 16 * 4 + z / 64, z % 64);
      && 0 <= a < 64 && 0 <= b < 64 && 0 <= c < 64 && 0 <= d < 64
      && a * 4 + b / 16 == x && b % 16 * 16 + c / 4 == y && c % 4 * 64 + d == z
  {}

  lemma FourSymbols(a: int, b: int, c: int, d: int, tail: string)
    requires 0 <= a < 64 && 0 <= b < 64 && 0 <= c < 64 && 0 <= d < 64 && DecodeBlocks(tail).Some?
    ensures DecodeBlocks([Symbol(a), Symbol(b), Symbol(c), Symbol(d)] + tail)
         == Some([a * 4 + b / 16, b % 16 * 16 + c / 4, c % 4 * 64 + d] + DecodeBlocks(tail).value)
  {
    SymbolValue(a);
    SymbolValue(b);
    SymbolValue(c);
    SymbolValue(d);
    hide Symbol, CharValue;
    var s := [Symbol(a), Symbol(b), Symbol(c), Symbol(d)] + tail;
    assert s[4..] == tail;
  }

  /** One full group of three bytes and four symbols. */
  lemma GroupRoundTrip(x: byte, y: byte, z: byte, tail: string)
    requires DecodeBlocks(tail).Some?
    ensures
      DecodeBlocks([Symbol(x / 4), Symbol(x % 4 * 16 + y / 16), Symbol(y % 16 * 4 + z / 64), Symbol(z % 64)] + tail)
      == Some([x, y, z] + DecodeBlocks(tail).value)
  {
    hide Symbol, CharValue, DecodeBlocks;
    Regrouped(x, y, z);
    FourSymbols(x / 4, x % 4 * 16 + y / 16, y % 16 * 4 + z / 64, z % 64, tail);
  }

  lemma OneRoundTrip(x: byte)
    ensures DecodeBlocks(Encode([x])) == Some([x])
  {
    SymbolValue(x / 4);
    SymbolValue(x % 4 * 16);
    assert Encode([x]) == [Symbol(x / 4), Symbol(x % 4 * 16)];
  }

  lemma TwoRoundTrip(x: byte, y: byte)
    ensures DecodeBlocks(Encode([x, y])) == Some([x, y])
  {
    SymbolValue(x / 4);
    SymbolValue(x % 4 * 16 + y / 16);
    SymbolValue(y % 16 * 4);
    assert Encode([x, y]) == [Symbol(x / 4), Symbol(x % 4 * 16 + y / 16), Symbol(y % 16 * 4)];
  }

  lemma {:induction false} BlocksRoundTrip(b: bytes)
    ensures DecodeBlocks(Encode(b)) == Some(b)
  {
    if |b| == 1 {
      OneRoundTrip(b[0]);
      assert b == [b[0]];
    } else if |b| == 2 {
      TwoRoundTrip(b[0], b[1]);
      assert b == [b[0], b[1]];
    } else if |b| >= 3 {
      BlocksRoundTrip(b[3..]);
      GroupRoundTrip(b[0], b[1], b[2], Encode(b[3..]));
      assert b == [b[0], b[1], b[2]] + b[3..];
    }
  }

  lemma RoundTrip(b: bytes)
    ensures Decode(Encode(b)) == Some(b)
  {
    EncodeAlphabet(b);
    NoNewlines(Encode(b));
    BlocksRoundTrip(b);
  }

  lemma {:induction false} BlocksAlphabet(s: string)
    requires DecodeBlocks(s).Some?
    ensures forall c :: c in s ==> CharValue(c).Some?
  {
    if |s| > 4 {
      BlocksAlphabet(s[4..]);
      assert forall i :: 4 <= i < |s| ==> s[i] == s[4..][i - 4];
    }
  }

  lemma {:induction false} SkippedChars(s: string, c: char)
    requires c in s && c != '\r' && c != '\n'
    ensures c in SkipNewlines(s)
  {
    if s[0] != c {
      SkippedChars(s[1..], c);
    }
  }

  /** Every accepted field consists of the alphabet, CR and LF: in particular it has no '='. */
  lemma DecodableField(s: string)
    requires Decode(s).Some?
    ensures forall c :: c in s ==> FieldChar(c)
  {
    BlocksAlphabet(SkipNewlines(s));
    forall c | c in s ensures FieldChar(c) {
      if c != '\r' && c != '\n' {
        SkippedChars(s, c);
      }
    }
  }

  // ---------- leniency ----------

  lemma {:induction false} SkipAdds(a: string, b: string)
    ensures SkipNewlines(a + b) == SkipNewlines(a) + SkipNewlines(b)
  {
    if a == "" {
      assert a + b == b;
    } else {
      assert (a + b)[1..] == a[1..] + b;
      SkipAdds(a[1..], b);
    }
  }

  /** Line breaks make no difference, wherever they stand. */
  lemma LineBreaksAreSkipped(a: string, breaks: string, b: string)
    requires forall c :: c in breaks ==> c == '\r' || c == '\n'
    ensures Decode(a + breaks + b) == Decode(a + b)
  {
    OnlyBreaks(breaks);
    SkipAdds(a + breaks, b);
    SkipAdds(a, breaks);
    SkipAdds(a, b);
    assert SkipNewlines(a) + "" == SkipNewlines(a);
  }

  lemma {:induction false} OnlyBreaks(s: string)
    requires forall c :: c in s ==> c == '\r' || c == '\n'
    ensures SkipNewlines(s) == ""
  {
    if s != "" {
      assert s[0] in s && forall c :: c in s[1..] ==> c in s;
      OnlyBreaks(s[1..]);
    }
  }

  /** The bits that a last group leaves over are not looked at. */
  lemma SpareBitsAreIgnored(a: int, b: int, c: int, d: int)
    requires 0 <= a < 64 && 0 <= b < 64 && 0 <= c < 64 && 0 <= d < 64
    ensures b / 16 == c / 16 ==> Decode([Symbol(a), Symbol(b)]) == Decode([Symbol(a), Symbol(c)])
    ensures c / 4 == d / 4 ==>
              Decode([Symbol(a), Symbol(b), Symbol(c)]) == Decode([Symbol(a), Symbol(b), Symbol(d)])
  {
    SymbolValue(a);
    SymbolValue(b);
    SymbolValue(c);
    SymbolValue(d);
    NoNewlines([Symbol(a), Symbol(b)]);
    NoNewlines([Symbol(a), Symbol(c)]);
    NoNewlines([Symbol(a), Symbol(b), Symbol(c)]);
    NoNewlines([Symbol(a), Symbol(b), Symbol(d)]);
  }
}

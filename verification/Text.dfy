/** Decimal and hexadecimal text, UTF-8, and the splitting of separated records. */
module Text {
  import opened Prelude

  // ---------- decimal numbers ----------

  function Digit(d: int): (c: char)
    requires 0 <= d < 10
    ensures '0' <= c <= '9'
  {
    ('0' as int + d) as char
  }

  function Decimal(n: nat): (s: string)
    ensures |s| > 0 && forall c :: c in s ==> '0' <= c <= '9'
  {
    if n < 10 then [Digit(n)] else Decimal(n / 10) + [Digit(n % 10)]
  }

  /** The "%d" format. */
  function DecimalInt(n: int): string {
    if n < 0 then "-" + Decimal(-n) else Decimal(n)
  }

  function DigitValue(c: char): nat {
    if '0' <= c <= '9' then c as int - '0' as int else 0
  }

  function DigitsValue(s: string): nat {
    if s == "" then 0 else 10 * DigitsValue(s[..|s| - 1]) + DigitValue(s[|s| - 1])
  }

  function ParseInt(s: string): int {
    if s != "" && s[0] == '-' then 0 - DigitsValue(s[1..]) else DigitsValue(s)
  }

  lemma {:induction false} DecimalRoundTrip(n: nat)
    ensures DigitsValue(Decimal(n)) == n
  {
    if n < 10 {
      assert Decimal(n)[..0] == "";
    } else {
      var s := Decimal(n);
      assert s[..|s| - 1] == Decimal(n / 10);
      DecimalRoundTrip(n / 10);
    }
  }

  lemma DecimalIntRoundTrip(n: int)
    ensures ParseInt(DecimalInt(n)) == n
  {
    if n < 0 {
      assert DecimalInt(n)[1..] == Decimal(-n);
      DecimalRoundTrip(-n);
    } else {
      assert Decimal(n)[0] in Decimal(n);
      DecimalRoundTrip(n);
    }
  }

  lemma {:induction false} DecimalLength(n: nat, bound: nat, digits: nat)
    requires digits >= 1 && n < bound
    requires bound <= 10 || (digits >= 2 && bound <= 100) || (digits >= 5 && bound <= 100_000)
    ensures |Decimal(n)| <= digits
  {
    if n >= 10 {
      assert |Decimal(n)| == |Decimal(n / 10)| + 1;
      if n / 10 >= 10 {
        assert |Decimal(n / 10)| == |Decimal(n / 100)| + 1;
        if n / 100 >= 10 {
          assert |Decimal(n / 100)| == |Decimal(n / 1000)| + 1;
          if n / 1000 >= 10 {
            assert |Decimal(n / 1000)| == |Decimal(n / 10000)| + 1;
          }
        }
      }
    }
  }

  // ---------- hexadecimal ----------

  predicate LowerHex(c: char) { '0' <= c <= '9' || 'a' <= c <= 'f' }

  function HexDigit(d: int): (c: char)
    requires 0 <= d < 16
    ensures LowerHex(c)
  {
    if d < 10 then Digit(d) else ('a' as int + d - 10) as char
  }

  function HexEncode(b: bytes): (s: string)
    ensures |s| == 2 * |b|
    ensures forall c :: c in s ==> LowerHex(c)
  {
    if b == [] then "" else [HexDigit(b[0] / 16), HexDigit(b[0] % 16)] + HexEncode(b[1..])
  }

  function HexValue(c: char): Option<int> {
    if '0' <= c <= '9' then Some(c as int - '0' as int)
    else if 'a' <= c <= 'f' then Some(c as int - 'a' as int + 10)
    else if 'A' <= c <= 'F' then Some(c as int - 'A' as int + 10)
    else None
  }

  lemma HexValueRange(c: char)
    ensures HexValue(c).Some? ==> 0 <= HexValue(c).value < 16
  {}

  function HexDecode(s: string): Option<bytes> {
    if s == "" then Some([])
    else if |s| == 1 then None
    else
      HexValueRange(s[0]); HexValueRange(s[1]);
      match (HexValue(s[0]), HexValue(s[1]), HexDecode(s[2..]))
      case (Some(hi), Some(lo), Some(rest)) => Some([16 * hi + lo] + rest)
      case _ => None
  }

  lemma {:induction false} HexRoundTrip(b: bytes)
    ensures HexDecode(HexEncode(b)) == Some(b)
  {
    if b != [] {
      var s := HexEncode(b);
      assert s[2..] == HexEncode(b[1..]);
      HexRoundTrip(b[1..]);
      assert [b[0]] + b[1..] == b;
    }
  }

  lemma HexInjective(a: bytes, b: bytes)
    requires HexEncode(a) == HexEncode(b)
    ensures a == b
  {
    HexRoundTrip(a);
    HexRoundTrip(b);
  }

  function LowerChar(c: char): char {
    if 'A' <= c <= 'Z' then (c as int + 32) as char else c
  }

  /** Case folding of ASCII; the compared strings here are hexadecimal. */
  predicate EqualFold(s: string, t: string) {
    |s| == |t| && forall i :: 0 <= i < |s| ==> LowerChar(s[i]) == LowerChar(t[i])
  }

  lemma FoldTail(s: string, t: string)
    requires EqualFold(s, t) && |s| >= 2
    ensures EqualFold(s[2..], t[2..])
  {}

  lemma LowerHexValue(c: char, h: char)
    requires LowerHex(h) && LowerChar(c) == LowerChar(h)
    ensures HexValue(c) == HexValue(h)
  {}

  lemma {:induction false} FoldedHexDecodes(s: string, b: bytes)
    requires EqualFold(s, HexEncode(b))
    ensures HexDecode(s) == Some(b)
  {
    if b != [] {
      var t := HexEncode(b);
      assert t[0] == HexDigit(b[0] / 16) && t[1] == HexDigit(b[0] % 16);
      assert t[2..] == HexEncode(b[1..]);
      LowerHexValue(s[0], t[0]);
      LowerHexValue(s[1], t[1]);
      FoldTail(s, t);
      FoldedHexDecodes(s[2..], b[1..]);
      assert [b[0]] + b[1..] == b;
    }
  }

  // ---------- UTF-8 ----------

  function Utf8Char(c: char): bytes {
    var n := c as int;
    if n < 0x80 then [n]
    else if n < 0x800 then [0xc0 + n / 64, 0x80 + n % 64]
    else if n < 0x10000 then [0xe0 + n / 4096, 0x80 + n / 64 % 64, 0x80 + n % 64]
    else [0xf0 + n / 262144, 0x80 + n / 4096 % 64, 0x80 + n / 64 % 64, 0x80 + n % 64]
  }

  function Utf8(s: string): bytes {
    if s == "" then [] else Utf8Char(s[0]) + Utf8(s[1..])
  }

  predicate Ascii(s: string) { forall i :: 0 <= i < |s| ==> s[i] as int < 0x80 }

  lemma {:induction false} Utf8AsciiInjective(s: string, t: string)
    requires Ascii(s) && Ascii(t) && Utf8(s) == Utf8(t)
    ensures s == t
  {
    if s == "" || t == "" {
      assert s != "" ==> |Utf8(s)| > 0;
      assert t != "" ==> |Utf8(t)| > 0;
    } else {
      assert Utf8(s)[0] == s[0] as int && Utf8(t)[0] == t[0] as int;
      assert Utf8(s)[1..] == Utf8(s[1..]) && Utf8(t)[1..] == Utf8(t[1..]);
      assert s[0] == t[0];
      Utf8AsciiInjective(s[1..], t[1..]);
      assert s == [s[0]] + s[1..] && t == [t[0]] + t[1..];
    }
  }

  /** How many bytes a character takes, from the first of them. */
  function LengthFromLead(lead: byte): nat {
    if lead < 0x80 then 1 else if lead < 0xe0 then 2 else if lead < 0xf0 then 3 else 4
  }

  lemma LeadTellsLength(c: char)
    ensures |Utf8Char(c)| >= 1 && |Utf8Char(c)| == LengthFromLead(Utf8Char(c)[0])
  {}

  /** The code point of an encoded character. */
  function CodePoint(b: bytes): int
    requires 1 <= |b| <= 4
  {
    var x: seq<int> := b;
    match |x|
    case 1 => x[0]
    case 2 => (x[0] - 0xc0) * 64 + (x[1] - 0x80)
    case 3 => (x[0] - 0xe0) * 4096 + (x[1] - 0x80) * 64 + (x[2] - 0x80)
    case _ => (x[0] - 0xf0) * 262144 + (x[1] - 0x80) * 4096 + (x[2] - 0x80) * 64 + (x[3] - 0x80)
  }

  lemma SixBitDigits(n: nat)
    ensures n == n / 64 * 64 + n % 64 && n / 64 == n / 4096 * 64 + n / 64 % 64
    ensures n / 4096 == n / 262144 * 64 + n / 4096 % 64
  {}

  lemma CharRoundTrip(c: char)
    ensures CodePoint(Utf8Char(c)) == c as int
  {
    SixBitDigits(c as int);
  }

  lemma CharInjective(c: char, d: char)
    requires Utf8Char(c) == Utf8Char(d)
    ensures c == d
  {
    hide Utf8Char, CodePoint;
    CharRoundTrip(c);
    CharRoundTrip(d);
  }

  /** UTF-8 determines the text. */
  lemma {:induction false} Utf8Injective(s: string, t: string)
    requires Utf8(s) == Utf8(t)
    ensures s == t
  {
    if s != "" { LeadTellsLength(s[0]); }
    if t != "" { LeadTellsLength(t[0]); }
    if s != "" && t != "" {
      var x, y := Utf8Char(s[0]), Utf8Char(t[0]);
      hide Utf8Char;
      assert Utf8(s)[0] == x[0] && Utf8(t)[0] == y[0];
      assert Utf8(s)[..|x|] == x && Utf8(t)[..|y|] == y;
      CharInjective(s[0], t[0]);
      assert Utf8(s)[|x|..] == Utf8(s[1..]) && Utf8(t)[|y|..] == Utf8(t[1..]);
      Utf8Injective(s[1..], t[1..]);
      assert s == [s[0]] + s[1..] && t == [t[0]] + t[1..];
    }
  }

  // ---------- separated records ----------

  function Split(s: string, sep: char): (parts: seq<string>)
    ensures |parts| > 0
  {
    if s == "" then [""]
    else
      var rest := Split(s[1..], sep);
      if s[0] == sep then [""] + rest else [[s[0]] + rest[0]] + rest[1..]
  }

  function Join(parts: seq<string>, sep: char): string
    requires |parts| > 0
  {
    if |parts| == 1 then parts[0] else parts[0] + [sep] + Join(parts[1..], sep)
  }

  lemma {:induction false} SplitAfter(a: string, t: string, sep: char)
    requires sep !in a
    ensures Split(a + t, sep) == [a + Split(t, sep)[0]] + Split(t, sep)[1..]
  {
    if a == "" {
      assert a + t == t;
      assert a + Split(t, sep)[0] == Split(t, sep)[0];
    } else {
      assert (a + t)[1..] == a[1..] + t;
      SplitAfter(a[1..], t, sep);
      assert [a[0]] + (a[1..] + Split(t, sep)[0]) == a + Split(t, sep)[0];
    }
  }

  lemma SplitField(a: string, t: string, sep: char)
    requires sep !in a
    ensures Split(a + [sep] + t, sep) == [a] + Split(t, sep)
  {
    assert a + [sep] + t == a + ([sep] + t);
    SplitAfter(a, [sep] + t, sep);
    assert ([sep] + t)[1..] == t;
    assert a + "" == a;
  }

  lemma {:induction false} SplitJoin(parts: seq<string>, sep: char)
    requires |parts| > 0 && forall p :: p in parts ==> sep !in p
    ensures Split(Join(parts, sep), sep) == parts
  {
    if |parts| == 1 {
      SplitAfter(parts[0], "", sep);
      assert parts[0] + "" == parts[0];
    } else {
      SplitField(parts[0], Join(parts[1..], sep), sep);
      SplitJoin(parts[1..], sep);
    }
  }

  // ---------- identifiers and spaces ----------

  /** unicode.IsSpace. */
  predicate IsSpace(c: char) {
    var n := c as int;
    || 9 <= n <= 13 || n == 32 || n == 0x85 || n == 0xa0 || n == 0x1680 || 0x2000 <= n <= 0x200a
    || n == 0x2028 || n == 0x2029 || n == 0x202f || n == 0x205f || n == 0x3000
  }

  predicate IDChar(c: char) {
    'A' <= c <= 'Z' || 'a' <= c <= 'z' || '0' <= c <= '9' || c == '_' || c == '-'
  }

  predicate ValidID(id: string) {
    20 <= |id| <= 32 && forall c :: c in id ==> IDChar(c)
  }
}

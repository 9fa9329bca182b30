/** Names for received files (internal/core/core.go): cleaning, and truncation within two budgets. */
module Filename {
  import opened Text

  const MAX_BYTES := 240
  const MAX_UNITS := 240
  const MAX_EXTENSION_BYTES := 40
  const MAX_EXTENSION_UNITS := 40
  const FALLBACK := "received-file"

  // ---------- sizes of text ----------

  function CharBytes(c: char): (n: nat)
    ensures 1 <= n <= 4
  {
    |Utf8Char(c)|
  }

  function CharUnits(c: char): (n: nat)
    ensures 1 <= n <= 2
  {
    if c as int > 0xffff then 2 else 1
  }

  function Bytes(s: string): nat { if s == "" then 0 else CharBytes(s[0]) + Bytes(s[1..]) }
  function Units(s: string): nat { if s == "" then 0 else CharUnits(s[0]) + Units(s[1..]) }

  predicate Fits(s: string, maxBytes: int, maxUnits: int) { Bytes(s) <= maxBytes && Units(s) <= maxUnits }

  lemma {:induction false} SizesAdd(a: string, b: string)
    ensures Bytes(a + b) == Bytes(a) + Bytes(b) && Units(a + b) == Units(a) + Units(b)
  {
    if a == "" {
      assert a + b == b;
    } else {
      assert (a + b)[1..] == a[1..] + b;
      SizesAdd(a[1..], b);
    }
  }

  lemma {:induction false} AsciiSizes(s: string)
    requires Ascii(s)
    ensures Bytes(s) == |s| == Units(s)
  {
    if s != "" { AsciiSizes(s[1..]); }
  }

  // ---------- truncation ----------

  /** The longest prefix of whole characters within both budgets. */
  function Truncate(value: string, maxBytes: int, maxUnits: int): string {
    if value == "" || CharBytes(value[0]) > maxBytes || CharUnits(value[0]) > maxUnits then ""
    else [value[0]] + Truncate(value[1..], maxBytes - CharBytes(value[0]), maxUnits - CharUnits(value[0]))
  }

  lemma {:induction false} TruncateIsLongest(value: string, maxBytes: int, maxUnits: int)
    requires 0 <= maxBytes && 0 <= maxUnits
    ensures var r := Truncate(value, maxBytes, maxUnits);
      && |r| <= |value| && r == value[..|r|] && Fits(r, maxBytes, maxUnits)
      && forall n :: |r| < n <= |value| ==> !Fits(value[..n], maxBytes, maxUnits)
  {
    var r := Truncate(value, maxBytes, maxUnits);
    if value != "" {
      var b, u := CharBytes(value[0]), CharUnits(value[0]);
      if b <= maxBytes && u <= maxUnits {
        TruncateIsLongest(value[1..], maxBytes - b, maxUnits - u);
        assert r[1..] == Truncate(value[1..], maxBytes - b, maxUnits - u);
      }
      forall n | |r| < n <= |value| ensures !Fits(value[..n], maxBytes, maxUnits) {
        assert value[..n][0] == value[0] && value[..n][1..] == value[1..][..n - 1];
      }
    }
  }

  method TruncateUnits(value: string, maxBytes: int, maxUnits: int) returns (r: string)
    ensures r == Truncate(value, maxBytes, maxUnits)
  {
    hide CharBytes, CharUnits;
    var bytesUsed, unitsUsed, end := 0, 0, 0;
    while end < |value|
      invariant 0 <= end <= |value|
      invariant Truncate(value, maxBytes, maxUnits)
             == value[..end] + Truncate(value[end..], maxBytes - bytesUsed, maxUnits - unitsUsed)
    {
      var c := value[end];
      if bytesUsed + CharBytes(c) > maxBytes || unitsUsed + CharUnits(c) > maxUnits { break; }
      assert value[end..][1..] == value[end + 1..];
      assert value[..end] + [c] == value[..end + 1];
      bytesUsed := bytesUsed + CharBytes(c);
      unitsUsed := unitsUsed + CharUnits(c);
      end := end + 1;
    }
    r := value[..end];
  }

  method Utf16Units(value: string) returns (units: nat)
    ensures units == Units(value)
  {
    units := 0;
    for i := 0 to |value|
      invariant units + Units(value[i..]) == Units(value)
    {
      assert value[i..][1..] == value[i + 1..];
      units := units + 1;
      if value[i] as int > 0xffff { units := units + 1; }
    }
  }

  // ---------- extension ----------

  /** From the last dot on; empty without a dot. */
  function Ext(name: string): (e: string)
    ensures |e| <= |name| && name[|name| - |e|..] == e
    ensures e != "" ==> e[0] == '.'
  {
    if name == "" then ""
    else if Ext(name[1..]) != "" then Ext(name[1..])
    else if name[0] == '.' then name
    else ""
  }

  function Stem(name: string): (s: string)
    ensures s + Ext(name) == name
  {
    name[..|name| - |Ext(name)|]
  }

  /** What truncation leaves of the extension, and then of the stem. */
  function KeptExtension(name: string): string {
    Truncate(if Ext(name) == name then "" else Ext(name), MAX_EXTENSION_BYTES, MAX_EXTENSION_UNITS)
  }

  function KeptStem(name: string): string {
    Truncate(if Ext(name) == name then name else Stem(name),
             MAX_BYTES - Bytes(KeptExtension(name)), MAX_UNITS - Units(KeptExtension(name)))
  }

  function TruncateComponent(name: string): string {
    var extension := KeptExtension(name);
    var room, units := MAX_BYTES - Bytes(extension), MAX_UNITS - Units(extension);
    (if KeptStem(name) == "" then Truncate(FALLBACK, room, units) else KeptStem(name)) + extension
  }

  // ---------- cleaning ----------

  predicate Forbidden(c: char) {
    c in "<>:\"/\\|?*" || c as int < 0x20
  }

  function ReplaceChar(s: string, from: char, to: string): string {
    if s == "" then "" else (if s[0] == from then to else [s[0]]) + ReplaceChar(s[1..], from, to)
  }

  function Underscored(s: string): (r: string)
    ensures |r| == |s| && forall i :: 0 <= i < |r| ==> !Forbidden(r[i])
  {
    seq(|s|, i requires 0 <= i < |s| => if Forbidden(s[i]) then '_' else s[i])
  }

  function TrimLeft(s: string, drop: char -> bool): (r: string)
    ensures r == "" || !drop(r[0])
    ensures forall c :: c in r ==> c in s
  {
    if s == "" || !drop(s[0]) then s else TrimLeft(s[1..], drop)
  }

  function TrimRight(s: string, drop: char -> bool): (r: string)
    ensures r == "" || !drop(r[|r| - 1])
    ensures |r| <= |s| && r == s[..|r|]
  {
    if s == "" || !drop(s[|s| - 1]) then s else TrimRight(s[..|s| - 1], drop)
  }

  function Trim(s: string, drop: char -> bool): string { TrimRight(TrimLeft(s, drop), drop) }

  function AfterLastSlash(s: string): string {
    if s == "" then "" else if '/' in s[1..] then AfterLastSlash(s[1..])
    else if s[0] == '/' then s[1..] else s
  }

  /** filepath.Base. */
  function Base(s: string): string {
    if s == "" then "."
    else
      var t := AfterLastSlash(TrimRight(s, c => c == '/'));
      if t == "" then "/" else t
  }

  function UpperChar(c: char): char {
    if 'a' <= c <= 'z' then (c as int - 32) as char else c
  }

  function Upper(s: string): (r: string)
    ensures |r| == |s|
  {
    seq(|s|, i requires 0 <= i < |s| => UpperChar(s[i]))
  }

  function BeforeFirstDot(s: string): string {
    if s == "" || s[0] == '.' then "" else [s[0]] + BeforeFirstDot(s[1..])
  }

  predicate Reserved(word: string) {
    var stem := Upper(word);
    || stem in ["CON", "PRN", "AUX", "NUL"]
    || (|stem| == 4 && (stem[..3] == "COM" || stem[..3] == "LPT")
        && ('1' <= stem[3] <= '9' || stem[3] in "\U{b9}\U{b2}\U{b3}"))
  }

  predicate WindowsDeviceName(name: string) {
    Reserved(TrimRight(BeforeFirstDot(name), c => c == ' ' || c == '.'))
  }

  /** Everything before truncation. */
  function Clean(name: string): string {
    var flat := Trim(ReplaceChar(ReplaceChar(name, '\\', "/"), '\0', ""), c => IsSpace(c));
    var bare := Trim(Underscored(Base(flat)), c => c == ' ' || c == '.');
    var named := if bare == "" || bare == "." || bare == ".." then FALLBACK else bare;
    if WindowsDeviceName(named) then "_" + named else named
  }

  function SafeFilename(name: string): string { TruncateComponent(Clean(name)) }

  // ---------- what a safe name is ----------

  /** A single visible path component: nonempty, nothing forbidden, and not starting with a dot. */
  predicate SafeComponent(s: string) {
    s != "" && s[0] != '.' && forall i :: 0 <= i < |s| ==> !Forbidden(s[i])
  }

  lemma {:induction false} TrimLeftSuffix(s: string, drop: char -> bool)
    ensures var r := TrimLeft(s, drop); |r| <= |s| && r == s[|s| - |r|..]
  {
    if s != "" && drop(s[0]) { TrimLeftSuffix(s[1..], drop); }
  }

  lemma TrimKeepsCharacters(s: string, drop: char -> bool)
    requires forall i :: 0 <= i < |s| ==> !Forbidden(s[i])
    ensures var r := Trim(s, drop);
      (forall i :: 0 <= i < |r| ==> !Forbidden(r[i])) && (r != "" ==> !drop(r[0]))
  {
    TrimLeftSuffix(s, drop);
    var l := TrimLeft(s, drop);
    assert forall i :: 0 <= i < |l| ==> l[i] == s[|s| - |l| + i];
  }

  lemma FallbackIsSafe()
    ensures SafeComponent(FALLBACK)
  {
    assert FALLBACK[0] == 'r';
  }

  lemma UnderscoreIsSafe(s: string)
    requires SafeComponent(s)
    ensures SafeComponent("_" + s)
  {}

  lemma CleanIsSafe(name: string)
    ensures SafeComponent(Clean(name))
  {
    var flat := Trim(ReplaceChar(ReplaceChar(name, '\\', "/"), '\0', ""), c => IsSpace(c));
    var under := Underscored(Base(flat));
    var drop := c => c == ' ' || c == '.';
    TrimKeepsCharacters(under, drop);
    var bare := Trim(under, drop);
    FallbackIsSafe();
    var named := if bare == "" || bare == "." || bare == ".." then FALLBACK else bare;
    assert SafeComponent(named);
    UnderscoreIsSafe(named);
  }

  lemma TruncateKeepsFirst(value: string, maxBytes: int, maxUnits: int)
    requires value != "" && maxBytes >= 4 && maxUnits >= 2
    ensures Truncate(value, maxBytes, maxUnits) != "" && Truncate(value, maxBytes, maxUnits)[0] == value[0]
  {}

  /** Every name ever used is safe, whatever the sender wrote, and within both limits. */
  lemma SafeFilenameIsSafe(name: string)
    ensures SafeComponent(SafeFilename(name)) && Fits(SafeFilename(name), MAX_BYTES, MAX_UNITS)
  {
    CleanIsSafe(name);
    TruncateComponentIsSafe(Clean(name));
  }

  lemma TruncateComponentIsSafe(name: string)
    requires SafeComponent(name)
    ensures SafeComponent(TruncateComponent(name)) && Fits(TruncateComponent(name), MAX_BYTES, MAX_UNITS)
  {
    hide CharBytes, CharUnits, Truncate;
    var ext, stem := Ext(name), Stem(name);
    assert ext != name;
    assert stem != "" && stem[0] == name[0];
    var e := Truncate(ext, MAX_EXTENSION_BYTES, MAX_EXTENSION_UNITS);
    TruncateIsLongest(ext, MAX_EXTENSION_BYTES, MAX_EXTENSION_UNITS);
    var room, units := MAX_BYTES - Bytes(e), MAX_UNITS - Units(e);
    var s := Truncate(stem, room, units);
    TruncateIsLongest(stem, room, units);
    TruncateKeepsFirst(stem, room, units);
    assert TruncateComponent(name) == s + e;
    SizesAdd(s, e);
    assert forall i :: 0 <= i < |s| ==> s[i] == name[i];
    assert forall i :: 0 <= i < |e| ==> e[i] == name[|stem| + i];
  }

  // ---------- portable names ----------

  /** No trailing space or dot, and no reserved device name. */
  predicate Portable(s: string) {
    s != "" && s[|s| - 1] != ' ' && s[|s| - 1] != '.' && !WindowsDeviceName(s)
  }

  lemma {:induction false} FirstDotAfterUnderscore(s: string)
    ensures BeforeFirstDot("_" + s) == "_" + BeforeFirstDot(s)
  {
    assert ("_" + s)[1..] == s;
  }

  lemma {:induction false} TrimRightKeepsFirst(s: string, drop: char -> bool)
    requires s != "" && !drop(s[0])
    ensures TrimRight(s, drop) != "" && TrimRight(s, drop)[0] == s[0]
  {
    if drop(s[|s| - 1]) { TrimRightKeepsFirst(s[..|s| - 1], drop); }
  }

  /** With an underscore in front nothing is a device name. */
  lemma UnderscoreIsNoDevice(s: string)
    ensures !WindowsDeviceName("_" + s)
  {
    FirstDotAfterUnderscore(s);
    var drop := c => c == ' ' || c == '.';
    TrimRightKeepsFirst("_" + BeforeFirstDot(s), drop);
    var stem := Upper(TrimRight("_" + BeforeFirstDot(s), drop));
    assert stem[0] == '_';
    assert |stem| >= 3 ==> stem[..3][0] == '_';
  }

  lemma LongNamesAreNoDevices(s: string)
    requires |s| > 4 && '.' !in s && s[|s| - 1] != ' '
    ensures Portable(s)
  {
    NoDot(s);
    assert s[|s| - 1] in s;
    var drop := c => c == ' ' || c == '.';
    assert TrimRight(s, drop) == s;
    assert |Upper(s)| > 4;
  }

  lemma {:induction false} NoDot(s: string)
    requires '.' !in s
    ensures BeforeFirstDot(s) == s && Ext(s) == ""
  {
    if s != "" {
      assert s[0] in s;
      NoDot(s[1..]);
    }
  }

  lemma FallbackIsPortable()
    ensures Portable(FALLBACK)
  {
    hide Portable;
    assert |FALLBACK| == 13 && FALLBACK[12] == 'e' && '.' !in FALLBACK;
    LongNamesAreNoDevices(FALLBACK);
  }

  /** Marking device names with an underscore leaves none. */
  lemma MarkedIsPortable(named: string)
    requires named != "" && named[|named| - 1] != ' ' && named[|named| - 1] != '.'
    ensures Portable(if WindowsDeviceName(named) then "_" + named else named)
  {
    hide WindowsDeviceName;
    UnderscoreIsNoDevice(named);
    assert ("_" + named)[|named|] == named[|named| - 1];
  }

  lemma CleanIsPortable(name: string)
    ensures Portable(Clean(name))
  {
    hide ReplaceChar, Base, Underscored, WindowsDeviceName, TrimLeft;
    var flat := Trim(ReplaceChar(ReplaceChar(name, '\\', "/"), '\0', ""), c => IsSpace(c));
    var bare := Trim(Underscored(Base(flat)), c => c == ' ' || c == '.');
    var named := if bare == "" || bare == "." || bare == ".." then FALLBACK else bare;
    FallbackIsPortable();
    MarkedIsPortable(named);
  }

  /** The budget check: an extension of at most 40 and a whole of at most 240 bytes and units. */
  predicate WithinBudget(name: string) {
    && (Ext(name) != name ==> Fits(Ext(name), MAX_EXTENSION_BYTES, MAX_EXTENSION_UNITS))
    && Fits(name, MAX_BYTES, MAX_UNITS)
  }

  lemma TruncateKeeps(value: string, maxBytes: int, maxUnits: int)
    requires 0 <= maxBytes && 0 <= maxUnits
    ensures Truncate(value, maxBytes, maxUnits) == value <==> Fits(value, maxBytes, maxUnits)
  {
    TruncateIsLongest(value, maxBytes, maxUnits);
    assert value[..|value|] == value;
  }

  /** A name is kept as it is exactly when it is short enough. */
  lemma KeptExactlyIfShort(name: string)
    requires name != "" && Ext(name) != name
    ensures TruncateComponent(name) == name <==> WithinBudget(name)
  {
    hide CharBytes, CharUnits, Truncate, Bytes, Units, Ext;
    var ext, stem := Ext(name), Stem(name);
    var e := Truncate(ext, MAX_EXTENSION_BYTES, MAX_EXTENSION_UNITS);
    TruncateIsLongest(ext, MAX_EXTENSION_BYTES, MAX_EXTENSION_UNITS);
    TruncateKeeps(ext, MAX_EXTENSION_BYTES, MAX_EXTENSION_UNITS);
    var room, units := MAX_BYTES - Bytes(e), MAX_UNITS - Units(e);
    var s := Truncate(stem, room, units);
    TruncateIsLongest(stem, room, units);
    TruncateKeeps(stem, room, units);
    TruncateKeepsFirst(stem, room, units);
    SizesAdd(stem, ext);
    assert TruncateComponent(name) == s + e && stem + ext == name;
    if s + e == name { assert |e| == |ext| && |s| == |stem|; }
  }

  /** Short names come out portable: no trailing space or dot, no device name. */
  lemma ShortNamesArePortable(name: string)
    requires WithinBudget(Clean(name))
    ensures SafeFilename(name) == Clean(name) && Portable(SafeFilename(name))
  {
    hide WithinBudget, Portable, TruncateComponent, Clean;
    CleanIsSafe(name);
    CleanIsPortable(name);
    ExtOfVisible(Clean(name));
    KeptExactlyIfShort(Clean(name));
  }

  lemma ExtOfVisible(name: string)
    requires SafeComponent(name)
    ensures Ext(name) != name
  {}

  // ---------- exactly which names come out portable ----------

  /** A reserved word with nothing but spaces behind it. */
  predicate DeviceThenSpaces(s: string) { Reserved(TrimRight(s, c => c == ' ')) }

  function LastKept(c: string): string { if KeptExtension(c) == "" then KeptStem(c) else KeptExtension(c) }

  /** The cut of a clean name falls behind a space, or shortens the stem to a device name and spaces. */
  predicate CutSpoils(c: string) {
    || (LastKept(c) != "" && LastKept(c)[|LastKept(c)| - 1] == ' ')
    || (KeptStem(c) != Stem(c) && DeviceThenSpaces(KeptStem(c)))
  }

  lemma {:induction false} ExtHasOneDot(name: string)
    ensures forall i :: 0 < i < |Ext(name)| ==> Ext(name)[i] != '.'
    ensures Ext(name) == "" <==> '.' !in name
  {
    if name != "" {
      ExtHasOneDot(name[1..]);
      assert name == [name[0]] + name[1..];
      assert forall i :: 0 < i < |name| ==> name[i] == name[1..][i - 1];
    }
  }

  lemma {:induction false} FirstDotOfSum(a: string, b: string)
    ensures BeforeFirstDot(a + b) == if '.' in a then BeforeFirstDot(a) else a + BeforeFirstDot(b)
  {
    if a == "" {
      assert a + b == b;
      assert a + BeforeFirstDot(b) == BeforeFirstDot(b);
    } else {
      var rest := a[1..];
      FirstDotOfSum(rest, b);
      assert a == [a[0]] + rest && (a + b)[1..] == rest + b;
      assert [a[0]] + (rest + BeforeFirstDot(b)) == a + BeforeFirstDot(b);
    }
  }

  lemma {:induction false} TrimsAgree(s: string)
    requires '.' !in s
    ensures TrimRight(s, c => c == ' ' || c == '.') == TrimRight(s, c => c == ' ')
  {
    if s != "" {
      assert s[|s| - 1] in s;
      TrimsAgree(s[..|s| - 1]);
    }
  }

  lemma DottedIsNotReserved(word: string)
    requires '.' in word
    ensures !Reserved(word)
  {
    var i :| 0 <= i < |word| && word[i] == '.';
    assert Upper(word)[i] == '.';
    assert i < 3 <= |word| ==> Upper(word)[..3][i] == '.';
  }

  lemma {:induction false} SpacesKeepDots(s: string)
    requires '.' in s
    ensures '.' in TrimRight(s, c => c == ' ')
  {
    if s[|s| - 1] == ' ' {
      assert s == s[..|s| - 1] + [' '];
      SpacesKeepDots(s[..|s| - 1]);
    }
  }

  /** A name whose stem is cut, or kept, to s: it is a device name exactly if s alone is one, dots apart. */
  lemma DeviceOfKept(s: string, e: string)
    requires e == "" || e[0] == '.'
    ensures '.' !in s ==> (WindowsDeviceName(s + e) <==> DeviceThenSpaces(s))
    ensures '.' in s ==> (WindowsDeviceName(s + e) <==> WindowsDeviceName(s)) && !DeviceThenSpaces(s)
  {
    hide Reserved;
    FirstDotOfSum(s, e);
    if '.' in s {
      SpacesKeepDots(s);
      DottedIsNotReserved(TrimRight(s, c => c == ' '));
    } else {
      assert BeforeFirstDot(e) == "" && s + "" == s;
      TrimsAgree(s);
    }
  }

  lemma DeviceOfPrefix(name: string, s: string)
    requires s <= name && '.' in s
    ensures WindowsDeviceName(s) <==> WindowsDeviceName(name)
  {
    hide Reserved;
    assert name == s + name[|s|..];
    FirstDotOfSum(s, name[|s|..]);
  }

  /** A clean name is cut into a nonempty stem and an extension that is empty or a dot and more. */
  lemma Pieces(c: string)
    requires SafeComponent(c) && c[|c| - 1] != '.'
    ensures Ext(c) != c && KeptStem(c) != "" && KeptStem(c) <= Stem(c) && KeptExtension(c) <= Ext(c)
    ensures TruncateComponent(c) == KeptStem(c) + KeptExtension(c)
    ensures KeptExtension(c) == "" <==> Ext(c) == ""
    ensures Ext(c) != "" ==> KeptExtension(c)[0] == '.' && |KeptExtension(c)| >= 2
  {
    hide CharBytes, CharUnits;
    var ext, stem := Ext(c), Stem(c);
    var e := KeptExtension(c);
    TruncateIsLongest(ext, MAX_EXTENSION_BYTES, MAX_EXTENSION_UNITS);
    var room, units := MAX_BYTES - Bytes(e), MAX_UNITS - Units(e);
    TruncateIsLongest(stem, room, units);
    TruncateKeepsFirst(stem, room, units);
    if ext != "" { TwoKept(ext); }
  }

  lemma TwoKept(ext: string)
    requires |ext| >= 2 && ext[0] == '.'
    ensures |Truncate(ext, MAX_EXTENSION_BYTES, MAX_EXTENSION_UNITS)| >= 2
  {
    TruncateKeepsFirst(ext[1..], MAX_EXTENSION_BYTES - 1, MAX_EXTENSION_UNITS - 1);
  }

  lemma LastIsNoDot(c: string)
    requires SafeComponent(c) && c[|c| - 1] != '.'
    ensures LastKept(c) != "" && LastKept(c)[|LastKept(c)| - 1] != '.'
    ensures TruncateComponent(c) != ""
         && TruncateComponent(c)[|TruncateComponent(c)| - 1] == LastKept(c)[|LastKept(c)| - 1]
  {
    hide KeptStem, KeptExtension, TruncateComponent, Ext, SafeComponent;
    Pieces(c);
    ExtHasOneDot(c);
    NoDotAtTheEnd(c, Stem(c), KeptStem(c), Ext(c), KeptExtension(c));
  }

  lemma NoDotAtTheEnd(c: string, stem: string, s: string, ext: string, e: string)
    requires c == stem + ext && s != "" && s <= stem && e <= ext && (ext == "" ==> '.' !in c)
    requires (e == "" <==> ext == "") && (ext != "" ==> |e| >= 2 && forall i :: 0 < i < |ext| ==> ext[i] != '.')
    ensures var last := if e == "" then s else e;
      last[|last| - 1] != '.' && (s + e)[|s + e| - 1] == last[|last| - 1]
  {
    if e == "" {
      assert s[|s| - 1] == c[|s| - 1] && c[|s| - 1] in c;
    } else {
      assert e[|e| - 1] == ext[|e| - 1];
    }
  }

  lemma DeviceExactly(c: string)
    requires SafeComponent(c) && c[|c| - 1] != '.' && !WindowsDeviceName(c)
    ensures WindowsDeviceName(TruncateComponent(c)) <==> KeptStem(c) != Stem(c) && DeviceThenSpaces(KeptStem(c))
  {
    hide KeptStem, KeptExtension, TruncateComponent, WindowsDeviceName, DeviceThenSpaces;
    Pieces(c);
    var s, e := KeptStem(c), KeptExtension(c);
    DeviceOfKept(s, e);
    if '.' in s {
      DeviceOfPrefix(c, s);
    } else if s == Stem(c) {
      DeviceOfKept(s, Ext(c));
    }
  }

  /** Exactly which names come out portable: those within the budgets, and those whose cut neither falls behind a
      space nor shortens the stem to a device name and spaces. */
  lemma PortableExactly(name: string)
    ensures Portable(SafeFilename(name)) <==> WithinBudget(Clean(name)) || !CutSpoils(Clean(name))
  {
    hide Clean, KeptStem, KeptExtension, LastKept, TruncateComponent, WindowsDeviceName, DeviceThenSpaces, WithinBudget;
    var c := Clean(name);
    CleanIsSafe(name);
    CleanIsPortable(name);
    LastIsNoDot(c);
    DeviceExactly(c);
    if WithinBudget(c) { ShortNamesArePortable(name); }
  }

  // ---------- where truncation undoes the cleaning ----------

  function Spaces(n: nat): (s: string)
    ensures |s| == n && forall i :: 0 <= i < n ==> s[i] == ' '
  {
    seq(n, _ => ' ')
  }

  /** A name that is clean but too long: a device name, many spaces, and a last letter. */
  function Padded(n: nat): string { "CON" + Spaces(n) + "x" }

  predicate Plain(c: char) { c in "CONx " }

  lemma PaddedIsPlain(n: nat)
    ensures forall c :: c in Padded(n) ==> Plain(c)
    ensures forall c :: c in "CON" + Spaces(n) ==> Plain(c)
  {}

  lemma {:induction false} ReplaceNothing(s: string, from: char, to: string)
    requires from !in s
    ensures ReplaceChar(s, from, to) == s
  {
    if s != "" {
      assert s[0] in s;
      ReplaceNothing(s[1..], from, to);
      assert [s[0]] + s[1..] == s;
    }
  }

  lemma {:induction false} NoSlash(s: string)
    requires '/' !in s
    ensures AfterLastSlash(s) == s
  {
    if s != "" {
      assert s[0] in s;
      NoSlash(s[1..]);
    }
  }

  lemma TrimNothing(s: string, drop: char -> bool)
    requires s != "" && !drop(s[0]) && !drop(s[|s| - 1])
    ensures Trim(s, drop) == s
  {}

  lemma BaseOfPlain(s: string)
    requires s != "" && '/' !in s
    ensures Base(s) == s
  {
    assert s[|s| - 1] in s;
    NoSlash(s);
  }

  lemma UnderscoredNothing(s: string)
    requires forall i :: 0 <= i < |s| ==> !Forbidden(s[i])
    ensures Underscored(s) == s
  {}

  lemma PlainIsClean(s: string)
    requires |s| > 2 && s[0] == 'C' && s[|s| - 1] == 'x' && !WindowsDeviceName(s)
    requires forall c :: c in s ==> Plain(c)
    ensures Clean(s) == s
  {
    hide ReplaceChar, Trim, Base, Underscored, WindowsDeviceName;
    ReplaceNothing(s, '\\', "/");
    ReplaceNothing(s, '\0', "");
    TrimNothing(s, c => IsSpace(c));
    BaseOfPlain(s);
    assert forall i :: 0 <= i < |s| ==> s[i] in s;
    UnderscoredNothing(s);
    TrimNothing(s, c => c == ' ' || c == '.');
  }

  lemma PaddedIsClean(n: nat)
    ensures Clean(Padded(n)) == Padded(n)
  {
    hide WindowsDeviceName, Clean;
    PaddedIsPlain(n);
    LongOrPortable(n);
    PlainIsClean(Padded(n));
  }

  lemma LongOrPortable(n: nat)
    ensures !WindowsDeviceName(Padded(n))
  {
    var s := Padded(n);
    PaddedIsPlain(n);
    NoDot(s);
    var drop := c => c == ' ' || c == '.';
    assert s[|s| - 1] == 'x' && TrimRight(s, drop) == s;
    assert Upper(s)[|s| - 1] == 'X';
    assert |s| == 4 ==> Upper(s)[..3] == "CON";
  }

  lemma {:induction false} SpacesTrim(s: string, n: nat, drop: char -> bool)
    requires drop(' ') && (s == "" || !drop(s[|s| - 1]))
    ensures TrimRight(s + Spaces(n), drop) == s
  {
    if n == 0 {
      assert s + Spaces(0) == s;
    } else {
      assert (s + Spaces(n))[..|s| + n - 1] == s + Spaces(n - 1);
      SpacesTrim(s, n - 1, drop);
    }
  }

  lemma SpacedDevice(n: nat)
    ensures WindowsDeviceName("CON" + Spaces(n))
  {
    PaddedIsPlain(n);
    NoDot("CON" + Spaces(n));
    SpacesTrim("CON", n, c => c == ' ' || c == '.');
    assert Upper("CON") == "CON";
  }

  lemma PlainIsCut(s: string)
    requires (forall c :: c in s ==> Plain(c)) && |s| > 240
    ensures TruncateComponent(s) == s[..240] && !WithinBudget(s)
  {
    NoDot(s);
    AsciiPrefix(s, 240);
    assert Stem(s) == s && Truncate("", MAX_EXTENSION_BYTES, MAX_EXTENSION_UNITS) == "";
    assert s[..240] + "" == s[..240];
  }

  /** Cleaning comes before truncation, so for long names its work can be undone: however many spaces from 237 on
      stand between CON and the x, the name that comes out ends in a space and is a device name. */
  lemma LongNamesMayBeUnportable(n: nat)
    requires n >= 237
    ensures Clean(Padded(n)) == Padded(n) && !WithinBudget(Padded(n))
    ensures SafeFilename(Padded(n)) == "CON" + Spaces(237) && !Portable(SafeFilename(Padded(n)))
    ensures WindowsDeviceName(SafeFilename(Padded(n)))
  {
    hide Clean, TruncateComponent, WithinBudget, WindowsDeviceName, Plain;
    PaddedIsClean(n);
    PaddedIsPlain(n);
    PlainIsCut(Padded(n));
    assert Padded(n)[..240] == "CON" + Spaces(237);
    SpacedDevice(237);
  }

  lemma AsciiPrefix(s: string, n: nat)
    requires (forall c :: c in s ==> Plain(c)) && n < |s|
    ensures Truncate(s, n, n) == s[..n] && !Fits(s, n, n)
  {
    assert Ascii(s) by { assert forall i :: 0 <= i < |s| ==> s[i] in s; }
    TruncateIsLongest(s, n, n);
    AsciiSizes(s);
    AsciiSizes(s[..n]);
    AsciiSizes(s[..|Truncate(s, n, n)|]);
  }
}

/** What becomes of the name a sender chose: ordinary names are kept, paths lose their directories, forbidden characters
    are replaced one by one, device names are marked, and only what is empty is renamed. */
module OrdinaryNames {
  import opened Text
  import opened Filename

  /** What is trimmed from the ends of a name. */
  predicate Edge(c: char) { c == '.' || IsSpace(c) }

  /** One component of a path: nothing that separates, and nothing at its ends to trim. */
  predicate Component(s: string) {
    s != "" && '/' !in s && '\\' !in s && '\0' !in s && !Edge(s[0]) && !Edge(s[|s| - 1])
  }

  predicate Allowed(s: string) { forall i :: 0 <= i < |s| ==> !Forbidden(s[i]) }

  // ---------- single components ----------

  lemma UnderscoredEnds(s: string)
    requires Component(s)
    ensures var u := Underscored(s);
      u != "" && u[0] != ' ' && u[0] != '.' && u[|u| - 1] != ' ' && u[|u| - 1] != '.'
  {}

  /** A component becomes itself with underscores for forbidden characters, and one more in front of a device name. */
  lemma ComponentCleans(s: string)
    requires Component(s)
    ensures Clean(s) == if WindowsDeviceName(Underscored(s)) then "_" + Underscored(s) else Underscored(s)
  {
    UnderscoredEnds(s);
    hide ReplaceChar, Trim, Base, Underscored, WindowsDeviceName;
    ReplaceNothing(s, '\\', "/");
    ReplaceNothing(s, '\0', "");
    TrimNothing(s, c => IsSpace(c));
    BaseOfPlain(s);
    TrimNothing(Underscored(s), c => c == ' ' || c == '.');
  }

  // ---------- paths ----------

  lemma {:induction false} ReplaceAdds(a: string, b: string, from: char, to: string)
    ensures ReplaceChar(a + b, from, to) == ReplaceChar(a, from, to) + ReplaceChar(b, from, to)
  {
    if a == "" {
      assert a + b == b;
    } else {
      assert (a + b)[1..] == a[1..] + b;
      ReplaceAdds(a[1..], b, from, to);
    }
  }

  lemma {:induction false} TrimLeftStops(a: string, b: string, drop: char -> bool)
    requires b != "" && !drop(b[0])
    ensures TrimLeft(a + b, drop) == TrimLeft(a, drop) + b
  {
    if a == "" {
      assert a + b == b;
    } else if drop(a[0]) {
      assert (a + b)[1..] == a[1..] + b;
      TrimLeftStops(a[1..], b, drop);
    }
  }

  lemma {:induction false} AfterTheSlash(a: string, s: string)
    requires '/' !in s
    ensures AfterLastSlash(a + "/" + s) == s
  {
    var t := a + "/" + s;
    if a == "" {
      assert t == "/" + s && t[1..] == s;
    } else {
      assert t[1..] == a[1..] + "/" + s;
      assert (a[1..] + "/" + s)[|a| - 1] == '/';
      AfterTheSlash(a[1..], s);
    }
  }

  lemma TrimPath(x: string, s: string, drop: char -> bool)
    requires s != "" && !drop('/') && !drop(s[|s| - 1])
    ensures Trim(x + "/" + s, drop) == TrimLeft(x, drop) + "/" + s
  {
    var rest, t := "/" + s, TrimLeft(x, drop) + "/" + s;
    assert x + "/" + s == x + rest && TrimLeft(x, drop) + rest == t;
    TrimLeftStops(x, rest, drop);
    hide TrimLeft;
    assert t[|t| - 1] == s[|s| - 1];
  }

  lemma BaseOfPath(x: string, s: string)
    requires s != "" && '/' !in s
    ensures Base(x + "/" + s) == s
  {
    var t := x + "/" + s;
    assert t[|t| - 1] == s[|s| - 1] && s[|s| - 1] in s;
    AfterTheSlash(x, s);
  }

  /** Directories in front of a name, in either style, make no difference. */
  lemma DirectoriesAreDropped(dir: string, separator: char, s: string)
    requires Component(s) && (separator == '/' || separator == '\\')
    ensures Clean(dir + [separator] + s) == Clean(s)
    ensures SafeFilename(dir + [separator] + s) == SafeFilename(s)
  {
    hide Trim, TrimLeft, Base, Underscored, WindowsDeviceName;
    var x := Slashed(dir);
    SlashedPath(dir, separator, s);
    TrimPath(x, s, c => IsSpace(c));
    BaseOfPath(TrimLeft(x, c => IsSpace(c)), s);
    ReplaceNothing(s, '\\', "/");
    ReplaceNothing(s, '\0', "");
    TrimNothing(s, c => IsSpace(c));
    BaseOfPlain(s);
  }

  /** With slashes for backslashes, and without NULs. */
  function Slashed(s: string): string { ReplaceChar(ReplaceChar(s, '\\', "/"), '\0', "") }

  lemma SlashedPath(dir: string, separator: char, s: string)
    requires Component(s) && (separator == '/' || separator == '\\')
    ensures Slashed(dir + [separator] + s) == Slashed(dir) + "/" + s
  {
    ReplaceNothing(s, '\\', "/");
    ReplaceNothing(s, '\0', "");
    SeparatorIsSlash(separator);
    hide ReplaceChar;
    var d := ReplaceChar(dir, '\\', "/");
    ReplaceAdds(dir + [separator], s, '\\', "/");
    ReplaceAdds(dir, [separator], '\\', "/");
    ReplaceAdds(d + "/", s, '\0', "");
    ReplaceAdds(d, "/", '\0', "");
  }

  lemma SeparatorIsSlash(separator: char)
    requires separator == '/' || separator == '\\'
    ensures ReplaceChar([separator], '\\', "/") == "/" && ReplaceChar("/", '\0', "") == "/"
  {
    assert [separator][1..] == "" && "/"[1..] == "";
  }

  // ---------- what is kept ----------

  lemma CleanIsKept(name: string)
    requires WithinBudget(Clean(name))
    ensures SafeFilename(name) == Clean(name)
  {
    ShortNamesArePortable(name);
  }

  /** An ordinary name is kept letter by letter, whatever directory stands in front of it: a component within the
      budgets, without forbidden characters, that is no device name. */
  lemma OrdinaryIsKept(name: string, dir: string, separator: char)
    requires Component(name) && Allowed(name) && WithinBudget(name) && !WindowsDeviceName(name)
    requires separator == '/' || separator == '\\'
    ensures SafeFilename(name) == name && SafeFilename(dir + [separator] + name) == name
  {
    hide Clean, SafeFilename, WithinBudget, WindowsDeviceName, Component;
    UnderscoredNothing(name);
    ComponentCleans(name);
    CleanIsKept(name);
    DirectoriesAreDropped(dir, separator, name);
  }

  /** Forbidden characters are replaced where they stand, and no other character is touched. */
  lemma ForbiddenAreReplaced(name: string)
    requires Component(name) && WithinBudget(Underscored(name)) && !WindowsDeviceName(Underscored(name))
    ensures var r := SafeFilename(name);
      |r| == |name| && forall i :: 0 <= i < |name| ==> r[i] == if Forbidden(name[i]) then '_' else name[i]
  {
    hide Clean, SafeFilename, WithinBudget, WindowsDeviceName, Component;
    ComponentCleans(name);
    CleanIsKept(name);
  }

  // ---------- device names ----------

  const DEVICES := {
    "CON", "PRN", "AUX", "NUL",
    "COM1", "COM2", "COM3", "COM4", "COM5", "COM6", "COM7", "COM8", "COM9", "COM\U{b9}", "COM\U{b2}", "COM\U{b3}",
    "LPT1", "LPT2", "LPT3", "LPT4", "LPT5", "LPT6", "LPT7", "LPT8", "LPT9", "LPT\U{b9}", "LPT\U{b2}", "LPT\U{b3}"
  }

  /** The reserved words are the device names, in any case. */
  lemma ReservedExactly(word: string)
    ensures Reserved(word) <==> Upper(word) in DEVICES
  {
    var stem := Upper(word);
    if Reserved(word) && |stem| == 4 {
      if stem[..3] == "COM" {
        assert stem[0] == "COM"[0] && stem[1] == "COM"[1] && stem[2] == "COM"[2];
        assert stem == "COM1" || stem == "COM2" || stem == "COM3" || stem == "COM4"
             || stem == "COM5" || stem == "COM6" || stem == "COM7" || stem == "COM8"
             || stem == "COM9" || stem == "COM\U{b9}" || stem == "COM\U{b2}" || stem == "COM\U{b3}";
      } else {
        assert stem[0] == "LPT"[0] && stem[1] == "LPT"[1] && stem[2] == "LPT"[2];
        assert stem == "LPT1" || stem == "LPT2" || stem == "LPT3" || stem == "LPT4"
             || stem == "LPT5" || stem == "LPT6" || stem == "LPT7" || stem == "LPT8"
             || stem == "LPT9" || stem == "LPT\U{b9}" || stem == "LPT\U{b2}" || stem == "LPT\U{b3}";
      }
    }
  }

  /** A device name with nothing or an extension behind it is a device name, and gets an underscore in front. */
  lemma DevicesAreMarked(word: string, tail: string)
    requires Upper(word) in DEVICES && (tail == "" || tail[0] == '.')
    requires Component(word + tail) && Allowed(word + tail) && WithinBudget("_" + word + tail)
    ensures SafeFilename(word + tail) == "_" + word + tail
  {
    hide Clean, SafeFilename, WithinBudget, WindowsDeviceName, Component, Allowed, Reserved, DEVICES;
    ReservedExactly(word);
    WordsEnd(word);
    if '.' in word { DottedIsNotReserved(word); }
    DeviceOfKept(word, tail);
    assert TrimRight(word, c => c == ' ') == word;
    UnderscoredNothing(word + tail) by { assert Allowed(word + tail); AllowedMeans(word + tail); }
    ComponentCleans(word + tail);
    assert "_" + (word + tail) == "_" + word + tail;
    CleanIsKept(word + tail);
  }

  lemma AllowedMeans(s: string)
    requires Allowed(s)
    ensures forall i :: 0 <= i < |s| ==> !Forbidden(s[i])
  {}

  lemma WordsEnd(word: string)
    requires Upper(word) in DEVICES
    ensures word != "" && word[|word| - 1] != ' '
  {
    assert |Upper(word)| == |word|;
    assert word == "" || Upper(word)[|word| - 1] == UpperChar(word[|word| - 1]);
  }

  // ---------- when nothing is left ----------

  predicate DotOrSpace(c: char) { c == ' ' || c == '.' }

  /** What is left of a name before dots and spaces are trimmed: the last component of the path. */
  function LastPart(name: string): string { Base(Trim(Slashed(name), c => IsSpace(c))) }

  lemma {:induction false} TrimLeftEmpty(s: string, drop: char -> bool)
    ensures TrimLeft(s, drop) == "" <==> forall c :: c in s ==> drop(c)
  {
    if s != "" {
      assert s[0] in s && s == [s[0]] + s[1..];
      TrimLeftEmpty(s[1..], drop);
    }
  }

  lemma {:induction false} TrimRightEmpty(s: string, drop: char -> bool)
    ensures TrimRight(s, drop) == "" <==> forall c :: c in s ==> drop(c)
  {
    if s != "" {
      var n := |s| - 1;
      assert s[n] in s && s == s[..n] + [s[n]];
      TrimRightEmpty(s[..n], drop);
    }
  }

  lemma TrimEmpty(s: string, drop: char -> bool)
    ensures Trim(s, drop) == "" <==> forall c :: c in s ==> drop(c)
  {
    hide TrimLeft, TrimRight;
    var l := TrimLeft(s, drop);
    TrimLeftEmpty(s, drop);
    TrimRightEmpty(l, drop);
    assert l != "" ==> l[0] in l && !drop(l[0]);
  }

  lemma UnderscoredEmpty(s: string)
    ensures (forall c :: c in Underscored(s) ==> DotOrSpace(c)) <==> forall c :: c in s ==> DotOrSpace(c)
  {
    var u := Underscored(s);
    assert forall i :: 0 <= i < |s| ==> u[i] in u && s[i] in s;
  }

  lemma {:induction false} UnderscoredTrimLeft(s: string, drop: char -> bool)
    requires !drop('_') && forall c :: Forbidden(c) ==> !drop(c)
    ensures TrimLeft(Underscored(s), drop) == Underscored(TrimLeft(s, drop))
  {
    if s != "" && drop(s[0]) {
      assert Underscored(s)[1..] == Underscored(s[1..]);
      UnderscoredTrimLeft(s[1..], drop);
    }
  }

  lemma {:induction false} UnderscoredTrimRight(s: string, drop: char -> bool)
    requires !drop('_') && forall c :: Forbidden(c) ==> !drop(c)
    ensures TrimRight(Underscored(s), drop) == Underscored(TrimRight(s, drop))
  {
    var n := |s| - 1;
    if s != "" && drop(s[n]) {
      assert Underscored(s)[..n] == Underscored(s[..n]);
      UnderscoredTrimRight(s[..n], drop);
    }
  }

  /** Replacing before trimming is trimming before replacing. */
  lemma UnderscoredTrim(s: string)
    ensures Trim(Underscored(s), c => c == ' ' || c == '.') == Underscored(Trim(s, c => c == ' ' || c == '.'))
  {
    hide Underscored, TrimLeft, TrimRight;
    var drop := c => c == ' ' || c == '.';
    UnderscoredTrimLeft(s, drop);
    UnderscoredTrimRight(TrimLeft(s, drop), drop);
  }

  lemma FallbackIsAllowed()
    ensures '_' !in FALLBACK && Underscored(FALLBACK) == FALLBACK
  {
    AllIn(FALLBACK);
    UnderscoredNothing(FALLBACK) by { assert forall c :: c in FALLBACK ==> !Forbidden(c); }
  }

  lemma OnlyFallback(s: string)
    ensures Underscored(s) == FALLBACK <==> s == FALLBACK
  {
    FallbackIsAllowed();
    if Underscored(s) == FALLBACK {
      AllIn(FALLBACK);
      forall i | 0 <= i < |s| ensures s[i] == FALLBACK[i] { assert FALLBACK[i] in FALLBACK; }
    }
  }

  /** The last part of a name without the dots and spaces around it. */
  function Core(name: string): string { Trim(LastPart(name), c => c == ' ' || c == '.') }

  lemma TrimmedIsNoDots(s: string)
    ensures var b := Trim(s, c => c == ' ' || c == '.'); b != "." && b != ".."
  {
    hide TrimLeft;
  }

  /** In general: the core of the name with underscores for forbidden characters, marked if that is a device name, or
      the fallback if there is none. */
  lemma CleanExactly(name: string)
    ensures Clean(name) == if Core(name) == "" then FALLBACK
                           else if WindowsDeviceName(Underscored(Core(name))) then "_" + Underscored(Core(name))
                           else Underscored(Core(name))
  {
    FallbackIsPortable();
    hide Base, TrimLeft, TrimRight, ReplaceChar, Reserved, WindowsDeviceName;
    UnderscoredTrim(LastPart(name));
    TrimmedIsNoDots(Underscored(LastPart(name)));
    assert !WindowsDeviceName(FALLBACK);
  }

  /** The fallback is for names with nothing but dots and spaces in the last part, and for itself. */
  lemma FallbackExactly(name: string)
    ensures Clean(name) == FALLBACK <==> (forall c :: c in LastPart(name) ==> DotOrSpace(c)) || Core(name) == FALLBACK
  {
    FallbackIsPortable();
    hide Clean, LastPart, WindowsDeviceName, Underscored, Trim;
    CleanExactly(name);
    TrimEmpty(LastPart(name), c => c == ' ' || c == '.');
    OnlyFallback(Core(name));
    assert FALLBACK[0] == 'r';
    assert ("_" + Underscored(Core(name)))[0] == '_';
    FallbackIsAllowed();
  }

  lemma AllIn(s: string)
    ensures forall i :: 0 <= i < |s| ==> s[i] in s
  {}

  // ---------- what the last part is ----------

  predicate Slashes(s: string) { forall c :: c in s ==> c == '/' }

  lemma {:induction false} TrimRightCut(s: string, drop: char -> bool)
    ensures var r := TrimRight(s, drop); r <= s && forall c :: c in s[|r|..] ==> drop(c)
  {
    var n := |s| - 1;
    if s != "" && drop(s[n]) {
      TrimRightCut(s[..n], drop);
      var r := TrimRight(s[..n], drop);
      assert s[|r|..] == s[..n][|r|..] + [s[n]];
    } else {
      assert s[|s|..] == "";
    }
  }

  lemma Shorter(s: string, r: string)
    requires |r| <= |s| && s == s[..|s| - |r|] + r && '/' in s && '/' !in r
    ensures |r| < |s|
  {
    assert '/' in s[..|s| - |r|] + r;
    assert '/' in s[..|s| - |r|];
  }

  lemma {:induction false} AfterLastSlashCut(s: string)
    ensures var r := AfterLastSlash(s);
      && '/' !in r && |r| <= |s| && s == s[..|s| - |r|] + r
      && (|r| < |s| ==> s[|s| - |r| - 1] == '/')
  {
    if s != "" {
      assert s == [s[0]] + s[1..];
      AfterLastSlashCut(s[1..]);
      var r := AfterLastSlash(s[1..]);
      if '/' in s[1..] {
        Shorter(s[1..], r);
        assert s[|s| - |r| - 1] == s[1..][|s[1..]| - |r| - 1];
        assert s == s[..|s| - |r|] + s[|s| - |r|..];
        assert s[|s| - |r|..] == s[1..][|s[1..]| - |r|..];
      } else if s[0] == '/' {
        assert s == s[..1] + s[1..];
      } else {
        assert s[..0] + s == s;
      }
    }
  }

  /** The base of a path with anything but slashes in it is what stands between its last slashes. */
  lemma BaseExactly(s: string) returns (head: string, tail: string)
    requires !Slashes(s)
    ensures s == head + Base(s) + tail && Slashes(tail) && (head == "" || head[|head| - 1] == '/')
    ensures Base(s) != "" && '/' !in Base(s)
  {
    var drop := c => c == '/';
    var t := TrimRight(s, drop);
    TrimRightCut(s, drop);
    TrimRightEmpty(s, drop);
    AfterLastSlashCut(t);
    hide TrimRight, AfterLastSlash;
    tail := s[|t|..];
    head := t[..|t| - |AfterLastSlash(t)|];
    assert t != "" && t[|t| - 1] != '/';
    assert s == t + tail;
  }

  // ---------- what truncation keeps ----------

  /** Truncation keeps as much of the extension as 40 bytes and units hold, and then as much of the stem as the whole
      may still hold: one character more of either would be too long. */
  lemma TruncationKeepsMost(name: string) returns (stem: string, extension: string)
    ensures SafeFilename(name) == stem + extension && Fits(stem + extension, MAX_BYTES, MAX_UNITS)
    ensures stem <= Stem(Clean(name)) && extension <= Ext(Clean(name))
    ensures Fits(extension, MAX_EXTENSION_BYTES, MAX_EXTENSION_UNITS)
    ensures var all := Ext(Clean(name));
      extension == all || !Fits(all[..|extension| + 1], MAX_EXTENSION_BYTES, MAX_EXTENSION_UNITS)
    ensures var all := Stem(Clean(name));
      stem == all || !Fits(all[..|stem| + 1] + extension, MAX_BYTES, MAX_UNITS)
  {
    hide Clean, WindowsDeviceName, TruncateComponent, CharBytes, CharUnits, Bytes, Units, Truncate;
    var c := Clean(name);
    CleanIsSafe(name);
    CleanIsPortable(name);
    Pieces(c);
    stem, extension := KeptStem(c), KeptExtension(c);
    SafeFilenameIsSafe(name);
    TruncateIsLongest(Ext(c), MAX_EXTENSION_BYTES, MAX_EXTENSION_UNITS);
    TruncateIsLongest(Stem(c), MAX_BYTES - Bytes(extension), MAX_UNITS - Units(extension));
    if stem != Stem(c) { SizesAdd(Stem(c)[..|stem| + 1], extension); }
  }

  lemma {:induction false} SmallSizes(s: string)
    ensures Bytes(s) <= 4 * |s| && Units(s) <= 2 * |s|
  {
    hide CharBytes, CharUnits;
    if s != "" { SmallSizes(s[1..]); }
  }

  lemma {:induction false} NoDotNoExtension(s: string)
    requires '.' !in s
    ensures Ext(s) == "" && Stem(s) == s
  {
    NoDot(s);
  }

  /** The final name is the fallback exactly where the clean name is. */
  lemma FinalFallback(name: string)
    ensures SafeFilename(name) == FALLBACK
       <==> (forall c :: c in LastPart(name) ==> DotOrSpace(c)) || Core(name) == FALLBACK
  {
    hide Clean, LastPart, Core, TruncateComponent, Bytes, Units, KeptStem, KeptExtension, WithinBudget;
    FallbackExactly(name);
    if Clean(name) == FALLBACK { FallbackFits(); CleanIsKept(name); }
    if SafeFilename(name) == FALLBACK { UncutFallback(Clean(name)) by { CleanIsSafe(name); CleanIsPortable(name); } }
  }

  lemma FallbackFits()
    ensures WithinBudget(FALLBACK)
  {
    assert '.' !in FALLBACK && |FALLBACK| == 13;
    NoDotNoExtension(FALLBACK);
    SmallSizes(FALLBACK);
    SmallSizes("");
  }

  lemma UncutFallback(c: string)
    requires SafeComponent(c) && c[|c| - 1] != '.' && TruncateComponent(c) == FALLBACK
    ensures c == FALLBACK
  {
    hide Ext, Bytes, Units, TruncateComponent, Truncate;
    Pieces(c);
    assert |FALLBACK| == 13 && '.' !in FALLBACK;
    var s, e := KeptStem(c), KeptExtension(c);
    AllIn(s + e);
    assert e == (s + e)[|s|..];
    assert Ext(c) == "" && Stem(c) + "" == c;
    assert Stem(c) == c && s + "" == s && s == FALLBACK;
    SmallSizes("");
    TruncateIsLongest(c, MAX_BYTES - Bytes(""), MAX_UNITS - Units(""));
    assert s == Truncate(c, MAX_BYTES - Bytes(""), MAX_UNITS - Units(""));
    if s != c { SmallSizes(c[..14]); }
  }
}

/** Publication of a finished file under a free name (publishOutput in internal/collector/collector.go). */
module Publish {
  import opened Prelude
  import opened Text
  import opened Filename

  const MAX_NAME_COLLISIONS := 10_000

  datatype PublishError = LinkFailed | TooManyCollisions

  function Candidate(name: string, attempt: nat): string {
    if attempt == 1 then name else Stem(name) + "-" + Decimal(attempt) + Ext(name)
  }

  lemma MiddleInjective(stem: string, a: string, b: string, ext: string)
    requires stem + "-" + a + ext == stem + "-" + b + ext
    ensures a == b
  {
    var x, y, n := stem + "-" + a + ext, stem + "-" + b + ext, |stem| + 1;
    assert |a| == |b|;
    assert x[n..n + |a|] == a && y[n..n + |b|] == b;
  }

  /** The plain name and its numbered variants are pairwise distinct. */
  lemma CandidatesDiffer(name: string, i: nat, j: nat)
    requires 1 <= i < j
    ensures Candidate(name, i) != Candidate(name, j)
  {
    var stem, ext := Stem(name), Ext(name);
    if i == 1 {
      assert |name| == |stem| + |ext| && |Candidate(name, j)| > |name|;
    } else if Candidate(name, i) == Candidate(name, j) {
      MiddleInjective(stem, Decimal(i), Decimal(j), ext);
      DecimalRoundTrip(i);
      DecimalRoundTrip(j);
    }
  }

  lemma DecimalIsSafe(n: nat)
    ensures forall i :: 0 <= i < |Decimal(n)| ==> !Forbidden(Decimal(n)[i])
    ensures Bytes(Decimal(n)) == |Decimal(n)| == Units(Decimal(n))
  {
    assert forall i :: 0 <= i < |Decimal(n)| ==> Decimal(n)[i] in Decimal(n);
    AsciiSizes(Decimal(n));
  }

  lemma SuffixSizes(stem: string, d: string, ext: string)
    requires Ascii(d)
    ensures Bytes(stem + "-" + d + ext) == Bytes(stem + ext) + 1 + |d|
    ensures Units(stem + "-" + d + ext) == Units(stem + ext) + 1 + |d|
  {
    AsciiSizes("-");
    AsciiSizes(d);
    SizesAdd(stem, ext);
    SizesAdd(stem, "-");
    SizesAdd(stem + "-", d);
    SizesAdd(stem + "-" + d, ext);
  }

  lemma SuffixIsSafe(stem: string, d: string, ext: string)
    requires stem != "" && SafeComponent(stem + ext)
    requires forall i :: 0 <= i < |d| ==> !Forbidden(d[i])
    ensures SafeComponent(stem + "-" + d + ext)
  {
    var s, r := stem + ext, stem + "-" + d + ext;
    forall i | 0 <= i < |r| ensures !Forbidden(r[i]) {
      if i < |stem| { assert r[i] == s[i]; }
      else if i > |stem| + |d| { assert r[i] == s[i - |d| - 1]; }
    }
    assert r[0] == s[0];
  }

  /** Collision suffixes keep a name safe and add at most six bytes. */
  lemma CandidateIsSafe(name: string, attempt: nat)
    requires SafeComponent(name) && 1 <= attempt <= MAX_NAME_COLLISIONS
    ensures SafeComponent(Candidate(name, attempt))
    ensures Bytes(Candidate(name, attempt)) <= Bytes(name) + 6 && Units(Candidate(name, attempt)) <= Units(name) + 6
  {
    if attempt > 1 {
      var d := Decimal(attempt);
      DecimalIsSafe(attempt);
      DecimalLength(attempt, 100_000, 5);
      assert Ascii(d) by { assert forall i :: 0 <= i < |d| ==> d[i] in d; }
      SuffixIsSafe(Stem(name), d, Ext(name));
      SuffixSizes(Stem(name), d, Ext(name));
    }
  }

  /** Whatever name the sender chose, every name tried is one visible component of at most 246 bytes and UTF-16
      units. */
  lemma EveryCandidateFits(name: string, attempt: nat)
    requires 1 <= attempt <= MAX_NAME_COLLISIONS
    ensures var c := Candidate(SafeFilename(name), attempt); SafeComponent(c) && Fits(c, 246, 246)
  {
    hide SafeFilename, SafeComponent, Candidate;
    SafeFilenameIsSafe(name);
    CandidateIsSafe(SafeFilename(name), attempt);
  }

  /** The first candidate from an attempt on that is free, unless its link fails for another reason. */
  function Destination(taken: set<string>, broken: set<string>, name: string, attempt: nat)
    : Result<string, PublishError>
    decreases MAX_NAME_COLLISIONS + 1 - attempt
  {
    if attempt > MAX_NAME_COLLISIONS then Err(TooManyCollisions)
    else if Candidate(name, attempt) in taken then Destination(taken, broken, name, attempt + 1)
    else if Candidate(name, attempt) in broken then Err(LinkFailed)
    else Ok(Candidate(name, attempt))
  }

  lemma {:induction false} DestinationIsFree(taken: set<string>, broken: set<string>, name: string, attempt: nat)
    requires 1 <= attempt
    ensures var r := Destination(taken, broken, name, attempt);
      && (r.Ok? ==> r.value !in taken
                    && exists i :: attempt <= i <= MAX_NAME_COLLISIONS && r.value == Candidate(name, i))
      && (r == Err(TooManyCollisions) ==>
            forall i :: attempt <= i <= MAX_NAME_COLLISIONS ==> Candidate(name, i) in taken)
    decreases MAX_NAME_COLLISIONS + 1 - attempt
  {
    hide Candidate;
    if attempt <= MAX_NAME_COLLISIONS && Candidate(name, attempt) in taken {
      DestinationIsFree(taken, broken, name, attempt + 1);
    }
  }

  /** It is the first free one: every name tried before is taken, and where linking fails it is that first free name
      which cannot be linked. */
  lemma {:induction false} DestinationIsFirst(taken: set<string>, broken: set<string>, name: string, attempt: nat)
    requires 1 <= attempt
    ensures var r := Destination(taken, broken, name, attempt);
      r != Err(TooManyCollisions) ==>
        exists i: nat :: attempt <= i <= MAX_NAME_COLLISIONS && FirstFree(taken, name, attempt, i)
          && r == if Candidate(name, i) in broken then Err(LinkFailed) else Ok(Candidate(name, i))
    decreases MAX_NAME_COLLISIONS + 1 - attempt
  {
    hide Candidate;
    if attempt <= MAX_NAME_COLLISIONS {
      if Candidate(name, attempt) in taken {
        DestinationIsFirst(taken, broken, name, attempt + 1);
        var r := Destination(taken, broken, name, attempt);
        if r != Err(TooManyCollisions) {
          var i: nat :| attempt + 1 <= i <= MAX_NAME_COLLISIONS && FirstFree(taken, name, attempt + 1, i)
            && r == if Candidate(name, i) in broken then Err(LinkFailed) else Ok(Candidate(name, i));
          assert FirstFree(taken, name, attempt, i);
        }
      } else {
        assert FirstFree(taken, name, attempt, attempt);
      }
    }
  }

  ghost predicate FirstFree(taken: set<string>, name: string, attempt: nat, i: nat) {
    Candidate(name, i) !in taken && forall j: nat :: attempt <= j < i ==> Candidate(name, j) in taken
  }

  /** A numbered variant starts like the name and keeps its extension. */
  lemma CandidateKeepsEnds(name: string, attempt: nat)
    requires 1 <= attempt
    ensures Stem(name) <= Candidate(name, attempt) && Ext(Candidate(name, attempt)) == Ext(name)
  {
    var d := Decimal(attempt);
    assert Stem(name) <= name;
    ExtHasOneDot(name);
    assert '.' !in d;
    assert Ext(name) == "" ==> '.' !in Stem(name);
    if attempt > 1 { ExtOfSum(Stem(name) + "-" + d, Ext(name)); }
  }

  lemma {:induction false} ExtOfSum(a: string, e: string)
    requires if e == "" then '.' !in a else e[0] == '.' && forall i :: 0 < i < |e| ==> e[i] != '.'
    ensures Ext(a + e) == e
  {
    if a != "" {
      assert (a + e)[1..] == a[1..] + e;
      ExtOfSum(a[1..], e);
    } else {
      assert a + e == e;
      if e != "" {
        assert '.' !in e[1..];
        NoDot(e[1..]);
      }
    }
  }

  ghost function Candidates(name: string, n: nat): set<string> {
    if n == 0 then {} else Candidates(name, n - 1) + {Candidate(name, n)}
  }

  lemma {:induction false} CandidatesCount(name: string, n: nat)
    ensures |Candidates(name, n)| == n
    ensures forall c :: c in Candidates(name, n) ==> exists i :: 1 <= i <= n && c == Candidate(name, i)
  {
    if n > 0 {
      CandidatesCount(name, n - 1);
      if Candidate(name, n) in Candidates(name, n - 1) {
        var i :| 1 <= i <= n - 1 && Candidate(name, n) == Candidate(name, i);
        CandidatesDiffer(name, i, n);
      }
    }
  }

  lemma SubsetSize<T>(a: set<T>, b: set<T>)
    requires a <= b
    ensures |a| <= |b|
  {
    assert b == a + (b - a);
  }

  /** By pigeonhole: in a directory with fewer than 10,000 entries publication succeeds, unless linking itself fails. */
  lemma RoomEnough(taken: set<string>, name: string)
    requires |taken| < MAX_NAME_COLLISIONS
    ensures Destination(taken, {}, name, 1).Ok?
  {
    DestinationIsFree(taken, {}, name, 1);
    NeverLinkFailed(taken, name, 1);
    var r := Destination(taken, {}, name, 1);
    if r.Err? {
      assert r.error.TooManyCollisions?;
      CandidatesCount(name, MAX_NAME_COLLISIONS);
      forall c | c in Candidates(name, MAX_NAME_COLLISIONS) ensures c in taken {
        var i :| 1 <= i <= MAX_NAME_COLLISIONS && c == Candidate(name, i);
      }
      SubsetSize(Candidates(name, MAX_NAME_COLLISIONS), taken);
      assert false;
    }
  }

  lemma {:induction false} NeverLinkFailed(taken: set<string>, name: string, attempt: nat)
    ensures Destination(taken, {}, name, attempt) != Err(LinkFailed)
    decreases MAX_NAME_COLLISIONS + 1 - attempt
  {
    if attempt <= MAX_NAME_COLLISIONS && Candidate(name, attempt) in taken {
      NeverLinkFailed(taken, name, attempt + 1);
    }
  }

  /** A temporary file's name starts with a dot, so it never stands in the way of a candidate. */
  lemma HiddenNamesDoNotMatter(taken: set<string>, hidden: string, broken: set<string>, name: string, attempt: nat)
    requires SafeComponent(name) && hidden != "" && hidden[0] == '.' && 1 <= attempt
    ensures Destination(taken + {hidden}, broken, name, attempt) == Destination(taken - {hidden}, broken, name, attempt)
    decreases MAX_NAME_COLLISIONS + 1 - attempt
  {
    if attempt <= MAX_NAME_COLLISIONS {
      CandidateIsSafe(name, attempt);
      if Candidate(name, attempt) in taken {
        HiddenNamesDoNotMatter(taken, hidden, broken, name, attempt + 1);
      }
    }
  }
}

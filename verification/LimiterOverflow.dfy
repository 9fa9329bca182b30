/** The limiter's overflow bucket, shared by the addresses that find no bucket of their own: exactly when it stays
    within twelve failures, and a run in which it does not. */
module LimiterOverflow {
  import opened Text
  import opened Limiter
  import opened LimiterRuns

  // ---------- exactly when the overflow bucket stays within the limit ----------

  predicate Small(ws: Windows) { OVERFLOW in ws ==> ws[OVERFLOW].count <= FAILURE_LIMIT }

  /** A failure goes to the overflow bucket only where the limiter, asked again, would still let the address pass. */
  predicate ChargedInTime(s: State, c: Call) {
    c.Fail? && Bucket(s.windows, c.ip, c.now).0 == OVERFLOW ==> !Blocked(s.windows, c.ip, c.now).0
  }

  ghost predicate AlwaysSmall(calls: seq<Call>)
    decreases |calls|
  {
    Small(Run(calls).windows) && (calls == [] || AlwaysSmall(calls[..|calls| - 1]))
  }

  ghost predicate AlwaysInTime(calls: seq<Call>)
    decreases |calls|
  {
    calls == [] ||
      var n := |calls| - 1;
      AlwaysInTime(calls[..n]) && ChargedInTime(Run(calls[..n]), calls[n])
  }

  lemma CallSmallExactly(s: State, c: Call)
    requires Small(s.windows)
    ensures Small(After(s, c).windows) <==> ChargedInTime(s, c)
  {
    if !c.Leave? {
      BucketFrame(s.windows, c.ip, c.now, OVERFLOW);
    }
  }

  /** In every run, overlapping or not, the overflow bucket counts at most twelve failures at all times exactly if
      every failure charged to it comes while the limiter would still let the address pass. */
  lemma {:induction false} OverflowExactly(calls: seq<Call>)
    ensures AlwaysSmall(calls) <==> AlwaysInTime(calls)
  {
    hide Small, ChargedInTime, After;
    if calls == [] {
      NothingIsSmall();
    } else {
      var n := |calls| - 1;
      OverflowExactly(calls[..n]);
      if AlwaysSmall(calls[..n]) { CallSmallExactly(Run(calls[..n]), calls[n]); }
    }
  }

  lemma NothingIsSmall()
    ensures Small(FRESH.windows)
  {}

  // ---------- one authorization after the other ----------

  /** The windows after one authorization on its own. */
  function AfterAttempt(ws: Windows, a: Attempt): Windows {
    var (blocked, left) := Blocked(ws, a.ip, a.asked);
    if blocked || a.right then left else Charged(left, a.ip, a.charged)
  }

  /** The windows after authorizations one after the other. */
  function AfterAll(attempts: seq<Attempt>): Windows { Run(Serial(attempts)).windows }

  lemma OneAfterTheOther(attempts: seq<Attempt>, a: Attempt)
    ensures AfterAll(attempts + [a]) == AfterAttempt(AfterAll(attempts), a)
  {
    hide Charged, Bucket, Run;
    assert (attempts + [a])[..|attempts|] == attempts;
    var calls, enter := Serial(attempts), Enter(a.ip, a.asked);
    var s := Run(calls);
    RunSnoc(calls, enter, 1);
    if Blocked(s.windows, a.ip, a.asked).0 {
      assert CallsOf(s, a) == [enter];
    } else {
      var last := if a.right then Leave(a.ip) else Fail(a.ip, a.charged);
      RunSnoc(calls + [enter], last, 1);
      assert calls + CallsOf(s, a) == calls + [enter] + [last];
    }
  }

  /** A failure charged to the overflow bucket belongs to a call that was checked against it. */
  predicate CheckedWhereCharged(ws: Windows, a: Attempt) {
    var (blocked, left) := Blocked(ws, a.ip, a.asked);
    !blocked && !a.right && Bucket(left, a.ip, a.charged).0 == OVERFLOW ==> Bucket(ws, a.ip, a.asked).0 == OVERFLOW
  }

  ghost predicate AllChecked(attempts: seq<Attempt>)
    decreases |attempts|
  {
    attempts == [] ||
      var n := |attempts| - 1;
      AllChecked(attempts[..n]) && CheckedWhereCharged(AfterAll(attempts[..n]), attempts[n])
  }

  lemma AttemptStaysSmall(ws: Windows, a: Attempt)
    requires Small(ws) && CheckedWhereCharged(ws, a)
    ensures Small(AfterAttempt(ws, a))
  {
    BucketFrame(ws, a.ip, a.asked, OVERFLOW);
    var left := Blocked(ws, a.ip, a.asked).1;
    BucketFrame(left, a.ip, a.charged, OVERFLOW);
  }

  /** Without overlap the overflow bucket stays within twelve as long as each failure charged to it comes from a call
      that had been checked against it. */
  lemma {:induction false} CheckedStaysSmall(attempts: seq<Attempt>)
    requires AllChecked(attempts)
    ensures Small(AfterAll(attempts))
  {
    hide Small, CheckedWhereCharged, AfterAttempt, AfterAll;
    if attempts == [] {
      NoneAfterAll();
    } else {
      var n := |attempts| - 1;
      CheckedStaysSmall(attempts[..n]);
      AttemptStaysSmall(AfterAll(attempts[..n]), attempts[n]);
      OneAfterTheOther(attempts[..n], attempts[n]);
      assert attempts[..n] + [attempts[n]] == attempts;
    }
  }

  lemma NoneAfterAll()
    ensures AfterAll([]) == map[] && Small(AfterAll([]))
  {}

  // ---------- a run that exceeds it ----------

  function Address(i: nat): string { Decimal(i) }

  lemma AddressesDiffer(i: nat, j: nat)
    ensures Address(i) == Address(j) <==> i == j
  {
    DecimalRoundTrip(i);
    DecimalRoundTrip(j);
  }

  lemma AddressIsOwn(i: nat)
    ensures Address(i) != OVERFLOW
  {
    assert OVERFLOW[0] == '\0' && |OVERFLOW| > 0;
    assert Address(i)[0] in Address(i);
  }

  /** The i-th address fails once; the first one a nanosecond before the others. */
  function Failing(i: nat): Attempt {
    var at := if i == 0 then 0 else 1;
    Attempt(Address(i), at, false, at)
  }

  function Fill(n: nat): seq<Attempt> { if n == 0 then [] else Fill(n - 1) + [Failing(n - 1)] }

  /** The windows then. */
  ghost function Filled(n: nat): Windows {
    if n == 0 then map[] else Filled(n - 1)[Address(n - 1) := Window(if n == 1 then 0 else 1, 1)]
  }

  lemma {:induction false} FilledFacts(n: nat)
    ensures |Filled(n)| == n && OVERFLOW !in Filled(n)
    ensures forall i: nat :: Address(i) in Filled(n) <==> i < n
    ensures forall k :: k in Filled(n) ==> 0 <= Filled(n)[k].start <= 1 && (k != Address(0) ==> Filled(n)[k].start == 1)
    ensures n > 0 ==> Filled(n)[Address(0)] == Window(0, 1)
  {
    if n > 0 {
      FilledFacts(n - 1);
      AddressIsOwn(n - 1);
      forall i: nat ensures Address(i) in Filled(n) <==> i < n {
        AddressesDiffer(i, n - 1);
      }
      AddressesDiffer(0, n - 1);
    }
  }

  lemma FillStep(n: nat)
    requires n < MAX_BUCKETS - 1
    ensures AfterAttempt(Filled(n), Failing(n)) == Filled(n + 1)
  {
    FilledFacts(n);
    var a := Failing(n);
    assert Filled(n) - {a.ip} == Filled(n);
    hide Filled;
    assert Blocked(Filled(n), a.ip, a.asked) == (false, Filled(n));
  }

  lemma {:induction false} FillRuns(n: nat)
    requires n <= MAX_BUCKETS - 1
    ensures AfterAll(Fill(n)) == Filled(n)
  {
    hide AfterAll, AfterAttempt;
    if n == 0 {
      NoneAfterAll();
    } else {
      FillRuns(n - 1);
      FillStep(n - 1);
      OneAfterTheOther(Fill(n - 1), Failing(n - 1));
    }
  }

  /** All 4095 buckets taken, and count failures in the overflow bucket. */
  ghost function Full(count: nat): Windows {
    var own := Filled(MAX_BUCKETS - 1);
    if count == 0 then own else own[OVERFLOW := Window(1, count)]
  }

  lemma FullFacts(count: nat)
    ensures |Full(count)| >= MAX_BUCKETS - 1 && Live(Full(count), 1) == Full(count)
    ensures Address(MAX_BUCKETS - 1) !in Full(count) && (OVERFLOW in Full(count) <==> count > 0)
  {
    FilledFacts(MAX_BUCKETS - 1);
    AddressIsOwn(MAX_BUCKETS - 1);
    hide Filled;
    var own := Filled(MAX_BUCKETS - 1);
    assert count > 0 ==> Full(count).Keys == own.Keys + {OVERFLOW};
    assert forall k :: k in Full(count) ==> 0 <= Full(count)[k].start <= 1;
    assert Live(Full(count), 1).Keys == Full(count).Keys;
  }

  function Crowded(): Attempt { Attempt(Address(MAX_BUCKETS - 1), 1, false, 1) }

  /** An address without a bucket fails: one more in the overflow bucket. */
  lemma CrowdedStep(count: nat)
    requires count < FAILURE_LIMIT
    ensures AfterAttempt(Full(count), Crowded()) == Full(count + 1)
  {
    FullFacts(count);
    hide Filled, Live;
    var ws, a := Full(count), Crowded();
    assert Bucket(ws, a.ip, 1) == (OVERFLOW, ws);
    assert count == 0 ==> ws - {OVERFLOW} == ws;
    assert Blocked(ws, a.ip, 1) == (false, ws);
  }

  /** The attempts so far: every bucket filled, then failures that go to the overflow bucket. */
  function Crowding(count: nat): seq<Attempt> {
    if count == 0 then Fill(MAX_BUCKETS - 1) else Crowding(count - 1) + [Crowded()]
  }

  lemma {:induction false} CrowdingRuns(count: nat)
    requires count <= FAILURE_LIMIT
    ensures AfterAll(Crowding(count)) == Full(count)
  {
    hide AfterAll, AfterAttempt, Fill, Filled;
    if count == 0 {
      FillRuns(MAX_BUCKETS - 1);
    } else {
      CrowdingRuns(count - 1);
      CrowdedStep(count - 1);
      OneAfterTheOther(Crowding(count - 1), Crowded());
    }
  }

  lemma CrowdingSnoc(count: nat)
    requires count > 0
    ensures Crowding(count) == Crowding(count - 1) + [Crowded()]
  {
    hide Fill;
  }

  /** A minute after its failure the first address comes back: its own bucket has just run out, so the limiter lets
      it pass and gives the bucket up, and its new failure goes to the overflow bucket unchecked. */
  function Returning(): Attempt { Attempt(Address(0), WINDOW, false, WINDOW) }

  function Exceeding(): seq<Attempt> { Crowding(FAILURE_LIMIT) + [Returning()] }

  lemma ReturningStep()
    ensures var ws := AfterAttempt(Full(FAILURE_LIMIT), Returning());
      OVERFLOW in ws && ws[OVERFLOW] == Window(1, FAILURE_LIMIT + 1)
  {
    FilledFacts(MAX_BUCKETS - 1);
    AddressIsOwn(0);
    hide Filled;
    var ws, own := Full(FAILURE_LIMIT), Filled(MAX_BUCKETS - 1);
    var left := ws - {Address(0)};
    assert Blocked(ws, Address(0), WINDOW) == (false, left);
    assert left.Keys == own.Keys + {OVERFLOW} - {Address(0)};
    assert |left| == MAX_BUCKETS - 1;
    assert forall k :: k in left ==> left[k].start == 1;
    assert Live(left, WINDOW).Keys == left.Keys;
    assert Live(left, WINDOW) == left;
    assert Bucket(left, Address(0), WINDOW) == (OVERFLOW, left);
  }

  lemma {:induction false} FillInOrder(n: nat)
    ensures InOrder(Fill(n))
    ensures forall i :: 0 <= i < |Fill(n)| ==> Fill(n)[i].charged <= 1 && (n > 1 || Fill(n)[i].charged == 0)
  {
    if n > 0 { FillInOrder(n - 1); }
  }

  lemma {:induction false} CrowdingInOrder(count: nat)
    ensures InOrder(Crowding(count)) && forall i :: 0 <= i < |Crowding(count)| ==> Crowding(count)[i].charged <= 1
  {
    if count == 0 {
      FillInOrder(MAX_BUCKETS - 1);
      hide Fill;
    } else {
      CrowdingInOrder(count - 1);
      CrowdingSnoc(count);
      hide Crowding;
    }
  }

  /** Even without overlapping authorizations the overflow bucket can exceed the limit. */
  lemma OverflowCanExceed()
    ensures InOrder(Exceeding())
    ensures var ws := AfterAll(Exceeding()); OVERFLOW in ws && ws[OVERFLOW].count == FAILURE_LIMIT + 1
  {
    CrowdingInOrder(FAILURE_LIMIT);
    CrowdingRuns(FAILURE_LIMIT);
    ReturningStep();
    hide Crowding, AfterAll, Full, AfterAttempt;
    OneAfterTheOther(Crowding(FAILURE_LIMIT), Returning());
  }
}

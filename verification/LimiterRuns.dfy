/** What the limiter guarantees over whole runs, with authorizations overlapping in any way. */
module LimiterRuns {
  import opened Prelude
  import opened Model
  import opened Limiter

  datatype Charge = Charge(key: string, at: Time)

  /** The limiter, the addresses whose calls passed the limiter and are being authenticated, every charge so far,
      the last reading of the clock, and the start of each bucket's latest window, kept when it is deleted. */
  datatype State = State(windows: Windows, flying: multiset<string>, charges: seq<Charge>, clock: Time,
                         starts: map<string, Time>)

  const FRESH := State(map[], multiset{}, [], 0, map[])

  /** A call enters through the limiter; it leaves with a right capability, or fails and is charged. */
  datatype Call = Enter(ip: string, now: Time) | Leave(ip: string) | Fail(ip: string, now: Time)

  /** Only a call under way can leave or fail, and the clock never goes back. */
  predicate Possible(s: State, c: Call) {
    && (!c.Enter? ==> s.flying[c.ip] > 0)
    && (!c.Leave? ==> c.now >= s.clock)
  }

  function Land(s: State, ip: string): State { s.(flying := s.flying - multiset{ip}) }

  function After(s: State, c: Call): State {
    match c
    case Enter(ip, now) =>
      var (blocked, left) := Blocked(s.windows, ip, now);
      var t := s.(windows := left, clock := now);
      if blocked then t else t.(flying := t.flying + multiset{ip})
    case Leave(ip) => Land(s, ip)
    case Fail(ip, now) =>
      var after := Charged(s.windows, ip, now);
      var key := Bucket(s.windows, ip, now).0;
      Land(s.(windows := after, clock := now, charges := s.charges + [Charge(key, now)],
              starts := s.starts[key := after[key].start]), ip)
  }

  function Run(calls: seq<Call>): State {
    if calls == [] then FRESH else After(Run(calls[..|calls| - 1]), calls[|calls| - 1])
  }

  /** Every call is possible when it comes, and at most n calls of one address are under way at once. */
  ghost predicate Lawful(calls: seq<Call>, n: nat)
    decreases |calls|
  {
    calls == [] ||
      var before := calls[..|calls| - 1];
      Lawful(before, n) && Possible(Run(before), calls[|calls| - 1]) && AtMost(Run(calls), n)
  }

  ghost predicate AtMost(s: State, n: nat) { forall ip :: s.flying[ip] <= n }

  // ---------- the number of buckets ----------

  /** No more than 4095 addresses have a bucket of their own, whatever the calls and the clock do. */
  ghost predicate Bounded(ws: Windows) { |ws.Keys - {OVERFLOW}| <= MAX_BUCKETS - 1 }

  lemma SmallerIsBounded(a: set<string>, b: set<string>)
    requires b <= a
    ensures |b - {OVERFLOW}| <= |a - {OVERFLOW}| <= |a| && |a| <= |a - {OVERFLOW}| + 1
  {
    assert a - {OVERFLOW} == (b - {OVERFLOW}) + ((a - {OVERFLOW}) - b);
    assert a == (a - {OVERFLOW}) + (a * {OVERFLOW});
    assert |a * {OVERFLOW}| <= |{OVERFLOW}| by { assert {OVERFLOW} == a * {OVERFLOW} + ({OVERFLOW} - a); }
  }

  lemma LiveIsSmaller(ws: Windows, now: Time)
    ensures Live(ws, now).Keys <= ws.Keys
  {}

  lemma BucketKeepsBound(ws: Windows, ip: string, now: Time)
    requires Bounded(ws)
    ensures var (key, left) := Bucket(ws, ip, now);
      Bounded(left) && left.Keys <= ws.Keys && (key in left || key == OVERFLOW || |left| < MAX_BUCKETS - 1)
  {
    LiveIsSmaller(ws, now);
    SmallerIsBounded(ws.Keys, Live(ws, now).Keys);
  }

  lemma OneMoreBucket(keys: set<string>, key: string)
    requires |keys - {OVERFLOW}| <= MAX_BUCKETS - 1
    requires key in keys || key == OVERFLOW || |keys| < MAX_BUCKETS - 1
    ensures |keys + {key} - {OVERFLOW}| <= MAX_BUCKETS - 1
  {
    if key in keys || key == OVERFLOW {
      assert keys + {key} - {OVERFLOW} == keys - {OVERFLOW};
    } else {
      SmallerIsBounded(keys, keys);
      assert keys + {key} - {OVERFLOW} == (keys - {OVERFLOW}) + {key};
    }
  }

  lemma ChargeKeepsBound(ws: Windows, ip: string, now: Time)
    requires Bounded(ws)
    ensures Bounded(Charged(ws, ip, now))
  {
    hide Bucket;
    var (key, left) := Bucket(ws, ip, now);
    BucketKeepsBound(ws, ip, now);
    OneMoreBucket(left.Keys, key);
    assert Charged(ws, ip, now).Keys == left.Keys + {key};
  }

  lemma CheckKeepsBound(ws: Windows, ip: string, now: Time)
    requires Bounded(ws)
    ensures Bounded(Blocked(ws, ip, now).1)
  {
    BucketKeepsBound(ws, ip, now);
    var (key, left) := Bucket(ws, ip, now);
    SmallerIsBounded(left.Keys, (left - {key}).Keys);
  }

  lemma {:induction false} BucketsStayBounded(calls: seq<Call>)
    ensures Bounded(Run(calls).windows) && |Run(calls).windows| <= MAX_BUCKETS
  {
    if calls != [] {
      var s, c := Run(calls[..|calls| - 1]), calls[|calls| - 1];
      BucketsStayBounded(calls[..|calls| - 1]);
      if c.Enter? { CheckKeepsBound(s.windows, c.ip, c.now); }
      if c.Fail? { ChargeKeepsBound(s.windows, c.ip, c.now); }
    }
    SmallerIsBounded(Run(calls).windows.Keys, {});
  }

  // ---------- counting charges ----------

  /** How many charges went to a bucket at lo or later. */
  function Since(charges: seq<Charge>, key: string, lo: Time): nat {
    if charges == [] then 0
    else
      var last := charges[|charges| - 1];
      Since(charges[..|charges| - 1], key, lo) + if last.key == key && last.at >= lo then 1 else 0
  }

  /** How many went to it in the half-open interval from lo to hi. */
  function Between(charges: seq<Charge>, key: string, lo: Time, hi: Time): nat {
    if charges == [] then 0
    else
      var last := charges[|charges| - 1];
      Between(charges[..|charges| - 1], key, lo, hi) + if last.key == key && lo <= last.at < hi then 1 else 0
  }

  lemma {:induction false} BetweenIsDifference(charges: seq<Charge>, key: string, lo: Time, hi: Time)
    requires lo <= hi
    ensures Between(charges, key, lo, hi) == Since(charges, key, lo) - Since(charges, key, hi)
  {
    if charges != [] { BetweenIsDifference(charges[..|charges| - 1], key, lo, hi); }
  }

  lemma {:induction false} SinceShrinks(charges: seq<Charge>, key: string, lo: Time, hi: Time)
    requires lo <= hi
    ensures Since(charges, key, hi) <= Since(charges, key, lo)
  {
    if charges != [] { SinceShrinks(charges[..|charges| - 1], key, lo, hi); }
  }

  lemma SinceSnoc(charges: seq<Charge>, c: Charge, key: string, lo: Time)
    ensures Since(charges + [c], key, lo) == Since(charges, key, lo) + if c.key == key && c.at >= lo then 1 else 0
  {
    assert (charges + [c])[..|charges|] == charges;
  }

  // ---------- the invariant of one bucket ----------

  /** The latest window of a bucket began with a charge, holds at most 11 + n of them, and the charges less than a
      minute before it number at most 10 + n. */
  ghost predicate WindowOk(charges: seq<Charge>, key: string, start: Time, n: nat) {
    && Since(charges, key, start + 1) < Since(charges, key, start) <= 11 + n && Since(charges, key, start + WINDOW) == 0
    && forall a: Time :: start - WINDOW < a <= start
         ==> Since(charges, key, a) - Since(charges, key, start) <= 10 + n
  }

  /** No minute holds more than 21 + 2n charges. */
  ghost predicate MinutesOk(charges: seq<Charge>, key: string, n: nat) {
    forall a: Time :: Since(charges, key, a) - Since(charges, key, a + WINDOW) <= 21 + 2 * n
  }

  ghost predicate PresentOk(s: State, key: string, n: nat) {
    key in s.windows ==>
      && key in s.starts && s.windows[key].start == s.starts[key]
      && s.windows[key].count == Since(s.charges, key, s.starts[key])
      && (s.windows[key].count <= 11 || s.windows[key].count + s.flying[key] <= 11 + n)
  }

  ghost predicate PastOk(s: State, key: string, n: nat) {
    && Since(s.charges, key, s.clock + 1) == 0 && MinutesOk(s.charges, key, n)
    && (key !in s.starts ==> forall a: Time :: Since(s.charges, key, a) == 0)
    && (key in s.starts ==>
          && WindowOk(s.charges, key, s.starts[key], n)
          && (key !in s.windows ==> s.clock >= s.starts[key] + WINDOW))
  }

  ghost predicate BucketOk(s: State, key: string, n: nat) { PresentOk(s, key, n) && PastOk(s, key, n) }

  // ---------- one charge ----------

  lemma ChargeContinues(charges: seq<Charge>, key: string, start: Time, now: Time, n: nat)
    requires WindowOk(charges, key, start, n) && MinutesOk(charges, key, n) && Since(charges, key, now + 1) == 0
    requires start <= now < start + WINDOW && Since(charges, key, start) <= 10 + n
    ensures WindowOk(charges + [Charge(key, now)], key, start, n)
    ensures MinutesOk(charges + [Charge(key, now)], key, n)
  {
    var c := Charge(key, now);
    forall a: Time ensures Since(charges + [c], key, a) == Since(charges, key, a) + if now >= a then 1 else 0 {
      SinceSnoc(charges, c, key, a);
    }
    forall a: Time ensures Since(charges + [c], key, a) - Since(charges + [c], key, a + WINDOW) <= 21 + 2 * n {
      if a <= now < a + WINDOW {
        SinceShrinks(charges, key, now + 1, a + WINDOW);
        if a > start { SinceShrinks(charges, key, start, a); }
      } else {
        assert Since(charges, key, a) - Since(charges, key, a + WINDOW) <= 21 + 2 * n;
      }
    }
  }

  /** The charges of the last minute before a new window: few, because the old window's first is not among them. */
  lemma FewBefore(charges: seq<Charge>, key: string, earlier: Option<Time>, now: Time, a: Time, n: nat)
    requires if earlier.None? then forall b: Time :: Since(charges, key, b) == 0
             else WindowOk(charges, key, earlier.value, n) && now >= earlier.value + WINDOW
    requires now - WINDOW < a
    ensures Since(charges, key, a) <= 10 + n && (a >= now ==> Since(charges, key, a) == 0)
  {
    if earlier.Some? {
      SinceShrinks(charges, key, earlier.value + 1, a);
      if a >= now { SinceShrinks(charges, key, earlier.value + WINDOW, a); }
    }
  }

  lemma ChargeBegins(charges: seq<Charge>, key: string, earlier: Option<Time>, now: Time, n: nat)
    requires if earlier.None? then forall b: Time :: Since(charges, key, b) == 0
             else WindowOk(charges, key, earlier.value, n) && now >= earlier.value + WINDOW
    requires MinutesOk(charges, key, n)
    ensures WindowOk(charges + [Charge(key, now)], key, now, n) && Since(charges + [Charge(key, now)], key, now) == 1
    ensures MinutesOk(charges + [Charge(key, now)], key, n)
  {
    var c := Charge(key, now);
    forall a: Time ensures Since(charges + [c], key, a) == Since(charges, key, a) + if now >= a then 1 else 0 {
      SinceSnoc(charges, c, key, a);
    }
    forall a: Time | now - WINDOW < a
      ensures Since(charges, key, a) <= 10 + n && (a >= now ==> Since(charges, key, a) == 0)
    {
      FewBefore(charges, key, earlier, now, a, n);
    }
    forall a: Time ensures Since(charges + [c], key, a) - Since(charges + [c], key, a + WINDOW) <= 21 + 2 * n {
      assert Since(charges, key, a) - Since(charges, key, a + WINDOW) <= 21 + 2 * n;
    }
  }

  // ---------- one call ----------

  /** Apart from the bucket consulted, a window is only ever deleted, and only when its minute is over. */
  lemma BucketFrame(ws: Windows, ip: string, now: Time, key: string)
    ensures var left := Bucket(ws, ip, now).1;
      key in ws ==> if key in left then left[key] == ws[key] else Elapsed(ws[key], now)
    ensures key in Bucket(ws, ip, now).1 ==> key in ws
  {}

  lemma OwnBucket(ws: Windows, ip: string, now: Time, key: string)
    requires key != OVERFLOW && Bucket(ws, ip, now).0 == key
    ensures ip == key
  {}

  lemma ClockMoves(s: State, now: Time, key: string)
    requires now >= s.clock && Since(s.charges, key, s.clock + 1) == 0
    ensures Since(s.charges, key, now + 1) == 0
  {
    SinceShrinks(s.charges, key, s.clock + 1, now + 1);
  }

  lemma EnterKeeps(s: State, ip: string, now: Time, key: string, n: nat)
    requires BucketOk(s, key, n) && now >= s.clock && key != OVERFLOW
    ensures BucketOk(After(s, Enter(ip, now)), key, n)
  {
    hide WindowOk, MinutesOk, Since, Live;
    BucketFrame(s.windows, ip, now, key);
    ClockMoves(s, now, key);
  }

  lemma ElsewhereKeeps(s: State, ip: string, now: Time, key: string, n: nat)
    requires BucketOk(s, key, n) && now >= s.clock && s.flying[ip] > 0 && Bucket(s.windows, ip, now).0 != key
    ensures BucketOk(After(s, Fail(ip, now)), key, n)
  {
    BucketFrame(s.windows, ip, now, key);
    ClockMoves(s, now, key);
    var c := Charge(Bucket(s.windows, ip, now).0, now);
    forall a: Time ensures Since(s.charges + [c], key, a) == Since(s.charges, key, a) {
      SinceSnoc(s.charges, c, key, a);
    }
  }

  lemma StartIsPast(s: State, key: string, n: nat)
    requires PastOk(s, key, n) && key in s.starts
    ensures s.starts[key] <= s.clock
  {
    if s.starts[key] > s.clock { SinceShrinks(s.charges, key, s.clock + 1, s.starts[key]); }
  }

  lemma ChargeKeeps(s: State, ip: string, now: Time, key: string, n: nat)
    requires BucketOk(s, key, n) && now >= s.clock && 0 < s.flying[ip] <= n
    requires Bucket(s.windows, ip, now).0 == key != OVERFLOW
    ensures BucketOk(After(s, Fail(ip, now)), key, n)
  {
    hide Since, WindowOk, Live;
    OwnBucket(s.windows, ip, now, key);
    BucketFrame(s.windows, ip, now, key);
    ClockMoves(s, now, key);
    SinceSnoc(s.charges, Charge(key, now), key, now + 1);
    var left := Bucket(s.windows, ip, now).1;
    if key in left && !Elapsed(left[key], now) {
      StartIsPast(s, key, n);
      ChargeContinues(s.charges, key, s.starts[key], now, n);
      SinceSnoc(s.charges, Charge(key, now), key, s.starts[key]);
    } else {
      ChargeBegins(s.charges, key, if key in s.starts then Some(s.starts[key]) else None, now, n);
    }
  }

  lemma CallKeeps(s: State, c: Call, key: string, n: nat)
    requires BucketOk(s, key, n) && Possible(s, c) && s.flying[c.ip] <= n && key != OVERFLOW
    ensures BucketOk(After(s, c), key, n)
  {
    match c
    case Enter(ip, now) => EnterKeeps(s, ip, now, key, n);
    case Leave(ip) =>
    case Fail(ip, now) =>
      if Bucket(s.windows, ip, now).0 == key { ChargeKeeps(s, ip, now, key, n); }
      else { ElsewhereKeeps(s, ip, now, key, n); }
  }

  lemma {:induction false} BucketsHold(calls: seq<Call>, key: string, n: nat)
    requires Lawful(calls, n) && key != OVERFLOW
    ensures BucketOk(Run(calls), key, n) && AtMost(Run(calls), n)
  {
    if calls != [] {
      BucketsHold(calls[..|calls| - 1], key, n);
      CallKeeps(Run(calls[..|calls| - 1]), calls[|calls| - 1], key, n);
    }
  }

  /** If at most n authorizations from one address are ever under way at once, its bucket never counts more than
      11 + n failures and no 60-second interval of the whole run holds more than 21 + 2n of them: 12 and 23 where
      authorizations do not overlap. */
  lemma FailuresAreLimited(calls: seq<Call>, key: string, n: nat, lo: Time)
    requires Lawful(calls, n) && key != OVERFLOW
    ensures var s := Run(calls);
      && (key in s.windows ==> s.windows[key].count <= 11 + n)
      && Between(s.charges, key, lo, lo + WINDOW) <= 21 + 2 * n
  {
    BucketsHold(calls, key, n);
    var s := Run(calls);
    BetweenIsDifference(s.charges, key, lo, lo + WINDOW);
    assert Since(s.charges, key, lo) - Since(s.charges, key, lo + WINDOW) <= 21 + 2 * n;
  }

  /** An address is turned away on its own account only if 12 of its failures were charged in the last minute. */
  lemma BlockedIsDeserved(calls: seq<Call>, key: string, n: nat, now: Time)
    requires Lawful(calls, n) && key != OVERFLOW && now >= Run(calls).clock && key in Run(calls).windows
    ensures Blocked(Run(calls).windows, key, now).0 ==>
        Between(Run(calls).charges, key, now - WINDOW + 1, now + 1) >= FAILURE_LIMIT
  {
    hide WindowOk, MinutesOk, Since, Between, Run, Lawful, Live;
    BucketsHold(calls, key, n);
    var s := Run(calls);
    if Blocked(s.windows, key, now).0 {
      BetweenIsDifference(s.charges, key, now - WINDOW + 1, now + 1);
      ClockMoves(s, now, key);
      SinceShrinks(s.charges, key, now - WINDOW + 1, s.starts[key]);
    }
  }

  // ---------- exactly who is turned away ----------

  /** The bucket's window is still running and holds twelve failures. */
  predicate FullBucket(ws: Windows, key: string, now: Time) {
    key in ws && now < ws[key].start + 60_000_000_000 && ws[key].count >= 12
  }

  /** No address without a bucket can get one: 4095 windows are still running. */
  predicate Crowded(ws: Windows, now: Time) {
    |set k | k in ws && now < ws[k].start + 60_000_000_000| >= 4095
  }

  lemma LiveKeys(ws: Windows, now: Time)
    ensures Live(ws, now).Keys == (set k | k in ws && now < ws[k].start + 60_000_000_000) <= ws.Keys
    ensures |Live(ws, now)| <= |ws|
  {
    var live := set k | k in ws && now < ws[k].start + 60_000_000_000;
    assert Live(ws, now).Keys == live;
    SmallerIsBounded(ws.Keys, live);
    assert ws.Keys == live + (ws.Keys - live);
  }

  /** An address is turned away exactly if its own bucket is full or, where it has none and can get none, if the shared
      one is. */
  lemma BlockedExactly(ws: Windows, ip: string, now: Time)
    ensures Blocked(ws, ip, now).0
       <==> if ip in ws then FullBucket(ws, ip, now) else Crowded(ws, now) && FullBucket(ws, OVERFLOW, now)
  {
    LiveKeys(ws, now);
  }

  /** A failure is charged to the address's own bucket unless it has none and can get none; a window that is over starts
      anew, and no other running window is touched. */
  lemma ChargedExactly(ws: Windows, ip: string, now: Time)
    ensures var key := if ip in ws || !Crowded(ws, now) then ip else OVERFLOW;
      var after := Charged(ws, ip, now);
      && key in after
      && after[key] == (if key in ws && now < ws[key].start + 60_000_000_000
                        then ws[key].(count := ws[key].count + 1) else Window(now, 1))
      && forall k :: k in ws && k != key && now < ws[k].start + 60_000_000_000 ==> k in after && after[k] == ws[k]
  {
    LiveKeys(ws, now);
  }

  /** In every run an address is turned away only if twelve of its own failures were charged in the last minute, or if
      4095 other windows are running and the shared bucket is full. */
  lemma OnlyCrowdedOut(calls: seq<Call>, ip: string, n: nat, now: Time)
    requires Lawful(calls, n) && ip != OVERFLOW && now >= Run(calls).clock && Blocked(Run(calls).windows, ip, now).0
    ensures var s := Run(calls);
      || Between(s.charges, ip, now - WINDOW + 1, now + 1) >= 12
      || (ip !in s.windows && Crowded(s.windows, now) && FullBucket(s.windows, OVERFLOW, now))
  {
    hide Run, Lawful, Blocked, Between, Crowded, FullBucket;
    BlockedExactly(Run(calls).windows, ip, now);
    if ip in Run(calls).windows { BlockedIsDeserved(calls, ip, n, now); }
  }

  // ---------- authorizations one after another ----------

  /** One authorization: when the limiter was asked, whether the capability was right, and when a failure was
      charged. */
  datatype Attempt = Attempt(ip: string, asked: Time, right: bool, charged: Time)

  function CallsOf(s: State, a: Attempt): seq<Call> {
    [Enter(a.ip, a.asked)] + if Blocked(s.windows, a.ip, a.asked).0 then []
                             else if a.right then [Leave(a.ip)] else [Fail(a.ip, a.charged)]
  }

  function Serial(attempts: seq<Attempt>): seq<Call> {
    if attempts == [] then []
    else
      var before := Serial(attempts[..|attempts| - 1]);
      before + CallsOf(Run(before), attempts[|attempts| - 1])
  }

  /** The clock goes on from reading to reading. */
  predicate InOrder(attempts: seq<Attempt>) {
    && (forall i :: 0 <= i < |attempts| ==> 0 <= attempts[i].asked <= attempts[i].charged)
    && (forall i, j :: 0 <= i < j < |attempts| ==> attempts[i].charged <= attempts[j].asked)
  }

  lemma RunSnoc(calls: seq<Call>, c: Call, n: nat)
    ensures Run(calls + [c]) == After(Run(calls), c)
    ensures Lawful(calls, n) && Possible(Run(calls), c) && AtMost(After(Run(calls), c), n) ==> Lawful(calls + [c], n)
  {
    assert (calls + [c])[..|calls|] == calls;
  }

  lemma OneAttempt(calls: seq<Call>, a: Attempt)
    requires Lawful(calls, 1) && Run(calls).flying == multiset{} && Run(calls).clock <= a.asked <= a.charged
    ensures var after := calls + CallsOf(Run(calls), a);
      Lawful(after, 1) && Run(after).flying == multiset{} && Run(after).clock <= a.charged
  {
    hide Lawful, Run, Blocked, Charged, Bucket;
    var s, enter := Run(calls), Enter(a.ip, a.asked);
    RunSnoc(calls, enter, 1);
    if Blocked(s.windows, a.ip, a.asked).0 {
      assert CallsOf(s, a) == [enter];
    } else {
      var last := if a.right then Leave(a.ip) else Fail(a.ip, a.charged);
      assert After(s, enter).flying == multiset{a.ip};
      RunSnoc(calls + [enter], last, 1);
      assert calls + CallsOf(s, a) == calls + [enter] + [last];
    }
  }

  lemma {:induction false} SerialIsLawful(attempts: seq<Attempt>)
    requires InOrder(attempts)
    ensures Lawful(Serial(attempts), 1) && Run(Serial(attempts)).flying == multiset{}
    ensures Run(Serial(attempts)).clock <= if attempts == [] then 0 else attempts[|attempts| - 1].charged
  {
    if attempts != [] {
      var before := attempts[..|attempts| - 1];
      SerialIsLawful(before);
      OneAttempt(Serial(before), attempts[|attempts| - 1]);
    }
  }

  /** Without overlapping: never more than 12 failures in a bucket, never more than 23 in any 60 seconds. */
  lemma SerialFailuresAreLimited(attempts: seq<Attempt>, key: string, lo: Time)
    requires InOrder(attempts) && key != OVERFLOW
    ensures var s := Run(Serial(attempts));
      && (key in s.windows ==> s.windows[key].count <= 12)
      && Between(s.charges, key, lo, lo + WINDOW) <= 23
  {
    SerialIsLawful(attempts);
    FailuresAreLimited(Serial(attempts), key, 1, lo);
  }
}

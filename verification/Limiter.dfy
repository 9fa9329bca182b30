/** The limiter of failed authorizations (internal/server/limiter.go) and the authorization that uses it
    (authorize in internal/server/server.go). */
module Limiter {
  import opened Prelude
  import opened Text
  import opened Model
  import opened StoreSpec

  const FAILURE_LIMIT := 12
  const WINDOW: Time := 60_000_000_000 // one minute in nanoseconds
  const MAX_BUCKETS := 4096
  const OVERFLOW := "\0overflow"

  datatype Window = Window(start: Time, count: nat)
  type Windows = map<string, Window>

  // ---------- what the limiter computes ----------

  predicate Elapsed(w: Window, now: Time) { now >= w.start + WINDOW }

  function Live(ws: Windows, now: Time): Windows {
    map k | k in ws && !Elapsed(ws[k], now) :: ws[k]
  }

  /** The bucket for an address, and the windows left after any clean-up. */
  function Bucket(ws: Windows, ip: string, now: Time): (string, Windows) {
    if ip in ws || |ws| < MAX_BUCKETS - 1 then (ip, ws)
    else if |Live(ws, now)| < MAX_BUCKETS - 1 then (ip, Live(ws, now))
    else (OVERFLOW, Live(ws, now))
  }

  function Blocked(ws: Windows, ip: string, now: Time): (bool, Windows) {
    var (key, left) := Bucket(ws, ip, now);
    if key !in left || Elapsed(left[key], now) then (false, left - {key}) else (left[key].count >= FAILURE_LIMIT, left)
  }

  function Charged(ws: Windows, ip: string, now: Time): Windows {
    var (key, left) := Bucket(ws, ip, now);
    var w := if key !in left || Elapsed(left[key], now) then Window(now, 0) else left[key];
    left[key := w.(count := w.count + 1)]
  }

  // ---------- the limiter itself ----------

  class FailureLimiter {
    var windows: Windows

    constructor ()
      ensures windows == map[]
    {
      windows := map[];
    }

    method RemoveExpired(now: Time)
      modifies this
      ensures windows == Live(old(windows), now)
    {
      var keys := windows.Keys;
      while keys != {}
        invariant keys <= windows.Keys <= old(windows).Keys
        invariant forall k :: k in windows ==> windows[k] == old(windows)[k]
        invariant forall k :: k in old(windows) && k !in keys ==> (k in windows <==> !Elapsed(old(windows)[k], now))
        decreases keys
      {
        var key :| key in keys;
        keys := keys - {key};
        if Elapsed(windows[key], now) { windows := windows - {key}; }
      }
    }

    method BucketKey(ip: string, now: Time) returns (key: string)
      modifies this
      ensures (key, windows) == Bucket(old(windows), ip, now)
    {
      if ip in windows { return ip; }
      if |windows| >= MAX_BUCKETS - 1 { RemoveExpired(now); }
      if |windows| >= MAX_BUCKETS - 1 { return OVERFLOW; }
      return ip;
    }

    method IsBlocked(ip: string, now: Time) returns (blocked: bool)
      modifies this
      ensures (blocked, windows) == Blocked(old(windows), ip, now)
    {
      var key := BucketKey(ip, now);
      if key !in windows || Elapsed(windows[key], now) {
        windows := windows - {key};
        return false;
      }
      return windows[key].count >= FAILURE_LIMIT;
    }

    method Failure(ip: string, now: Time)
      modifies this
      ensures windows == Charged(old(windows), ip, now)
    {
      var key := BucketKey(ip, now);
      var w := if key in windows then windows[key] else Window(now, 0);
      if key !in windows || Elapsed(w, now) { w := Window(now, 0); }
      w := w.(count := w.count + 1);
      windows := windows[key := w];
    }
  }

  // ---------- authorization ----------

  datatype Verdict = RateLimited | Denied | RequestClosed | Granted(bundle: Bundle)

  class Gate {
    const p: Primitives
    const limiter: FailureLimiter

    constructor (p: Primitives)
      ensures this.p == p && fresh(limiter) && limiter.windows == map[]
    {
      this.p := p;
      limiter := new FailureLimiter();
    }

    /** One uninterrupted authorization: the limiter first, then the capability, a charge if it is wrong, and for
        submitters the closure check. The limiter reads the clock twice, and the store is read twice. */
    method Authorize(ip: string, id: string, token: string, kind: Kind, t1: Time, d1: Disk, t2: Time, d2: Disk)
      returns (verdict: Verdict)
      modifies limiter
      ensures verdict.RateLimited? <==> Blocked(old(limiter.windows), ip, t1).0
      ensures verdict.Denied? <==> !verdict.RateLimited? && Authenticate(p, d1, id, token, kind) == None
      ensures verdict.Granted? <==> !verdict.RateLimited? && Authenticate(p, d1, id, token, kind).Some?
                                    && (kind.Submit? ==> Authenticate(p, d1, id, token, kind).value.id !in d2.markers)
      ensures verdict.Granted? ==> Authenticate(p, d1, id, token, kind) == Some(verdict.bundle)
      ensures verdict.Granted? ==> token != "" && HexDecode(if kind.Collect? then verdict.bundle.collectTokenHash
                                                           else verdict.bundle.submitTokenHash)
                                                  == Some(p.sha256(Utf8(token)))
      ensures limiter.windows == var checked := Blocked(old(limiter.windows), ip, t1).1;
                                 if verdict.Denied? then Charged(checked, ip, t2) else checked
    {
      var blocked := limiter.IsBlocked(ip, t1);
      if blocked { return RateLimited; }
      var bundle := Authenticate(p, d1, id, token, kind);
      if bundle.None? {
        limiter.Failure(ip, t2);
        return Denied;
      }
      if kind.Submit? {
        if bundle.value.id in d2.markers { return RequestClosed; }
      }
      return Granted(bundle.value);
    }
  }
}

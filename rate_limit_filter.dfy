// Fixed-window rate limiting at the gateway: each request increments a
// per-bucket counter in a key-value store; the first increment of a window
// gives the counter a one-minute expiry; a request is refused once the
// counter exceeds its bucket's ceiling.

module RateLimitFilter {
  import opened Common
  import opened Http

  const DefaultRequestsPerMinute: nat := 100
  const LoginRequestsPerMinute: nat := 5
  const UserRequestsPerMinute: nat := 200
  const WindowSeconds: nat := 60
  const LoginPath: string := "/api/auth/login"
  const TooManyLogins: string := "Too many login attempts. Please try again later."
  const TooManyRequests: string := "Rate limit exceeded. Please slow down."

  // ---------------------------------------------------------------------
  // Client address

  /** `getClientIP` as written: the first comma-separated X-Forwarded-For
    * item, trimmed; else X-Real-IP; else the peer address; else "unknown".
    * `split(",")` of a header made only of commas is empty, and indexing it
    * throws. */
  function ClientIpAsWritten(req: Request): Result<string, string>
  {
    var xff := GetFirst(req.headers, "X-Forwarded-For");
    if xff.Some? && xff.value != [] then
      var parts := Split(xff.value, ',');
      if |parts| == 0 then Err("ArrayIndexOutOfBoundsException") else Ok(Trim(parts[0]))
    else Ok(FallbackIp(req))
  }

  /** X-Real-IP when non-empty, else the peer address, else "unknown". */
  function FallbackIp(req: Request): string
  {
    var realIp := GetFirst(req.headers, "X-Real-IP");
    if realIp.Some? && realIp.value != [] then realIp.value
    else if req.remoteAddress.Some? then req.remoteAddress.value
    else "unknown"
  }

  /** The client address with a comma-only X-Forwarded-For treated like a
    * missing one, so that the lookup falls through to the next source
    * instead of throwing. */
  function ClientIp(req: Request): (ip: string)
    ensures ClientIpAsWritten(req).Ok? ==> ip == ClientIpAsWritten(req).value
  {
    var xff := GetFirst(req.headers, "X-Forwarded-For");
    if xff.Some? && xff.value != [] && |Split(xff.value, ',')| > 0 then Trim(Split(xff.value, ',')[0])
    else FallbackIp(req)
  }

  /** A header of commas only makes the lookup as written throw, on every
    * path, before any bucket is chosen. */
  lemma CommaOnlyForwardedForThrows(req: Request)
    requires GetFirst(req.headers, "X-Forwarded-For") == Some(",")
    ensures ClientIpAsWritten(req) == Err("ArrayIndexOutOfBoundsException")
    ensures ClientIp(req) == FallbackIp(req)
  {
    SplitOfDelimitersOnly(",", ',');
  }

  /** The order of the sources: a usable X-Forwarded-For wins over X-Real-IP,
    * which wins over the peer address. */
  lemma ClientIpOrder(req: Request, first: string, rest: string)
    requires GetFirst(req.headers, "X-Forwarded-For") == Some(first + "," + rest)
    requires first != [] && ',' !in first && ',' !in rest && rest != []
    ensures ClientIp(req) == Trim(first)
  {
    assert Join([first, rest], ',') == first + "," + rest;
    SplitJoin([first, rest], ',');
  }

  lemma ClientIpFallback(req: Request)
    requires GetFirst(req.headers, "X-Forwarded-For").None?
    ensures GetFirst(req.headers, "X-Real-IP").Some? && GetFirst(req.headers, "X-Real-IP").value != [] ==>
      ClientIp(req) == GetFirst(req.headers, "X-Real-IP").value
    ensures (GetFirst(req.headers, "X-Real-IP").None? || GetFirst(req.headers, "X-Real-IP").value == []) ==>
      ClientIp(req) == if req.remoteAddress.Some? then req.remoteAddress.value else "unknown"
  {
  }

  // ---------------------------------------------------------------------
  // Buckets

  datatype Bucket = Bucket(key: string, limit: nat, message: string)

  /** The bucket a request is counted in: the exact login path by address
    * with ceiling 5; otherwise by the incoming X-User-Id when it is present
    * and non-empty (ceiling 200), else by address (ceiling 100). */
  function SelectBucket(req: Request, ip: string): Bucket
  {
    if req.path == LoginPath then Bucket("login:" + ip, LoginRequestsPerMinute, TooManyLogins)
    else
      var userId := GetFirst(req.headers, "X-User-Id");
      if userId.Some? && userId.value != [] then Bucket("user:" + userId.value, UserRequestsPerMinute, TooManyRequests)
      else Bucket("ip:" + ip, DefaultRequestsPerMinute, TooManyRequests)
  }

  /** The bucket is chosen from what the client sent: any non-empty
    * X-User-Id, checked by nobody at this point, moves a non-login request
    * into that user's bucket with the higher ceiling. */
  lemma ClientChoosesUserBucket(req: Request, ip: string, claimed: string)
    requires req.path != LoginPath
    requires GetFirst(req.headers, "X-User-Id") == Some(claimed) && claimed != []
    ensures SelectBucket(req, ip) == Bucket("user:" + claimed, 200, TooManyRequests)
  {
  }

  /** The login path is always counted by address, whatever X-User-Id says;
    * any other path without a user id is counted by address too. */
  lemma AddressBuckets(req: Request, ip: string)
    ensures req.path == LoginPath ==> SelectBucket(req, ip) == Bucket("login:" + ip, 5, TooManyLogins)
    ensures req.path != LoginPath && (GetFirst(req.headers, "X-User-Id").None? || GetFirst(req.headers, "X-User-Id").value == [])
      ==> SelectBucket(req, ip) == Bucket("ip:" + ip, 100, TooManyRequests)
  {
  }

  // ---------------------------------------------------------------------
  // The counter store

  /** A counter and the instant (seconds) it expires at, if it has an expiry. */
  datatype Counter = Counter(count: nat, expiry: Option<nat>)

  /** Which store call, if any, fails during one check. */
  datatype StoreFault = NoFault | IncrementFails | ExpireFails

  predicate Live(c: Counter, now: nat)
  {
    c.expiry.None? || now < c.expiry.value
  }

  /** The counter as the store sees it at `now`: an expired key is gone. */
  function Current(m: map<string, Counter>, key: string, now: nat): Option<Counter>
  {
    if key in m && Live(m[key], now) then Some(m[key]) else None
  }

  /** INCR: one more than the live count, or 1 for a missing or expired key
    * (which comes back without an expiry). */
  function Incremented(m: map<string, Counter>, key: string, now: nat): (c: Counter)
    ensures c.count >= 1
  {
    match Current(m, key, now)
    case Some(prev) => Counter(prev.count + 1, prev.expiry)
    case None => Counter(1, None)
  }

  /** `checkRateLimit` on the store `m`: the new store and whether the request
    * is allowed, or the store error. */
  function Check(m: map<string, Counter>, key: string, max: nat, now: nat, fault: StoreFault)
    : (map<string, Counter>, Result<bool, string>)
  {
    var rk := "ratelimit:" + key;
    if fault == IncrementFails then (m, Err("increment failed"))
    else
      var c := Incremented(m, rk, now);
      if c.count == 1 then
        if fault == ExpireFails then (m[rk := c], Err("expire failed"))
        else (m[rk := c.(expiry := Some(now + WindowSeconds))], Ok(c.count <= max))
      else (m[rk := c], Ok(c.count <= max))
  }

  class RateLimiter {
    var counters: map<string, Counter>

    constructor ()
      ensures counters == map[]
    {
      counters := map[];
    }

    /** Redis INCR. */
    method Increment(key: string, now: nat) returns (count: nat)
      modifies this
      ensures counters == old(counters)[key := Incremented(old(counters), key, now)]
      ensures count == counters[key].count
    {
      var c: Counter;
      if key in counters && Live(counters[key], now) {
        c := Counter(counters[key].count + 1, counters[key].expiry);
      } else {
        c := Counter(1, None);
      }
      counters := counters[key := c];
      count := c.count;
    }

    /** Redis EXPIRE, for a key that exists. */
    method Expire(key: string, seconds: nat, now: nat)
      requires key in counters
      modifies this
      ensures counters == old(counters)[key := old(counters)[key].(expiry := Some(now + seconds))]
    {
      counters := counters[key := counters[key].(expiry := Some(now + seconds))];
    }

    method CheckRateLimit(key: string, max: nat, now: nat, fault: StoreFault)
      returns (r: Result<bool, string>)
      modifies this
      ensures (counters, r) == Check(old(counters), key, max, now, fault)
    {
      var redisKey := "ratelimit:" + key;
      if fault == IncrementFails {
        return Err("increment failed");
      }
      var count := Increment(redisKey, now);
      if count == 1 {
        if fault == ExpireFails {
          return Err("expire failed");
        }
        ghost var c := counters[redisKey];
        Expire(redisKey, WindowSeconds, now);
        assert counters == old(counters)[redisKey := c.(expiry := Some(now + WindowSeconds))];
        return Ok(count <= max);
      }
      return Ok(count <= max);
    }

    /** The filter: count the request in its bucket and refuse it with 429
      * once the bucket is over its ceiling; a store failure lets it pass.
      * `asWritten` selects the source's address lookup, which throws on a
      * comma-only X-Forwarded-For before anything is counted; otherwise the
      * corrected `ClientIp` is used. */
    method Filter(req: Request, now: nat, fault: StoreFault, asWritten: bool) returns (r: FilterResult)
      modifies this
      ensures asWritten && ClientIpAsWritten(req).Err? ==>
        r == Crash(ClientIpAsWritten(req).error) && counters == old(counters)
      ensures !(asWritten && ClientIpAsWritten(req).Err?) ==>
        var b := SelectBucket(req, ClientIp(req));
        var (m, allowed) := Check(old(counters), b.key, b.limit, now, fault);
        && counters == m
        && r == (if allowed == Ok(false) then Reject(TooMany(b.message)) else Forward(req))
    {
      var ip := ClientIp(req);
      if asWritten {
        var written := ClientIpAsWritten(req);
        if written.Err? {
          return Crash(written.error);
        }
        ip := written.value;
      }
      var bucket := SelectBucket(req, ip);
      var allowed := CheckRateLimit(bucket.key, bucket.limit, now, fault);
      if allowed == Ok(false) {
        r := Reject(TooMany(bucket.message));
      } else {
        r := Forward(req);
      }
    }
  }

  /** `onError` of this filter: 429, JSON, and a one-minute Retry-After. */
  function TooMany(message: string): (r: Response)
    ensures r.status == 429 && ("Retry-After", "60") in r.headers
    ensures ("Content-Type", "application/json") in r.headers
    ensures MessageOf(r.body) == Some(message)
  {
    ErrorBodyRoundTrip(message);
    Response(429, [("Content-Type", "application/json"), ("Retry-After", "60")], ErrorBody(message))
  }

  // ---------------------------------------------------------------------
  // Properties of the window

  /** A check never refuses because of a store failure: an error means the
    * filter lets the request through. A refusal is exactly a count over the
    * ceiling. */
  lemma CheckOutcome(m: map<string, Counter>, key: string, max: nat, now: nat, fault: StoreFault)
    ensures var rk := "ratelimit:" + key;
      Check(m, key, max, now, fault).1 == Ok(false) <==>
        fault != IncrementFails && Incremented(m, rk, now).count > max
        && (fault == ExpireFails ==> Incremented(m, rk, now).count != 1)
  {
  }

  /** The expiry is set only on the count of 1, and a later increment in the
    * same window keeps it. */
  lemma ExpiryOnlyOnFirst(m: map<string, Counter>, key: string, max: nat, now: nat)
    requires "ratelimit:" + key in m ==> m["ratelimit:" + key].count >= 1
    ensures var rk := "ratelimit:" + key;
      var m' := Check(m, key, max, now, NoFault).0;
      && rk in m'
      && (Current(m, rk, now).None? ==> m'[rk] == Counter(1, Some(now + 60)))
      && (Current(m, rk, now).Some? ==> m'[rk] == Counter(m[rk].count + 1, m[rk].expiry))
  {
  }

  /** The outcomes of a run of checks on one key, at the given instants. */
  function Run(m: map<string, Counter>, key: string, max: nat, times: seq<nat>): (r: seq<bool>)
    ensures |r| == |times|
    decreases |times|
  {
    if times == [] then []
    else
      var (m', allowed) := Check(m, key, max, times[0], NoFault);
      [allowed == Ok(true)] + Run(m', key, max, times[1..])
  }

  /** Inside one window: with `done` requests already counted, the i-th
    * further request is allowed iff `done + i + 1` is within the ceiling. */
  lemma {:induction false} RunInWindow(m: map<string, Counter>, key: string, max: nat,
                                       times: seq<nat>, done: nat, expiry: nat)
    requires done >= 1
    requires "ratelimit:" + key in m && m["ratelimit:" + key] == Counter(done, Some(expiry))
    requires forall i :: 0 <= i < |times| ==> times[i] < expiry
    ensures forall i :: 0 <= i < |times| ==> Run(m, key, max, times)[i] == (done + i + 1 <= max)
    decreases |times|
  {
    if times != [] {
      var rk := "ratelimit:" + key;
      var (m', allowed) := Check(m, key, max, times[0], NoFault);
      assert m'[rk] == Counter(done + 1, Some(expiry));
      RunInWindow(m', key, max, times[1..], done + 1, expiry);
      forall i | 0 <= i < |times|
        ensures Run(m, key, max, times)[i] == (done + i + 1 <= max)
      {
        if i > 0 {
          assert Run(m, key, max, times)[i] == Run(m', key, max, times[1..])[i - 1];
        }
      }
    }
  }

  /** A fresh window: starting from no live counter, within one minute of the
    * first request, requests 1..max pass and every later one is refused. */
  lemma WindowAdmitsExactlyMax(m: map<string, Counter>, key: string, max: nat, times: seq<nat>)
    requires times != [] && Current(m, "ratelimit:" + key, times[0]).None?
    requires forall i :: 0 <= i < |times| ==> times[i] < times[0] + WindowSeconds
    ensures forall i :: 0 <= i < |times| ==> Run(m, key, max, times)[i] == (i + 1 <= max)
  {
    var rk := "ratelimit:" + key;
    var (m', allowed) := Check(m, key, max, times[0], NoFault);
    assert m'[rk] == Counter(1, Some(times[0] + WindowSeconds));
    RunInWindow(m', key, max, times[1..], 1, times[0] + WindowSeconds);
    forall i | 0 <= i < |times|
      ensures Run(m, key, max, times)[i] == (i + 1 <= max)
    {
      if i > 0 {
        assert Run(m, key, max, times)[i] == Run(m', key, max, times[1..])[i - 1];
      }
    }
  }

  /** Once the expiry instant is reached the window starts again. */
  lemma NewWindowAfterExpiry(m: map<string, Counter>, key: string, max: nat, now: nat)
    requires max >= 1
    requires "ratelimit:" + key in m && m["ratelimit:" + key].expiry.Some?
    requires now >= m["ratelimit:" + key].expiry.value
    ensures Check(m, key, max, now, NoFault).1 == Ok(true)
  {
  }

  /** If setting the expiry fails on a window's first request, the counter
    * has no expiry and is never reset: once past the ceiling, every later
    * request in that bucket is refused, at any time. */
  lemma CounterWithoutExpiryNeverResets(m: map<string, Counter>, key: string, max: nat, now: nat)
    requires "ratelimit:" + key in m && m["ratelimit:" + key].expiry.None?
    requires m["ratelimit:" + key].count >= max && m["ratelimit:" + key].count >= 1
    ensures var (m', allowed) := Check(m, key, max, now, NoFault);
      && allowed == Ok(false)
      && m'["ratelimit:" + key] == Counter(m["ratelimit:" + key].count + 1, None)
  {
  }

  lemma FailedExpireLeavesNoExpiry(m: map<string, Counter>, key: string, max: nat, now: nat)
    requires Current(m, "ratelimit:" + key, now).None?
    ensures Check(m, key, max, now, ExpireFails) == (m["ratelimit:" + key := Counter(1, None)], Err("expire failed"))
  {
  }
}

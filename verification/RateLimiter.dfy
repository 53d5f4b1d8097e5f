/** The sliding-window rate limiter: one pruned bucket of admission times per
    client, shared by a general and a stricter authentication limit. */
module RateLimiter {
  import opened Prelude

  const WINDOW := 60.0
  const AUTH_PREFIX := "/api/auth/"

  datatype Config = Config(perMinute: int, burst: int)

  /** The clamping that the service applies to its environment settings. */
  function FromEnv(perMinute: int, burst: int): Config {
    Config(Max(20, perMinute), Max(0, burst))
  }

  datatype Request = Request(now: real, ip: string, path: string)

  /** The source indexes an empty bucket when a limit is not positive. */
  datatype Verdict = Admitted | Refused(retryAfter: int) | IndexError

  type Buckets = map<string, seq<real>>

  predicate IsAuth(path: string) {
    AUTH_PREFIX <= path
  }

  function AuthLimit(c: Config): int {
    Max(10, c.perMinute / 4)
  }

  function Limit(c: Config, path: string): int {
    if IsAuth(path) then AuthLimit(c) else c.perMinute + c.burst
  }

  function Bucket(m: Buckets, ip: string): seq<real> {
    if ip in m then m[ip] else []
  }

  /** Drop admission times from the front while they are over 60 seconds old. */
  function Pruned(b: seq<real>, now: real): seq<real> {
    if b != [] && now - b[0] > WINDOW then Pruned(b[1..], now) else b
  }

  function Decide(b: seq<real>, limit: int, now: real): Verdict {
    if |b| < limit then Admitted
    else if b == [] then IndexError
    else Refused(Max(1, Trunc(WINDOW - (now - b[0]))))
  }

  function Handle(c: Config, m: Buckets, r: Request): (Verdict, Buckets) {
    var b := Pruned(Bucket(m, r.ip), r.now);
    var v := Decide(b, Limit(c, r.path), r.now);
    (v, m[r.ip := if v.Admitted? then b + [r.now] else b])
  }

  class RateLimitMiddleware {
    const config: Config
    var requests: Buckets

    constructor (config: Config)
      ensures this.config == config && requests == map[]
    {
      this.config := config;
      requests := map[];
    }

    method Dispatch(r: Request) returns (v: Verdict)
      modifies this
      ensures (v, requests) == Handle(config, old(requests), r)
    {
      var bucket := if r.ip in requests then requests[r.ip] else [];
      ghost var was, before := bucket, requests;
      while bucket != [] && r.now - bucket[0] > 60.0
        invariant Pruned(bucket, r.now) == Pruned(was, r.now)
        decreases |bucket|
      {
        bucket := bucket[1..];
      }
      requests := requests[r.ip := bucket];
      var limit := config.perMinute + config.burst;
      if "/api/auth/" <= r.path {
        limit := Max(10, config.perMinute / 4);
      }
      if |bucket| >= limit {
        if bucket == [] { return IndexError; }
        return Refused(Max(1, Trunc(60.0 - (r.now - bucket[0]))));
      }
      bucket := bucket + [r.now];
      requests := requests[r.ip := bucket];
      assert requests == before[r.ip := bucket];
      v := Admitted;
    }
  }

  // ---- Runs and their full history ----

  function BucketsAfter(c: Config, rs: seq<Request>): Buckets {
    if rs == [] then map[] else Handle(c, BucketsAfter(c, rs[..|rs|-1]), rs[|rs|-1]).1
  }

  /** Which requests of a run the limiter admits. */
  function Admissions(c: Config, rs: seq<Request>): (flags: seq<bool>)
    ensures |flags| == |rs|
  {
    if rs == [] then []
    else
      var n := |rs| - 1;
      Admissions(c, rs[..n]) + [Handle(c, BucketsAfter(c, rs[..n]), rs[n]).0.Admitted?]
  }

  /** `time.monotonic()` does not run backwards. */
  predicate Ordered(rs: seq<Request>) {
    forall i, j :: 0 <= i < j < |rs| ==> rs[i].now <= rs[j].now
  }

  /** Admissions of one client (or of its authentication requests only) with
      lo <= time <= hi. */
  function AdmittedIn(rs: seq<Request>, flags: seq<bool>, ip: string, authOnly: bool, lo: real, hi: real): nat
    requires |rs| == |flags|
  {
    if rs == [] then 0
    else
      var n := |rs| - 1;
      AdmittedIn(rs[..n], flags[..n], ip, authOnly, lo, hi)
        + if flags[n] && rs[n].ip == ip && lo <= rs[n].now <= hi && (authOnly ==> IsAuth(rs[n].path)) then 1 else 0
  }

  /** A limiter that keeps the whole history and counts: one flag per request,
      admitted when fewer than the limit were admitted in the closed minute. */
  function Naive(c: Config, rs: seq<Request>): (flags: seq<bool>)
    ensures |flags| == |rs|
  {
    if rs == [] then []
    else
      var n := |rs| - 1;
      var r := rs[n];
      var flags := Naive(c, rs[..n]);
      flags + [AdmittedIn(rs[..n], flags, r.ip, false, r.now - WINDOW, r.now) < Limit(c, r.path)]
  }

  // ---- The bucket agrees with the full history ----

  /** All admission times of a client, oldest first, never forgotten. */
  function Times(rs: seq<Request>, flags: seq<bool>, ip: string): seq<real>
    requires |rs| == |flags|
  {
    if rs == [] then []
    else
      var n := |rs| - 1;
      var earlier := Times(rs[..n], flags[..n], ip);
      if rs[n].ip == ip && flags[n] then earlier + [rs[n].now] else earlier
  }

  ghost predicate AllBefore(rs: seq<Request>, x: real) {
    forall i :: 0 <= i < |rs| ==> rs[i].now <= x
  }

  lemma {:induction false} PrunedTwice(b: seq<real>, a: real, x: real)
    requires a <= x
    ensures Pruned(Pruned(b, a), x) == Pruned(b, x)
  {
    if b != [] && a - b[0] > WINDOW { PrunedTwice(b[1..], a, x); }
  }

  lemma {:induction false} PrunedOfAppend(b: seq<real>, t: real, x: real)
    ensures Pruned(b + [t], x) == Pruned(Pruned(b, x) + [t], x)
  {
    if b != [] && x - b[0] > WINDOW {
      assert (b + [t])[1..] == b[1..] + [t];
      PrunedOfAppend(b[1..], t, x);
    }
  }

  lemma {:induction false} PrunedAppend(b: seq<real>, c: seq<real>, t: real, x: real)
    requires Pruned(b, x) == Pruned(c, x)
    ensures Pruned(b + [t], x) == Pruned(c + [t], x)
  {
    PrunedOfAppend(b, t, x);
    PrunedOfAppend(c, t, x);
  }

  /** What pruning forgot can never matter again. */
  lemma {:induction false} BucketForgetsNothing(c: Config, rs: seq<Request>, ip: string, x: real)
    requires Ordered(rs) && AllBefore(rs, x)
    ensures Pruned(Bucket(BucketsAfter(c, rs), ip), x) == Pruned(Times(rs, Admissions(c, rs), ip), x)
  {
    if rs != [] {
      var n := |rs| - 1;
      var r := rs[n];
      BucketForgetsNothing(c, rs[..n], ip, x);
      assert Admissions(c, rs)[..n] == Admissions(c, rs[..n]);
      if r.ip == ip {
        var b := Bucket(BucketsAfter(c, rs[..n]), ip);
        PrunedTwice(b, r.now, x);
        PrunedAppend(Pruned(b, r.now), Times(rs[..n], Admissions(c, rs[..n]), ip), r.now, x);
      }
    }
  }

  ghost predicate Ascends(b: seq<real>) {
    forall i, j :: 0 <= i < j < |b| ==> b[i] <= b[j]
  }

  function CountFrom(b: seq<real>, lo: real, hi: real): nat {
    if b == [] then 0
    else CountFrom(b[..|b|-1], lo, hi) + if lo <= b[|b|-1] <= hi then 1 else 0
  }

  lemma {:induction false} AllInside(b: seq<real>, lo: real, hi: real)
    requires forall i :: 0 <= i < |b| ==> lo <= b[i] <= hi
    ensures CountFrom(b, lo, hi) == |b|
  {
    if b != [] { AllInside(b[..|b|-1], lo, hi); }
  }

  lemma {:induction false} SkipFirst(b: seq<real>, lo: real, hi: real)
    requires b != [] && !(lo <= b[0] <= hi)
    ensures CountFrom(b, lo, hi) == CountFrom(b[1..], lo, hi)
  {
    if |b| > 1 {
      assert b[..|b|-1][1..] == b[1..][..|b|-2];
      SkipFirst(b[..|b|-1], lo, hi);
    }
  }

  /** In a sorted bucket the survivors of pruning are the last minute's entries. */
  lemma {:induction false} PrunedCounts(b: seq<real>, now: real)
    requires Ascends(b) && forall i :: 0 <= i < |b| ==> b[i] <= now
    ensures |Pruned(b, now)| == CountFrom(b, now - WINDOW, now)
  {
    if b != [] && now - b[0] > WINDOW {
      SkipFirst(b, now - WINDOW, now);
      PrunedCounts(b[1..], now);
    } else {
      AllInside(b, now - WINDOW, now);
    }
  }

  lemma {:induction false} TimesAreSorted(rs: seq<Request>, flags: seq<bool>, ip: string, x: real)
    requires |rs| == |flags| && Ordered(rs) && AllBefore(rs, x)
    ensures Ascends(Times(rs, flags, ip)) && forall i :: 0 <= i < |Times(rs, flags, ip)| ==>
       Times(rs, flags, ip)[i] <= x
  {
    if rs != [] {
      TimesAreSorted(rs[..|rs|-1], flags[..|rs|-1], ip, rs[|rs|-1].now);
    }
  }

  lemma {:induction false} TimesMatchFlags(rs: seq<Request>, flags: seq<bool>, ip: string, lo: real, hi: real)
    requires |rs| == |flags|
    ensures CountFrom(Times(rs, flags, ip), lo, hi) == AdmittedIn(rs, flags, ip, false, lo, hi)
  {
    if rs != [] {
      var n := |rs| - 1;
      TimesMatchFlags(rs[..n], flags[..n], ip, lo, hi);
      var t := Times(rs[..n], flags[..n], ip);
      assert (t + [rs[n].now])[..|t|] == t;
    }
  }

  lemma {:induction false} BucketCountsLastMinute(c: Config, rs: seq<Request>, ip: string, now: real)
    requires Ordered(rs) && AllBefore(rs, now)
    ensures |Pruned(Bucket(BucketsAfter(c, rs), ip), now)|
            == AdmittedIn(rs, Admissions(c, rs), ip, false, now - WINDOW, now)
  {
    var flags := Admissions(c, rs);
    TimesMatchFlags(rs, flags, ip, now - WINDOW, now);
    TimesAreSorted(rs, flags, ip, now);
    PrunedCounts(Times(rs, flags, ip), now);
    BucketForgetsNothing(c, rs, ip, now);
  }

  /** The pruned bucket decides every request of every run as the limiter that
      never forgets does. */
  lemma {:induction false} AgreesWithNaive(c: Config, rs: seq<Request>)
    requires Ordered(rs)
    ensures Admissions(c, rs) == Naive(c, rs)
  {
    if rs != [] {
      var n := |rs| - 1;
      AgreesWithNaive(c, rs[..n]);
      BucketCountsLastMinute(c, rs[..n], rs[n].ip, rs[n].now);
    }
  }

  // ---- The bound over every window ----

  lemma {:induction false} WiderWindow(rs: seq<Request>, flags: seq<bool>, ip: string, authOnly: bool,
      lo: real, hi: real, lo': real, hi': real)
    requires |rs| == |flags|
    requires lo' <= lo && AllBefore(rs, hi')
    ensures AdmittedIn(rs, flags, ip, authOnly, lo, hi) <= AdmittedIn(rs, flags, ip, false, lo', hi')
  {
    if rs != [] {
      WiderWindow(rs[..|rs|-1], flags[..|rs|-1], ip, authOnly, lo, hi, lo', hi');
    }
  }

  lemma {:induction false} NaiveWindowBound(c: Config, rs: seq<Request>, ip: string, s: real)
    requires Ordered(rs)
    ensures AdmittedIn(rs, Naive(c, rs), ip, false, s, s + WINDOW) <= Max(0, Max(c.perMinute + c.burst, AuthLimit(c)))
    ensures AdmittedIn(rs, Naive(c, rs), ip, true, s, s + WINDOW) <= AuthLimit(c)
  {
    if rs != [] {
      var n := |rs| - 1;
      var r := rs[n];
      NaiveWindowBound(c, rs[..n], ip, s);
      var flags := Naive(c, rs[..n]);
      assert Naive(c, rs)[..n] == flags;
      if s <= r.now <= s + WINDOW {
        WiderWindow(rs[..n], flags, ip, false, s, s + WINDOW, r.now - WINDOW, r.now);
        WiderWindow(rs[..n], flags, ip, true, s, s + WINDOW, r.now - WINDOW, r.now);
      }
    }
  }

  /** Over any run, and for the closed minute starting at any instant, a client
      gets at most per_minute + burst requests through, and at most
      max(10, per_minute // 4) authentication requests. */
  lemma {:induction false} SlidingWindowBound(perMinute: int, burst: int, rs: seq<Request>, ip: string, s: real)
    requires Ordered(rs)
    ensures var flags := Admissions(FromEnv(perMinute, burst), rs);
            && AdmittedIn(rs, flags, ip, false, s, s + 60.0) <= Max(20, perMinute) + Max(0, burst)
            && AdmittedIn(rs, flags, ip, true, s, s + 60.0) <= Max(10, Max(20, perMinute) / 4)
  {
    var c := FromEnv(perMinute, burst);
    AgreesWithNaive(c, rs);
    NaiveWindowBound(c, rs, ip, s);
  }

  lemma {:induction false} PrunedShrinks(b: seq<real>, now: real)
    ensures |Pruned(b, now)| <= |b| && Pruned(b, now) == b[|b| - |Pruned(b, now)|..]
  {
    if b != [] && now - b[0] > WINDOW {
      PrunedShrinks(b[1..], now);
    }
  }

  lemma HandleKeepsBound(c: Config, m: Buckets, r: Request, ip: string, bound: int)
    requires Limit(c, r.path) <= bound && |Bucket(m, ip)| <= bound
    ensures |Bucket(Handle(c, m, r).1, ip)| <= bound
  {
    hide Limit;
    var b := Pruned(Bucket(m, r.ip), r.now);
    assert |b| <= |Bucket(m, r.ip)| by { PrunedShrinks(Bucket(m, r.ip), r.now); }
    var admitted := Decide(b, Limit(c, r.path), r.now).Admitted?;
    assert Handle(c, m, r).1 == m[r.ip := if admitted then b + [r.now] else b];
    if r.ip != ip { assert Bucket(Handle(c, m, r).1, ip) == Bucket(m, ip); }
  }

  /** Memory stays bounded: no bucket outgrows the larger limit. */
  lemma {:induction false} BucketIsBounded(perMinute: int, burst: int, rs: seq<Request>, ip: string)
    ensures |Bucket(BucketsAfter(FromEnv(perMinute, burst), rs), ip)| <= Max(20, perMinute) + Max(0, burst)
  {
    if rs != [] {
      var c := FromEnv(perMinute, burst);
      BucketIsBounded(perMinute, burst, rs[..|rs|-1], ip);
      HandleKeepsBound(c, BucketsAfter(c, rs[..|rs|-1]), rs[|rs|-1], ip, c.perMinute + c.burst);
    }
  }

  // ---- The exact verdict ----

  predicate InLastMinute(rs: seq<Request>, flags: seq<bool>, r: Request, i: int)
    requires |rs| == |flags|
  {
    0 <= i < |rs| && flags[i] && rs[i].ip == r.ip && r.now - 60.0 <= rs[i].now <= r.now
  }

  /** `i` is the earliest of the client's admissions in the minute before `r`. */
  ghost predicate IsOldest(rs: seq<Request>, flags: seq<bool>, r: Request, i: nat)
    requires |rs| == |flags|
  {
    && InLastMinute(rs, flags, r, i)
    && forall j :: InLastMinute(rs, flags, r, j) ==> rs[i].now <= rs[j].now
  }

  /** The times kept for a client are those of its admitted requests. */
  lemma {:induction false} TimeHasRequest(rs: seq<Request>, flags: seq<bool>, ip: string, k: nat) returns (i: nat)
    requires |rs| == |flags| && k < |Times(rs, flags, ip)|
    ensures i < |rs| && flags[i] && rs[i].ip == ip && rs[i].now == Times(rs, flags, ip)[k]
  {
    var n := |rs| - 1;
    if k < |Times(rs[..n], flags[..n], ip)| {
      i := TimeHasRequest(rs[..n], flags[..n], ip, k);
    } else {
      i := n;
    }
  }

  lemma {:induction false} RequestHasTime(rs: seq<Request>, flags: seq<bool>, i: nat) returns (k: nat)
    requires |rs| == |flags| && i < |rs| && flags[i]
    ensures k < |Times(rs, flags, rs[i].ip)| && Times(rs, flags, rs[i].ip)[k] == rs[i].now
  {
    var n := |rs| - 1;
    if i < n {
      k := RequestHasTime(rs[..n], flags[..n], i);
    } else {
      k := |Times(rs[..n], flags[..n], rs[i].ip)|;
    }
  }

  lemma {:induction false} PrunedDropsOld(b: seq<real>, now: real, k: nat)
    requires k < |b| && now - b[k] <= WINDOW && Ascends(b)
    ensures Pruned(b, now) != [] && Pruned(b, now)[0] <= b[k] && now - Pruned(b, now)[0] <= WINDOW
    ensures exists i :: 0 <= i < |b| && Pruned(b, now)[0] == b[i]
  {
    if now - b[0] > WINDOW {
      PrunedDropsOld(b[1..], now, k - 1);
      var i :| 0 <= i < |b[1..]| && Pruned(b, now)[0] == b[1..][i];
      assert b[i + 1] == b[1..][i];
    }
  }

  lemma {:induction false} SomeoneCounts(rs: seq<Request>, flags: seq<bool>, ip: string, lo: real, hi: real)
    returns (i: nat)
    requires |rs| == |flags| && AdmittedIn(rs, flags, ip, false, lo, hi) > 0
    ensures i < |rs| && flags[i] && rs[i].ip == ip && lo <= rs[i].now <= hi
  {
    var n := |rs| - 1;
    if flags[n] && rs[n].ip == ip && lo <= rs[n].now <= hi {
      i := n;
    } else {
      i := SomeoneCounts(rs[..n], flags[..n], ip, lo, hi);
    }
  }

  /** The front of a pruned bucket is the oldest admission of the last minute. */
  lemma {:induction false} FrontIsOldest(c: Config, rs: seq<Request>, r: Request, some: nat) returns (i: nat)
    requires Ordered(rs) && AllBefore(rs, r.now) && InLastMinute(rs, Admissions(c, rs), r, some)
    ensures IsOldest(rs, Admissions(c, rs), r, i)
    ensures var b := Pruned(Bucket(BucketsAfter(c, rs), r.ip), r.now);
            b != [] && b[0] == rs[i].now
  {
    var flags := Admissions(c, rs);
    var times := Times(rs, flags, r.ip);
    BucketForgetsNothing(c, rs, r.ip, r.now);
    TimesAreSorted(rs, flags, r.ip, r.now);
    var k := RequestHasTime(rs, flags, some);
    PrunedDropsOld(times, r.now, k);
    var front :| 0 <= front < |times| && Pruned(times, r.now)[0] == times[front];
    i := TimeHasRequest(rs, flags, r.ip, front);
    forall j | InLastMinute(rs, flags, r, j) ensures rs[i].now <= rs[j].now {
      var k := RequestHasTime(rs, flags, j);
      PrunedDropsOld(times, r.now, k);
    }
  }

  /** The verdict on any request of any run, in the numbers of the settings and of
      the history alone: admitted when fewer than the limit were admitted in the
      closed minute before it, else refused until the oldest of these is a minute
      old, in whole seconds and at least one. */
  lemma {:induction false} VerdictIsExact(perMinute: int, burst: int, rs: seq<Request>, r: Request)
    requires Ordered(rs) && AllBefore(rs, r.now)
    ensures var c := FromEnv(perMinute, burst);
            var flags := Admissions(c, rs);
            var limit := if "/api/auth/" <= r.path then Max(10, Max(20, perMinute) / 4)
                         else Max(20, perMinute) + Max(0, burst);
            var v := Handle(c, BucketsAfter(c, rs), r).0;
            if AdmittedIn(rs, flags, r.ip, false, r.now - 60.0, r.now) < limit then v == Admitted
            else exists i: nat :: IsOldest(rs, flags, r, i) && v == Refused(Max(1, Trunc(60.0 - (r.now - rs[i].now))))
  {
    var c := FromEnv(perMinute, burst);
    var flags := Admissions(c, rs);
    BucketCountsLastMinute(c, rs, r.ip, r.now);
    if AdmittedIn(rs, flags, r.ip, false, r.now - 60.0, r.now) >= Limit(c, r.path) {
      var some := SomeoneCounts(rs, flags, r.ip, r.now - 60.0, r.now);
      var i := FrontIsOldest(c, rs, r, some);
    }
  }

  /** Handling a request leaves nothing in the client's bucket but the admissions of
      the last minute. */
  lemma {:induction false} BucketIsLastMinute(c: Config, rs: seq<Request>, r: Request)
    requires Ordered(rs) && AllBefore(rs, r.now)
    ensures |Bucket(BucketsAfter(c, rs + [r]), r.ip)|
            == AdmittedIn(rs + [r], Admissions(c, rs + [r]), r.ip, false, r.now - 60.0, r.now)
  {
    var n := |rs|;
    assert (rs + [r])[..n] == rs && Admissions(c, rs + [r])[..n] == Admissions(c, rs);
    BucketCountsLastMinute(c, rs, r.ip, r.now);
  }

  // ---- Clients are independent ----

  function Only(rs: seq<Request>, ip: string): seq<Request> {
    if rs == [] then []
    else
      var earlier := Only(rs[..|rs|-1], ip);
      if rs[|rs|-1].ip == ip then earlier + [rs[|rs|-1]] else earlier
  }

  lemma {:induction false} OwnBucket(c: Config, rs: seq<Request>, ip: string)
    ensures Bucket(BucketsAfter(c, rs), ip) == Bucket(BucketsAfter(c, Only(rs, ip)), ip)
  {
    if rs != [] {
      var n := |rs| - 1;
      OwnBucket(c, rs[..n], ip);
      var o := Only(rs[..n], ip);
      if rs[n].ip == ip {
        assert (o + [rs[n]])[..|o|] == o;
      }
    }
  }

  /** Every verdict a client gets depends on its own requests only. */
  lemma {:induction false} ClientsAreIndependent(c: Config, rs: seq<Request>, r: Request)
    ensures Handle(c, BucketsAfter(c, rs), r).0 == Handle(c, BucketsAfter(c, Only(rs, r.ip)), r).0
  {
    OwnBucket(c, rs, r.ip);
  }

  // ---- Retry-After ----

  lemma {:induction false} PrunedFront(b: seq<real>, now: real)
    ensures Pruned(b, now) != [] ==> now - Pruned(b, now)[0] <= WINDOW
  {
    if b != [] && now - b[0] > WINDOW { PrunedFront(b[1..], now); }
  }

  /** Whether a full bucket has room again at a later instant is decided by the
      entry that would have to leave. */
  lemma {:induction false} RoomLater(b: seq<real>, limit: nat, later: real)
    requires Ascends(b) && 1 <= limit <= |b|
    ensures |Pruned(b, later)| < limit <==> later - b[|b| - limit] > WINDOW
  {
    if later - b[0] > WINDOW {
      if limit == |b| {
        PrunedShrinks(b[1..], later);
      } else {
        RoomLater(b[1..], limit, later);
      }
    } else {
      assert b[0] <= b[|b| - limit];
    }
  }

  /** The header value is between 1 and 60.  Waiting one second more than it
      says always evicts the oldest entry.  Waiting exactly as long is enough if
      and only if the entry that has to leave -- the oldest one, when the bucket
      holds exactly `limit` entries -- is then over 60 seconds old; for a bucket
      of exactly `limit` that means it had less than a second left. */
  lemma RetryAfterMeaning(b: seq<real>, limit: nat, now: real)
    requires Ascends(b) && 1 <= limit <= |b|
    requires 0.0 <= now - b[0] <= WINDOW
    ensures Decide(b, limit, now).Refused?
    ensures var r := Decide(b, limit, now).retryAfter;
            && 1 <= r <= 60
            && |Pruned(b, now + r as real + 1.0)| < |b|
            && (|Pruned(b, now + r as real)| < limit <==> now + r as real - b[|b| - limit] > WINDOW)
            && (|b| == limit ==> |Pruned(b, now + r as real + 1.0)| < limit)
            && (|b| == limit ==> (|Pruned(b, now + r as real)| < limit <==> now - b[0] > 59.0))
  {
    var r := Decide(b, limit, now).retryAfter;
    RoomLater(b, limit, now + r as real);
    RoomLater(b, |b|, now + r as real + 1.0);
    PrunedFront(b, now);
  }

  lemma BucketIsSorted(c: Config, rs: seq<Request>, ip: string, now: real)
    requires Ordered(rs) && AllBefore(rs, now)
    ensures var b := Pruned(Bucket(BucketsAfter(c, rs), ip), now);
            Ascends(b) && forall i :: 0 <= i < |b| ==> b[i] <= now
  {
    var times := Times(rs, Admissions(c, rs), ip);
    BucketForgetsNothing(c, rs, ip, now);
    TimesAreSorted(rs, Admissions(c, rs), ip, now);
    PrunedShrinks(times, now);
  }

  /** For any refusal in any run: the same request sent at a later instant, with
      nothing of the client's in between, is admitted exactly when the entry that
      leaves room for it is by then over 60 seconds old. */
  lemma {:induction false} RetryAdmittedIff(c: Config, rs: seq<Request>, r: Request, later: real)
    requires Ordered(rs) && AllBefore(rs, r.now) && r.now <= later
    requires Handle(c, BucketsAfter(c, rs), r).0.Refused?
    ensures var m := Handle(c, BucketsAfter(c, rs), r).1;
            var b, limit := m[r.ip], Limit(c, r.path);
            Handle(c, m, r.(now := later)).0.Admitted? <==> 1 <= limit && later - b[|b| - limit] > WINDOW
  {
    var b := Pruned(Bucket(BucketsAfter(c, rs), r.ip), r.now);
    BucketIsSorted(c, rs, r.ip, r.now);
    if 1 <= Limit(c, r.path) { RoomLater(b, Limit(c, r.path), later); }
  }

  /** What the announced wait is worth, for any refusal in any run: waiting it
      and one second more evicts the oldest entry.  In a bucket that holds exactly
      the limit that is enough, and the announced wait alone is enough exactly
      when the oldest entry had less than a second left. */
  lemma {:induction false} RetryOnTime(c: Config, rs: seq<Request>, r: Request)
    requires Ordered(rs) && AllBefore(rs, r.now)
    requires Handle(c, BucketsAfter(c, rs), r).0.Refused?
    ensures var (v, m) := Handle(c, BucketsAfter(c, rs), r);
            var b, limit := m[r.ip], Limit(c, r.path);
            var onTime := r.(now := r.now + v.retryAfter as real);
            var after := onTime.(now := onTime.now + 1.0);
            && 1 <= v.retryAfter <= 60
            && |Pruned(b, after.now)| < |b|
            && (Handle(c, m, onTime).0.Admitted? <==> 1 <= limit && onTime.now - b[|b| - limit] > WINDOW)
            && (|b| == limit ==> Handle(c, m, after).0.Admitted?)
            && (|b| == limit ==> (Handle(c, m, onTime).0.Admitted? <==> r.now - b[0] > 59.0))
  {
    hide Limit;
    var (v, m) := Handle(c, BucketsAfter(c, rs), r);
    var b := Pruned(Bucket(BucketsAfter(c, rs), r.ip), r.now);
    BucketIsSorted(c, rs, r.ip, r.now);
    PrunedFront(Bucket(BucketsAfter(c, rs), r.ip), r.now);
    RetryAfterMeaning(b, |b|, r.now);
    RetryAdmittedIff(c, rs, r, r.now + v.retryAfter as real);
  }

  // ---- Refusals that come too early, under every configuration ----

  function Burst(r: Request, k: nat): seq<Request> {
    if k == 0 then [] else Burst(r, k - 1) + [r]
  }

  function Repeated(t: real, k: nat): (b: seq<real>)
    ensures |b| == k && forall i :: 0 <= i < k ==> b[i] == t
  {
    seq(k, _ => t)
  }

  lemma OneMore(c: Config, rs: seq<Request>, r: Request)
    requires var b := Bucket(BucketsAfter(c, rs), r.ip);
             |b| < Limit(c, r.path) && (b == [] || r.now - b[0] <= WINDOW)
    ensures Bucket(BucketsAfter(c, rs + [r]), r.ip) == Bucket(BucketsAfter(c, rs), r.ip) + [r.now]
  {
    hide Limit;
    assert (rs + [r])[..|rs|] == rs;
  }

  /** Equal requests fill the bucket up to their limit while nothing leaves it. */
  lemma {:induction false} BurstFills(c: Config, rs: seq<Request>, r: Request, k: nat)
    requires var b := Bucket(BucketsAfter(c, rs), r.ip);
             |b| + k <= Limit(c, r.path) && (b == [] || r.now - b[0] <= WINDOW)
    ensures Bucket(BucketsAfter(c, rs + Burst(r, k)), r.ip)
            == Bucket(BucketsAfter(c, rs), r.ip) + Repeated(r.now, k)
  {
    hide Limit, Bucket, BucketsAfter;
    if k == 0 {
      assert rs + Burst(r, 0) == rs;
    } else {
      BurstFills(c, rs, r, k - 1);
      OneMore(c, rs + Burst(r, k - 1), r);
      assert rs + Burst(r, k) == rs + Burst(r, k - 1) + [r];
      assert Repeated(r.now, k) == Repeated(r.now, k - 1) + [r.now];
    }
  }

  lemma {:induction false} BurstInOrder(rs: seq<Request>, r: Request, k: nat)
    requires Ordered(rs) && AllBefore(rs, r.now)
    ensures Ordered(rs + Burst(r, k)) && AllBefore(rs + Burst(r, k), r.now)
  {
    if k > 0 {
      BurstInOrder(rs, r, k - 1);
      assert rs + Burst(r, k) == (rs + Burst(r, k - 1)) + [r];
    } else {
      assert rs + Burst(r, 0) == rs;
    }
  }

  lemma FirstBurst(c: Config, r: Request, k: nat)
    requires k <= Limit(c, r.path)
    ensures Bucket(BucketsAfter(c, Burst(r, k)), r.ip) == Repeated(r.now, k)
    ensures Ordered(Burst(r, k)) && AllBefore(Burst(r, k), r.now)
  {
    BurstFills(c, [], r, k);
    BurstInOrder([], r, k);
    assert [] + Burst(r, k) == Burst(r, k) && [] + Repeated(r.now, k) == Repeated(r.now, k);
  }

  /** A client that uses up its limit in an instant and asks again a second later
      is told to wait 59 seconds, does so, and is refused once more. */
  lemma RetryOnTimeRefused(c: Config, ip: string, path: string)
    requires 1 <= Limit(c, path)
    ensures var rs := Burst(Request(0.0, ip, path), Limit(c, path));
            var (v, m) := Handle(c, BucketsAfter(c, rs), Request(1.0, ip, path));
            v == Refused(59) && Handle(c, m, Request(60.0, ip, path)).0 == Refused(1)
  {
    FirstBurst(c, Request(0.0, ip, path), Limit(c, path));
  }

  lemma TwoBursts(c: Config, a: Request, b: Request, k: nat)
    requires a.ip == b.ip && a.now <= b.now <= a.now + WINDOW && 2 * k <= Limit(c, a.path) <= Limit(c, b.path)
    ensures Bucket(BucketsAfter(c, Burst(a, k) + Burst(b, k)), a.ip) == Repeated(a.now, k) + Repeated(b.now, k)
    ensures Ordered(Burst(a, k) + Burst(b, k)) && AllBefore(Burst(a, k) + Burst(b, k), b.now)
  {
    hide Limit, Bucket, BucketsAfter, Burst;
    FirstBurst(c, a, k);
    BurstFills(c, Burst(a, k), b, k);
    BurstInOrder(Burst(a, k), b, k);
  }

  /** Behind general traffic even a second more is not enough: under every
      configuration of the service, an authentication request is told to wait 29
      seconds and goes on being refused for 59. */
  lemma SharedBucketRefusedLonger(perMinute: int, burst: int, ip: string, general: string, auth: string, later: real)
    requires !IsAuth(general) && IsAuth(auth) && 31.0 <= later <= 90.0
    ensures var c := FromEnv(perMinute, burst);
            var k := AuthLimit(c);
            var rs := Burst(Request(0.0, ip, general), k) + Burst(Request(30.0, ip, general), k);
            var (v, m) := Handle(c, BucketsAfter(c, rs), Request(31.0, ip, auth));
            v == Refused(29) && !Handle(c, m, Request(later, ip, auth)).0.Admitted?
  {
    hide IsAuth, BucketsAfter, Burst;
    var c := FromEnv(perMinute, burst);
    var k := AuthLimit(c);
    var a, b := Request(0.0, ip, general), Request(30.0, ip, general);
    TwoBursts(c, a, b, k);
    RetryAdmittedIff(c, Burst(a, k) + Burst(b, k), Request(31.0, ip, auth), later);
  }
}

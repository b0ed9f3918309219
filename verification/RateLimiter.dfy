/** The fixed-window request limiter that the HTTP server puts in front of everything. */
module RateLimiter {
  import opened MailTypes

  type ClientKey = string

  datatype Bucket = Bucket(count: nat, resetAt: Time)

  datatype Request = Request(key: ClientKey, now: Time)

  datatype Config = Config(windowMs: int, maxRequests: nat)

  function BucketFor(c: Config, buckets: map<ClientKey, Bucket>, r: Request): Bucket {
    if r.key !in buckets || buckets[r.key].resetAt <= r.now
    then Bucket(1, r.now + c.windowMs)
    else buckets[r.key].(count := buckets[r.key].count + 1)
  }

  function Counted(c: Config, buckets: map<ClientKey, Bucket>, r: Request): map<ClientKey, Bucket> {
    buckets[r.key := BucketFor(c, buckets, r)]
  }

  predicate Accepts(c: Config, buckets: map<ClientKey, Bucket>, r: Request) {
    BucketFor(c, buckets, r).count <= c.maxRequests
  }

  function Remaining(c: Config, b: Bucket): nat {
    if b.count <= c.maxRequests then c.maxRequests - b.count else 0
  }

  class Limiter {
    const config: Config
    var buckets: map<ClientKey, Bucket>

    constructor (windowMs: int, maxRequests: nat)
      ensures config == Config(windowMs, maxRequests) && buckets == map[]
    {
      config, buckets := Config(windowMs, maxRequests), map[];
    }

    /** `remaining` is the advertised RateLimit-Remaining; a refused request still counts. */
    method Handle(key: ClientKey, now: Time) returns (accepted: bool, remaining: nat)
      modifies this
      ensures buckets == Counted(config, old(buckets), Request(key, now))
      ensures accepted == Accepts(config, old(buckets), Request(key, now))
      ensures remaining == Remaining(config, buckets[key])
    {
      var bucket := Bucket(0, now + config.windowMs);
      if key in buckets && now < buckets[key].resetAt {
        bucket := buckets[key];
      }
      bucket := bucket.(count := bucket.count + 1);
      buckets := buckets[key := bucket];
      remaining := if bucket.count < config.maxRequests then config.maxRequests - bucket.count else 0;
      accepted := bucket.count <= config.maxRequests;
    }
  }

  function After(c: Config, buckets: map<ClientKey, Bucket>, run: seq<Request>): map<ClientKey, Bucket> {
    if run == [] then buckets
    else
      var n := |run| - 1;
      Counted(c, After(c, buckets, run[..n]), run[n])
  }

  /** How many of `key`'s requests in the closed interval from `lo` to `hi` the run lets through. */
  function AcceptedWithin(
    c: Config, buckets: map<ClientKey, Bucket>, run: seq<Request>, key: ClientKey, lo: Time, hi: Time): nat
  {
    if run == [] then 0
    else
      var n := |run| - 1;
      AcceptedWithin(c, buckets, run[..n], key, lo, hi) +
      if run[n].key == key && lo <= run[n].now <= hi && Accepts(c, After(c, buckets, run[..n]), run[n]) then 1 else 0
  }

  predicate Monotone(run: seq<Request>) {
    forall i, j :: 0 <= i < j < |run| ==> run[i].now <= run[j].now
  }

  function AtMost(a: nat, b: nat): nat {
    if a <= b then a else b
  }

  /** What the current bucket says about an interval starting at `lo`: a bucket opened before the interval
      accounts for all of it, a bucket opened inside it has at most one predecessor there. */
  ghost predicate BucketBounds(c: Config, bucket: Option<Bucket>, lo: Time, accepted: nat) {
    match bucket
    case None => accepted == 0
    case Some(b) =>
      var start := b.resetAt - c.windowMs;
      && (b.resetAt <= lo ==> accepted == 0)
      && (start <= lo ==> accepted <= AtMost(b.count, c.maxRequests))
      && (lo < start <= lo + c.windowMs ==> accepted <= c.maxRequests + AtMost(b.count, c.maxRequests))
      && accepted <= 2 * c.maxRequests
  }

  function BucketOf(buckets: map<ClientKey, Bucket>, key: ClientKey): Option<Bucket> {
    if key in buckets then Some(buckets[key]) else None
  }

  lemma {:induction false} BoundsHold(c: Config, run: seq<Request>, key: ClientKey, lo: Time)
    requires c.windowMs > 0 && Monotone(run)
    ensures BucketBounds(c, BucketOf(After(c, map[], run), key), lo,
                         AcceptedWithin(c, map[], run, key, lo, lo + c.windowMs))
    ensures key in After(c, map[], run) ==>
              run != [] && After(c, map[], run)[key].resetAt <= run[|run| - 1].now + c.windowMs
  {
    if run != [] {
      BoundsHold(c, run[..|run| - 1], key, lo);
    }
  }

  /** The bound the limiter really gives: twice the configured number in any closed interval of one window. */
  lemma TwiceTheLimit(c: Config, run: seq<Request>, key: ClientKey, lo: Time)
    requires c.windowMs > 0 && Monotone(run)
    ensures AcceptedWithin(c, map[], run, key, lo, lo + c.windowMs) <= 2 * c.maxRequests
  {
    BoundsHold(c, run, key, lo);
  }

  predicate EndsBy(run: seq<Request>, now: Time) {
    forall r <- run :: r.now <= now
  }

  lemma AppendKeepsOrder(run: seq<Request>, r: Request)
    requires Monotone(run) && EndsBy(run, r.now)
    ensures Monotone(run + [r]) && EndsBy(run + [r], r.now)
  {
  }

  /** The bucket after `n` requests at one moment, when the client's earlier bucket was `before`. */
  function Opened(c: Config, before: Option<Bucket>, now: Time, n: nat): Option<Bucket> {
    if n == 0 then before else Some(Bucket(n, now + c.windowMs))
  }

  predicate Idle(bucket: Option<Bucket>, now: Time) {
    bucket.Some? ==> bucket.value.resetAt <= now
  }

  lemma OneMore(c: Config, run: seq<Request>, r: Request, before: Option<Bucket>, n: nat, lo: Time, hi: Time)
    requires c.windowMs > 0 && n < c.maxRequests && lo <= r.now <= hi && Idle(before, r.now)
    requires BucketOf(After(c, map[], run), r.key) == Opened(c, before, r.now, n)
    ensures BucketOf(After(c, map[], run + [r]), r.key) == Opened(c, before, r.now, n + 1)
    ensures AcceptedWithin(c, map[], run + [r], r.key, lo, hi) == AcceptedWithin(c, map[], run, r.key, lo, hi) + 1
  {
    assert (run + [r])[..|run|] == run;
  }

  /** An idle client can send `n` requests at one moment and have all of them accepted. */
  lemma {:induction false} Burst(
    c: Config, run: seq<Request>, key: ClientKey, now: Time, n: nat, lo: Time, hi: Time) returns (full: seq<Request>)
    requires c.windowMs > 0 && n <= c.maxRequests && lo <= now <= hi
    requires Monotone(run) && EndsBy(run, now) && Idle(BucketOf(After(c, map[], run), key), now)
    ensures Monotone(full) && EndsBy(full, now)
    ensures AcceptedWithin(c, map[], full, key, lo, hi) == AcceptedWithin(c, map[], run, key, lo, hi) + n
    ensures BucketOf(After(c, map[], full), key) == Opened(c, BucketOf(After(c, map[], run), key), now, n)
  {
    if n == 0 {
      full := run;
    } else {
      var most := Burst(c, run, key, now, n - 1, lo, hi);
      AppendKeepsOrder(most, Request(key, now));
      OneMore(c, most, Request(key, now), BucketOf(After(c, map[], run), key), n - 1, lo, hi);
      full := most + [Request(key, now)];
    }
  }

  /** The factor two is attained, for every configuration: no smaller bound is true. */
  lemma TwiceIsAttained(c: Config, key: ClientKey)
    requires c.windowMs > 0
    ensures exists run ::
              Monotone(run) && AcceptedWithin(c, map[], run, key, 0, c.windowMs) == 2 * c.maxRequests
  {
    var first := Burst(c, [], key, 0, c.maxRequests, 0, c.windowMs);
    var both := Burst(c, first, key, c.windowMs, c.maxRequests, 0, c.windowMs);
  }

  /** The requests of one client, in order. */
  function Only(run: seq<Request>, key: ClientKey): seq<Request> {
    if run == [] then []
    else
      var n := |run| - 1;
      Only(run[..n], key) + if run[n].key == key then [run[n]] else []
  }

  /** Other clients' traffic never changes what a client is allowed. */
  lemma {:induction false} ClientsAreIndependent(
    c: Config, buckets: map<ClientKey, Bucket>, run: seq<Request>, key: ClientKey, lo: Time, hi: Time)
    ensures BucketOf(After(c, buckets, run), key) == BucketOf(After(c, buckets, Only(run, key)), key)
    ensures AcceptedWithin(c, buckets, run, key, lo, hi) == AcceptedWithin(c, buckets, Only(run, key), key, lo, hi)
  {
    if run != [] {
      var n := |run| - 1;
      ClientsAreIndependent(c, buckets, run[..n], key, lo, hi);
      var own := Only(run, key);
      if run[n].key == key {
        assert own[..|own| - 1] == Only(run[..n], key);
      } else {
        assert own == Only(run[..n], key);
      }
    }
  }

  /** RateLimit-Remaining is honest: of a client's further requests before the bucket resets,
      exactly that many are accepted, however many it sends and whatever other clients do. */
  lemma {:induction false} RemainingIsHonest(
    c: Config, buckets: map<ClientKey, Bucket>, run: seq<Request>, key: ClientKey, lo: Time)
    requires key in buckets
    requires forall i :: 0 <= i < |run| && run[i].key == key ==> lo <= run[i].now < buckets[key].resetAt
    ensures AcceptedWithin(c, buckets, run, key, lo, buckets[key].resetAt)
            == AtMost(|Only(run, key)|, Remaining(c, buckets[key]))
    ensures BucketOf(After(c, buckets, run), key)
            == Some(buckets[key].(count := buckets[key].count + |Only(run, key)|))
  {
    if run != [] {
      RemainingIsHonest(c, buckets, run[..|run| - 1], key, lo);
    }
  }
}

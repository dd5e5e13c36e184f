/** The fixed-window limiter: RateLimitMiddleware in services/gateway/app/middleware.py. */
module RateLimit {
  import opened Integers

  /** A limited request: who, and the clock reading in seconds. */
  datatype Request = Request(client: string, time: real)

  /** int(time) // window */
  function Bucket(time: real, window: int): int
    requires window > 0
  {
    time.Floor / window
  }

  /** Requests of one client in one bucket. */
  function Requests(trace: seq<Request>, client: string, bucket: int, window: int): nat
    requires window > 0
  {
    if trace == [] then 0
    else
      var last := trace[|trace| - 1];
      Requests(trace[..|trace| - 1], client, bucket, window)
      + if last.client == client && Bucket(last.time, window) == bucket then 1 else 0
  }

  /** Whether the next request passes after a trace: it is among the first `limit` of its client
      in its bucket. */
  predicate Passes(trace: seq<Request>, r: Request, limit: int, window: int)
    requires window > 0
  {
    Requests(trace, r.client, Bucket(r.time, window), window) + 1 <= limit
  }

  // ---- The middleware over its Redis keys ------------------------------------------------------

  datatype Counter = Counter(count: nat, expiresAt: real)

  /** The end of a bucket on the clock. */
  function BucketEnd(bucket: int, window: int): int {
    (bucket + 1) * window
  }

  /** A time lies before the end of its own bucket and not before its start. */
  lemma BucketHoldsTime(time: real, window: int)
    requires window > 0
    ensures (Bucket(time, window) * window) as real <= time < BucketEnd(Bucket(time, window), window) as real
  {
  }

  class RateLimiter {
    const limit: int
    const window: int
    var keys: map<(string, int), Counter>
    var clock: real
    ghost var trace: seq<Request>

    /** The key of every bucket that has not ended holds the number of its requests and lives
        at least to the end of the bucket; keys of ended buckets may be gone. */
    ghost predicate Valid()
      reads this
    {
      && window > 0
      && forall client, bucket :: clock < BucketEnd(bucket, window) as real ==>
           KeyMatches(keys, client, bucket, Requests(trace, client, bucket, window), window)
    }

    constructor (limit: int, window: int)
      ensures Valid() && this.limit == limit && this.window == (if window < 1 then 1 else window)
      ensures trace == [] && clock == 0.0
    {
      this.limit := limit;
      this.window := if window < 1 then 1 else window;
      keys, clock, trace := map[], 0.0, [];
    }

    /** INCR, then EXPIRE on the first count, then the comparison with the limit. */
    method Call(client: string, now: real) returns (pass: bool)
      requires Valid() && clock <= now
      modifies this
      ensures Valid()
      ensures trace == old(trace) + [Request(client, now)] && clock == now
      ensures pass <==> Passes(old(trace), Request(client, now), limit, window)
    {
      hide KeyMatches, Requests, Bucket, BucketEnd;
      var bucket := Bucket(now, window);
      BucketHoldsTime(now, window);
      var key := (client, bucket);
      var live := key in keys && now < keys[key].expiresAt;
      KeyIsLive(keys, client, bucket, Requests(trace, client, bucket, window), window, now);
      var count := if live then keys[key].count + 1 else 1;
      var expiresAt := if count == 1 then now + window as real else keys[key].expiresAt;
      FirstCountSets(keys, client, bucket, Requests(trace, client, bucket, window), window, now);
      ghost var before := keys;
      keys := keys[key := Counter(count, expiresAt)];
      forall c, b | now < BucketEnd(b, window) as real
        ensures KeyMatches(keys, c, b, Requests(trace + [Request(client, now)], c, b, window), window)
      {
        RequestsAppend(trace, Request(client, now), c, b, window);
        if (c, b) != key { OtherKeysMatch(before, keys, key, c, b, Requests(trace, c, b, window), window); }
      }
      trace := trace + [Request(client, now)];
      clock := now;
      pass := !(count > limit);
    }

    /** Redis drops a key whose expiry has passed. */
    method Expire(key: (string, int), now: real)
      requires Valid() && clock <= now && key in keys && keys[key].expiresAt <= now
      modifies this
      ensures Valid() && trace == old(trace) && clock == now && keys == old(keys) - {key}
    {
      hide Requests;
      ghost var before := keys;
      keys := keys - {key};
      clock := now;
      forall client, bucket | now < BucketEnd(bucket, window) as real
        ensures KeyMatches(keys, client, bucket, Requests(trace, client, bucket, window), window)
      {
        assert KeyMatches(before, client, bucket, Requests(trace, client, bucket, window), window);
      }
    }
  }

  ghost predicate KeyMatches(keys: map<(string, int), Counter>, client: string, bucket: int, requests: nat, window: int) {
    if requests == 0 then (client, bucket) !in keys
    else
      && (client, bucket) in keys
      && keys[(client, bucket)].count == requests
      && BucketEnd(bucket, window) as real <= keys[(client, bucket)].expiresAt
  }

  /** A key is never looked up after its expiry: that falls after its bucket. */
  lemma KeyIsLive(keys: map<(string, int), Counter>, client: string, bucket: int, requests: nat, window: int, now: real)
    requires KeyMatches(keys, client, bucket, requests, window)
    requires now < BucketEnd(bucket, window) as real
    ensures var live := (client, bucket) in keys && now < keys[(client, bucket)].expiresAt;
            if live then keys[(client, bucket)].count == requests else requests == 0
  {
  }

  /** The counter written back matches the trace with the request added. */
  lemma FirstCountSets(keys: map<(string, int), Counter>, client: string, bucket: int, requests: nat, window: int, now: real)
    requires window > 0 && KeyMatches(keys, client, bucket, requests, window)
    requires (bucket * window) as real <= now < BucketEnd(bucket, window) as real
    ensures requests > 0 ==> (client, bucket) in keys
    ensures var expiresAt := if requests == 0 then now + window as real else keys[(client, bucket)].expiresAt;
            KeyMatches(keys[(client, bucket) := Counter(requests + 1, expiresAt)], client, bucket, requests + 1, window)
  {
  }

  lemma OtherKeysMatch(before: map<(string, int), Counter>, after: map<(string, int), Counter>, key: (string, int),
                       client: string, bucket: int, requests: nat, window: int)
    requires key in after && after == before[key := after[key]] && (client, bucket) != key
    ensures KeyMatches(before, client, bucket, requests, window) ==> KeyMatches(after, client, bucket, requests, window)
  {
  }

  lemma RequestsAppend(trace: seq<Request>, r: Request, client: string, bucket: int, window: int)
    requires window > 0
    ensures Requests(trace + [r], client, bucket, window)
            == Requests(trace, client, bucket, window)
               + if r.client == client && Bucket(r.time, window) == bucket then 1 else 0
  {
  }

  // ---- Bounds over whole traces ------------------------------------------------------------------

  /** Requests of one client that passed in one bucket. */
  function PassedInBucket(trace: seq<Request>, client: string, bucket: int, limit: int, window: int): nat
    requires window > 0
  {
    if trace == [] then 0
    else
      var init, last := trace[..|trace| - 1], trace[|trace| - 1];
      PassedInBucket(init, client, bucket, limit, window)
      + if last.client == client && Bucket(last.time, window) == bucket && Passes(init, last, limit, window) then 1 else 0
  }

  /** Requests of one client that passed in the half-open interval [from, from + window). */
  function PassedSince(trace: seq<Request>, client: string, from: real, limit: int, window: int): nat
    requires window > 0
  {
    if trace == [] then 0
    else
      var init, last := trace[..|trace| - 1], trace[|trace| - 1];
      PassedSince(init, client, from, limit, window)
      + if last.client == client && from <= last.time < from + window as real && Passes(init, last, limit, window) then 1 else 0
  }

  /** In each bucket the first `limit` requests of a client pass, and no others. */
  lemma {:induction false} BucketBound(trace: seq<Request>, client: string, bucket: int, limit: int, window: int)
    requires window > 0
    ensures PassedInBucket(trace, client, bucket, limit, window)
            == var requests := Requests(trace, client, bucket, window);
               if limit <= 0 then 0 else if requests <= limit then requests else limit
  {
    hide Bucket;
    if trace != [] {
      BucketBound(trace[..|trace| - 1], client, bucket, limit, window);
    }
  }

  /** An interval of one window length touches two buckets at most. */
  lemma TwoBuckets(from: real, time: real, window: int)
    requires window > 0 && from <= time < from + window as real
    ensures Bucket(time, window) == Bucket(from, window) || Bucket(time, window) == Bucket(from, window) + 1
  {
    var b := Bucket(from, window);
    var r := time.Floor - b * window;
    assert from.Floor == b * window + from.Floor % window;
    assert from.Floor <= time.Floor <= from.Floor + window;
    if r < window {
      DivModUnique(time.Floor, window, b, r);
    } else {
      assert (b + 1) * window == b * window + window;
      DivModUnique(time.Floor, window, b + 1, r - window);
    }
  }

  lemma {:induction false} SinceCovered(trace: seq<Request>, client: string, from: real, limit: int, window: int)
    requires window > 0
    ensures PassedSince(trace, client, from, limit, window)
            <= PassedInBucket(trace, client, Bucket(from, window), limit, window)
               + PassedInBucket(trace, client, Bucket(from, window) + 1, limit, window)
  {
    hide Bucket, Passes;
    if trace != [] {
      var last := trace[|trace| - 1];
      SinceCovered(trace[..|trace| - 1], client, from, limit, window);
      if from <= last.time < from + window as real { TwoBuckets(from, last.time, window); }
    }
  }

  /** No client passes more than 2 * limit requests in any interval of one window length. */
  lemma SlidingBound(trace: seq<Request>, client: string, from: real, limit: nat, window: int)
    requires window > 0
    ensures PassedSince(trace, client, from, limit, window) <= 2 * limit
  {
    hide Bucket, PassedSince, PassedInBucket;
    SinceCovered(trace, client, from, limit, window);
    BucketBound(trace, client, Bucket(from, window), limit, window);
    BucketBound(trace, client, Bucket(from, window) + 1, limit, window);
  }

  /** The factor two is reached: with a limit of 1 a minute, requests one second apart pass on
      both sides of the boundary. */
  lemma BoundaryBurst()
    ensures PassedSince([Request("c", 59.0), Request("c", 60.0)], "c", 59.0, 1, 60) == 2
  {
    var first, second := Request("c", 59.0), Request("c", 60.0);
    var trace := [first, second];
    assert trace[..1] == [first] && [first][..0] == [];
    assert Bucket(59.0, 60) == 0 && Bucket(60.0, 60) == 1;
    assert Requests([first], "c", 1, 60) == 0;
    assert Requests([], "c", 0, 60) == 0;
    assert Passes([], first, 1, 60) && Passes([first], second, 1, 60);
    assert PassedSince([first], "c", 59.0, 1, 60) == 1;
  }
}

/**
 The per-address limiter: a table of token buckets, each created on the first request of
 its key, allowing a number of requests per minute.
 */
module RateLimits {
  import opened Common
  import K = KeyedRuns
  import T = TokenBuckets

  /** The two clock readings of a request: one if its bucket must be created, one when it is tried. */
  datatype Reading = Reading(created: real, now: real)

  type Limiter = (Option<T.Bucket>, Reading) -> (T.Bucket, bool)

  function TryBucket(max: real, rate: real, state: Option<T.Bucket>, r: Reading): (T.Bucket, bool) {
    T.Allow(if state.Some? then state.value else T.NewBucket(max, rate, r.created), r.now)
  }

  function PerMinute(requestsPerMinute: int): Limiter {
    var max := requestsPerMinute as real;
    (state: Option<T.Bucket>, r: Reading) => TryBucket(max, max / 60.0, state, r)
  }

  /** The clock never goes back from one request of a key to the next. */
  predicate Monotonic(readings: seq<Reading>) {
    && (forall i :: 0 <= i < |readings| ==> readings[i].created <= readings[i].now)
    && (forall i, j :: 0 <= i < j < |readings| ==> readings[i].now <= readings[j].now)
  }

  function Nows(readings: seq<Reading>): seq<real> {
    seq(|readings|, i requires 0 <= i < |readings| => readings[i].now)
  }

  lemma {:induction false} OneKeyIsOneBucket(requestsPerMinute: int, readings: seq<Reading>)
    requires readings != []
    ensures var max := requestsPerMinute as real;
      var b := T.NewBucket(max, max / 60.0, readings[0].created);
      && K.StateAfter(None, readings, PerMinute(requestsPerMinute)) == Some(T.After(b, Nows(readings)))
      && K.Outputs(None, readings, PerMinute(requestsPerMinute)) == T.Decisions(b, Nows(readings))
  {
    var init := readings[..|readings| - 1];
    assert Nows(readings)[..|init|] == Nows(init);
    if init == [] {
      assert Nows(init) == [];
    } else {
      OneKeyIsOneBucket(requestsPerMinute, init);
    }
  }

  /** Whatever the other keys do, a key is answered as one fresh bucket answers its own requests. */
  lemma LimiterIsOneBucketPerKey(requestsPerMinute: int, requests: seq<K.Request<Reading>>, key: string)
    requires K.Inputs(requests, key) != []
    ensures var readings := K.Inputs(requests, key);
      var max := requestsPerMinute as real;
      K.Answers(map[], requests, PerMinute(requestsPerMinute), key)
        == T.Decisions(T.NewBucket(max, max / 60.0, readings[0].created), Nows(readings))
  {
    K.KeysAreIndependent(map[], requests, PerMinute(requestsPerMinute), key);
    OneKeyIsOneBucket(requestsPerMinute, K.Inputs(requests, key));
  }

  /**
   Whatever the other keys do, in any window no longer than `t` seconds a key is admitted at most
   requestsPerMinute + t * requestsPerMinute / 60 times.
   */
  lemma LimiterWindowBound(
    requestsPerMinute: nat, requests: seq<K.Request<Reading>>, key: string, i: nat, j: nat, t: real)
    requires Monotonic(K.Inputs(requests, key))
    requires i < j <= |K.Inputs(requests, key)|
    requires K.Inputs(requests, key)[j - 1].now - K.Inputs(requests, key)[i].now <= t
    ensures var answers := K.Answers(map[], requests, PerMinute(requestsPerMinute), key);
      && |answers| == |K.Inputs(requests, key)|
      && T.Admitted(answers[i..j]) as real
         <= requestsPerMinute as real + T.PerSecond(requestsPerMinute as real / 60.0)(t)
  {
    var readings := K.Inputs(requests, key);
    LimiterIsOneBucketPerKey(requestsPerMinute, requests, key);
    T.FreshWindowBound(
      requestsPerMinute as real, requestsPerMinute as real / 60.0, readings[0].created, Nows(readings), i, j, t);
  }

  /** Whatever the other keys do, a key that leaves 60 / requestsPerMinute seconds before a request is served. */
  lemma LimiterServesPatientKeys(requestsPerMinute: nat, requests: seq<K.Request<Reading>>, key: string, i: nat)
    requires requestsPerMinute >= 1 && Monotonic(K.Inputs(requests, key))
    requires 0 < i < |K.Inputs(requests, key)|
    requires K.Inputs(requests, key)[i].now - K.Inputs(requests, key)[i - 1].now
          >= 1.0 / (requestsPerMinute as real / 60.0)
    ensures var answers := K.Answers(map[], requests, PerMinute(requestsPerMinute), key);
      |answers| == |K.Inputs(requests, key)| && answers[i]
  {
    var readings := K.Inputs(requests, key);
    LimiterIsOneBucketPerKey(requestsPerMinute, requests, key);
    T.FreshPatientRequest(
      requestsPerMinute as real, requestsPerMinute as real / 60.0, readings[0].created, Nows(readings), i);
  }

  /** Whatever the other keys do, a key's first `requestsPerMinute` requests are served, however fast they come. */
  lemma LimiterServesFirst(requestsPerMinute: nat, requests: seq<K.Request<Reading>>, key: string, i: nat)
    requires Monotonic(K.Inputs(requests, key)) && i < |K.Inputs(requests, key)| && i < requestsPerMinute
    ensures var answers := K.Answers(map[], requests, PerMinute(requestsPerMinute), key);
      |answers| == |K.Inputs(requests, key)| && answers[i]
  {
    var readings := K.Inputs(requests, key);
    LimiterIsOneBucketPerKey(requestsPerMinute, requests, key);
    T.FreshBucketServesFirst(
      requestsPerMinute as real, requestsPerMinute as real / 60.0, readings[0].created, Nows(readings), i);
  }

  /** A limit below one request per minute, which a configuration may hold, admits nothing. */
  lemma NoAllowanceAdmitsNothing(requestsPerMinute: int, requests: seq<K.Request<Reading>>, key: string)
    requires requestsPerMinute < 1
    ensures T.Admitted(K.Answers(map[], requests, PerMinute(requestsPerMinute), key)) == 0
  {
    var readings := K.Inputs(requests, key);
    if readings == [] {
      K.KeysAreIndependent(map[], requests, PerMinute(requestsPerMinute), key);
    } else {
      var max := requestsPerMinute as real;
      LimiterIsOneBucketPerKey(requestsPerMinute, requests, key);
      T.TooSmallAdmitsNothing(T.NewBucket(max, max / 60.0, readings[0].created), Nows(readings));
    }
  }

  class TokenBucket {
    var tokens: real
    var lastRefill: real
    const maxTokens: real
    const refillRate: real

    ghost function Model(): T.Bucket
      reads this
    {
      T.Bucket(tokens, maxTokens, T.PerSecond(refillRate), lastRefill)
    }

    constructor (maxTokens: real, refillRate: real, now: real)
      ensures this.maxTokens == maxTokens && this.refillRate == refillRate
      ensures Model() == T.NewBucket(maxTokens, refillRate, now)
    {
      this.tokens := maxTokens;
      this.maxTokens := maxTokens;
      this.refillRate := refillRate;
      this.lastRefill := now;
    }

    method Allow(now: real) returns (ok: bool)
      modifies this
      ensures (Model(), ok) == T.Allow(old(Model()), now)
    {
      var elapsed := now - lastRefill;
      assert T.PerSecond(refillRate)(elapsed) == elapsed * refillRate;
      tokens := T.Min(maxTokens, tokens + elapsed * refillRate);
      lastRefill := now;
      if tokens >= 1.0 {
        tokens := tokens - 1.0;
        return true;
      }
      return false;
    }
  }

  class RateLimiter {
    var buckets: map<string, TokenBucket>
    const requestsPerMinute: int

    ghost function Table(): map<string, T.Bucket>
      reads this, buckets.Values
    {
      map k | k in buckets :: buckets[k].Model()
    }

    /** Every key has a bucket of its own, with the limiter's capacity and rate. */
    ghost predicate Valid()
      reads this
    {
      && (forall k :: k in buckets ==>
            && buckets[k].maxTokens == requestsPerMinute as real
            && buckets[k].refillRate == requestsPerMinute as real / 60.0)
      && (forall k, l :: k in buckets && l in buckets && k != l ==> buckets[k] != buckets[l])
    }

    constructor (requestsPerMinute: int)
      ensures Valid() && Table() == map[] && this.requestsPerMinute == requestsPerMinute
    {
      this.requestsPerMinute := requestsPerMinute;
      buckets := map[];
    }

    ghost function BucketBefore(state: Option<T.Bucket>, now: real): T.Bucket {
      if state.Some? then state.value
      else T.NewBucket(requestsPerMinute as real, requestsPerMinute as real / 60.0, now)
    }

    method BucketOf(key: string, now: real) returns (b: TokenBucket)
      requires Valid()
      modifies this
      ensures Valid() && key in buckets && b == buckets[key]
      ensures b in old(buckets.Values) || fresh(b)
      ensures b.Model() == BucketBefore(K.Lookup(old(Table()), key), now)
      ensures Table() == old(Table())[key := b.Model()]
    {
      if key in buckets {
        b := buckets[key];
      } else {
        b := new TokenBucket(requestsPerMinute as real, requestsPerMinute as real / 60.0, now);
        buckets := buckets[key := b];
      }
    }

    /** One request: exactly the limiter's step for its key, and no other bucket changes. */
    method Check(key: string, r: Reading) returns (ok: bool)
      requires Valid()
      modifies this, buckets.Values
      ensures Valid()
      ensures key in Table() && Table() == old(Table())[key := Table()[key]]
      ensures (Table()[key], ok) == PerMinute(requestsPerMinute)(K.Lookup(old(Table()), key), r)
    {
      var b := BucketOf(key, r.created);
      ghost var table, before := Table(), b.Model();
      ok := b.Allow(r.now);
      assert (b.Model(), ok) == T.Allow(before, r.now);
      assert Table() == table[key := b.Model()];
    }
  }
}

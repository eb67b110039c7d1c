/**
 The in-memory token-bucket limiter. Floating-point tokens and clock readings are reals
 here, in seconds. The clock is monotonic; a bucket is created from one reading of it and
 refilled from a later one.
 */
module TokenBuckets {
  /** Tokens earned in a number of seconds. */
  type Accrual = real -> real

  function PerSecond(rate: real): Accrual {
    (seconds: real) => seconds * rate
  }

  datatype Bucket = Bucket(tokens: real, max: real, earn: Accrual, last: real)

  function Min(a: real, b: real): real {
    if a < b then a else b
  }

  function NewBucket(max: real, rate: real, now: real): Bucket {
    Bucket(max, max, PerSecond(rate), now)
  }

  /** One request against a bucket that has earned `gained` tokens since the previous one. */
  function Take(tokens: real, max: real, gained: real): (real, bool) {
    var full := Min(max, tokens + gained);
    if full >= 1.0 then (full - 1.0, true) else (full, false)
  }

  function Allow(b: Bucket, now: real): (Bucket, bool) {
    var (tokens, ok) := Take(b.tokens, b.max, b.earn(now - b.last));
    (b.(tokens := tokens, last := now), ok)
  }

  /** Waiting twice earns what waiting once for the sum earns. */
  predicate Adds(earn: Accrual, x: real, y: real) {
    x >= 0.0 && y >= 0.0 ==> earn(x + y) == earn(x) + earn(y)
  }

  /** Waiting never costs tokens, and what it earns adds up. */
  ghost predicate Accrues(earn: Accrual) {
    && (forall x :: x >= 0.0 ==> earn(x) >= 0.0)
    && (forall x, y :: Adds(earn, x, y))
  }

  lemma PerSecondAccrues(rate: real)
    requires rate >= 0.0
    ensures Accrues(PerSecond(rate))
  {
  }

  /** Between 0 and `max` tokens. */
  ghost predicate Valid(b: Bucket) {
    0.0 <= b.tokens <= b.max && Accrues(b.earn)
  }

  predicate Ordered(start: real, times: seq<real>) {
    && (forall i :: 0 <= i < |times| ==> start <= times[i])
    && (forall i, j :: 0 <= i < j < |times| ==> times[i] <= times[j])
  }

  /** The bucket after requests at the given times. */
  function After(b: Bucket, times: seq<real>): Bucket {
    if times == [] then b else Allow(After(b, times[..|times| - 1]), times[|times| - 1]).0
  }

  function Decisions(b: Bucket, times: seq<real>): (r: seq<bool>)
    ensures |r| == |times|
  {
    if times == [] then []
    else
      var init := times[..|times| - 1];
      Decisions(b, init) + [Allow(After(b, init), times[|times| - 1]).1]
  }

  function Admitted(decisions: seq<bool>): nat {
    if decisions == [] then 0
    else Admitted(decisions[..|decisions| - 1]) + if decisions[|decisions| - 1] then 1 else 0
  }

  // ---- The same run in terms of the tokens earned between requests ----

  function Level(tokens: real, max: real, gains: seq<real>): real {
    if gains == [] then tokens
    else Take(Level(tokens, max, gains[..|gains| - 1]), max, gains[|gains| - 1]).0
  }

  function Verdicts(tokens: real, max: real, gains: seq<real>): (r: seq<bool>)
    ensures |r| == |gains|
  {
    if gains == [] then []
    else
      var init := gains[..|gains| - 1];
      Verdicts(tokens, max, init) + [Take(Level(tokens, max, init), max, gains[|gains| - 1]).1]
  }

  function LastTime(last: real, times: seq<real>): real {
    if times == [] then last else times[|times| - 1]
  }

  function Gains(last: real, earn: Accrual, times: seq<real>): (r: seq<real>)
    ensures |r| == |times|
  {
    if times == [] then []
    else
      var init := times[..|times| - 1];
      Gains(last, earn, init) + [earn(times[|times| - 1] - LastTime(last, init))]
  }

  function Total(gains: seq<real>): real {
    if gains == [] then 0.0 else Total(gains[..|gains| - 1]) + gains[|gains| - 1]
  }

  lemma RunAppend(tokens: real, max: real, gains: seq<real>, g: real)
    ensures Level(tokens, max, gains + [g]) == Take(Level(tokens, max, gains), max, g).0
    ensures Verdicts(tokens, max, gains + [g])
         == Verdicts(tokens, max, gains) + [Take(Level(tokens, max, gains), max, g).1]
  {
  }

  /** A bucket's run depends on the clock only through the tokens earned between requests. */
  lemma {:induction false} RunInGains(b: Bucket, times: seq<real>)
    ensures After(b, times)
         == Bucket(Level(b.tokens, b.max, Gains(b.last, b.earn, times)), b.max, b.earn, LastTime(b.last, times))
    ensures Decisions(b, times) == Verdicts(b.tokens, b.max, Gains(b.last, b.earn, times))
  {
    if times != [] {
      var init, now := times[..|times| - 1], times[|times| - 1];
      RunInGains(b, init);
      RunAppend(b.tokens, b.max, Gains(b.last, b.earn, init), b.earn(now - LastTime(b.last, init)));
    }
  }

  lemma {:induction false} GainsAt(last: real, earn: Accrual, times: seq<real>, i: nat)
    requires i < |times|
    ensures Gains(last, earn, times)[i] == earn(times[i] - (if i == 0 then last else times[i - 1]))
  {
    if i < |times| - 1 {
      GainsAt(last, earn, times[..|times| - 1], i);
    }
  }

  lemma GainsAreNotNegative(last: real, earn: Accrual, times: seq<real>)
    requires Ordered(last, times) && Accrues(earn)
    ensures forall i :: 0 <= i < |times| ==> Gains(last, earn, times)[i] >= 0.0
  {
  }

  /** What a stretch of requests earns after its first is what its whole length earns. */
  lemma LaterIsNotEarlier(last: real, times: seq<real>, i: nat, k: nat)
    requires Ordered(last, times) && i <= k < |times|
    ensures times[i] <= times[k]
  {
  }

  lemma EarnsInTwo(last: real, earn: Accrual, times: seq<real>, i: nat, j: nat)
    requires Ordered(last, times) && Accrues(earn) && i + 1 < j <= |times|
    ensures earn(times[j - 2] - times[i]) + earn(times[j - 1] - times[j - 2]) == earn(times[j - 1] - times[i])
  {
    LaterIsNotEarlier(last, times, i, j - 2);
    LaterIsNotEarlier(last, times, j - 2, j - 1);
    assert Adds(earn, times[j - 2] - times[i], times[j - 1] - times[j - 2]);
    assert (times[j - 2] - times[i]) + (times[j - 1] - times[j - 2]) == times[j - 1] - times[i];
  }

  lemma {:induction false} TotalOfStretch(last: real, earn: Accrual, times: seq<real>, i: nat, j: nat)
    requires Ordered(last, times) && Accrues(earn)
    requires i < j <= |times|
    ensures Total(Gains(last, earn, times)[i + 1..j]) == earn(times[j - 1] - times[i])
    decreases j
  {
    var gains := Gains(last, earn, times);
    if j > i + 1 {
      TotalOfStretch(last, earn, times, i, j - 1);
      GainsAt(last, earn, times, j - 1);
      assert gains[i + 1..j] == gains[i + 1..j - 1] + [gains[j - 1]];
      TotalAppend(gains[i + 1..j - 1], gains[j - 1]);
      EarnsInTwo(last, earn, times, i, j);
    } else {
      assert Adds(earn, 0.0, 0.0);
    }
  }

  lemma TotalAppend(gains: seq<real>, g: real)
    ensures Total(gains + [g]) == Total(gains) + g
  {
  }

  lemma AdmittedAppend(d: seq<bool>, ok: bool)
    ensures Admitted(d + [ok]) == Admitted(d) + if ok then 1 else 0
  {
  }

  lemma {:induction false} LevelStaysInBounds(tokens: real, max: real, gains: seq<real>)
    requires 0.0 <= tokens <= max
    requires forall i :: 0 <= i < |gains| ==> gains[i] >= 0.0
    ensures 0.0 <= Level(tokens, max, gains) <= max
  {
    if gains != [] {
      LevelStaysInBounds(tokens, max, gains[..|gains| - 1]);
    }
  }

  lemma TakeIsCovered(level: real, max: real, gain: real)
    ensures var (after, ok) := Take(level, max, gain);
      after + (if ok then 1.0 else 0.0) <= max && after + (if ok then 1.0 else 0.0) <= level + gain
  {
  }

  /** From request `i` on, tokens left and requests admitted are paid by a full bucket and what was earned since. */
  lemma {:induction false} SpendingIsCovered(tokens: real, max: real, gains: seq<real>, i: nat)
    requires i < |gains|
    ensures Level(tokens, max, gains) + Admitted(Verdicts(tokens, max, gains)[i..]) as real
         <= max + Total(gains[i + 1..])
  {
    var init, last := gains[..|gains| - 1], gains[|gains| - 1];
    var verdicts, before := Verdicts(tokens, max, gains), Verdicts(tokens, max, init);
    var ok := Take(Level(tokens, max, init), max, last).1;
    TakeIsCovered(Level(tokens, max, init), max, last);
    if i == |gains| - 1 {
      assert verdicts[i..] == [] + [ok];
      AdmittedAppend([], ok);
    } else {
      SpendingIsCovered(tokens, max, init, i);
      assert verdicts[i..] == before[i..] + [ok];
      AdmittedAppend(before[i..], ok);
      assert gains[i + 1..] == init[i + 1..] + [last];
      TotalAppend(init[i + 1..], last);
    }
  }

  lemma {:induction false} VerdictsOfPrefix(tokens: real, max: real, gains: seq<real>, j: nat)
    requires j <= |gains|
    ensures Verdicts(tokens, max, gains)[..j] == Verdicts(tokens, max, gains[..j])
  {
    if j == |gains| {
      assert gains[..j] == gains;
    } else {
      VerdictsOfPrefix(tokens, max, gains[..|gains| - 1], j);
      assert gains[..|gains| - 1][..j] == gains[..j];
    }
  }

  lemma VerdictsInWindow(tokens: real, max: real, gains: seq<real>, i: nat, j: nat)
    requires 0.0 <= tokens <= max && forall k :: 0 <= k < |gains| ==> gains[k] >= 0.0
    requires i < j <= |gains|
    ensures Admitted(Verdicts(tokens, max, gains)[i..j]) as real <= max + Total(gains[i + 1..j])
  {
    VerdictsOfPrefix(tokens, max, gains, j);
    SpendingIsCovered(tokens, max, gains[..j], i);
    LevelStaysInBounds(tokens, max, gains[..j]);
    assert Verdicts(tokens, max, gains)[i..j] == Verdicts(tokens, max, gains)[..j][i..];
    assert gains[..j][i + 1..] == gains[i + 1..j];
  }

  // ---- What the limiter promises ----

  /** In any run the tokens stay within their bounds. */
  lemma {:induction false} TokensStayInBounds(b: Bucket, times: seq<real>)
    requires Valid(b) && Ordered(b.last, times)
    ensures Valid(After(b, times)) && After(b, times).max == b.max
  {
    RunInGains(b, times);
    GainsAreNotNegative(b.last, b.earn, times);
    LevelStaysInBounds(b.tokens, b.max, Gains(b.last, b.earn, times));
  }

  lemma EarningMore(earn: Accrual, x: real, t: real)
    requires Accrues(earn) && 0.0 <= x <= t
    ensures earn(x) <= earn(t)
  {
    assert Adds(earn, x, t - x) && x + (t - x) == t;
  }

  /** In any run, any window of requests no longer than `t` seconds admits at most max + rate * t of them. */
  lemma WindowBound(b: Bucket, times: seq<real>, i: nat, j: nat, t: real)
    requires Valid(b) && Ordered(b.last, times)
    requires i < j <= |times| && times[j - 1] - times[i] <= t
    ensures Admitted(Decisions(b, times)[i..j]) as real <= b.max + b.earn(t)
  {
    var gains := Gains(b.last, b.earn, times);
    RunInGains(b, times);
    GainsAreNotNegative(b.last, b.earn, times);
    VerdictsInWindow(b.tokens, b.max, gains, i, j);
    StretchEarns(b.last, b.earn, times, i, j, t);
  }

  lemma StretchEarns(last: real, earn: Accrual, times: seq<real>, i: nat, j: nat, t: real)
    requires Accrues(earn) && Ordered(last, times)
    requires i < j <= |times| && times[j - 1] - times[i] <= t
    ensures Total(Gains(last, earn, times)[i + 1..j]) <= earn(t)
  {
    var elapsed := times[j - 1] - times[i];
    LaterIsNotEarlier(last, times, i, j - 1);
    TotalOfStretch(last, earn, times, i, j);
    EarningMore(earn, elapsed, t);
  }

  /** A bucket that cannot hold one token admits nothing. */
  lemma {:induction false} TooSmallAdmitsNothing(b: Bucket, times: seq<real>)
    requires b.tokens <= b.max < 1.0
    ensures After(b, times).max == b.max
    ensures Admitted(Decisions(b, times)) == 0
  {
    if times != [] {
      var init := times[..|times| - 1];
      TooSmallAdmitsNothing(b, init);
      AdmittedAppend(Decisions(b, init), Allow(After(b, init), times[|times| - 1]).1);
    }
  }

  lemma {:induction false} VerdictAt(tokens: real, max: real, gains: seq<real>, i: nat)
    requires i < |gains|
    ensures Verdicts(tokens, max, gains)[i] == Take(Level(tokens, max, gains[..i]), max, gains[i]).1
  {
    if i < |gains| - 1 {
      VerdictAt(tokens, max, gains[..|gains| - 1], i);
      assert gains[..|gains| - 1][..i] == gains[..i];
    }
  }

  lemma EnoughIsAdmitted(tokens: real, max: real, gains: seq<real>, i: nat)
    requires 0.0 <= tokens <= max && 1.0 <= max && forall k :: 0 <= k < |gains| ==> gains[k] >= 0.0
    requires i < |gains| && gains[i] >= 1.0
    ensures Verdicts(tokens, max, gains)[i]
  {
    VerdictAt(tokens, max, gains, i);
    LevelStaysInBounds(tokens, max, gains[..i]);
  }

  lemma GainsAreEnough(b: Bucket, times: seq<real>, i: nat)
    requires Valid(b) && Ordered(b.last, times) && i < |times|
    requires b.earn(times[i] - (if i == 0 then b.last else times[i - 1])) >= 1.0
    ensures Gains(b.last, b.earn, times)[i] >= 1.0
    ensures forall k :: 0 <= k < |times| ==> Gains(b.last, b.earn, times)[k] >= 0.0
  {
    GainsAt(b.last, b.earn, times, i);
    GainsAreNotNegative(b.last, b.earn, times);
  }

  /** A request that comes after enough time to earn a token is admitted, whatever happened before. */
  lemma PatientRequestIsAdmitted(b: Bucket, times: seq<real>, i: nat)
    requires Valid(b) && Ordered(b.last, times) && b.max >= 1.0
    requires i < |times|
    requires b.earn(times[i] - (if i == 0 then b.last else times[i - 1])) >= 1.0
    ensures Decisions(b, times)[i]
  {
    RunInGains(b, times);
    GainsAreEnough(b, times, i);
    EnoughIsAdmitted(b.tokens, b.max, Gains(b.last, b.earn, times), i);
  }

  // ---- With a constant rate ----

  lemma EarnedPerSecond(rate: real, seconds: real)
    requires rate > 0.0 && seconds >= 1.0 / rate
    ensures PerSecond(rate)(seconds) >= 1.0
  {
  }

  /** A fresh bucket that refills at `rate` admits at most max + t * rate in any window of `t` seconds. */
  lemma FreshWindowBound(max: real, rate: real, start: real, times: seq<real>, i: nat, j: nat, t: real)
    requires 0.0 <= max && 0.0 <= rate && Ordered(start, times)
    requires i < j <= |times| && times[j - 1] - times[i] <= t
    ensures Admitted(Decisions(NewBucket(max, rate, start), times)[i..j]) as real <= max + PerSecond(rate)(t)
  {
    PerSecondAccrues(rate);
    WindowBound(NewBucket(max, rate, start), times, i, j, t);
  }

  lemma FreshPatientRequest(max: real, rate: real, start: real, times: seq<real>, i: nat)
    requires 1.0 <= max && 0.0 < rate && Ordered(start, times)
    requires 0 < i < |times| && times[i] - times[i - 1] >= 1.0 / rate
    ensures Decisions(NewBucket(max, rate, start), times)[i]
  {
    PerSecondAccrues(rate);
    EarnedPerSecond(rate, times[i] - times[i - 1]);
    PatientRequestIsAdmitted(NewBucket(max, rate, start), times, i);
  }

  /** Each request takes one token at most. */
  lemma {:induction false} TokensLastFor(tokens: real, max: real, gains: seq<real>)
    requires tokens <= max && forall k :: 0 <= k < |gains| ==> gains[k] >= 0.0
    ensures Level(tokens, max, gains) >= tokens - |gains| as real
  {
    if gains != [] {
      TokensLastFor(tokens, max, gains[..|gains| - 1]);
    }
  }

  /** A fresh bucket admits its first `n` requests at once, however fast they come, if it holds that many tokens. */
  lemma FreshBucketServesFirst(max: real, rate: real, start: real, times: seq<real>, i: nat)
    requires 0.0 <= rate && Ordered(start, times) && i < |times| && i as real + 1.0 <= max
    ensures Decisions(NewBucket(max, rate, start), times)[i]
  {
    var b := NewBucket(max, rate, start);
    var gains := Gains(start, PerSecond(rate), times);
    PerSecondAccrues(rate);
    RunInGains(b, times);
    GainsAreNotNegative(start, PerSecond(rate), times);
    VerdictAt(max, max, gains, i);
    TokensLastFor(max, max, gains[..i]);
  }
}

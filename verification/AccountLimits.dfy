/**
 The per-account limiter on a Redis counter: every request increments the account's counter
 and pushes its expiry to 60 seconds from now, in that order and as one step, and is
 admitted while the count does not exceed the limit. Redis is reachable.
 */
module AccountLimits {
  import opened Common
  import K = KeyedRuns

  const TTL := 60.0

  /** The counter and when it was last touched. */
  datatype Counter = Counter(count: nat, touched: real)

  /** `keepsAtTtl` says whether a key still exists at the very instant its time to live runs out. */
  predicate Alive(c: Counter, now: real, keepsAtTtl: bool) {
    now - c.touched < TTL || (keepsAtTtl && now - c.touched == TTL)
  }

  function Increment(state: Option<Counter>, now: real, keepsAtTtl: bool): Counter {
    if state.Some? && Alive(state.value, now, keepsAtTtl) then Counter(state.value.count + 1, now)
    else Counter(1, now)
  }

  datatype Answer = Answer(admitted: bool, remaining: int)

  function Decide(count: nat, limit: int): Answer {
    if count > limit then Answer(false, 0) else Answer(true, limit - count)
  }

  type Limiter = (Option<Counter>, real) -> (Counter, Answer)

  function PerAccount(limit: int, keepsAtTtl: bool): Limiter {
    (state: Option<Counter>, now: real) =>
      var c := Increment(state, now, keepsAtTtl);
      (c, Decide(c.count, limit))
  }

  predicate Ordered(times: seq<real>) {
    forall i, j :: 0 <= i < j < |times| ==> times[i] <= times[j]
  }

  /** The answers one account gets for requests at the given times. */
  function Answers(times: seq<real>, limit: int, keepsAtTtl: bool): seq<Answer> {
    K.Outputs(None, times, PerAccount(limit, keepsAtTtl))
  }

  function CountAt(times: seq<real>, limit: int, keepsAtTtl: bool): nat
    requires times != []
  {
    K.StateAfter(None, times, PerAccount(limit, keepsAtTtl)).value.count
  }

  function Admitted(answers: seq<Answer>): nat {
    if answers == [] then 0
    else Admitted(answers[..|answers| - 1]) + if answers[|answers| - 1].admitted then 1 else 0
  }

  lemma {:induction false} StateIsLast(times: seq<real>, limit: int, keepsAtTtl: bool)
    requires times != []
    ensures var c := K.StateAfter(None, times, PerAccount(limit, keepsAtTtl));
      c.Some? && c.value.touched == times[|times| - 1] && c.value.count >= 1
  {
  }

  lemma {:induction false} AnswerAt(times: seq<real>, limit: int, keepsAtTtl: bool, k: nat)
    requires k < |times|
    ensures Answers(times, limit, keepsAtTtl)[k] == Decide(CountAt(times[..k + 1], limit, keepsAtTtl), limit)
  {
    var init := times[..|times| - 1];
    if k == |times| - 1 {
      assert times[..k + 1] == times;
      assert times[..k] == init;
    } else {
      AnswerAt(init, limit, keepsAtTtl, k);
      assert init[..k + 1] == times[..k + 1];
    }
  }

  /** A key touched `gap` seconds ago still exists. */
  predicate Keeps(gap: real, keepsAtTtl: bool) {
    gap < 60.0 || (keepsAtTtl && gap == 60.0)
  }

  /** Requests `i` to `j - 1` follow each other before the counter runs out. */
  predicate IsChain(times: seq<real>, keepsAtTtl: bool, i: nat, j: nat)
    requires i < j <= |times|
  {
    forall k :: i < k < j ==> Keeps(times[k] - times[k - 1], keepsAtTtl)
  }

  /** Along a chain the counter only counts up. */
  lemma {:induction false} ChainCountsUp(times: seq<real>, limit: int, keepsAtTtl: bool, i: nat, k: nat)
    requires i <= k < |times| && IsChain(times, keepsAtTtl, i, k + 1)
    ensures CountAt(times[..k + 1], limit, keepsAtTtl) == CountAt(times[..i + 1], limit, keepsAtTtl) + (k - i)
    decreases k
  {
    if k > i {
      ChainCountsUp(times, limit, keepsAtTtl, i, k - 1);
      StateIsLast(times[..k], limit, keepsAtTtl);
      assert times[..k + 1][..k] == times[..k];
    }
  }

  lemma {:induction false} FirstOfRunAdmitted(answers: seq<Answer>, limit: int, base: nat)
    requires forall k :: 0 <= k < |answers| ==> (answers[k].admitted <==> base + k <= limit)
    ensures Admitted(answers) == if limit < base then 0 else if limit - base + 1 < |answers| then limit - base + 1 else |answers|
  {
    if answers != [] {
      FirstOfRunAdmitted(answers[..|answers| - 1], limit, base);
    }
  }

  lemma ChainAnswers(times: seq<real>, limit: int, keepsAtTtl: bool, i: nat, j: nat)
    requires i < j <= |times| && IsChain(times, keepsAtTtl, i, j)
    ensures var answers := Answers(times, limit, keepsAtTtl);
      var base := CountAt(times[..i + 1], limit, keepsAtTtl);
      && base >= 1
      && forall k :: i <= k < j ==> answers[k] == Decide(base + (k - i), limit)
  {
    StateIsLast(times[..i + 1], limit, keepsAtTtl);
    forall k | i <= k < j
      ensures Answers(times, limit, keepsAtTtl)[k]
           == Decide(CountAt(times[..i + 1], limit, keepsAtTtl) + (k - i), limit)
    {
      assert IsChain(times, keepsAtTtl, i, k + 1);
      ChainCountsUp(times, limit, keepsAtTtl, i, k);
      AnswerAt(times, limit, keepsAtTtl, k);
    }
  }

  /** No half-open 60-second window admits more than the limit. */
  lemma WindowBound(times: seq<real>, limit: int, keepsAtTtl: bool, i: nat, j: nat)
    requires Ordered(times) && i < j <= |times| && times[j - 1] - times[i] < 60.0
    ensures Admitted(Answers(times, limit, keepsAtTtl)[i..j]) <= if limit < 0 then 0 else limit
  {
    assert IsChain(times, keepsAtTtl, i, j);
    ChainAnswers(times, limit, keepsAtTtl, i, j);
    var base := CountAt(times[..i + 1], limit, keepsAtTtl);
    FirstOfRunAdmitted(Answers(times, limit, keepsAtTtl)[i..j], limit, base);
  }

  lemma ChainStartsAtOne(times: seq<real>, limit: int, keepsAtTtl: bool, i: nat)
    requires i < |times| && (i == 0 || !Keeps(times[i] - times[i - 1], keepsAtTtl))
    ensures CountAt(times[..i + 1], limit, keepsAtTtl) == 1
  {
    var upTo := times[..i + 1];
    assert upTo[..|upTo| - 1] == times[..i];
    var before := K.StateAfter(None, times[..i], PerAccount(limit, keepsAtTtl));
    if i == 0 {
      assert times[..0] == [];
    } else {
      StateIsLast(times[..i], limit, keepsAtTtl);
    }
    assert Increment(before, times[i], keepsAtTtl).count == 1;
  }

  /**
   In a chain that starts after the counter has run out, or at the very first request, exactly the
   first `limit` requests are admitted, however long the chain goes on, and the count shown goes down by one.
   */
  lemma ChainAdmitsExactlyTheFirst(times: seq<real>, limit: int, keepsAtTtl: bool, i: nat, j: nat)
    requires i < j <= |times| && forall k :: i < k < j ==> Keeps(times[k] - times[k - 1], keepsAtTtl)
    requires i == 0 || !Keeps(times[i] - times[i - 1], keepsAtTtl)
    ensures var answers := Answers(times, limit, keepsAtTtl);
      && (forall k :: i <= k < j ==> (answers[k].admitted <==> k - i < limit))
      && (forall k :: i <= k < j && answers[k].admitted ==> answers[k].remaining == limit - 1 - (k - i))
      && Admitted(answers[i..j]) == (if limit < 0 then 0 else if limit < j - i then limit else j - i)
  {
    ChainAnswers(times, limit, keepsAtTtl, i, j);
    ChainStartsAtOne(times, limit, keepsAtTtl, i);
    FirstOfRunAdmitted(Answers(times, limit, keepsAtTtl)[i..j], limit, 1);
  }

  /** At a limit of two, three requests 50 seconds apart: no minute holds all three, yet the third is refused. */
  lemma SlowRequestsAreRefused(keepsAtTtl: bool)
    ensures var answers := Answers([0.0, 50.0, 100.0], 2, keepsAtTtl);
      answers[0].admitted && answers[1].admitted && !answers[2].admitted
  {
    ChainAdmitsExactlyTheFirst([0.0, 50.0, 100.0], 2, keepsAtTtl, 0, 3);
  }

  /** The remaining count shown to the client is never negative and at most limit - 1; a refusal shows 0. */
  lemma RemainingIsSensible(times: seq<real>, limit: int, keepsAtTtl: bool, k: nat)
    requires k < |times|
    ensures var a := Answers(times, limit, keepsAtTtl)[k];
      && 0 <= a.remaining
      && (a.admitted ==> a.remaining < limit)
      && (!a.admitted ==> a.remaining == 0)
  {
    AnswerAt(times, limit, keepsAtTtl, k);
    StateIsLast(times[..k + 1], limit, keepsAtTtl);
  }

  /** With many accounts each one gets what its own requests alone would get. */
  lemma AccountsAreIndependent(requests: seq<K.Request<real>>, limit: int, keepsAtTtl: bool, account: string)
    ensures K.Answers(map[], requests, PerAccount(limit, keepsAtTtl), account)
         == Answers(K.Inputs(requests, account), limit, keepsAtTtl)
  {
    K.KeysAreIndependent(map[], requests, PerAccount(limit, keepsAtTtl), account);
  }

  /** The limiter with the counters it keeps in Redis. */
  class AccountRateLimiter {
    var counters: map<string, Counter>
    const limit: int
    const keepsAtTtl: bool

    constructor (limit: int, keepsAtTtl: bool)
      ensures counters == map[] && this.limit == limit && this.keepsAtTtl == keepsAtTtl
    {
      this.counters := map[];
      this.limit := limit;
      this.keepsAtTtl := keepsAtTtl;
    }

    /** One request is one step of its account's counter and leaves the others alone. */
    method Check(account: string, now: real) returns (a: Answer)
      modifies this
      ensures account in counters && counters == old(counters)[account := counters[account]]
      ensures (counters[account], a) == PerAccount(limit, keepsAtTtl)(K.Lookup(old(counters), account), now)
    {
      var count := 1;
      if account in counters && Alive(counters[account], now, keepsAtTtl) {
        count := counters[account].count + 1;
      }
      counters := counters[account := Counter(count, now)];
      if count > limit {
        a := Answer(false, 0);
      } else {
        a := Answer(true, limit - count);
      }
    }
  }
}

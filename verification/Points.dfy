/** The effective cost of a reward under time-limited adjustments. */
module Points {
  import opened Common
  import opened Seqs

  datatype CostAdjustment = CostAdjustment(delta: int, expiresAt: Option<int>)

  predicate ActiveAt(a: CostAdjustment, now: int) {
    a.expiresAt.None? || a.expiresAt.value > now
  }

  /** The query keeps adjustments that never expire or have yet to. */
  function StillActive(now: int): CostAdjustment -> bool {
    (a: CostAdjustment) => ActiveAt(a, now)
  }

  function DeltaAt(now: int): CostAdjustment -> int {
    (a: CostAdjustment) => if ActiveAt(a, now) then a.delta else 0
  }

  function Cost(base: int, adjustments: seq<CostAdjustment>, now: int): nat {
    var total := base + SumBy(adjustments, DeltaAt(now));
    if total < 0 then 0 else total
  }

  /** The base plus the active deltas, floored at zero at the end. */
  method EffectiveCost(base: int, adjustments: seq<CostAdjustment>, now: int) returns (cost: int)
    ensures cost == Cost(base, adjustments, now)
  {
    var total := base;
    for i := 0 to |adjustments|
      invariant total == base + SumBy(adjustments[..i], DeltaAt(now))
    {
      var a := adjustments[i];
      assert adjustments[..i + 1] == adjustments[..i] + [a];
      SumByAppend(adjustments[..i], a, DeltaAt(now));
      if a.expiresAt.Some? && !(a.expiresAt.value > now) {
        continue;
      }
      total := total + a.delta;
    }
    assert adjustments[..|adjustments|] == adjustments;
    if total < 0 {
      return 0;
    }
    cost := total;
  }

  /** One more adjustment is a change of the base, as long as it has not expired: at its expiry it no longer counts. */
  lemma OneMoreAdjustment(base: int, adjustments: seq<CostAdjustment>, a: CostAdjustment, now: int)
    ensures Cost(base, [], now) == if base < 0 then 0 else base
    ensures a.expiresAt.None? || now < a.expiresAt.value ==>
      Cost(base, adjustments + [a], now) == Cost(base + a.delta, adjustments, now)
    ensures a.expiresAt.Some? && a.expiresAt.value <= now ==> Cost(base, adjustments + [a], now) == Cost(base, adjustments, now)
  {
    SumByAppend(adjustments, a, DeltaAt(now));
  }

  /** A list filtered at an earlier time costs the same as the full list. */
  lemma EarlierFilterIsHarmless(base: int, adjustments: seq<CostAdjustment>, earlier: int, now: int)
    requires earlier <= now
    ensures Cost(base, Filter(adjustments, StillActive(earlier)), now) == Cost(base, adjustments, now)
  {
    SumByFilter(adjustments, StillActive(earlier), DeltaAt(now), DeltaAt(now));
  }

  /**
   Filtering is harmless for every base and every list exactly when it is not done after the time of the
   calculation: an adjustment that expires in between is lost.
   */
  lemma FilterIsHarmlessIff(earlier: int, now: int)
    ensures (forall base, adjustments :: Cost(base, Filter(adjustments, StillActive(earlier)), now) == Cost(base, adjustments, now))
      <==> earlier <= now
  {
    if earlier <= now {
      forall base, adjustments
        ensures Cost(base, Filter(adjustments, StillActive(earlier)), now) == Cost(base, adjustments, now)
      {
        EarlierFilterIsHarmless(base, adjustments, earlier, now);
      }
    } else {
      var a := CostAdjustment(1, Some(earlier));
      FilterAppend([], a, StillActive(earlier));
      SumByAppend([], a, DeltaAt(now));
      assert [] + [a] == [a];
      assert Cost(0, Filter([a], StillActive(earlier)), now) != Cost(0, [a], now);
    }
  }

  /** The order of the adjustments does not matter. */
  lemma OrderDoesNotMatter(base: int, a: seq<CostAdjustment>, b: seq<CostAdjustment>, now: int)
    requires multiset(a) == multiset(b)
    ensures Cost(base, a, now) == Cost(base, b, now)
  {
    SumByPermutation(a, b, DeltaAt(now));
  }

  lemma WithoutOne<T>(init: seq<T>, last: T, front: seq<T>, back: seq<T>)
    requires multiset(init + [last]) == multiset(front + [last] + back)
    ensures multiset(init) == multiset(front + back)
  {
    var one := multiset{last};
    assert multiset(init) + one == multiset(front) + one + multiset(back);
    assert multiset(init) == multiset(init) + one - one;
    assert multiset(front) + one + multiset(back) - one == multiset(front + back);
  }

  lemma {:induction false} SumByPermutation<T>(a: seq<T>, b: seq<T>, f: T -> int)
    requires multiset(a) == multiset(b)
    ensures SumBy(a, f) == SumBy(b, f)
  {
    if a == [] {
      assert |multiset(b)| == |b|;
    } else {
      var init, last := a[..|a| - 1], a[|a| - 1];
      assert a == init + [last];
      assert last in multiset(b);
      var i :| 0 <= i < |b| && b[i] == last;
      var front, back := b[..i], b[i + 1..];
      assert b == front + [last] + back;
      WithoutOne(init, last, front, back);
      SumByPermutation(init, front + back, f);
      SumByConcat(front, back, f);
      SumByConcat(front + [last], back, f);
      SumByAppend(front, last, f);
    }
  }
}

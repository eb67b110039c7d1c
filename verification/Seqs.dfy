/** Sums, filters and point updates over sequences, shared by the table models. */
module Seqs {
  import opened Common

  function SumBy<T>(xs: seq<T>, f: T -> int): int {
    if xs == [] then 0 else SumBy(xs[..|xs| - 1], f) + f(xs[|xs| - 1])
  }

  function Filter<T>(xs: seq<T>, p: T -> bool): seq<T> {
    if xs == [] then []
    else Filter(xs[..|xs| - 1], p) + if p(xs[|xs| - 1]) then [xs[|xs| - 1]] else []
  }

  lemma {:induction false} FilterMembers<T(!new)>(xs: seq<T>, p: T -> bool)
    ensures forall x :: x in Filter(xs, p) <==> x in xs && p(x)
  {
    if xs != [] {
      FilterMembers(xs[..|xs| - 1], p);
      assert xs == xs[..|xs| - 1] + [xs[|xs| - 1]];
    }
  }

  function Map<T, U>(xs: seq<T>, f: T -> U): (r: seq<U>)
    ensures |r| == |xs|
    ensures forall i :: 0 <= i < |xs| ==> r[i] == f(xs[i])
  {
    seq(|xs|, i requires 0 <= i < |xs| => f(xs[i]))
  }

  lemma SumByAppend<T>(xs: seq<T>, x: T, f: T -> int)
    ensures SumBy(xs + [x], f) == SumBy(xs, f) + f(x)
  {
  }

  lemma FilterAppend<T>(xs: seq<T>, x: T, p: T -> bool)
    ensures Filter(xs + [x], p) == Filter(xs, p) + if p(x) then [x] else []
  {
  }

  lemma FilterOne<T>(x: T, p: T -> bool)
    ensures Filter([x], p) == if p(x) then [x] else []
  {
    FilterAppend([], x, p);
    assert [] + [x] == [x];
  }

  lemma {:induction false} SumByConcat<T>(xs: seq<T>, ys: seq<T>, f: T -> int)
    ensures SumBy(xs + ys, f) == SumBy(xs, f) + SumBy(ys, f)
  {
    if ys == [] {
      assert xs + ys == xs;
    } else {
      var init, last := ys[..|ys| - 1], ys[|ys| - 1];
      assert ys == init + [last];
      assert xs + ys == (xs + init) + [last];
      SumByAppend(xs + init, last, f);
      SumByConcat(xs, init, f);
    }
  }

  lemma SumByOne<T>(a: T, f: T -> int)
    ensures SumBy([a], f) == f(a)
  {
    SumByAppend([], a, f);
    assert [] + [a] == [a];
  }

  lemma SumByTwo<T>(a: T, b: T, f: T -> int)
    ensures SumBy([a, b], f) == f(a) + f(b)
  {
    SumByAppend([], a, f);
    SumByAppend([a], b, f);
    assert [] + [a] == [a] && [a] + [b] == [a, b];
  }

  lemma SumByThree<T>(a: T, b: T, c: T, f: T -> int)
    ensures SumBy([a, b, c], f) == f(a) + f(b) + f(c)
  {
    SumByTwo(a, b, f);
    SumByAppend([a, b], c, f);
    assert [a, b] + [c] == [a, b, c];
  }

  lemma SumByFour<T>(a: T, b: T, c: T, d: T, f: T -> int)
    ensures SumBy([a, b, c, d], f) == f(a) + f(b) + f(c) + f(d)
  {
    SumByThree(a, b, c, f);
    SumByAppend([a, b, c], d, f);
    assert [a, b, c] + [d] == [a, b, c, d];
  }

  /** Replacing one element moves the sum by the difference of the two summands. */
  lemma {:induction false} SumByUpdate<T>(xs: seq<T>, i: nat, x: T, f: T -> int)
    requires i < |xs|
    ensures SumBy(xs[i := x], f) == SumBy(xs, f) - f(xs[i]) + f(x)
  {
    var init := xs[..|xs| - 1];
    if i == |xs| - 1 {
      assert xs[i := x][..|xs| - 1] == init;
    } else {
      SumByUpdate(init, i, x, f);
      assert xs[i := x][..|xs| - 1] == init[i := x];
    }
  }

  lemma {:induction false} SumByEqual<T>(xs: seq<T>, f: T -> int, g: T -> int)
    requires forall x :: x in xs ==> f(x) == g(x)
    ensures SumBy(xs, f) == SumBy(xs, g)
  {
    if xs != [] {
      SumByEqual(xs[..|xs| - 1], f, g);
    }
  }

  lemma {:induction false} SumByNonNegative<T>(xs: seq<T>, f: T -> int)
    requires forall x :: x in xs ==> f(x) >= 0
    ensures SumBy(xs, f) >= 0
    ensures forall x :: x in xs ==> f(x) <= SumBy(xs, f)
  {
    if xs != [] {
      SumByNonNegative(xs[..|xs| - 1], f);
      assert xs == xs[..|xs| - 1] + [xs[|xs| - 1]];
    }
  }

  lemma {:induction false} SumByPlus<T>(xs: seq<T>, f: T -> int, g: T -> int, h: T -> int)
    requires forall x :: x in xs ==> h(x) == f(x) + g(x)
    ensures SumBy(xs, h) == SumBy(xs, f) + SumBy(xs, g)
  {
    if xs != [] {
      SumByPlus(xs[..|xs| - 1], f, g, h);
    }
  }

  /** Summing over the kept rows is summing a summand that is zero elsewhere. */
  lemma {:induction false} SumByFilter<T>(xs: seq<T>, p: T -> bool, f: T -> int, g: T -> int)
    requires forall x :: x in xs ==> g(x) == if p(x) then f(x) else 0
    ensures SumBy(Filter(xs, p), f) == SumBy(xs, g)
  {
    if xs != [] {
      var init, last := xs[..|xs| - 1], xs[|xs| - 1];
      assert last in xs;
      assert forall x :: x in init ==> x in xs;
      SumByFilter(init, p, f, g);
      var kept := Filter(init, p);
      SumByAppend(kept, last, f);
      assert Filter(xs, p) == if p(last) then kept + [last] else kept;
    }
  }

  // ---- Groups ----

  predicate Distinct<T(==)>(xs: seq<T>) {
    forall i, j :: 0 <= i < j < |xs| ==> xs[i] != xs[j]
  }

  /** The summand of the rows whose key is `k`. */
  function Restrict<T, K(==)>(key: T -> K, k: K, f: T -> int): T -> int {
    (x: T) => if key(x) == k then f(x) else 0
  }

  function RestrictTo<T, K(==)>(key: T -> K, keys: seq<K>, f: T -> int): T -> int {
    (x: T) => if key(x) in keys then f(x) else 0
  }

  /** One group's sum, as a function of its key. */
  function GroupSum<T, K(==)>(rows: seq<T>, key: T -> K, f: T -> int): K -> int {
    (k: K) => SumBy(rows, Restrict(key, k, f))
  }

  /** Summing group by group over distinct keys is summing the rows whose key is among them. */
  lemma {:induction false} GroupSumsAddUp<T, K>(keys: seq<K>, rows: seq<T>, key: T -> K, f: T -> int)
    requires Distinct(keys)
    ensures SumBy(keys, GroupSum(rows, key, f)) == SumBy(rows, RestrictTo(key, keys, f))
  {
    if keys == [] {
      SumByEqual(rows, RestrictTo(key, keys, f), (x: T) => 0);
      SumByZero(rows, (x: T) => 0);
    } else {
      var init, k := keys[..|keys| - 1], keys[|keys| - 1];
      GroupSumsAddUp(init, rows, key, f);
      assert keys == init + [k] && k !in init;
      SumByPlus(rows, RestrictTo(key, init, f), Restrict(key, k, f), RestrictTo(key, keys, f));
    }
  }

  lemma {:induction false} SumByZero<T>(xs: seq<T>, f: T -> int)
    requires forall x :: x in xs ==> f(x) == 0
    ensures SumBy(xs, f) == 0
  {
    if xs != [] {
      assert xs == xs[..|xs| - 1] + [xs[|xs| - 1]];
      SumByZero(xs[..|xs| - 1], f);
    }
  }

  // ---- Searching and keys ----

  /** The first element that matches. */
  function Find<T>(xs: seq<T>, p: T -> bool): Option<T> {
    if xs == [] then None
    else
      var r := Find(xs[..|xs| - 1], p);
      if r.Some? then r else if p(xs[|xs| - 1]) then Some(xs[|xs| - 1]) else None
  }

  lemma {:induction false} FindSpec<T(!new)>(xs: seq<T>, p: T -> bool)
    ensures var r := Find(xs, p);
      && (r.Some? ==> r.value in xs && p(r.value))
      && (r.None? ==> forall x :: x in xs ==> !p(x))
  {
    if xs != [] {
      FindSpec(xs[..|xs| - 1], p);
      assert xs == xs[..|xs| - 1] + [xs[|xs| - 1]];
    }
  }

  lemma FindAppend<T>(xs: seq<T>, x: T, p: T -> bool)
    ensures Find(xs + [x], p) == if Find(xs, p).Some? then Find(xs, p) else if p(x) then Some(x) else None
  {
  }

  lemma {:induction false} FilterAll<T>(xs: seq<T>, p: T -> bool)
    requires forall x :: x in xs ==> p(x)
    ensures Filter(xs, p) == xs
  {
    if xs != [] {
      var init, last := xs[..|xs| - 1], xs[|xs| - 1];
      assert xs == init + [last];
      FilterAll(init, p);
    }
  }

  ghost predicate DistinctBy<T, K>(xs: seq<T>, key: T -> K) {
    forall i, j :: 0 <= i < j < |xs| ==> key(xs[i]) != key(xs[j])
  }

  lemma DistinctByAppend<T, K>(xs: seq<T>, x: T, key: T -> K)
    requires DistinctBy(xs, key) && forall y :: y in xs ==> key(y) != key(x)
    ensures DistinctBy(xs + [x], key)
  {
  }

  lemma {:induction false} DistinctByFilter<T(!new), K>(xs: seq<T>, p: T -> bool, key: T -> K)
    requires DistinctBy(xs, key)
    ensures DistinctBy(Filter(xs, p), key)
  {
    if xs != [] {
      var init, last := xs[..|xs| - 1], xs[|xs| - 1];
      DistinctByFilter(init, p, key);
      FilterMembers(init, p);
      forall y | y in Filter(init, p) ensures key(y) != key(last) {
        assert y in init;
      }
      if p(last) {
        DistinctByAppend(Filter(init, p), last, key);
      }
    }
  }

  /** A filter that drops exactly one element takes its summand out of the sum. */
  lemma {:induction false} SumByRemove<T(!new)>(xs: seq<T>, p: T -> bool, f: T -> int, gone: T)
    requires gone in xs && !p(gone)
    requires forall i, j :: 0 <= i < j < |xs| ==> p(xs[i]) || p(xs[j])
    ensures SumBy(Filter(xs, p), f) == SumBy(xs, f) - f(gone)
  {
    var init, last := xs[..|xs| - 1], xs[|xs| - 1];
    if p(last) {
      assert gone in init;
      SumByRemove(init, p, f, gone);
      SumByAppend(Filter(init, p), last, f);
    } else {
      assert last == gone;
      forall x | x in init ensures p(x) {
        var i :| 0 <= i < |init| && init[i] == x;
        assert xs[i] == x;
      }
      FilterAll(init, p);
      assert Filter(xs, p) == init;
    }
  }

  // ---- Counting distinct keys ----

  function KeySet<T, K(==)>(xs: seq<T>, key: T -> K): set<K> {
    if xs == [] then {} else KeySet(xs[..|xs| - 1], key) + {key(xs[|xs| - 1])}
  }

  lemma {:induction false} KeySetMembers<T(!new), K(!new)>(xs: seq<T>, key: T -> K)
    ensures forall k :: k in KeySet(xs, key) <==> exists x :: x in xs && key(x) == k
  {
    if xs != [] {
      KeySetMembers(xs[..|xs| - 1], key);
      assert xs == xs[..|xs| - 1] + [xs[|xs| - 1]];
    }
  }

  lemma {:induction false} KeySetSize<T(!new), K(!new)>(xs: seq<T>, key: T -> K)
    requires DistinctBy(xs, key)
    ensures |KeySet(xs, key)| == |xs|
  {
    if xs != [] {
      var init, last := xs[..|xs| - 1], xs[|xs| - 1];
      KeySetSize(init, key);
      KeySetMembers(init, key);
      forall x | x in init ensures key(x) != key(last) {
        var i :| 0 <= i < |init| && init[i] == x;
        assert key(xs[i]) != key(xs[|xs| - 1]);
      }
    }
  }

  lemma {:induction false} SubsetOfSameSize<T>(a: set<T>, b: set<T>)
    requires a <= b && |a| == |b|
    ensures a == b
  {
    if a != {} {
      var x :| x in a;
      SubsetOfSameSize(a - {x}, b - {x});
    }
  }

  lemma {:induction false} SubsetNoLarger<T>(a: set<T>, b: set<T>)
    requires a <= b
    ensures |a| <= |b|
  {
    if a != {} {
      var x :| x in a;
      SubsetNoLarger(a - {x}, b - {x});
    }
  }

  /** The integers from `lo` up to but excluding `hi`. */
  function Range(lo: int, hi: int): set<int>
    decreases hi - lo
  {
    if lo >= hi then {} else Range(lo, hi - 1) + {hi - 1}
  }

  lemma {:induction false} RangeIs(lo: int, hi: int)
    requires lo <= hi
    ensures |Range(lo, hi)| == hi - lo
    ensures forall d :: d in Range(lo, hi) <==> lo <= d < hi
    decreases hi - lo
  {
    if lo < hi {
      RangeIs(lo, hi - 1);
    }
  }

  // ---- Mapped rows ----

  lemma {:induction false} SumByMap<T, U>(xs: seq<T>, g: T -> U, f: U -> int, h: T -> int)
    requires forall x :: x in xs ==> f(g(x)) == h(x)
    ensures SumBy(Map(xs, g), f) == SumBy(xs, h)
  {
    if xs != [] {
      var init := xs[..|xs| - 1];
      SumByMap(init, g, f, h);
      assert Map(xs, g)[..|xs| - 1] == Map(init, g);
    }
  }

  lemma {:induction false} FilterMap<T(!new)>(xs: seq<T>, g: T -> T, p: T -> bool)
    requires forall x :: x in xs ==> p(g(x)) == p(x)
    ensures Filter(Map(xs, g), p) == Map(Filter(xs, p), g)
  {
    if xs != [] {
      var init, last := xs[..|xs| - 1], xs[|xs| - 1];
      assert last in xs && forall x :: x in init ==> x in xs;
      FilterMap(init, g, p);
      assert Map(xs, g)[..|xs| - 1] == Map(init, g);
      assert Map(Filter(init, p) + [last], g) == Map(Filter(init, p), g) + [g(last)];
    }
  }

  lemma {:induction false} SumOfOnes<T>(xs: seq<T>, one: T -> int)
    requires forall x :: x in xs ==> one(x) == 1
    ensures SumBy(xs, one) == |xs|
  {
    if xs != [] {
      SumOfOnes(xs[..|xs| - 1], one);
    }
  }

  /** With distinct keys a key's group is one element. */
  lemma {:induction false} SumAtKey<T(!new), K>(xs: seq<T>, key: T -> K, f: T -> int, x: T)
    requires DistinctBy(xs, key) && x in xs
    ensures SumBy(xs, Restrict(key, key(x), f)) == f(x)
  {
    var init, last := xs[..|xs| - 1], xs[|xs| - 1];
    assert xs == init + [last];
    if x == last {
      SumByZero(init, Restrict(key, key(x), f));
    } else {
      SumAtKey(init, key, f, x);
      var i :| 0 <= i < |init| && init[i] == x;
      assert key(xs[i]) != key(xs[|xs| - 1]);
    }
  }

  // ---- Shares of a total ----

  function SumReal<T>(xs: seq<T>, f: T -> real): real {
    if xs == [] then 0.0 else SumReal(xs[..|xs| - 1], f) + f(xs[|xs| - 1])
  }

  lemma {:induction false} TwoSummands<T>(xs: seq<T>, f: T -> real, x: T, y: T)
    requires (forall e :: e in xs ==> f(e) >= 0.0) && x in xs && y in xs && x != y
    ensures f(x) + f(y) <= SumReal(xs, f)
  {
    var init, last := xs[..|xs| - 1], xs[|xs| - 1];
    assert xs == init + [last];
    OneSummand(init, f, if x == last then y else x);
    if x != last && y != last {
      TwoSummands(init, f, x, y);
    }
  }

  lemma {:induction false} OneSummand<T>(xs: seq<T>, f: T -> real, x: T)
    requires (forall e :: e in xs ==> f(e) >= 0.0) && x in xs
    ensures f(x) <= SumReal(xs, f)
  {
    var init, last := xs[..|xs| - 1], xs[|xs| - 1];
    assert xs == init + [last];
    if x == last {
      SumRealNonNegative(init, f);
    } else {
      OneSummand(init, f, x);
    }
  }

  lemma {:induction false} SumRealNonNegative<T>(xs: seq<T>, f: T -> real)
    requires forall e :: e in xs ==> f(e) >= 0.0
    ensures SumReal(xs, f) >= 0.0
  {
    if xs != [] {
      assert xs == xs[..|xs| - 1] + [xs[|xs| - 1]];
      SumRealNonNegative(xs[..|xs| - 1], f);
    }
  }

  /** The percentage n is of a positive total. */
  function Percent(n: int, total: int): real
    requires total > 0
  {
    n as real / total as real * 100.0
  }

  lemma PercentNotNegative(n: nat, total: int)
    requires total > 0
    ensures Percent(n, total) >= 0.0
  {
  }

  lemma PercentPlus(a: int, b: int, total: int)
    requires total > 0
    ensures Percent(a + b, total) == Percent(a, total) + Percent(b, total)
  {
  }

  lemma {:induction false} PercentsAddUp<T>(xs: seq<T>, f: T -> int, pct: T -> real, total: int)
    requires total > 0 && forall x :: x in xs ==> pct(x) == Percent(f(x), total)
    ensures SumReal(xs, pct) == Percent(SumBy(xs, f), total)
  {
    if xs != [] {
      var init, last := xs[..|xs| - 1], xs[|xs| - 1];
      assert last in xs && forall x :: x in init ==> x in xs;
      PercentsAddUp(init, f, pct, total);
      PercentPlus(SumBy(init, f), f(last), total);
    }
  }

  lemma RatioOfItself(x: real)
    requires x > 0.0
    ensures x / x == 1.0
  {
  }

  lemma PercentOfItself(n: int)
    requires n > 0
    ensures Percent(n, n) == 100.0
  {
    RatioOfItself(n as real);
  }

  /** Shares of the whole total make a hundred. */
  lemma PercentsMakeAHundred<T>(xs: seq<T>, f: T -> int, pct: T -> real)
    requires SumBy(xs, f) > 0 && forall x :: x in xs ==> pct(x) == Percent(f(x), SumBy(xs, f))
    ensures SumReal(xs, pct) == 100.0
  {
    PercentsAddUp(xs, f, pct, SumBy(xs, f));
    PercentOfItself(SumBy(xs, f));
  }

  // ---- Properties of every prefix ----

  ghost predicate OnPrefixes<T>(xs: seq<T>, p: seq<T> -> bool) {
    forall k :: 0 <= k <= |xs| ==> p(xs[..k])
  }

  ghost predicate OnSteps<T>(xs: seq<T>, g: (seq<T>, T) -> bool) {
    forall k :: 0 <= k < |xs| ==> g(xs[..k], xs[k])
  }

  lemma PrefixesAppend<T>(init: seq<T>, last: T, p: seq<T> -> bool)
    ensures OnPrefixes(init + [last], p) <==> OnPrefixes(init, p) && p(init + [last])
  {
    var xs := init + [last];
    assert xs[..|xs|] == xs;
    assert forall k :: 0 <= k <= |init| ==> init[..k] == xs[..k];
  }

  lemma StepsAppend<T>(init: seq<T>, last: T, g: (seq<T>, T) -> bool)
    ensures OnSteps(init + [last], g) <==> OnSteps(init, g) && g(init, last)
  {
    var xs := init + [last];
    assert xs[..|init|] == init && xs[|init|] == last;
    forall k | 0 <= k < |init| ensures g(xs[..k], xs[k]) == g(init[..k], init[k]) {
      assert xs[..k] == init[..k] && xs[k] == init[k];
    }
    if OnSteps(xs, g) {
      assert g(xs[..|init|], xs[|init|]);
      forall k | 0 <= k < |init| ensures g(init[..k], init[k]) {
        assert g(xs[..k], xs[k]);
      }
    }
    if OnSteps(init, g) && g(init, last) {
      forall k | 0 <= k < |xs| ensures g(xs[..k], xs[k]) {
        assert k < |init| ==> g(init[..k], init[k]);
      }
    }
  }

  /** If `g` is exactly what carries `p` over one more element, `p` holds on all prefixes if and only if `g` holds at all steps. */
  lemma {:induction false} PrefixesIffSteps<T(!new)>(xs: seq<T>, p: seq<T> -> bool, g: (seq<T>, T) -> bool)
    requires p([])
    requires forall ys, x :: p(ys) ==> (p(ys + [x]) <==> g(ys, x))
    ensures OnPrefixes(xs, p) <==> OnSteps(xs, g)
  {
    if xs == [] {
      assert xs[..0] == [];
    } else {
      var init, last := xs[..|xs| - 1], xs[|xs| - 1];
      assert xs == init + [last];
      PrefixesIffSteps(init, p, g);
      PrefixesAppend(init, last, p);
      StepsAppend(init, last, g);
      assert init[..|init|] == init;
    }
  }
}

/** Results of grouped queries, in whatever order the database returns the groups, and sorting by a key. */
module Grouping {
  import opened Seqs

  /** `rows` holds one row per key that occurs in `xs`, with the sum of that key's summands. */
  ghost predicate Groups<T(!new), K, R(!new)>(rows: seq<R>, rowKey: R -> K, value: R -> int, xs: seq<T>, key: T -> K, f: T -> int) {
    && DistinctBy(rows, rowKey)
    && (forall r :: r in rows ==> value(r) == GroupSum(xs, key, f)(rowKey(r)))
    && (forall x :: x in xs ==> exists r :: r in rows && rowKey(r) == key(x))
  }

  function KeyIn<K, R>(rowKey: R -> K, p: K -> bool): R -> bool {
    (r: R) => p(rowKey(r))
  }

  /** Summing the groups whose key satisfies `p` is summing the elements whose key does. */
  lemma GroupedSumWhere<T(!new), K(!new), R(!new)>(
    rows: seq<R>, rowKey: R -> K, value: R -> int, xs: seq<T>, key: T -> K, f: T -> int,
    p: K -> bool, g: R -> int, h: T -> int)
    requires Groups(rows, rowKey, value, xs, key, f)
    requires forall r :: r in rows ==> g(r) == if p(rowKey(r)) then value(r) else 0
    requires forall x :: x in xs ==> h(x) == if p(key(x)) then f(x) else 0
    ensures SumBy(rows, g) == SumBy(xs, h)
  {
    var kept := Filter(rows, KeyIn(rowKey, p));
    var keys := Map(kept, rowKey);
    DistinctByFilter(rows, KeyIn(rowKey, p), rowKey);
    FilterMembers(rows, KeyIn(rowKey, p));
    GroupSumsAddUp(keys, xs, key, f);
    SumByMap(kept, rowKey, GroupSum(xs, key, f), value);
    SumByFilter(rows, KeyIn(rowKey, p), value, g);
    forall x | x in xs ensures RestrictTo(key, keys, f)(x) == h(x) {
      KeysOfKept(rows, rowKey, p, kept, keys, key(x));
    }
    SumByEqual(xs, RestrictTo(key, keys, f), h);
  }

  lemma KeysOfKept<K, R(!new)>(rows: seq<R>, rowKey: R -> K, p: K -> bool, kept: seq<R>, keys: seq<K>, k: K)
    requires exists r :: r in rows && rowKey(r) == k
    requires forall r :: r in kept <==> r in rows && p(rowKey(r))
    requires keys == Map(kept, rowKey)
    ensures k in keys <==> p(k)
  {
  }

  // ---- Sorting ----

  predicate Ascending<T>(xs: seq<T>, key: T -> real) {
    forall i, j :: 0 <= i < j < |xs| ==> key(xs[i]) <= key(xs[j])
  }

  lemma AppendAscending<T>(xs: seq<T>, x: T, key: T -> real)
    requires Ascending(xs, key) && forall e :: e in xs ==> key(e) <= key(x)
    ensures Ascending(xs + [x], key)
  {
  }

  method Insert<T(==)>(ys: seq<T>, x: T, key: T -> real) returns (zs: seq<T>)
    requires Ascending(ys, key)
    ensures multiset(zs) == multiset(ys) + multiset{x}
    ensures Ascending(zs, key)
  {
    if ys == [] || key(ys[|ys| - 1]) <= key(x) {
      AppendAscending(ys, x, key);
      zs := ys + [x];
    } else {
      var init, last := ys[..|ys| - 1], ys[|ys| - 1];
      assert ys == init + [last];
      var rest := Insert(init, x, key);
      forall e | e in rest ensures key(e) <= key(last) {
        assert e in multiset(rest);
        assert e in init || e == x;
      }
      AppendAscending(rest, last, key);
      zs := rest + [last];
    }
  }

  lemma {:induction false} OnceInMultiset<T, K>(xs: seq<T>, key: T -> K, x: T)
    requires DistinctBy(xs, key)
    ensures multiset(xs)[x] <= 1
  {
    if xs != [] {
      var init, last := xs[..|xs| - 1], xs[|xs| - 1];
      assert xs == init + [last];
      OnceInMultiset(init, key, x);
      forall y | y in init ensures y != last {
        var i :| 0 <= i < |init| && init[i] == y;
        assert key(xs[i]) != key(xs[|xs| - 1]);
      }
      assert last !in init && last !in multiset(init);
    }
  }

  /** Reordering keeps keys distinct. */
  lemma PermutationIsDistinct<T, K>(xs: seq<T>, ys: seq<T>, key: T -> K)
    requires DistinctBy(xs, key) && multiset(xs) == multiset(ys)
    ensures DistinctBy(ys, key)
  {
    forall i, j | 0 <= i < j < |ys| ensures key(ys[i]) != key(ys[j]) {
      assert ys[i] in multiset(ys) && ys[j] in multiset(ys);
      assert ys[i] in xs && ys[j] in xs;
      if ys[i] == ys[j] {
        assert ys == ys[..j] + ys[j..];
        assert ys[i] in ys[..j] && ys[j] in ys[j..];
        OnceInMultiset(xs, key, ys[i]);
      }
    }
  }

  /** Stands for the library's unstable sort: callers know no more than this contract. */
  method Sort<T(==)>(xs: seq<T>, key: T -> real) returns (ys: seq<T>)
    ensures multiset(ys) == multiset(xs)
    ensures Ascending(ys, key)
  {
    ys := [];
    for i := 0 to |xs|
      invariant multiset(ys) == multiset(xs[..i])
      invariant Ascending(ys, key)
    {
      assert xs[..i + 1] == xs[..i] + [xs[i]];
      ys := Insert(ys, xs[i], key);
    }
    assert xs[..|xs|] == xs;
  }
}

/** Payout arithmetic, with the 64-bit and 32-bit integers of the source. */
module WalletMath {
  import opened Seqs

  const MAX_INT32 := 0x7fff_ffff
  const MAX_INT64 := 0x7fff_ffff_ffff_ffff

  /** Conversion to a 32-bit integer keeps the low bits. */
  function Wrap32(n: int): (r: int)
    ensures -MAX_INT32 - 1 <= r <= MAX_INT32
    ensures -MAX_INT32 - 1 <= n <= MAX_INT32 ==> r == n
  {
    (n + 0x8000_0000) % 0x1_0000_0000 - 0x8000_0000
  }

  /** 64-bit arithmetic keeps the low bits. */
  function Wrap64(n: int): (r: int)
    ensures -MAX_INT64 - 1 <= r <= MAX_INT64
    ensures -MAX_INT64 - 1 <= n <= MAX_INT64 ==> r == n
  {
    (n + 0x8000_0000_0000_0000) % 0x1_0000_0000_0000_0000 - 0x8000_0000_0000_0000
  }

  /** A conversion changes the value by a multiple of two to the number of bits. */
  lemma WrappingIsCongruent(n: int) returns (k: int, l: int)
    ensures n == Wrap32(n) + k * 0x1_0000_0000
    ensures n == Wrap64(n) + l * 0x1_0000_0000_0000_0000
  {
    k := (n + 0x8000_0000) / 0x1_0000_0000;
    l := (n + 0x8000_0000_0000_0000) / 0x1_0000_0000_0000_0000;
  }

  /** Division of the source truncates toward zero. */
  function Quotient(n: int, d: int): int
    requires d > 0
  {
    if n >= 0 then n / d else -((-n) / d)
  }

  function FrequencyPerWeek(kind: string, days: seq<string>): nat {
    match kind
    case "daily" => 7
    case "weekdays" => 5
    case "specific_days" => |days|
    case "weekly" => 1
    case _ => 0
  }

  /** A chore's weight and how often it is due in a week. */
  datatype Plan = Plan(weight: int, frequency: int)

  function Share(p: Plan): int {
    if p.weight < 0 || p.frequency < 0 then 0 else p.weight * p.frequency
  }

  function Divisor(plans: seq<Plan>): int {
    SumBy(plans, Share)
  }

  predicate Usable(p: Plan) {
    p.weight >= 0 && p.frequency >= 0
  }

  function Product(p: Plan): int { p.weight * p.frequency }

  /** The divisor is the total of weight times frequency over the entries where neither is negative. */
  lemma DivisorSkipsNegative(plans: seq<Plan>)
    ensures Divisor(plans) == SumBy(Filter(plans, Usable), Product)
  {
    SumByFilter(plans, Usable, Product, Share);
  }

  method WeeklyDivisor(weights: seq<int>, frequencies: seq<int>) returns (d: int)
    ensures |weights| != |frequencies| ==> d == 0
    ensures |weights| == |frequencies| ==>
      d == Divisor(seq(|weights|, i requires 0 <= i < |weights| => Plan(weights[i], frequencies[i])))
  {
    if |weights| != |frequencies| {
      return 0;
    }
    ghost var plans := seq(|weights|, i requires 0 <= i < |weights| => Plan(weights[i], frequencies[i]));
    d := 0;
    for i := 0 to |weights|
      invariant d == Divisor(plans[..i])
    {
      SumByAppend(plans[..i], plans[i], Share);
      assert plans[..i + 1] == plans[..i] + [plans[i]];
      if weights[i] < 0 || frequencies[i] < 0 {
        continue;
      }
      d := d + weights[i] * frequencies[i];
    }
    assert plans[..|weights|] == plans;
  }

  function PerInstancePayout(allowance: int, weight: int, divisor: int): int {
    if allowance <= 0 || weight <= 0 || divisor <= 0 then 0
    else Quotient(Wrap64(allowance * weight), divisor)
  }

  /** Ten percent, rounded half up; nothing on a total that is not positive. */
  function StreakBonus(weekTotal: int): (r: nat)
    ensures weekTotal > 0 ==> -5 <= weekTotal - 10 * r <= 4
    ensures weekTotal <= 0 ==> r == 0
  {
    if weekTotal <= 0 then 0 else (weekTotal + 5) / 10
  }

  lemma QuotientBounds(n: nat, d: int)
    requires d > 0
    ensures Quotient(n, d) * d <= n < Quotient(n, d) * d + d
  {
  }

  /** The payout is the floor of the exact share precisely when the product fits 64 bits. */
  lemma PayoutIsFloorIff(allowance: int, weight: int, divisor: int)
    requires 0 < allowance && 0 < weight && 0 < divisor <= MAX_INT64
    ensures PerInstancePayout(allowance, weight, divisor) == (allowance * weight) / divisor
      <==> allowance * weight <= MAX_INT64
  {
    var x := allowance * weight;
    assert x > 0;
    var y := Wrap64(x);
    if x > MAX_INT64 {
      assert x - y >= 0x1_0000_0000_0000_0000;
      QuotientBounds(x, divisor);
      if y >= 0 {
        QuotientBounds(y, divisor);
      } else {
        assert (-y) / divisor >= 0;
      }
    }
  }

  // ---- A full week pays out the allowance and no more ----

  function FrequencyOf(p: Plan): int { p.frequency }

  /** What a chore pays when every instance of the week is completed. */
  function FullWeek(allowance: int, divisor: int): Plan -> int {
    (p: Plan) => p.frequency * PerInstancePayout(allowance, p.weight, divisor)
  }

  predicate Sound(allowance: int, p: Plan) {
    0 <= p.weight && 0 <= p.frequency && allowance * p.weight <= MAX_INT64
  }

  lemma Distributes(x: int, y: int, d: int)
    ensures (x + y) * d == x * d + y * d
  {
  }

  lemma MulLe(x: int, y: int, z: nat)
    requires x <= y
    ensures z * x <= z * y
  {
  }

  /** One payout rounded down from its exact share, taken `f` times. */
  lemma ScaledShare(pay: int, exact: int, divisor: int, f: nat)
    requires divisor > 0 && pay * divisor <= exact < pay * divisor + divisor
    ensures (f * pay) * divisor <= f * exact <= (f * pay + f) * divisor
    ensures f > 0 ==> f * exact < (f * pay + f) * divisor
  {
    MulLe(pay * divisor, exact, f);
    MulLe(exact + 1, pay * divisor + divisor, f);
    assert f * (pay * divisor) == (f * pay) * divisor;
    Distributes(f * pay, f, divisor);
    assert f * (pay * divisor + divisor) == f * (pay * divisor) + f * divisor;
    assert f * (exact + 1) == f * exact + f;
  }

  lemma PayoutRoundsDown(allowance: int, divisor: int, p: Plan)
    requires 0 < allowance && 0 < divisor && Sound(allowance, p)
    ensures var pay := PerInstancePayout(allowance, p.weight, divisor);
      pay * divisor <= allowance * p.weight < pay * divisor + divisor
  {
    assert allowance * p.weight >= 0;
    if p.weight > 0 {
      QuotientBounds(allowance * p.weight, divisor);
    }
  }

  lemma ChoreSharesAllowance(allowance: int, divisor: int, p: Plan)
    requires 0 < allowance && 0 < divisor && Sound(allowance, p)
    ensures var pay := FullWeek(allowance, divisor)(p);
      && pay * divisor <= allowance * Share(p) <= (pay + p.frequency) * divisor
      && (Share(p) > 0 ==> allowance * Share(p) < (pay + p.frequency) * divisor)
  {
    PayoutRoundsDown(allowance, divisor, p);
    ScaledShare(PerInstancePayout(allowance, p.weight, divisor), allowance * p.weight, divisor, p.frequency);
    assert p.frequency * (allowance * p.weight) == allowance * Share(p);
    assert p.frequency == 0 ==> Share(p) == 0;
  }

  lemma {:induction false} ChoresShareAllowance(allowance: int, divisor: int, plans: seq<Plan>)
    requires 0 < allowance && 0 < divisor && forall p :: p in plans ==> Sound(allowance, p)
    ensures var paid, shares, instances :=
        SumBy(plans, FullWeek(allowance, divisor)), Divisor(plans), SumBy(plans, FrequencyOf);
      && 0 <= shares
      && paid * divisor <= allowance * shares <= (paid + instances) * divisor
      && (shares > 0 ==> allowance * shares < (paid + instances) * divisor)
  {
    if plans != [] {
      var init, p := plans[..|plans| - 1], plans[|plans| - 1];
      assert p in plans && forall q :: q in init ==> q in plans;
      ChoresShareAllowance(allowance, divisor, init);
      ChoreSharesAllowance(allowance, divisor, p);
      AddShares(SumBy(init, FullWeek(allowance, divisor)), SumBy(init, FrequencyOf), Divisor(init),
                FullWeek(allowance, divisor)(p), p.frequency, Share(p), allowance, divisor);
    }
  }

  lemma AddShares(paid: int, instances: int, shares: int, pay: int, frequency: int, share: int, allowance: int, divisor: int)
    requires 0 <= shares && 0 <= share
    requires paid * divisor <= allowance * shares <= (paid + instances) * divisor
    requires pay * divisor <= allowance * share <= (pay + frequency) * divisor
    requires shares > 0 ==> allowance * shares < (paid + instances) * divisor
    requires share > 0 ==> allowance * share < (pay + frequency) * divisor
    ensures var (p, i, s) := (paid + pay, instances + frequency, shares + share);
      && p * divisor <= allowance * s <= (p + i) * divisor
      && (s > 0 ==> allowance * s < (p + i) * divisor)
  {
    Distributes(paid, pay, divisor);
    Distributes(shares, share, allowance);
    Distributes(paid + instances, pay + frequency, divisor);
  }

  lemma CancelDivisor(x: int, y: int, d: int)
    requires d > 0
    ensures x * d <= y * d <==> x <= y
    ensures x * d < y * d <==> x < y
  {
  }

  /**
   When a member completes every instance of every active chore in a week, the payouts add up to at
   most the weekly allowance, and fall short of it by less than one cent per instance.
   */
  lemma FullWeekPaysTheAllowance(allowance: int, plans: seq<Plan>)
    requires 0 < allowance && 0 < Divisor(plans) && forall p :: p in plans ==> Sound(allowance, p)
    ensures var paid := SumBy(plans, FullWeek(allowance, Divisor(plans)));
      allowance - SumBy(plans, FrequencyOf) < paid <= allowance
  {
    var d := Divisor(plans);
    var paid, instances := SumBy(plans, FullWeek(allowance, d)), SumBy(plans, FrequencyOf);
    ChoresShareAllowance(allowance, d, plans);
    CancelDivisor(paid, allowance, d);
    CancelDivisor(allowance, paid + instances, d);
  }
}

/** The chore service, the wallet credit and the week-end batch as they run, over tables that change in place. */
module ChoreStore {
  import opened Common
  import opened Seqs
  import opened Ledger
  import opened WalletMath
  import opened Chores
  import opened WeekEnd

  function Lookup(groups: map<Uuid, seq<Completion>>, chore: Uuid): seq<Completion> {
    if chore in groups then groups[chore] else []
  }

  lemma GroupStep(groups: map<Uuid, seq<Completion>>, week: seq<Completion>, c: Completion, id: Uuid)
    requires Lookup(groups, id) == Filter(week, OfChore(id))
    ensures var after := groups[c.chore := Lookup(groups, c.chore) + [c]];
      Lookup(after, id) == Filter(week + [c], OfChore(id))
  {
  }

  ghost predicate Groups(groups: map<Uuid, seq<Completion>>, week: seq<Completion>) {
    forall id: Uuid :: Lookup(groups, id) == Filter(week, OfChore(id))
  }

  method GroupByChore(week: seq<Completion>) returns (groups: map<Uuid, seq<Completion>>)
    ensures Groups(groups, week)
  {
    groups := map[];
    for i := 0 to |week|
      invariant Groups(groups, week[..i])
    {
      var c := week[i];
      forall id: Uuid
        ensures Lookup(groups[c.chore := Lookup(groups, c.chore) + [c]], id) == Filter(week[..i] + [c], OfChore(id))
      {
        GroupStep(groups, week[..i], c, id);
      }
      assert week[..i + 1] == week[..i] + [c];
      groups := groups[c.chore := Lookup(groups, c.chore) + [c]];
    }
    assert week[..|week|] == week;
  }

  method TotalPayout(done: seq<Completion>) returns (total: int)
    ensures total == SumBy(done, PayoutOf)
  {
    total := 0;
    for i := 0 to |done|
      invariant total == SumBy(done[..i], PayoutOf)
    {
      assert done[..i + 1] == done[..i] + [done[i]];
      SumByAppend(done[..i], done[i], PayoutOf);
      total := total + done[i].payout;
    }
    assert done[..|done|] == done;
  }

  /** The divisor over the member's active chores, from two arrays filled in step. */
  method DivisorOf(siblings: seq<Chore>) returns (d: int)
    ensures d == Divisor(Map(siblings, PlanOf))
  {
    var weights, frequencies := new int[|siblings|], new int[|siblings|];
    for i := 0 to |siblings|
      invariant forall k :: 0 <= k < i ==>
        weights[k] == siblings[k].weight && frequencies[k] == FrequencyPerWeek(siblings[k].kind, siblings[k].days)
    {
      weights[i] := siblings[i].weight;
      frequencies[i] := FrequencyPerWeek(siblings[i].kind, siblings[i].days);
    }
    ghost var w, f := weights[..], frequencies[..];
    assert seq(|w|, i requires 0 <= i < |w| => Plan(w[i], f[i])) == Map(siblings, PlanOf);
    d := WeeklyDivisor(weights[..], frequencies[..]);
  }

  class Store {
    var chores: seq<Chore>
    var allowances: map<Uuid, int>
    var rates: map<Uuid, int>
    var completions: seq<Completion>
    var ledger: seq<Row>
    var wallets: map<Uuid, int>
    var summaries: map<(Uuid, int), Summary>

    function Snapshot(): Tables
      reads this
    {
      Tables(chores, allowances, rates, completions, ledger, wallets, summaries)
    }

    constructor ()
      ensures Snapshot() == EMPTY
    {
      chores, allowances, rates := [], map[], map[];
      completions, ledger, wallets, summaries := [], [], map[], map[];
    }

    method Credit(row: Row) returns (ok: bool)
      modifies this`ledger, this`wallets
      ensures Snapshot() == Chores.Credit(old(Snapshot()), row)
      ensures ok <==> !Violates(old(ledger), row)
    {
      if row.member !in wallets {
        wallets := wallets[row.member := 0];
      }
      assert wallets == old(wallets)[row.member := Cached(old(wallets), row.member)];
      if Violates(ledger, row) {
        return false;
      }
      ledger := ledger + [row];
      wallets := wallets[row.member := wallets[row.member] + row.amount];
      ok := true;
    }

    method PriceOf(c: Chore) returns (price: Option<int>)
      ensures price == Price(Snapshot(), c)
    {
      var allowance := 0;
      if c.member in allowances {
        allowance := allowances[c.member];
      }
      var siblings := Filter(chores, ActiveOf(c.household, c.member));
      if allowance > 0 {
        var divisor := DivisorOf(siblings);
        price := Some(PerInstancePayout(allowance, c.weight, divisor));
      } else if c.household in rates {
        price := Some(c.weight * rates[c.household]);
      } else {
        price := None;
      }
    }

    method Complete(household: Uuid, chore: Uuid, date: int, id: Uuid) returns (outcome: Outcome)
      modifies this`completions, this`ledger, this`wallets
      ensures (Snapshot(), outcome) == Chores.Complete(old(Snapshot()), household, chore, date, id)
    {
      var found := Find(chores, ChoreIn(chore, household));
      if found.None? {
        return Failed;
      }
      var c := found.value;
      var price := PriceOf(c);
      if price.None? {
        return Failed;
      }
      var existing := Find(completions, OnDay(chore, date));
      if existing.Some? {
        return Done(existing.value);
      }
      var row := Completion(id, chore, c.member, date, c.autoApprove, Wrap32(price.value), false);
      FindSpec(chores, ChoreIn(chore, household));
      completions := completions + [row];
      if c.autoApprove && price.value > 0 {
        var credited := Credit(Row(c.member, price.value, ChorePayout, Some(id)));
        if !credited {
          return Failed;
        }
      }
      outcome := Done(row);
    }

    method Undo(chore: Uuid, date: int) returns (outcome: Outcome)
      modifies this`completions, this`ledger, this`wallets
      ensures (Snapshot(), outcome) == Chores.Undo(old(Snapshot()), chore, date)
    {
      var found := Find(completions, OnDay(chore, date));
      if found.None? || found.value.closed {
        return Failed;
      }
      var c := found.value;
      if c.payout > 0 {
        var credited := Credit(Row(c.member, -c.payout, Adjustment, Some(c.id)));
        assert credited;
      }
      completions := Filter(completions, Kept(chore, date));
      outcome := Undone;
    }

    method Recompute(member: Uuid)
      modifies this`wallets
      ensures Snapshot() == old(Snapshot()).(wallets := wallets)
      ensures wallets == if member in old(wallets) then old(wallets)[member := LedgerSum(ledger, member)] else old(wallets)
    {
      if member in wallets {
        wallets := wallets[member := SumBy(ledger, AmountFor(member))];
      }
    }

    /** A chore done as often as it was due earns its bonus. */
    method PayStreak(member: Uuid, c: Chore, done: seq<Completion>, weekTotal: int) returns (b: nat)
      modifies this`ledger, this`wallets
      ensures b == if Frequency(c) > 0 && |done| >= Frequency(c) then WalletMath.StreakBonus(weekTotal) else 0
      ensures Snapshot() == if b > 0 then Chores.Credit(old(Snapshot()), Row(member, b, StreakBonus, Some(c.id)))
                            else old(Snapshot())
    {
      b := 0;
      var frequency := FrequencyPerWeek(c.kind, c.days);
      if frequency > 0 && |done| >= frequency {
        b := WalletMath.StreakBonus(weekTotal);
        if b > 0 {
          var credited := Credit(Row(member, b, StreakBonus, Some(c.id)));
          assert credited;
        }
      }
    }

    /** The credits of one member's week, chore by chore, and the totals they run up. */
    method PayBonuses(member: Uuid, active: seq<Chore>, week: seq<Completion>)
      returns (earned: int, bonus: int, completed: int, possible: int)
      modifies this`ledger, this`wallets
      ensures Snapshot() == CreditAll(old(Snapshot()), BonusRows(member, active, week))
      ensures earned == SumBy(active, WeekTotal(week)) && bonus == SumBy(active, Bonus(week))
      ensures completed == SumBy(active, Instances(week)) && possible == SumBy(active, Frequencies)
    {
      var byChore := GroupByChore(week);
      earned, bonus, completed, possible := 0, 0, 0, 0;
      for i := 0 to |active|
        invariant Snapshot() == CreditAll(old(Snapshot()), BonusRows(member, active[..i], week))
        invariant earned == SumBy(active[..i], WeekTotal(week)) && bonus == SumBy(active[..i], Bonus(week))
        invariant completed == SumBy(active[..i], Instances(week)) && possible == SumBy(active[..i], Frequencies)
      {
        var c := active[i];
        var done := Lookup(byChore, c.id);
        assert done == Filter(week, OfChore(c.id));
        var weekTotal := TotalPayout(done);
        var b := PayStreak(member, c, done, weekTotal);
        TotalsStep(member, active, week, i);
        possible := possible + FrequencyPerWeek(c.kind, c.days);
        completed := completed + |done|;
        earned := earned + weekTotal;
        bonus := bonus + b;
      }
      assert active[..|active|] == active;
    }

    method ProcessMemberWeek(household: Uuid, member: Uuid, from: int, to: int)
      modifies this`completions, this`ledger, this`wallets, this`summaries
      ensures Snapshot() == CloseWeek(old(Snapshot()), household, member, from, to)
    {
      var active := Filter(chores, ActiveOf(household, member));
      var week := Filter(completions, InWeek(member, from, to));
      var earned, bonus, completed, possible := PayBonuses(member, active, week);
      completions := Map(completions, Closing(member, from, to));
      var owner := household;
      if (member, from) in summaries {
        owner := summaries[(member, from)].household;
      }
      summaries := summaries[(member, from) := Summary(owner, earned, bonus, Wrap32(completed), Wrap32(possible))];
    }

    method RunForHousehold(household: Uuid, members: seq<Uuid>, today: int)
      modifies this`completions, this`ledger, this`wallets, this`summaries
      ensures Snapshot() == WeekEnd.RunForHousehold(old(Snapshot()), household, members, today)
    {
      var (from, to) := LastFullWeek(today);
      for i := 0 to |members|
        invariant Snapshot() == WeekEnd.RunForHousehold(old(Snapshot()), household, members[..i], today)
      {
        assert members[..i + 1][..i] == members[..i];
        ProcessMemberWeek(household, members[i], from, to);
      }
      assert members[..|members|] == members;
    }
  }

  /** One more chore adds its own summands and, when it earns a bonus, its row. */
  lemma TotalsStep(member: Uuid, active: seq<Chore>, week: seq<Completion>, i: nat)
    requires i < |active|
    ensures var c, before, after := active[i], active[..i], active[..i + 1];
      && SumBy(after, WeekTotal(week)) == SumBy(before, WeekTotal(week)) + WeekTotal(week)(c)
      && SumBy(after, Bonus(week)) == SumBy(before, Bonus(week)) + BonusFor(week, c)
      && SumBy(after, Instances(week)) == SumBy(before, Instances(week)) + Instances(week)(c)
      && SumBy(after, Frequencies) == SumBy(before, Frequencies) + Frequency(c)
      && (BonusFor(week, c) == 0 ==> BonusRows(member, after, week) == BonusRows(member, before, week))
      && (BonusFor(week, c) > 0 ==>
            var rows := BonusRows(member, after, week);
            && rows != []
            && rows[..|rows| - 1] == BonusRows(member, before, week)
            && rows[|rows| - 1] == Row(member, BonusFor(week, c), StreakBonus, Some(c.id)))
  {
    var c, before := active[i], active[..i];
    assert active[..i + 1] == before + [c];
    SumByAppend(before, c, WeekTotal(week));
    SumByAppend(before, c, Bonus(week));
    SumByAppend(before, c, Instances(week));
    SumByAppend(before, c, Frequencies);
    FilterAppend(before, c, EarnsBonus(week));
  }
}

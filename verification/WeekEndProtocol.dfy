/**
 The week-end batch among other calls: it lists a member's week with one statement, and closes it with a
 later one. Between the two, completions may be inserted and deleted.
 */
module WeekEndProtocol {
  import opened Common
  import opened Seqs
  import opened Chores
  import opened WeekEnd
  import opened P = ChoreProtocol
  import R = ChoreRaces

  /** The row a step inserts. */
  function InsertedBy(s: State, a: Action): Option<Completion> {
    if a.Advance? && a.p < |s.calls| && s.calls[a.p].Insert? then
      var pc := s.calls[a.p];
      if Find(s.completions, OnDay(pc.c.id, pc.date)).None? then Some(NewRow(pc.c, pc.date, pc.price, pc.id)) else None
    else None
  }

  /** The row a step deletes. */
  function RemovedBy(s: State, a: Action): Option<Completion> {
    if a.Advance? && a.p < |s.calls| && s.calls[a.p].Delete? then
      Deletable(s.completions, s.calls[a.p].row.chore, s.calls[a.p].row.date)
    else None
  }

  function Worth(c: Option<Completion>, f: Completion -> int): int {
    if c.Some? then f(c.value) else 0
  }

  function TotalInserted(s: State, actions: seq<Action>, f: Completion -> int): int {
    if actions == [] then 0
    else
      var init := actions[..|actions| - 1];
      TotalInserted(s, init, f) + Worth(InsertedBy(Run(s, init), actions[|actions| - 1]), f)
  }

  function TotalRemoved(s: State, actions: seq<Action>, f: Completion -> int): int {
    if actions == [] then 0
    else
      var init := actions[..|actions| - 1];
      TotalRemoved(s, init, f) + Worth(RemovedBy(Run(s, init), actions[|actions| - 1]), f)
  }

  ghost predicate IgnoresClosing(f: Completion -> int) {
    forall c: Completion :: f(c.(closed := true)) == f(c)
  }

  lemma CountedIgnoresClosing(member: Uuid, from: int, to: int, ids: seq<Uuid>, amount: Completion -> int)
    requires IgnoresClosing(amount)
    ensures IgnoresClosing(Counted(member, from, to, ids, amount))
  {
    var f := Counted(member, from, to, ids, amount);
    forall c: Completion ensures f(c.(closed := true)) == f(c) {
      assert InWeek(member, from, to)(c.(closed := true)) == InWeek(member, from, to)(c);
      assert amount(c.(closed := true)) == amount(c);
    }
  }

  lemma StepMovesTotal(s: State, a: Action, f: Completion -> int)
    requires UniqueSlots(s) && IgnoresClosing(f)
    ensures SumBy(Step(s, a).completions, f) == SumBy(s.completions, f) + Worth(InsertedBy(s, a), f) - Worth(RemovedBy(s, a), f)
  {
    match a
    case Advance(p) =>
      if InsertedBy(s, a).Some? {
        SumByAppend(s.completions, InsertedBy(s, a).value, f);
      } else if p < |s.calls| && s.calls[p].Delete? {
        DeleteTakesAway(s.completions, s.calls[p].row.chore, s.calls[p].row.date, f);
      }
    case Close(m, from, to) =>
      forall c | c in s.completions ensures f(Closing(m, from, to)(c)) == f(c) {
        assert f(c.(closed := true)) == f(c);
      }
      SumByMap(s.completions, Closing(m, from, to), f, f);
    case _ =>
  }

  /** Over any run a total over the completions moves by what is inserted and what is deleted. */
  lemma {:induction false} RunMovesTotal(s: State, actions: seq<Action>, f: Completion -> int)
    requires UniqueSlots(s) && IgnoresClosing(f)
    ensures UniqueSlots(Run(s, actions))
    ensures SumBy(Run(s, actions).completions, f)
         == SumBy(s.completions, f) + TotalInserted(s, actions, f) - TotalRemoved(s, actions, f)
  {
    if actions != [] {
      var init, a := actions[..|actions| - 1], actions[|actions| - 1];
      RunMovesTotal(s, init, f);
      StepKeepsSlots(Run(s, init), a);
      StepMovesTotal(Run(s, init), a, f);
    }
  }

  /** What the batch stores as earned when it lists the week in the tables `t`. */
  function Earned(t: Tables, household: Uuid, member: Uuid, from: int, to: int): int {
    SummaryOf(t.summaries, household, member, from, Active(t, household, member), Week(t, member, from, to)).earned
  }

  lemma EarnedIsCounted(t: Tables, household: Uuid, member: Uuid, from: int, to: int)
    requires Keys(t)
    ensures var ids := Map(Active(t, household, member), ChoreId);
      Earned(t, household, member, from, to) == SumBy(t.completions, Counted(member, from, to, ids, PayoutOf))
  {
    SummaryCountsActiveChores(t, household, member, from, to);
  }

  /** Closing changes no total, so the totals at listing and after closing differ by what came between. */
  lemma ClosedTotal(s: State, actions: seq<Action>, member: Uuid, from: int, to: int, f: Completion -> int)
    requires UniqueSlots(s) && IgnoresClosing(f)
    ensures SumBy(Step(Run(s, actions), Close(member, from, to)).completions, f)
         == SumBy(s.completions, f) + TotalInserted(s, actions, f) - TotalRemoved(s, actions, f)
  {
    RunMovesTotal(s, actions, f);
    StepMovesTotal(Run(s, actions), Close(member, from, to), f);
  }

  lemma WeekEndsUpClosed(s: State, member: Uuid, from: int, to: int, c: Completion)
    requires c in Step(s, Close(member, from, to)).completions && InWeek(member, from, to)(c)
    ensures c.closed
  {
  }

  /**
   Earned is what the batch closes, of the chores it listed, less what was inserted and plus what was
   deleted between its listing and its closing; the two agree exactly when these balance.
   */
  lemma EarnedAgainstClosed(t: Tables, s: State, actions: seq<Action>, household: Uuid, member: Uuid, from: int, to: int)
    requires Keys(t) && s.completions == t.completions
    ensures var f := Counted(member, from, to, Map(Active(t, household, member), ChoreId), PayoutOf);
      var closed := Step(Run(s, actions), Close(member, from, to)).completions;
      var earned := Earned(t, household, member, from, to);
      var inserted, removed := TotalInserted(s, actions, f), TotalRemoved(s, actions, f);
      && (forall c :: c in closed && InWeek(member, from, to)(c) ==> c.closed)
      && earned == SumBy(closed, f) - inserted + removed
      && (earned == SumBy(closed, f) <==> inserted == removed)
  {
    var ids := Map(Active(t, household, member), ChoreId);
    EarnedIsCounted(t, household, member, from, to);
    CountedIgnoresClosing(member, from, to, ids, PayoutOf);
    ClosedTotal(s, actions, member, from, to, Counted(member, from, to, ids, PayoutOf));
    forall c | c in Step(Run(s, actions), Close(member, from, to)).completions && InWeek(member, from, to)(c) ensures c.closed {
      WeekEndsUpClosed(Run(s, actions), member, from, to, c);
    }
  }

  // ---- Exactly when the earnings stand ----

  /** A step leaves a total alone: what it inserts or deletes counts for nothing in it. */
  predicate Weightless(s: State, a: Action, f: Completion -> int) {
    Worth(InsertedBy(s, a), f) == 0 && Worth(RemovedBy(s, a), f) == 0
  }

  /** A total stays what it was throughout a run if and only if every insert and every DELETE counts for nothing in it. */
  lemma TotalStaysIff(s: State, actions: seq<Action>, f: Completion -> int)
    requires UniqueSlots(s) && IgnoresClosing(f)
    ensures OnPrefixes(actions, (prefix: seq<Action>) => SumBy(Run(s, prefix).completions, f) == SumBy(s.completions, f))
       <==> OnSteps(actions, (prefix: seq<Action>, a: Action) => Weightless(Run(s, prefix), a, f))
  {
    var p := (prefix: seq<Action>) => SumBy(Run(s, prefix).completions, f) == SumBy(s.completions, f);
    var g := (prefix: seq<Action>, a: Action) => Weightless(Run(s, prefix), a, f);
    forall prefix, a | p(prefix) ensures p(prefix + [a]) <==> g(prefix, a) {
      assert (prefix + [a])[..|prefix|] == prefix;
      RunMovesTotal(s, prefix, f);
      StepMovesTotal(Run(s, prefix), a, f);
    }
    PrefixesIffSteps(actions, p, g);
  }

  /** The batch's listed chores and the payouts that count for it. */
  function Earning(t: Tables, household: Uuid, member: Uuid, from: int, to: int): Completion -> int {
    Counted(member, from, to, Map(Active(t, household, member), ChoreId), PayoutOf)
  }

  /**
   Wherever the closing falls, earned is what it closes, if and only if nothing with a payout is inserted
   into the member's week or deleted from it, among the listed chores, since the listing.
   */
  lemma EarnedStandsIff(t: Tables, s: State, actions: seq<Action>, household: Uuid, member: Uuid, from: int, to: int)
    requires Keys(t) && s.completions == t.completions
    ensures var f := Earning(t, household, member, from, to);
      OnPrefixes(actions, (prefix: seq<Action>) =>
        Earned(t, household, member, from, to) == SumBy(Step(Run(s, prefix), Close(member, from, to)).completions, f))
      <==> OnSteps(actions, (prefix: seq<Action>, a: Action) => Weightless(Run(s, prefix), a, f))
  {
    var f := Earning(t, household, member, from, to);
    EarnedIsCounted(t, household, member, from, to);
    CountedIgnoresClosing(member, from, to, Map(Active(t, household, member), ChoreId), PayoutOf);
    TotalStaysIff(s, actions, f);
    forall prefix: seq<Action>
      ensures SumBy(Step(Run(s, prefix), Close(member, from, to)).completions, f) == SumBy(Run(s, prefix).completions, f)
    {
      ClosedTotal(s, prefix, member, from, to, f);
      RunMovesTotal(s, prefix, f);
    }
  }

  // ---- Exactly when a streak stands ----

  /** The bonus of a chore due `due` times and done `n` times for `total`. */
  function BonusOn(due: nat, n: int, total: int): nat {
    if due > 0 && n >= due then WalletMath.StreakBonus(total) else 0
  }

  predicate CountsFor(d: Completion, member: Uuid, from: int, to: int, c: Chore) {
    d.member == member && from <= d.date <= to && d.chore == c.id
  }

  function TimesDone(member: Uuid, from: int, to: int, c: Chore): Completion -> int {
    (d: Completion) => if CountsFor(d, member, from, to, c) then 1 else 0
  }

  function PaidFor(member: Uuid, from: int, to: int, c: Chore): Completion -> int {
    (d: Completion) => if CountsFor(d, member, from, to, c) then d.payout else 0
  }

  /** The bonus that the week deserves as it stands. */
  function Deserved(s: State, member: Uuid, from: int, to: int, c: Chore): nat {
    BonusFor(Filter(s.completions, InWeek(member, from, to)), c)
  }

  lemma DeservedIsOnTotals(s: State, member: Uuid, from: int, to: int, c: Chore)
    ensures Deserved(s, member, from, to, c)
         == BonusOn(Frequency(c), SumBy(s.completions, TimesDone(member, from, to, c)),
                    SumBy(s.completions, PaidFor(member, from, to, c)))
  {
    var week := Filter(s.completions, InWeek(member, from, to));
    SumOfOnes(Filter(week, OfChore(c.id)), One);
    forall d: Completion
      ensures Restrict(ChoreOf, c.id, One)(d) == if d.chore == c.id then 1 else 0
      ensures Restrict(ChoreOf, c.id, PayoutOf)(d) == if d.chore == c.id then d.payout else 0
    {
      assert ChoreOf(d) == d.chore && One(d) == 1 && PayoutOf(d) == d.payout;
    }
    SumByFilter(week, OfChore(c.id), One, Restrict(ChoreOf, c.id, One));
    SumByFilter(s.completions, InWeek(member, from, to), Restrict(ChoreOf, c.id, One), TimesDone(member, from, to, c));
    SumByFilter(week, OfChore(c.id), PayoutOf, Restrict(ChoreOf, c.id, PayoutOf));
    SumByFilter(s.completions, InWeek(member, from, to), Restrict(ChoreOf, c.id, PayoutOf), PaidFor(member, from, to, c));
  }

  /** One more completion keeps the bonus: still too few, just enough for nothing, or the same after rounding. */
  predicate MoreKeeps(due: nat, n: int, total: int, payout: int) {
    due == 0 || n + 1 < due
    || (if n + 1 == due then total + payout < 5 else WalletMath.StreakBonus(total + payout) == WalletMath.StreakBonus(total))
  }

  /** One completion fewer keeps the bonus: too few before, just enough for nothing, or the same after rounding. */
  predicate FewerKeeps(due: nat, n: int, total: int, payout: int) {
    due == 0 || n < due
    || (if n == due then total < 5 else WalletMath.StreakBonus(total - payout) == WalletMath.StreakBonus(total))
  }

  lemma KeepsIff(due: nat, n: int, total: int, payout: int)
    ensures MoreKeeps(due, n, total, payout) <==> BonusOn(due, n + 1, total + payout) == BonusOn(due, n, total)
    ensures FewerKeeps(due, n, total, payout) <==> BonusOn(due, n - 1, total - payout) == BonusOn(due, n, total)
  {
  }

  /** The guard of a step on a chore's bonus; only completions of the chore in the member's week have one. */
  predicate KeepsStreak(s: State, a: Action, member: Uuid, from: int, to: int, c: Chore) {
    var n, total := SumBy(s.completions, TimesDone(member, from, to, c)), SumBy(s.completions, PaidFor(member, from, to, c));
    var more, fewer := InsertedBy(s, a), RemovedBy(s, a);
    && (more.Some? && CountsFor(more.value, member, from, to, c) ==>
          MoreKeeps(Frequency(c), n, total, more.value.payout))
    && (fewer.Some? && CountsFor(fewer.value, member, from, to, c) ==>
          FewerKeeps(Frequency(c), n, total, fewer.value.payout))
  }

  lemma StepKeepsStreakIff(s: State, a: Action, member: Uuid, from: int, to: int, c: Chore)
    requires UniqueSlots(s)
    ensures Deserved(Step(s, a), member, from, to, c) == Deserved(s, member, from, to, c)
       <==> KeepsStreak(s, a, member, from, to, c)
  {
    var times, paid := TimesDone(member, from, to, c), PaidFor(member, from, to, c);
    var n, total := SumBy(s.completions, times), SumBy(s.completions, paid);
    DeservedIsOnTotals(s, member, from, to, c);
    DeservedIsOnTotals(Step(s, a), member, from, to, c);
    StreakIgnoresClosing(member, from, to, c);
    StepMovesTotal(s, a, times);
    StepMovesTotal(s, a, paid);
    if InsertedBy(s, a).Some? {
      KeepsIff(Frequency(c), n, total, InsertedBy(s, a).value.payout);
    } else if RemovedBy(s, a).Some? {
      KeepsIff(Frequency(c), n, total, RemovedBy(s, a).value.payout);
    }
  }

  lemma StreakIgnoresClosing(member: Uuid, from: int, to: int, c: Chore)
    ensures IgnoresClosing(TimesDone(member, from, to, c)) && IgnoresClosing(PaidFor(member, from, to, c))
  {
    var times, paid := TimesDone(member, from, to, c), PaidFor(member, from, to, c);
    forall d: Completion ensures times(d.(closed := true)) == times(d) && paid(d.(closed := true)) == paid(d) {
    }
  }

  lemma ClosingKeepsStreak(s: State, member: Uuid, from: int, to: int, c: Chore)
    requires UniqueSlots(s)
    ensures Deserved(Step(s, Close(member, from, to)), member, from, to, c) == Deserved(s, member, from, to, c)
  {
    StepKeepsStreakIff(s, Close(member, from, to), member, from, to, c);
  }

  /**
   Wherever the closing falls, the bonus computed at the listing is the one the closed week deserves, if
   and only if no completion inserted or deleted since then tips it.
   */
  lemma StreakStandsIff(s: State, actions: seq<Action>, member: Uuid, from: int, to: int, c: Chore)
    requires UniqueSlots(s)
    ensures OnPrefixes(actions, (prefix: seq<Action>) =>
        Deserved(Step(Run(s, prefix), Close(member, from, to)), member, from, to, c) == Deserved(s, member, from, to, c))
      <==> OnSteps(actions, (prefix: seq<Action>, a: Action) => KeepsStreak(Run(s, prefix), a, member, from, to, c))
  {
    var p := (prefix: seq<Action>) =>
      Deserved(Step(Run(s, prefix), Close(member, from, to)), member, from, to, c) == Deserved(s, member, from, to, c);
    var g := (prefix: seq<Action>, a: Action) => KeepsStreak(Run(s, prefix), a, member, from, to, c);
    forall prefix ensures p(prefix) <==> Deserved(Run(s, prefix), member, from, to, c) == Deserved(s, member, from, to, c) {
      RunFromKeepsSlots(s, prefix);
      ClosingKeepsStreak(Run(s, prefix), member, from, to, c);
    }
    forall prefix, a | p(prefix) ensures p(prefix + [a]) <==> g(prefix, a) {
      assert (prefix + [a])[..|prefix|] == prefix;
      RunFromKeepsSlots(s, prefix);
      StepKeepsStreakIff(Run(s, prefix), a, member, from, to, c);
    }
    PrefixesIffSteps(actions, p, g);
  }

  lemma {:induction false} RunFromKeepsSlots(s: State, actions: seq<Action>)
    requires UniqueSlots(s)
    ensures UniqueSlots(Run(s, actions))
  {
    if actions != [] {
      RunFromKeepsSlots(s, actions[..|actions| - 1]);
      StepKeepsSlots(Run(s, actions[..|actions| - 1]), actions[|actions| - 1]);
    }
  }

  // ---- A run for each way it goes wrong ----

  /** A table with one active chore in it. */
  function Only(c: Chore, completions: seq<Completion>): Tables {
    EMPTY.(chores := [c], completions := completions)
  }

  lemma OnlyRow(c: Chore, row: Completion, from: int, to: int)
    requires !c.archived && row.chore == c.id && row.member == c.member && from <= row.date <= to
    ensures Filter([row], InWeek(c.member, from, to)) == [row]
    ensures SumBy([row], Earning(Only(c, []), c.household, c.member, from, to)) == row.payout
    ensures Frequency(c) == 1 ==> BonusFor([row], c) == WalletMath.StreakBonus(row.payout)
  {
    var f := Earning(Only(c, []), c.household, c.member, from, to);
    FilterOne(c, ActiveOf(c.household, c.member));
    FilterOne(row, InWeek(c.member, from, to));
    FilterOne(row, OfChore(c.id));
    SumByOne(row, PayoutOf);
    SumByOne(row, f);
    assert f(row) == row.payout by {
      assert Map([c], ChoreId)[0] == c.id;
    }
  }

  /** A week with this one completion, or with none, earns its payout, or nothing. */
  lemma OnlyEarns(c: Chore, completions: seq<Completion>, from: int, to: int)
    requires !c.archived && |completions| <= 1
    requires forall row :: row in completions ==> row.chore == c.id && row.member == c.member && from <= row.date <= to
    ensures Keys(Only(c, completions))
    ensures Earned(Only(c, completions), c.household, c.member, from, to) == if completions == [] then 0 else completions[0].payout
  {
    var t := Only(c, completions);
    EarnedIsCounted(t, c.household, c.member, from, to);
    if completions != [] {
      assert completions == [completions[0]];
      OnlyRow(c, completions[0], from, to);
    }
  }

  /**
   A completion inserted after the listing is closed, and missing from what is stored as earned; a weekly
   chore loses its streak bonus with it.
   */
  lemma MissedRun(c: Chore, price: int, date: int, id: Uuid, from: int, to: int)
    requires R.Fair(c, price) && !c.archived && from <= date <= to
    ensures var t := Only(c, START.completions);
      var after := Step(Run(START, [StartComplete(c, price, date, id), Advance(0)]), Close(c.member, from, to));
      && Keys(t) && Earned(t, c.household, c.member, from, to) == 0
      && after.completions == [NewRow(c, date, price, id).(closed := true)]
      && SumBy(after.completions, Earning(t, c.household, c.member, from, to)) == price
      && (Frequency(c) == 1 ==>
            && Deserved(START, c.member, from, to, c) == 0
            && Deserved(after, c.member, from, to, c) == WalletMath.StreakBonus(price))
  {
    var row := NewRow(c, date, price, id);
    R.RunOfTwo(START, StartComplete(c, price, date, id), Advance(0));
    var started := Step(START, StartComplete(c, price, date, id));
    assert started.calls == [Insert(c, price, date, id)];
    assert DoAdvance(started, 0).completions == [row];
    OnlyEarns(c, [], from, to);
    OnlyRow(c, row.(closed := true), from, to);
  }

  /**
   A completion that is charged back and deleted after the listing is stored as earned although the
   closing finds nothing; a weekly chore keeps its streak bonus.
   */
  lemma VanishedRun(c: Chore, price: int, date: int, id: Uuid, from: int, to: int)
    requires R.Fair(c, price) && !c.archived && from <= date <= to
    ensures var s := Run(START, R.CompleteActions(0, c, price, date, id) + R.ReadActions(1, c.id, date) + [Advance(1)]);
      var t := Only(c, s.completions);
      var after := Step(Run(s, [Advance(1)]), Close(c.member, from, to));
      && Keys(t) && Earned(t, c.household, c.member, from, to) == price
      && after.completions == []
      && (Frequency(c) == 1 ==>
            && Deserved(s, c.member, from, to, c) == WalletMath.StreakBonus(price)
            && Deserved(after, c.member, from, to, c) == 0)
  {
    var row := NewRow(c, date, price, id);
    var s := Charged(c, price, date, id);
    var after := Step(Run(s, [Advance(1)]), Close(c.member, from, to));
    DeletesOnly(s, row);
    assert after.completions == [];
    OnlyEarns(c, [row], from, to);
    OnlyRow(c, row, from, to);
  }

  /** An undo has written its reversal and is about to delete. */
  lemma Charged(c: Chore, price: int, date: int, id: Uuid) returns (s: State)
    requires R.Fair(c, price)
    ensures s == Run(START, R.CompleteActions(0, c, price, date, id) + R.ReadActions(1, c.id, date) + [Advance(1)])
    ensures s.completions == [NewRow(c, date, price, id)]
    ensures |s.calls| > 1 && s.calls[1] == Delete(NewRow(c, date, price, id))
  {
    var undo := R.CompleteActions(0, c, price, date, id) + R.ReadActions(1, c.id, date);
    R.OneRead(c, price, date, id);
    assert (undo + [Advance(1)])[..|undo|] == undo;
    s := Run(START, undo + [Advance(1)]);
    assert s == DoAdvance(R.OneReadState(c, price, date, id), 1);
  }

  lemma DeletesOnly(s: State, row: Completion)
    requires |s.calls| > 1 && s.calls[1] == Delete(row) && s.completions == [row] && !row.closed
    ensures Run(s, [Advance(1)]).completions == []
  {
    assert [row][..0] == [] && [Advance(1)][..0] == [];
    assert !Kept(row.chore, row.date)(row);
    assert Filter([row], Kept(row.chore, row.date)) == [];
    assert Run(s, [Advance(1)]) == DoAdvance(s, 1);
  }
}

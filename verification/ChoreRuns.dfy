/**
 Runs: any sequence of completions, undos, week closings and wallet operations, with chores,
 allowances and rates edited in between.
 */
module ChoreRuns {
  import opened Common
  import opened Seqs
  import opened Ledger
  import opened WalletMath
  import opened Chores
  import opened WeekEnd

  datatype Action =
    | Configure(chores: seq<Chore>, allowances: map<Uuid, int>, rates: map<Uuid, int>)
    | DoComplete(household: Uuid, chore: Uuid, date: int, id: Uuid)
    | DoUndo(chore: Uuid, date: int)
    | DoCloseWeek(household: Uuid, member: Uuid, from: int, to: int)
    | DoTip(member: Uuid, amount: int)
    | DoCashOut(member: Uuid, amount: int)
    | DoAdjust(member: Uuid, amount: int, reason: string)
    | DoRecompute(member: Uuid)

  function Recompute(t: Tables, member: Uuid): Tables {
    if member in t.wallets then t.(wallets := t.wallets[member := LedgerSum(t.ledger, member)]) else t
  }

  /** The row a wallet operation credits, if it accepts its arguments. */
  function WalletRow(a: Action): Option<Row> {
    match a
    case DoTip(member, amount) => if amount <= 0 then None else Some(Row(member, amount, Tip, None))
    case DoCashOut(member, amount) => if amount <= 0 then None else Some(Row(member, -amount, CashOut, None))
    case DoAdjust(member, amount, reason) => if reason == "" then None else Some(Row(member, amount, Adjustment, None))
    case _ => None
  }

  /** A generated identifier is fresh and the chores table keeps its primary key; any other action is disabled. */
  ghost function Step(t: Tables, a: Action): Tables {
    match a
    case Configure(chores, allowances, rates) =>
      if DistinctBy(chores, ChoreId) then t.(chores := chores, allowances := allowances, rates := rates) else t
    case DoComplete(household, chore, date, id) => if Fresh(t, id) then Complete(t, household, chore, date, id).0 else t
    case DoUndo(chore, date) => Undo(t, chore, date).0
    case DoCloseWeek(household, member, from, to) => CloseWeek(t, household, member, from, to)
    case DoRecompute(member) => Recompute(t, member)
    case _ => if WalletRow(a).Some? then Credit(t, WalletRow(a).value) else t
  }

  ghost function Run(t: Tables, actions: seq<Action>): Tables {
    if actions == [] then t else Step(Run(t, actions[..|actions| - 1]), actions[|actions| - 1])
  }

  // ---- Keys ----

  lemma CloseWeekKeepsKeys(t: Tables, household: Uuid, member: Uuid, from: int, to: int)
    requires Keys(t)
    ensures Keys(CloseWeek(t, household, member, from, to))
  {
    var rows := CloseWeekShape(t, household, member, from, to);
    var before, after := t.completions, CloseWeek(t, household, member, from, to).completions;
    forall i, j | 0 <= i < j < |after| ensures Slot(after[i]) != Slot(after[j]) && IdOf(after[i]) != IdOf(after[j]) {
      assert Slot(before[i]) != Slot(before[j]) && IdOf(before[i]) != IdOf(before[j]);
    }
  }

  lemma StepKeepsKeys(t: Tables, a: Action)
    requires Keys(t)
    ensures Keys(Step(t, a))
  {
    match a
    case DoComplete(household, chore, date, id) =>
      if Fresh(t, id) {
        CompleteKeepsKeys(t, household, chore, date, id);
      }
    case DoUndo(chore, date) => UndoKeepsKeys(t, chore, date);
    case DoCloseWeek(household, member, from, to) => CloseWeekKeepsKeys(t, household, member, from, to);
    case _ =>
  }

  /** In every run there is at most one completion per chore and day. */
  lemma {:induction false} RunKeepsKeys(actions: seq<Action>)
    ensures Keys(Run(EMPTY, actions))
  {
    if actions != [] {
      RunKeepsKeys(actions[..|actions| - 1]);
      StepKeepsKeys(Run(EMPTY, actions[..|actions| - 1]), actions[|actions| - 1]);
    }
  }

  // ---- Wallet operations ----

  /** What a wallet operation does to its member's balance and ledger; one that is refused does nothing. */
  ghost predicate PostsOne(t: Tables, a: Action, member: Uuid, amount: int, kind: Kind) {
    var after := Step(t, a);
    && after.ledger == t.ledger + [Row(member, amount, kind, None)]
    && Cached(after.wallets, member) == Cached(t.wallets, member) + amount
    && (forall m :: m != member ==> Cached(after.wallets, m) == Cached(t.wallets, m))
    && after.completions == t.completions && after.summaries == t.summaries
  }

  /** Tips add, cash-outs take away, both of positive amounts only; an adjustment does either, if there is a reason. */
  lemma WalletOperations(t: Tables, member: Uuid, amount: int, reason: string)
    ensures amount > 0 ==> PostsOne(t, DoTip(member, amount), member, amount, Tip)
    ensures amount > 0 ==> PostsOne(t, DoCashOut(member, amount), member, -amount, CashOut)
    ensures amount <= 0 ==> Step(t, DoTip(member, amount)) == t && Step(t, DoCashOut(member, amount)) == t
    ensures reason != "" ==> PostsOne(t, DoAdjust(member, amount, reason), member, amount, Adjustment)
    ensures reason == "" ==> Step(t, DoAdjust(member, amount, reason)) == t
  {
  }

  /** Whatever the cached balance was, recomputing makes it the ledger sum, for a member with a wallet. */
  lemma RecomputeRepairs(t: Tables, member: Uuid)
    ensures var after := Step(t, DoRecompute(member));
      && (member in t.wallets ==> after.wallets == t.wallets[member := LedgerSum(t.ledger, member)])
      && (member !in t.wallets ==> after == t)
      && after.ledger == t.ledger && after.completions == t.completions
  {
  }

  // ---- The cached balance is the ledger sum ----

  ghost predicate Balanced(t: Tables, member: Uuid) {
    Cached(t.wallets, member) == LedgerSum(t.ledger, member)
  }

  lemma CreditKeepsBalance(t: Tables, row: Row, member: Uuid)
    requires Balanced(t, member)
    ensures Balanced(Credit(t, row), member)
  {
    SumByAppend(t.ledger, row, AmountFor(member));
  }

  lemma CompleteKeepsBalance(t: Tables, household: Uuid, chore: Uuid, date: int, id: Uuid, member: Uuid)
    requires Balanced(t, member)
    ensures Balanced(Complete(t, household, chore, date, id).0, member)
  {
    match Insertion(t, household, chore, date)
    case None =>
    case Some((c, price)) =>
      var row := NewRow(c, date, price, id);
      CreditKeepsBalance(t.(completions := t.completions + [row]), Payment(row, price), member);
  }

  lemma UndoKeepsBalance(t: Tables, chore: Uuid, date: int, member: Uuid)
    requires Balanced(t, member)
    ensures Balanced(Undo(t, chore, date).0, member)
  {
    match Find(t.completions, OnDay(chore, date))
    case None =>
    case Some(c) => CreditKeepsBalance(t, Reversal(c), member);
  }

  lemma StepKeepsBalance(t: Tables, a: Action, member: Uuid)
    requires Balanced(t, member)
    ensures Balanced(Step(t, a), member)
  {
    match a
    case Configure(_, _, _) =>
    case DoComplete(household, chore, date, id) => CompleteKeepsBalance(t, household, chore, date, id, member);
    case DoUndo(chore, date) => UndoKeepsBalance(t, chore, date, member);
    case DoCloseWeek(household, m, from, to) => WeekPaysTheStoredBonus(t, household, m, from, to, member);
    case DoRecompute(_) =>
    case _ =>
      if WalletRow(a).Some? {
        CreditKeepsBalance(t, WalletRow(a).value, member);
      }
  }

  /** In every run the cached balance is the ledger sum, so recomputing it changes nothing. */
  lemma {:induction false} RecomputeIsANoOp(actions: seq<Action>, member: Uuid)
    ensures Balanced(Run(EMPTY, actions), member)
    ensures Recompute(Run(EMPTY, actions), member) == Run(EMPTY, actions)
  {
    var t := Run(EMPTY, actions);
    if actions != [] {
      RecomputeIsANoOp(actions[..|actions| - 1], member);
      StepKeepsBalance(Run(EMPTY, actions[..|actions| - 1]), actions[|actions| - 1], member);
    }
    if member in t.wallets {
      assert t.wallets[member := t.wallets[member]] == t.wallets;
    }
  }

  // ---- Payouts against live completions ----

  /** The one thing that moves the drift of a member is a new completion whose price is not reversible. */
  ghost function Moves(t: Tables, a: Action, member: Uuid): int {
    if a.DoComplete? && Fresh(t, a.id) then Mismatch(t, a.household, a.chore, a.date, member) else 0
  }

  lemma CloseWeekKeepsDrift(t: Tables, household: Uuid, m: Uuid, from: int, to: int, member: Uuid)
    ensures Drift(CloseWeek(t, household, m, from, to), member) == Drift(t, member)
  {
    var rows := CloseWeekShape(t, household, m, from, to);
    SumByConcat(t.ledger, rows, NetRow(member));
    SumByZero(rows, NetRow(member));
    SumByMap(t.completions, Closing(m, from, to), LivePayout(member), LivePayout(member));
  }

  lemma StepMovesDrift(t: Tables, a: Action, member: Uuid)
    requires Keys(t)
    ensures Drift(Step(t, a), member) == Drift(t, member) + Moves(t, a, member)
  {
    match a
    case Configure(_, _, _) =>
    case DoComplete(household, chore, date, id) =>
      if Fresh(t, id) {
        CompleteMovesDrift(t, household, chore, date, id, member);
      }
    case DoUndo(chore, date) => UndoKeepsDrift(t, chore, date, member);
    case DoCloseWeek(household, m, from, to) => CloseWeekKeepsDrift(t, household, m, from, to, member);
    case DoRecompute(_) =>
    case _ =>
      if WalletRow(a).Some? {
        CreditMovesNet(t, WalletRow(a).value, member);
      }
  }

  /** A completion about to be inserted has a reversible price. */
  ghost predicate Guarded(t: Tables, a: Action) {
    a.DoComplete? && Fresh(t, a.id) ==>
      match Insertion(t, a.household, a.chore, a.date)
      case None => true
      case Some((c, price)) => Reversible(c, price)
  }

  lemma GuardedIff(t: Tables, a: Action)
    ensures Guarded(t, a) <==> forall m :: Moves(t, a, m) == 0
  {
    if a.DoComplete? && Fresh(t, a.id) {
      match Insertion(t, a.household, a.chore, a.date)
      case None =>
      case Some((c, price)) =>
        ReversibleIff(c, price);
        assert Guarded(t, a) <==> Moves(t, a, c.member) == 0;
    }
  }

  /** The member's net ledger amount from completions is the total positive payout of the live ones. */
  ghost predicate Settled(t: Tables) {
    forall m :: Drift(t, m) == 0
  }

  ghost predicate AlwaysSettled(actions: seq<Action>) {
    OnPrefixes(actions, (prefix: seq<Action>) => Settled(Run(EMPTY, prefix)))
  }

  ghost predicate AlwaysReversible(actions: seq<Action>) {
    OnSteps(actions, (prefix: seq<Action>, a: Action) => Guarded(Run(EMPTY, prefix), a))
  }

  lemma LastStep(init: seq<Action>, a: Action)
    requires Settled(Run(EMPTY, init))
    ensures Settled(Run(EMPTY, init + [a])) <==> Guarded(Run(EMPTY, init), a)
  {
    var t := Run(EMPTY, init);
    assert (init + [a])[..|init|] == init;
    RunKeepsKeys(init);
    GuardedIff(t, a);
    forall m ensures Drift(Step(t, a), m) == Moves(t, a, m) {
      StepMovesDrift(t, a, m);
    }
  }

  /**
   The ledger agrees with the live completions after every prefix of a run if and only if every
   completion was inserted with a reversible price.
   */
  lemma SettledIffAlwaysReversible(actions: seq<Action>)
    ensures AlwaysSettled(actions) <==> AlwaysReversible(actions)
  {
    var p := (prefix: seq<Action>) => Settled(Run(EMPTY, prefix));
    var g := (prefix: seq<Action>, a: Action) => Guarded(Run(EMPTY, prefix), a);
    forall prefix, a | p(prefix) ensures p(prefix + [a]) <==> g(prefix, a) {
      LastStep(prefix, a);
    }
    PrefixesIffSteps(actions, p, g);
  }

  /** Chores that are auto-approved, at a price that fits the stored column, always settle. */
  lemma AutoApprovedSettles(actions: seq<Action>)
    requires forall k :: 0 <= k < |actions| ==> AutoApprovedInRange(Run(EMPTY, actions[..k]), actions[k])
    ensures Settled(Run(EMPTY, actions))
  {
    forall k | 0 <= k < |actions| ensures Guarded(Run(EMPTY, actions[..k]), actions[k]) {
      assert AutoApprovedInRange(Run(EMPTY, actions[..k]), actions[k]);
    }
    SettledIffAlwaysReversible(actions);
    assert actions[..|actions|] == actions;
  }

  ghost predicate AutoApprovedInRange(t: Tables, a: Action) {
    a.DoComplete? ==>
      match Insertion(t, a.household, a.chore, a.date)
      case None => true
      case Some((c, price)) => c.autoApprove && -MAX_INT32 - 1 <= price <= MAX_INT32
  }

  lemma RunOfThree(a: Action, b: Action, c: Action)
    ensures Run(EMPTY, [a, b]) == Step(Step(EMPTY, a), b)
    ensures Run(EMPTY, [a, b, c]) == Step(Step(Step(EMPTY, a), b), c)
  {
    assert [a, b, c][..2] == [a, b] && [a, b][..1] == [a] && [a][..0] == [];
    assert Run(EMPTY, [a]) == Step(EMPTY, a);
    assert Run(EMPTY, [a, b]) == Step(Run(EMPTY, [a]), b);
    assert Run(EMPTY, [a, b, c]) == Step(Run(EMPTY, [a, b]), c);
  }

  const NEEDS_APPROVAL := Chore(1, 2, 3, 4, "daily", [], false, false)
  const EXAMPLE := EMPTY.(chores := [NEEDS_APPROVAL], rates := map[2 := 500])

  lemma ExampleInsertion()
    ensures Insertion(EXAMPLE, 2, 1, 0) == Some((NEEDS_APPROVAL, 2000))
  {
    assert Find([NEEDS_APPROVAL], ChoreIn(1, 2)) == Some(NEEDS_APPROVAL) by {
      assert [NEEDS_APPROVAL][..0] == [];
    }
    assert Price(EXAMPLE, NEEDS_APPROVAL) == Some(2000);
  }

  /** Completing and undoing a chore that needs approval charges the member a payout that was never paid. */
  lemma UnapprovedUndoCharges()
    ensures var actions := [Configure([NEEDS_APPROVAL], map[], map[2 := 500]), DoComplete(2, 1, 0, 9), DoUndo(1, 0)];
      && Run(EMPTY, actions).completions == []
      && Cached(Run(EMPTY, actions).wallets, 3) == -2000
  {
    ExampleInsertion();
    UndoRevertsCompleteIff(EXAMPLE, 2, 1, 0, 9);
    RunOfThree(Configure([NEEDS_APPROVAL], map[], map[2 := 500]), DoComplete(2, 1, 0, 9), DoUndo(1, 0));
  }

  // ---- A share of the allowance ----

  const THREE_DAYS := Chore(1, 2, 3, 1, "specific_days", ["mon", "wed", "fri"], true, false)

  const SHARED := EMPTY.(chores := [THREE_DAYS], allowances := map[3 := 900])

  lemma ThirdOfNine()
    ensures Insertion(SHARED, 2, 1, 0) == Some((THREE_DAYS, 300))
  {
    FilterOne(THREE_DAYS, ActiveOf(2, 3));
    OnlyChorePrice(SHARED, THREE_DAYS);
    assert [THREE_DAYS][..0] == [] && ChoreIn(1, 2)(THREE_DAYS);
    assert Find([THREE_DAYS], ChoreIn(1, 2)) == Some(THREE_DAYS);
  }

  /** An allowance of 900 cents and one chore due on three days: completing it pays 300. */
  lemma ThreeDaysShareTheAllowance()
    ensures var t := Run(EMPTY, [Configure([THREE_DAYS], map[3 := 900], map[]), DoComplete(2, 1, 0, 9)]);
      && t.completions == [Completion(9, 1, 3, 0, true, 300, false)]
      && Cached(t.wallets, 3) == 300
  {
    RunOfThree(Configure([THREE_DAYS], map[3 := 900], map[]), DoComplete(2, 1, 0, 9), DoRecompute(3));
    ThirdOfNine();
    CompletionIsStored(SHARED, 2, 1, 0, 9);
  }

  // ---- A bonus paid twice ----

  const ONCE_A_WEEK := Chore(1, 2, 3, 1, "weekly", [], true, false)

  const DONE := Completion(9, 1, 3, 0, true, 50, false)

  /** The weekly chore is done once, for 50 cents. */
  lemma DoneOnce()
    ensures var t := Run(EMPTY, [Configure([ONCE_A_WEEK], map[], map[2 := 50]), DoComplete(2, 1, 0, 9)]);
      t.chores == [ONCE_A_WEEK] && t.completions == [DONE] && t.ledger == [Payment(DONE, 50)]
  {
    var configured := EMPTY.(chores := [ONCE_A_WEEK], rates := map[2 := 50]);
    RunOfThree(Configure([ONCE_A_WEEK], map[], map[2 := 50]), DoComplete(2, 1, 0, 9), DoRecompute(3));
    assert [ONCE_A_WEEK][..0] == [] && ChoreIn(1, 2)(ONCE_A_WEEK);
    assert Find([ONCE_A_WEEK], ChoreIn(1, 2)) == Some(ONCE_A_WEEK);
    assert Price(configured, ONCE_A_WEEK) == Some(50);
    assert Insertion(configured, 2, 1, 0) == Some((ONCE_A_WEEK, 50));
    InsertedRow(configured, 2, 1, 0, 9);
  }

  lemma DoneDeservesFive()
    ensures SumBy([ONCE_A_WEEK], Bonus([DONE])) == 5
  {
    FilterOne(DONE, OfChore(1));
    SumByOne(DONE, PayoutOf);
    SumByOne(ONCE_A_WEEK, Bonus([DONE]));
  }

  lemma DoneEarnsFive(t: Tables)
    requires t.chores == [ONCE_A_WEEK] && t.completions == [DONE]
    ensures CloseWeek(t, 2, 3, 0, 6).summaries[(3, 0)].bonus == 5
  {
    FilterOne(ONCE_A_WEEK, ActiveOf(2, 3));
    FilterOne(DONE, InWeek(3, 0, 6));
    DoneDeservesFive();
  }

  lemma RunAppend(actions: seq<Action>, a: Action)
    ensures Run(EMPTY, actions + [a]) == Step(Run(EMPTY, actions), a)
  {
    assert (actions + [a])[..|actions|] == actions;
  }

  /** Closing the same week twice at the end of a run pays its bonus twice. */
  lemma ClosingTwice(actions: seq<Action>, household: Uuid, member: Uuid, from: int, to: int)
    ensures var t, close := Run(EMPTY, actions), DoCloseWeek(household, member, from, to);
      var bonus := CloseWeek(t, household, member, from, to).summaries[(member, from)].bonus;
      && LedgerSum(Run(EMPTY, actions + [close]).ledger, member) == LedgerSum(t.ledger, member) + bonus
      && LedgerSum(Run(EMPTY, actions + [close] + [close]).ledger, member) == LedgerSum(t.ledger, member) + 2 * bonus
  {
    var t, close := Run(EMPTY, actions), DoCloseWeek(household, member, from, to);
    RunAppend(actions, close);
    RunAppend(actions + [close], close);
    WeekPaysTheStoredBonus(t, household, member, from, to, member);
    RerunPaysTheBonusAgain(t, household, member, from, to);
  }

  /** The chore's bonus of five cents is paid by the first closing of the week and again by the second. */
  lemma BonusIsPaidTwice()
    ensures var done := [Configure([ONCE_A_WEEK], map[], map[2 := 50]), DoComplete(2, 1, 0, 9)];
      var close := DoCloseWeek(2, 3, 0, 6);
      && LedgerSum(Run(EMPTY, done).ledger, 3) == 50
      && LedgerSum(Run(EMPTY, done + [close]).ledger, 3) == 55
      && LedgerSum(Run(EMPTY, done + [close] + [close]).ledger, 3) == 60
  {
    var done := [Configure([ONCE_A_WEEK], map[], map[2 := 50]), DoComplete(2, 1, 0, 9)];
    DoneOnce();
    DoneEarnsFive(Run(EMPTY, done));
    SumByOne(Payment(DONE, 50), AmountFor(3));
    ClosingTwice(done, 2, 3, 0, 6);
  }

  // ---- At most one payout row per completion ----

  ghost predicate PaidOnce(ledger: seq<Row>) {
    forall i, j ::
      (0 <= i < j < |ledger| && ledger[i].kind == ledger[j].kind == ChorePayout && ledger[i].ref.Some?)
      ==> ledger[i].ref != ledger[j].ref
  }

  lemma CreditPaysOnce(t: Tables, row: Row)
    requires PaidOnce(t.ledger)
    ensures PaidOnce(Credit(t, row).ledger)
  {
  }

  lemma BonusesPayOnce(ledger: seq<Row>, rows: seq<Row>, member: Uuid)
    requires PaidOnce(ledger) && AreBonuses(rows, member)
    ensures PaidOnce(ledger + rows)
  {
  }

  /** In every run a completion has at most one payout row. */
  lemma {:induction false} RunPaysOnce(actions: seq<Action>)
    ensures PaidOnce(Run(EMPTY, actions).ledger)
  {
    if actions != [] {
      var t, a := Run(EMPTY, actions[..|actions| - 1]), actions[|actions| - 1];
      RunPaysOnce(actions[..|actions| - 1]);
      match a
      case DoComplete(household, chore, date, id) =>
        var found := Insertion(t, household, chore, date);
        if found.Some? {
          var row := NewRow(found.value.0, date, found.value.1, id);
          CreditPaysOnce(t.(completions := t.completions + [row]), Payment(row, found.value.1));
        }
      case DoUndo(chore, date) =>
        var found := Find(t.completions, OnDay(chore, date));
        if found.Some? {
          CreditPaysOnce(t, Reversal(found.value));
        }
      case DoCloseWeek(household, member, from, to) =>
        var rows := CloseWeekShape(t, household, member, from, to);
        BonusesPayOnce(t.ledger, rows, member);
      case Configure(_, _, _) =>
      case DoRecompute(_) =>
      case _ =>
        if WalletRow(a).Some? {
          CreditPaysOnce(t, WalletRow(a).value);
        }
    }
  }

  // ---- Closed weeks stay closed ----

  lemma StepKeepsClosed(t: Tables, a: Action, c: Completion)
    requires c in t.completions && c.closed
    ensures c in Step(t, a).completions
  {
    match a
    case DoUndo(chore, date) => FilterMembers(t.completions, Kept(chore, date));
    case DoCloseWeek(household, member, from, to) =>
      var i :| 0 <= i < |t.completions| && t.completions[i] == c;
      WeekIsClosed(t, household, member, from, to, i);
    case _ =>
  }

  /** A completion closed by the batch survives every later run unchanged, and undoing it fails and does nothing. */
  lemma {:induction false} ClosedForGood(t: Tables, actions: seq<Action>, c: Completion)
    requires Keys(t) && c in t.completions && c.closed
    ensures var after := Run(t, actions);
      && Keys(after)
      && c in after.completions
      && Undo(after, c.chore, c.date) == (after, Failed)
  {
    if actions != [] {
      var init := actions[..|actions| - 1];
      ClosedForGood(t, init, c);
      StepKeepsKeys(Run(t, init), actions[|actions| - 1]);
      StepKeepsClosed(Run(t, init), actions[|actions| - 1], c);
    }
    ClosedIsNotUndone(Run(t, actions), c);
  }

  lemma ClosedIsNotUndone(t: Tables, c: Completion)
    requires Keys(t) && c in t.completions && c.closed
    ensures Undo(t, c.chore, c.date) == (t, Failed)
  {
    FindSpec(t.completions, OnDay(c.chore, c.date));
    var found := Find(t.completions, OnDay(c.chore, c.date)).value;
    assert Slot(found) == Slot(c);
    assert found == c;
  }
}

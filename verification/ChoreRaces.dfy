/**
 When interleaved completions, undos and week closings keep the ledger in step with the completions:
 the exact guard on every statement, a condition on schedules that implies it, and a run for each race
 that breaks it.
 */
module ChoreRaces {
  import opened Common
  import opened Seqs
  import opened Ledger
  import opened WalletMath
  import opened Chores
  import opened WeekEnd
  import opened P = ChoreProtocol

  // ---- What a call leaves behind ----

  /** A call that has returned or died will not execute another statement. */
  predicate Ended(pc: Pc) {
    pc.Completed? || pc.UndoDone? || pc.Stopped? || pc.Dead?
  }

  /** What a call under way has yet to make good. */
  function Pending(member: Uuid): Pc -> int {
    (pc: Pc) => if Ended(pc) then 0 else Imbalance(pc, member)
  }

  function Residue(member: Uuid): Pc -> int {
    (pc: Pc) => if Ended(pc) then Imbalance(pc, member) else 0
  }

  /**
   For every member the net ledger amount from completions is the total positive payout of the live
   ones, but for what calls under way have yet to make good.
   */
  ghost predicate Settled(s: State) {
    forall m :: P.Drift(s, m) == SumBy(s.calls, Pending(m))
  }

  /** Undoing `row` and removing `removed` cancel out: the same positive payout of the same member, or none. */
  predicate SameCharge(row: Completion, removed: Option<Completion>) {
    if removed.None? then row.payout <= 0
    else Positive(row.payout) == Positive(removed.value.payout) && (row.payout > 0 ==> row.member == removed.value.member)
  }

  predicate Harmless(pc: Pc) {
    match pc
    case Pay(row, _, _) => row.payout <= 0
    case Delete(row) => row.payout <= 0
    case Completed(_, c, price) => Reversible(c, price)
    case UndoDone(row, removed) => SameCharge(row, removed)
    case Dead(at) => Harmless(at)
    case _ => true
  }

  /** A call has left nothing behind for anyone. */
  ghost predicate Clear(pc: Pc) {
    forall m :: Imbalance(pc, m) == 0
  }

  lemma SameChargeIff(row: Completion, removed: Option<Completion>)
    ensures SameCharge(row, removed) <==> Clear(UndoDone(row, removed))
  {
    if Clear(UndoDone(row, removed)) {
      assert Imbalance(UndoDone(row, removed), row.member) == 0;
      if removed.Some? {
        assert Imbalance(UndoDone(row, removed), removed.value.member) == 0;
      }
    }
  }

  lemma {:induction false} HarmlessIff(pc: Pc)
    requires OwnRow(pc)
    ensures Harmless(pc) <==> Clear(pc)
  {
    match pc
    case Pay(row, _, _) => assert Imbalance(pc, row.member) + Positive(row.payout) == 0;
    case Delete(row) => assert Imbalance(pc, row.member) + Positive(row.payout) == 0;
    case Completed(row, c, price) =>
      ReversibleIff(c, price);
      assert Imbalance(pc, row.member) == Credited(c, price) - Positive(row.payout);
    case UndoDone(row, removed) => SameChargeIff(row, removed);
    case Dead(at) =>
      HarmlessIff(at);
      forall m ensures Imbalance(pc, m) == Imbalance(at, m) {
      }
      if Clear(pc) {
        forall m ensures Imbalance(at, m) == 0 {
          assert Imbalance(pc, m) == 0;
        }
      }
    case _ =>
  }

  // ---- The guards ----

  /** The guard of a DELETE: the row it is about to remove is worth what the undo has charged. */
  predicate DeleteGuard(s: State, row: Completion) {
    SameCharge(row, Deletable(s.completions, row.chore, row.date))
  }

  /** A DELETE leaves nothing behind for anyone if and only if its guard holds just before it. */
  lemma DeleteGuardIff(s: State, p: nat)
    requires p < |s.calls| && s.calls[p].Delete?
    ensures Clear(DoAdvance(s, p).calls[p]) <==> DeleteGuard(s, s.calls[p].row)
  {
    var row := s.calls[p].row;
    SameChargeIff(row, Deletable(s.completions, row.chore, row.date));
  }

  /** The guard of a call's next statement; only those that end a call with something at stake have one. */
  predicate AdvanceGuard(s: State, pc: Pc) {
    match pc
    case Insert(c, price, date, id) =>
      Find(s.completions, OnDay(c.id, date)).Some? || (c.autoApprove && price > 0) || Reversible(c, price)
    case Pay(_, c, price) => Reversible(c, price)
    case Delete(row) => DeleteGuard(s, row)
    case _ => true
  }

  /** A call may die unless a positive payout is inserted and not paid, or charged and its row not removed. */
  predicate CrashGuard(pc: Pc) {
    match pc
    case Pay(row, _, _) => row.payout <= 0
    case Delete(row) => row.payout <= 0
    case _ => true
  }

  predicate Guarded(s: State, a: Action) {
    match a
    case Advance(p) => p < |s.calls| ==> AdvanceGuard(s, s.calls[p])
    case Crash(p) => p < |s.calls| ==> CrashGuard(s.calls[p])
    case _ => true
  }

  // ---- One step ----

  ghost predicate NoResidue(calls: seq<Pc>) {
    forall m :: SumBy(calls, Residue(m)) == 0
  }

  lemma SettledIffNoResidue(s: State)
    requires forall m :: Accounted(s, m)
    ensures Settled(s) <==> NoResidue(s.calls)
  {
    forall m ensures P.Drift(s, m) == SumBy(s.calls, Pending(m)) + SumBy(s.calls, Residue(m)) {
      assert Accounted(s, m);
      SumByPlus(s.calls, Pending(m), Residue(m), ImbalanceFor(m));
    }
    if Settled(s) {
      forall m ensures SumBy(s.calls, Residue(m)) == 0 {
        assert P.Drift(s, m) == SumBy(s.calls, Pending(m));
      }
    }
    if NoResidue(s.calls) {
      forall m ensures P.Drift(s, m) == SumBy(s.calls, Pending(m)) {
        assert SumBy(s.calls, Residue(m)) == 0;
      }
    }
  }

  /** Replacing a call by one that leaves the same behind changes nothing. */
  lemma SameResidue(calls: seq<Pc>, p: nat, next: Pc)
    requires p < |calls| && forall m :: Residue(m)(next) == Residue(m)(calls[p])
    ensures NoResidue(calls[p := next]) <==> NoResidue(calls)
  {
    forall m ensures SumBy(calls[p := next], Residue(m)) == SumBy(calls, Residue(m)) {
      SumByUpdate(calls, p, next, Residue(m));
    }
    if NoResidue(calls) {
      forall m ensures SumBy(calls[p := next], Residue(m)) == 0 {
        assert SumBy(calls, Residue(m)) == 0;
      }
    }
    if NoResidue(calls[p := next]) {
      forall m ensures SumBy(calls, Residue(m)) == 0 {
        assert SumBy(calls[p := next], Residue(m)) == 0;
      }
    }
  }

  /** A call that was under way may move on exactly if, in case it has ended, it is harmless. */
  lemma CallMovesOn(calls: seq<Pc>, p: nat, next: Pc)
    requires p < |calls| && !Ended(calls[p]) && NoResidue(calls) && OwnRow(next)
    ensures NoResidue(calls[p := next]) <==> (Ended(next) ==> Harmless(next))
  {
    HarmlessIff(next);
    forall m ensures SumBy(calls[p := next], Residue(m)) == Residue(m)(next) {
      SumByUpdate(calls, p, next, Residue(m));
      assert SumBy(calls, Residue(m)) == 0;
    }
    if NoResidue(calls[p := next]) && Ended(next) {
      forall m ensures Imbalance(next, m) == 0 {
        assert SumBy(calls[p := next], Residue(m)) == 0;
      }
    }
    if Ended(next) ==> Clear(next) {
      forall m ensures SumBy(calls[p := next], Residue(m)) == 0 {
        assert Ended(next) ==> Imbalance(next, m) == 0;
      }
    }
  }

  lemma AdvanceGuardIff(s: State, p: nat)
    requires p < |s.calls| && !Ended(s.calls[p]) && OwnRow(s.calls[p])
    requires s.calls[p].Pay? ==> !Violates(s.ledger, Payment(s.calls[p].row, s.calls[p].price))
    ensures var next := DoAdvance(s, p).calls[p];
      && OwnRow(next)
      && DoAdvance(s, p).calls == s.calls[p := next]
      && ((Ended(next) ==> Harmless(next)) <==> AdvanceGuard(s, s.calls[p]))
  {
  }

  lemma AdvanceSettles(s: State, p: nat)
    requires p < |s.calls| && Inv(s) && RowsAreOwn(s) && NoResidue(s.calls)
    ensures NoResidue(DoAdvance(s, p).calls) <==> AdvanceGuard(s, s.calls[p])
  {
    assert OwnRow(s.calls[p]);
    if !Ended(s.calls[p]) {
      if s.calls[p].Pay? {
        PayKeepsNoEarlyRows(s, p);
      }
      AdvanceGuardIff(s, p);
      CallMovesOn(s.calls, p, DoAdvance(s, p).calls[p]);
    }
  }

  lemma CrashSettles(s: State, p: nat)
    requires p < |s.calls| && RowsAreOwn(s) && NoResidue(s.calls)
    ensures NoResidue(Step(s, Crash(p)).calls) <==> CrashGuard(s.calls[p])
  {
    var pc := s.calls[p];
    assert OwnRow(pc);
    if Ended(pc) {
      if !pc.Dead? {
        assert forall m :: Residue(m)(Dead(pc)) == Residue(m)(pc);
        SameResidue(s.calls, p, Dead(pc));
      }
    } else {
      CallMovesOn(s.calls, p, Dead(pc));
    }
  }

  lemma StepSettles(s: State, a: Action)
    requires Inv(s) && RowsAreOwn(s) && NoResidue(s.calls)
    ensures NoResidue(Step(s, a).calls) <==> Guarded(s, a)
  {
    match a
    case StartComplete(c, price, date, id) =>
      forall m ensures SumBy(s.calls + [Insert(c, price, date, id)], Residue(m)) == 0 {
        SumByAppend(s.calls, Insert(c, price, date, id), Residue(m));
        assert SumBy(s.calls, Residue(m)) == 0;
      }
    case StartUndo(chore, date) =>
      forall m ensures SumBy(s.calls + [Read(chore, date)], Residue(m)) == 0 {
        SumByAppend(s.calls, Read(chore, date), Residue(m));
        assert SumBy(s.calls, Residue(m)) == 0;
      }
    case Advance(p) =>
      if p < |s.calls| {
        AdvanceSettles(s, p);
      }
    case Crash(p) =>
      if p < |s.calls| {
        CrashSettles(s, p);
      }
    case Close(_, _, _) =>
  }

  // ---- Every run ----

  ghost predicate AlwaysSettled(actions: seq<Action>) {
    OnPrefixes(actions, (prefix: seq<Action>) => Settled(Run(START, prefix)))
  }

  ghost predicate AlwaysGuarded(actions: seq<Action>) {
    OnSteps(actions, (prefix: seq<Action>, a: Action) => Guarded(Run(START, prefix), a))
  }

  lemma RunIsAccounted(actions: seq<Action>)
    ensures var s := Run(START, actions); Inv(s) && RowsAreOwn(s) && forall m :: Accounted(s, m)
  {
    RunKeepsInv(actions);
    RunKeepsOwnRows(actions);
    forall m ensures Accounted(Run(START, actions), m) {
      EveryCentIsAccounted(actions, m);
    }
  }

  lemma OneMoreStep(prefix: seq<Action>, a: Action)
    requires Settled(Run(START, prefix))
    ensures Settled(Run(START, prefix + [a])) <==> Guarded(Run(START, prefix), a)
  {
    assert (prefix + [a])[..|prefix|] == prefix;
    RunIsAccounted(prefix);
    RunIsAccounted(prefix + [a]);
    SettledIffNoResidue(Run(START, prefix));
    SettledIffNoResidue(Run(START, prefix + [a]));
    StepSettles(Run(START, prefix), a);
  }

  /**
   In every interleaving, the ledger agrees with the live completions after every prefix, but for what
   calls under way have yet to make good, if and only if every statement and every crash met its guard.
   */
  lemma SettledIffAlwaysGuarded(actions: seq<Action>)
    ensures AlwaysSettled(actions) <==> AlwaysGuarded(actions)
  {
    var p := (prefix: seq<Action>) => Settled(Run(START, prefix));
    var g := (prefix: seq<Action>, a: Action) => Guarded(Run(START, prefix), a);
    forall prefix, a | p(prefix) ensures p(prefix + [a]) <==> g(prefix, a) {
      OneMoreStep(prefix, a);
    }
    RunIsAccounted([]);
    SettledIffNoResidue(START);
    PrefixesIffSteps(actions, p, g);
  }

  /** Every call that has returned or died has left nothing behind. */
  predicate Clean(calls: seq<Pc>) {
    forall p :: 0 <= p < |calls| && Ended(calls[p]) ==> Harmless(calls[p])
  }

  lemma CleanUpdate(calls: seq<Pc>, p: nat, next: Pc)
    requires p < |calls| && Clean(calls)
    ensures Clean(calls[p := next]) <==> (Ended(next) ==> Harmless(next))
  {
    assert calls[p := next][p] == next;
  }

  lemma StepIsCleanIff(s: State, a: Action)
    requires Inv(s) && RowsAreOwn(s) && Clean(s.calls)
    ensures Clean(Step(s, a).calls) <==> Guarded(s, a)
  {
    match a
    case Advance(p) =>
      if p < |s.calls| && !Ended(s.calls[p]) {
        assert OwnRow(s.calls[p]);
        if s.calls[p].Pay? {
          PayKeepsNoEarlyRows(s, p);
        }
        AdvanceGuardIff(s, p);
        CleanUpdate(s.calls, p, DoAdvance(s, p).calls[p]);
      }
    case Crash(p) =>
      if p < |s.calls| {
        CleanUpdate(s.calls, p, Dead(s.calls[p]));
      }
    case _ =>
  }

  /** Call by call: after every prefix the calls that ended have left nothing behind, if and only if all guards were met. */
  lemma CallsLeaveNothingIffGuarded(actions: seq<Action>)
    ensures OnPrefixes(actions, (prefix: seq<Action>) => Clean(Run(START, prefix).calls)) <==> AlwaysGuarded(actions)
  {
    var p := (prefix: seq<Action>) => Clean(Run(START, prefix).calls);
    var g := (prefix: seq<Action>, a: Action) => Guarded(Run(START, prefix), a);
    forall prefix, a | p(prefix) ensures p(prefix + [a]) <==> g(prefix, a) {
      assert (prefix + [a])[..|prefix|] == prefix;
      RunIsAccounted(prefix);
      StepIsCleanIff(Run(START, prefix), a);
    }
    PrefixesIffSteps(actions, p, g);
  }

  /** With no call under way, settled means that ledger and live completions agree outright. */
  lemma SettledAtRest(s: State, member: Uuid)
    requires Settled(s) && forall pc :: pc in s.calls ==> Ended(pc)
    ensures P.Drift(s, member) == 0
  {
    assert P.Drift(s, member) == SumBy(s.calls, Pending(member));
    SumByZero(s.calls, Pending(member));
  }

  /**
   Once every call has returned or died, a run whose guards were all met leaves each member exactly the
   payouts of the completions that exist.
   */
  lemma GuardedRunsEndSettled(actions: seq<Action>, member: Uuid)
    requires AlwaysGuarded(actions) && forall pc :: pc in Run(START, actions).calls ==> Ended(pc)
    ensures P.Drift(Run(START, actions), member) == 0
  {
    SettledIffAlwaysGuarded(actions);
    assert actions[..|actions|] == actions;
    SettledAtRest(Run(START, actions), member);
  }

  // ---- Schedules ----

  predicate Deletes(s: State, a: Action) {
    a.Advance? && a.p < |s.calls| && s.calls[a.p].Delete?
  }

  /** What can come between an undo and the row it has read: a DELETE at its slot, or closing its week. */
  predicate Disturbs(s: State, a: Action, row: Completion) {
    || (Deletes(s, a) && Slot(s.calls[a.p].row) == Slot(row))
    || (a.Close? && InWeek(a.member, a.from, a.to)(row))
  }

  lemma UndisturbedRowStays(s: State, a: Action, row: Completion)
    requires row in s.completions && !Disturbs(s, a, row)
    ensures row in Step(s, a).completions
  {
    if Deletes(s, a) {
      FilterMembers(s.completions, Kept(s.calls[a.p].row.chore, s.calls[a.p].row.date));
    } else if a.Close? {
      var i :| 0 <= i < |s.completions| && s.completions[i] == row;
      assert Step(s, a).completions[i] == row;
    }
  }

  /** At action `i` call `p` reads `row`, open, at its slot. */
  ghost predicate ReadsAt(actions: seq<Action>, i: nat, p: nat, row: Completion)
    requires i < |actions|
  {
    var s := Run(START, actions[..i]);
    && actions[i] == Advance(p) && p < |s.calls| && s.calls[p] == Read(row.chore, row.date)
    && Find(s.completions, OnDay(row.chore, row.date)) == Some(row) && !row.closed
  }

  ghost predicate DisturbedAt(actions: seq<Action>, k: nat, row: Completion)
    requires k < |actions|
  {
    Disturbs(Run(START, actions[..k]), actions[k], row)
  }

  /** At action `j` call `p` executes its DELETE. */
  ghost predicate DeletesAt(actions: seq<Action>, j: nat, p: nat)
    requires j < |actions|
  {
    actions[j] == Advance(p) && Deletes(Run(START, actions[..j]), actions[j])
  }

  /** Between the read and the DELETE of any one undo nothing disturbs its row. */
  ghost predicate UndosUndisturbed(actions: seq<Action>) {
    forall i, j, k, p, row :: 0 <= i < k < j < |actions| ==>
      ReadsAt(actions, i, p, row) && DeletesAt(actions, j, p) ==> !DisturbedAt(actions, k, row)
  }

  lemma RunUpTo(actions: seq<Action>, k: nat)
    requires k < |actions|
    ensures Run(START, actions[..k + 1]) == Step(Run(START, actions[..k]), actions[k])
  {
    assert actions[..k + 1][..k] == actions[..k];
  }

  lemma RowStaysAt(actions: seq<Action>, k: nat, row: Completion)
    requires k < |actions| && row in Run(START, actions[..k]).completions && !DisturbedAt(actions, k, row)
    ensures row in Run(START, actions[..k + 1]).completions
  {
    UndisturbedRowStays(Run(START, actions[..k]), actions[k], row);
    RunUpTo(actions, k);
  }

  lemma RowStaysBetween(actions: seq<Action>, i: nat, j: nat, row: Completion)
    requires i < j <= |actions| && row in Run(START, actions[..i + 1]).completions
    requires forall k :: i < k < j ==> !DisturbedAt(actions, k, row)
    ensures row in Run(START, actions[..j]).completions
  {
    for k := i + 1 to j
      invariant row in Run(START, actions[..k]).completions
    {
      RowStaysAt(actions, k, row);
    }
  }

  predicate IsUndoOf(pc: Pc, row: Completion) {
    pc == Reverse(row) || pc == Delete(row)
  }

  lemma ReadsAtLonger(actions: seq<Action>, a: Action, i: nat, p: nat, row: Completion)
    requires i < |actions| && ReadsAt(actions, i, p, row)
    ensures ReadsAt(actions + [a], i, p, row)
  {
    assert (actions + [a])[..i] == actions[..i];
  }

  /** Every undo past its read has read its row. */
  lemma {:induction false} UndoHasRead(actions: seq<Action>, p: nat, row: Completion) returns (i: nat)
    requires var calls := Run(START, actions).calls; p < |calls| && IsUndoOf(calls[p], row)
    ensures i < |actions| && ReadsAt(actions, i, p, row)
  {
    var init, a := actions[..|actions| - 1], actions[|actions| - 1];
    var before := Run(START, init);
    assert actions == init + [a];
    if p < |before.calls| && IsUndoOf(before.calls[p], row) {
      i := UndoHasRead(init, p, row);
      ReadsAtLonger(init, a, i, p, row);
    } else {
      i := |init|;
      assert actions[..i] == init;
      assert a == Advance(p) && before.calls[p].Read?;
      FindSpec(before.completions, OnDay(before.calls[p].chore, before.calls[p].date));
    }
  }

  /** An undisturbed undo finds at its DELETE the row it has read. */
  lemma UndisturbedDeleteIsGuarded(actions: seq<Action>, j: nat)
    requires UndosUndisturbed(actions) && j < |actions| && Deletes(Run(START, actions[..j]), actions[j])
    ensures Guarded(Run(START, actions[..j]), actions[j])
  {
    var s, p := Run(START, actions[..j]), actions[j].p;
    var row := s.calls[p].row;
    var i := UndoHasRead(actions[..j], p, row);
    assert actions[..j][..i] == actions[..i];
    assert ReadsAt(actions, i, p, row);
    ReadLeavesRow(actions, i, p, row);
    assert DeletesAt(actions, j, p);
    RowStaysBetween(actions, i, j, row);
    RunKeepsSlots(actions[..j]);
    UndoIsUndisturbedIff(s, p);
  }

  lemma ReadLeavesRow(actions: seq<Action>, i: nat, p: nat, row: Completion)
    requires i < |actions| && ReadsAt(actions, i, p, row)
    ensures row in Run(START, actions[..i + 1]).completions
  {
    assert actions[..i + 1][..i] == actions[..i];
    FindSpec(Run(START, actions[..i]).completions, OnDay(row.chore, row.date));
  }

  /**
   If no undo is disturbed between its read and its DELETE, prices are reversible and no call dies with a
   payout in flight, then ledger and live completions agree throughout.
   */
  lemma UndisturbedUndosSettle(actions: seq<Action>)
    requires UndosUndisturbed(actions)
    requires forall k :: 0 <= k < |actions| ==>
      Deletes(Run(START, actions[..k]), actions[k]) || Guarded(Run(START, actions[..k]), actions[k])
    ensures AlwaysSettled(actions)
  {
    forall k | 0 <= k < |actions| ensures Guarded(Run(START, actions[..k]), actions[k]) {
      if Deletes(Run(START, actions[..k]), actions[k]) {
        UndisturbedDeleteIsGuarded(actions, k);
      }
    }
    SettledIffAlwaysGuarded(actions);
  }

  // ---- A run for each race ----

  lemma {:induction false} RunConcat(s: State, first: seq<Action>, rest: seq<Action>)
    ensures Run(s, first + rest) == Run(Run(s, first), rest)
  {
    if rest == [] {
      assert first + rest == first;
    } else {
      assert (first + rest)[..|first + rest| - 1] == first + rest[..|rest| - 1];
      RunConcat(s, first, rest[..|rest| - 1]);
    }
  }

  lemma RunOfTwo(s: State, a: Action, b: Action)
    ensures Run(s, [a, b]) == Step(Step(s, a), b)
  {
    assert [a, b][..1] == [a] && [a][..0] == [];
    assert Run(s, [a]) == Step(s, a);
  }

  lemma RunOfThree(s: State, a: Action, b: Action, c: Action)
    ensures Run(s, [a, b, c]) == Step(Step(Step(s, a), b), c)
  {
    RunOfTwo(s, a, b);
    assert [a, b, c][..2] == [a, b];
  }

  /** An auto-approved completion at a price that is paid in full and stored in full. */
  predicate Fair(c: Chore, price: int) {
    c.autoApprove && 0 < price <= MAX_INT32
  }

  function CompleteActions(p: nat, c: Chore, price: int, date: int, id: Uuid): seq<Action> {
    [StartComplete(c, price, date, id), Advance(p), Advance(p)]
  }

  function ReadActions(p: nat, chore: Uuid, date: int): seq<Action> {
    [StartUndo(chore, date), Advance(p)]
  }

  /** A free slot and a fresh identifier: the completion is inserted and paid. */
  lemma CompletesAndPays(s: State, c: Chore, price: int, date: int, id: Uuid)
    requires Fair(c, price) && s.completions == [] && id !in s.used
    requires forall r :: r in s.ledger ==> r.ref != Some(id)
    ensures var row := NewRow(c, date, price, id);
      Run(s, CompleteActions(|s.calls|, c, price, date, id))
        == State([row], s.ledger + [Payment(row, price)], s.calls + [Completed(row, c, price)], s.used + {id})
  {
    var p, row := |s.calls|, NewRow(c, date, price, id);
    RunOfThree(s, StartComplete(c, price, date, id), Advance(p), Advance(p));
    var s1 := s.(calls := s.calls + [Insert(c, price, date, id)], used := s.used + {id});
    var s2 := State([row], s.ledger, s.calls + [Pay(row, c, price)], s.used + {id});
    assert s1.calls[p := Pay(row, c, price)] == s2.calls;
    assert DoAdvance(s1, p) == s2;
    assert s2.calls[p := Completed(row, c, price)] == s.calls + [Completed(row, c, price)];
  }

  lemma FindOnly(row: Completion)
    ensures Find([row], OnDay(row.chore, row.date)) == Some(row)
  {
    assert [row][..0] == [];
  }

  lemma ReadsItsRow(s: State, row: Completion)
    requires s.completions == [row] && row.payout > 0 && !row.closed
    ensures Run(s, ReadActions(|s.calls|, row.chore, row.date)) == s.(calls := s.calls + [Reverse(row)])
  {
    var p, s1 := |s.calls|, s.(calls := s.calls + [Read(row.chore, row.date)]);
    RunOfTwo(s, StartUndo(row.chore, row.date), Advance(p));
    FindOnly(row);
    assert Step(s, StartUndo(row.chore, row.date)) == s1;
    assert DoAdvance(s1, p) == s1.(calls := s1.calls[p := Reverse(row)]);
    assert s1.calls[p := Reverse(row)] == s.calls + [Reverse(row)];
  }

  /** Two undos that both read a fresh completion, up to where either may charge for it. */
  function TwoReadsActions(c: Chore, price: int, date: int, id: Uuid): seq<Action> {
    CompleteActions(0, c, price, date, id) + ReadActions(1, c.id, date) + ReadActions(2, c.id, date)
  }

  function OneReadState(c: Chore, price: int, date: int, id: Uuid): State {
    var row := NewRow(c, date, price, id);
    State([row], [Payment(row, price)], [Completed(row, c, price), Reverse(row)], {id})
  }

  function TwoReadsState(c: Chore, price: int, date: int, id: Uuid): State {
    var row := NewRow(c, date, price, id);
    State([row], [Payment(row, price)], [Completed(row, c, price), Reverse(row), Reverse(row)], {id})
  }

  lemma OneRead(c: Chore, price: int, date: int, id: Uuid)
    requires Fair(c, price)
    ensures Run(START, CompleteActions(0, c, price, date, id) + ReadActions(1, c.id, date)) == OneReadState(c, price, date, id)
  {
    var row := NewRow(c, date, price, id);
    CompletesAndPays(START, c, price, date, id);
    RunConcat(START, CompleteActions(0, c, price, date, id), ReadActions(1, c.id, date));
    var s := State([row], [Payment(row, price)], [Completed(row, c, price)], {id});
    assert START.ledger + [Payment(row, price)] == s.ledger && START.calls + [Completed(row, c, price)] == s.calls;
    assert START.used + {id} == s.used;
    ReadsItsRow(s, row);
    assert s.calls + [Reverse(row)] == OneReadState(c, price, date, id).calls;
  }

  lemma TwoReads(c: Chore, price: int, date: int, id: Uuid)
    requires Fair(c, price)
    ensures Run(START, TwoReadsActions(c, price, date, id)) == TwoReadsState(c, price, date, id)
  {
    var row, s := NewRow(c, date, price, id), OneReadState(c, price, date, id);
    OneRead(c, price, date, id);
    RunConcat(START, CompleteActions(0, c, price, date, id) + ReadActions(1, c.id, date), ReadActions(2, c.id, date));
    ReadsItsRow(s, row);
    assert s.calls + [Reverse(row)] == TwoReadsState(c, price, date, id).calls;
  }

  lemma ClosingEnds(c: Chore, price: int, date: int, id: Uuid)
    requires Fair(c, price)
    ensures var row := NewRow(c, date, price, id);
      var s := Run(OneReadState(c, price, date, id), [Close(c.member, date, date), Advance(1), Advance(1)]);
      && s.calls == [Completed(row, c, price), UndoDone(row, None)]
      && row.(closed := true) in s.completions
  {
    var row, s := NewRow(c, date, price, id), OneReadState(c, price, date, id);
    RunOfThree(s, Close(c.member, date, date), Advance(1), Advance(1));
    ClosingRaceChargesForLiveRow(s, 1, row, date, date);
    assert DoAdvance(Step(s, Close(c.member, date, date)), 1).calls == [Completed(row, c, price), Delete(row)];
  }

  /** A week closed between an undo's read and its DELETE: the member ends up charged for a completion that stays, closed. */
  lemma ClosingRun(c: Chore, price: int, date: int, id: Uuid)
    requires Fair(c, price)
    ensures var s := Run(START, CompleteActions(0, c, price, date, id) + ReadActions(1, c.id, date)
                                + [Close(c.member, date, date), Advance(1), Advance(1)]);
      && Quiet(s) && PricesReversible(s)
      && NewRow(c, date, price, id).(closed := true) in s.completions
      && P.Drift(s, c.member) == -price
  {
    var row, undo := NewRow(c, date, price, id), CompleteActions(0, c, price, date, id) + ReadActions(1, c.id, date);
    var race := [Close(c.member, date, date), Advance(1), Advance(1)];
    OneRead(c, price, date, id);
    RunConcat(START, undo, race);
    ClosingEnds(c, price, date, id);
    EveryCentIsAccounted(undo + race, c.member);
    SumByTwo(Completed(row, c, price), UndoDone(row, None), ImbalanceFor(c.member));
  }

  /** After both undos have charged and one has deleted. */
  function OneDeletedState(c: Chore, price: int, date: int, id: Uuid): State {
    var row := NewRow(c, date, price, id);
    State([], [Payment(row, price), Reversal(row), Reversal(row)],
          [Completed(row, c, price), UndoDone(row, Some(row)), Delete(row)], {id})
  }

  lemma OneDeleted(c: Chore, price: int, date: int, id: Uuid)
    requires Fair(c, price)
    ensures Run(TwoReadsState(c, price, date, id), [Advance(1), Advance(2), Advance(1)]) == OneDeletedState(c, price, date, id)
  {
    var row, s := NewRow(c, date, price, id), TwoReadsState(c, price, date, id);
    RunOfThree(s, Advance(1), Advance(2), Advance(1));
    BothReverse(s, 1, 2, row);
    var t := s.(calls := [Completed(row, c, price), Delete(row), Delete(row)],
                ledger := [Payment(row, price), Reversal(row), Reversal(row)]);
    assert DoAdvance(DoAdvance(s, 1), 2) == t;
    UndoIsUndisturbedIff(t, 1);
    assert Filter([row], Kept(row.chore, row.date)) == [] by {
      assert [row][..0] == [];
    }
    assert t.calls[1 := UndoDone(row, Some(row))] == OneDeletedState(c, price, date, id).calls;
  }

  lemma OneDeletedRun(c: Chore, price: int, date: int, id: Uuid)
    requires Fair(c, price)
    ensures Run(START, TwoReadsActions(c, price, date, id) + [Advance(1), Advance(2), Advance(1)])
         == OneDeletedState(c, price, date, id)
  {
    TwoReads(c, price, date, id);
    RunConcat(START, TwoReadsActions(c, price, date, id), [Advance(1), Advance(2), Advance(1)]);
    OneDeleted(c, price, date, id);
  }

  /** Two undos that both read before either deletes: from the start, the member ends up charged twice for one completion. */
  lemma DoubleUndoRun(c: Chore, price: int, date: int, id: Uuid)
    requires Fair(c, price)
    ensures var s := Run(START, TwoReadsActions(c, price, date, id) + [Advance(1), Advance(2), Advance(1)] + [Advance(2)]);
      Quiet(s) && PricesReversible(s) && s.completions == [] && P.Drift(s, c.member) == -price
  {
    var row, t := NewRow(c, date, price, id), OneDeletedState(c, price, date, id);
    var race := TwoReadsActions(c, price, date, id) + [Advance(1), Advance(2), Advance(1)];
    OneDeletedRun(c, price, date, id);
    assert (race + [Advance(2)])[..|race|] == race;
    assert DoAdvance(t, 2).calls == [Completed(row, c, price), UndoDone(row, Some(row)), UndoDone(row, None)];
    EveryCentIsAccounted(race + [Advance(2)], c.member);
    SumByThree(Completed(row, c, price), UndoDone(row, Some(row)), UndoDone(row, None), ImbalanceFor(c.member));
  }

  /** The slot filled again, by a completion at another price. */
  lemma SecondCompletion(c: Chore, price: int, date: int, id: Uuid, newPrice: int, newId: Uuid)
    requires Fair(c, price) && Fair(c, newPrice) && id != newId
    ensures var s, row := OneDeletedState(c, price, date, id), NewRow(c, date, newPrice, newId);
      var t := Run(s, CompleteActions(3, c, newPrice, date, newId));
      t.completions == [row] && t.calls == s.calls + [Completed(row, c, newPrice)]
  {
    CompletesAndPays(OneDeletedState(c, price, date, id), c, newPrice, date, newId);
  }

  /**
   Two undos that both charge for a completion, and a second completion between their DELETEs: the later
   DELETE takes away the newer row, and the member ends up with the difference of the two prices.
   */
  lemma NewerCompletionRun(c: Chore, price: int, date: int, id: Uuid, newPrice: int, newId: Uuid)
    requires Fair(c, price) && Fair(c, newPrice) && id != newId
    ensures var s := Run(START, TwoReadsActions(c, price, date, id) + [Advance(1), Advance(2), Advance(1)]
                                + CompleteActions(3, c, newPrice, date, newId) + [Advance(2)]);
      Quiet(s) && PricesReversible(s) && s.completions == [] && P.Drift(s, c.member) == newPrice - price
  {
    var undos, race, again := TwoReadsActions(c, price, date, id), [Advance(1), Advance(2), Advance(1)],
                              CompleteActions(3, c, newPrice, date, newId);
    var row, newRow := NewRow(c, date, price, id), NewRow(c, date, newPrice, newId);
    OneDeletedRun(c, price, date, id);
    RunConcat(START, undos + race, again);
    SecondCompletion(c, price, date, id, newPrice, newId);
    var t := Run(START, undos + race + again);
    var actions := undos + race + again + [Advance(2)];
    assert actions[..|actions| - 1] == undos + race + again;
    LastDelete(t, c, price, date, id, newPrice, newId);
    EveryCentIsAccounted(actions, c.member);
    SumByFour(Completed(row, c, price), UndoDone(row, Some(row)), UndoDone(row, Some(newRow)),
                    Completed(newRow, c, newPrice), ImbalanceFor(c.member));
  }

  lemma LastDelete(t: State, c: Chore, price: int, date: int, id: Uuid, newPrice: int, newId: Uuid)
    requires t.completions == [NewRow(c, date, newPrice, newId)]
    requires t.calls == OneDeletedState(c, price, date, id).calls + [Completed(NewRow(c, date, newPrice, newId), c, newPrice)]
    ensures var row, newRow := NewRow(c, date, price, id), NewRow(c, date, newPrice, newId);
      var s := DoAdvance(t, 2);
      && s.completions == []
      && s.calls == [Completed(row, c, price), UndoDone(row, Some(row)), UndoDone(row, Some(newRow)), Completed(newRow, c, newPrice)]
  {
    var newRow := NewRow(c, date, newPrice, newId);
    assert Find([newRow], OnDay(c.id, date)) == Some(newRow) && Filter([newRow], Kept(c.id, date)) == [] by {
      assert [newRow][..0] == [];
    }
  }
}

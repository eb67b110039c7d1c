/**
 Concurrent completions and undos. Each SQL statement is one atomic step; calls interleave freely, may
 die between any two statements, and the week may be closed at any moment. The price of a completion
 is whatever the call computed before its insert. Balances are not repeated here: only rows are.
 */
module ChoreProtocol {
  import opened Common
  import opened Seqs
  import opened Ledger
  import opened WalletMath
  import opened Chores
  import opened WeekEnd
  import ChoreRuns

  /** Where a call stands; `removed` is what the guarded DELETE of an undo took away. */
  datatype Pc =
    | Insert(c: Chore, price: int, date: int, id: Uuid)
    | Pay(row: Completion, c: Chore, price: int)
    | Completed(row: Completion, c: Chore, price: int)
    | Read(chore: Uuid, date: int)
    | Reverse(row: Completion)
    | Delete(row: Completion)
    | UndoDone(row: Completion, removed: Option<Completion>)
    | Stopped
    | Dead(at: Pc)

  /** `used` are the identifiers generated so far. */
  datatype State = State(completions: seq<Completion>, ledger: seq<Row>, calls: seq<Pc>, used: set<Uuid>)

  const START := State([], [], [], {})

  datatype Action =
    | StartComplete(c: Chore, price: int, date: int, id: Uuid)
    | StartUndo(chore: Uuid, date: int)
    | Advance(p: nat)
    | Crash(p: nat)
    | Close(member: Uuid, from: int, to: int)

  function Goto(s: State, p: nat, pc: Pc): State
    requires p < |s.calls|
  {
    s.(calls := s.calls[p := pc])
  }

  /** The state of a completing call right after its insert. */
  function Inserted(c: Chore, price: int, date: int, id: Uuid): Pc {
    var row := NewRow(c, date, price, id);
    if c.autoApprove && price > 0 then Pay(row, c, price) else Completed(row, c, price)
  }

  /** The row at the slot that the guarded DELETE would remove. */
  function Deletable(completions: seq<Completion>, chore: Uuid, date: int): Option<Completion> {
    var found := Find(completions, OnDay(chore, date));
    if found.Some? && !found.value.closed then found else None
  }

  function DoAdvance(s: State, p: nat): State
    requires p < |s.calls|
  {
    match s.calls[p]
    case Insert(c, price, date, id) =>
      var row := NewRow(c, date, price, id);
      if Find(s.completions, OnDay(c.id, date)).Some? then Goto(s, p, Stopped)
      else Goto(s, p, Inserted(c, price, date, id)).(completions := s.completions + [row])
    case Pay(row, c, price) =>
      if Violates(s.ledger, Payment(row, price)) then Goto(s, p, Stopped)
      else Goto(s, p, Completed(row, c, price)).(ledger := s.ledger + [Payment(row, price)])
    case Read(chore, date) =>
      var found := Find(s.completions, OnDay(chore, date));
      if found.None? || found.value.closed then Goto(s, p, Stopped)
      else Goto(s, p, if found.value.payout > 0 then Reverse(found.value) else Delete(found.value))
    case Reverse(row) => Goto(s, p, Delete(row)).(ledger := s.ledger + [Reversal(row)])
    case Delete(row) =>
      Goto(s, p, UndoDone(row, Deletable(s.completions, row.chore, row.date)))
      .(completions := Filter(s.completions, Kept(row.chore, row.date)))
    case _ => s
  }

  function Step(s: State, a: Action): State {
    match a
    case StartComplete(c, price, date, id) =>
      if id in s.used then s else s.(calls := s.calls + [Insert(c, price, date, id)], used := s.used + {id})
    case StartUndo(chore, date) => s.(calls := s.calls + [Read(chore, date)])
    case Advance(p) => if p < |s.calls| then DoAdvance(s, p) else s
    case Crash(p) => if p < |s.calls| && !s.calls[p].Dead? then Goto(s, p, Dead(s.calls[p])) else s
    case Close(member, from, to) => s.(completions := Map(s.completions, Closing(member, from, to)))
  }

  function Run(s: State, actions: seq<Action>): State {
    if actions == [] then s else Step(Run(s, actions[..|actions| - 1]), actions[|actions| - 1])
  }

  // ---- Keys ----

  ghost predicate UniqueSlots(s: State) {
    DistinctBy(s.completions, Slot)
  }

  lemma CloseKeepsSlots(completions: seq<Completion>, member: Uuid, from: int, to: int)
    requires DistinctBy(completions, Slot)
    ensures DistinctBy(Map(completions, Closing(member, from, to)), Slot)
  {
  }

  lemma StepKeepsSlots(s: State, a: Action)
    requires UniqueSlots(s)
    ensures UniqueSlots(Step(s, a))
  {
    match a
    case Advance(p) =>
      if p < |s.calls| {
        var pc := s.calls[p];
        if pc.Insert? {
          FindSpec(s.completions, OnDay(pc.c.id, pc.date));
          if Find(s.completions, OnDay(pc.c.id, pc.date)).None? {
            DistinctByAppend(s.completions, NewRow(pc.c, pc.date, pc.price, pc.id), Slot);
          }
        } else if pc.Delete? {
          DistinctByFilter(s.completions, Kept(pc.row.chore, pc.row.date), Slot);
        }
      }
    case Close(member, from, to) => CloseKeepsSlots(s.completions, member, from, to);
    case _ =>
  }

  /** In every interleaving there is at most one completion per chore and day. */
  lemma {:induction false} RunKeepsSlots(actions: seq<Action>)
    ensures UniqueSlots(Run(START, actions))
  {
    if actions != [] {
      RunKeepsSlots(actions[..|actions| - 1]);
      StepKeepsSlots(Run(START, actions[..|actions| - 1]), actions[|actions| - 1]);
    }
  }

  // ---- Accounting ----

  /** By how much a call, as far as it got, has moved the ledger against the live completions. */
  function Imbalance(pc: Pc, member: Uuid): int {
    match pc
    case Pay(row, c, price) => -LivePayout(member)(row)
    case Completed(row, c, price) => (if row.member == member then Credited(c, price) else 0) - LivePayout(member)(row)
    case Delete(row) => -LivePayout(member)(row)
    case UndoDone(row, removed) =>
      (if removed.Some? then LivePayout(member)(removed.value) else 0) - LivePayout(member)(row)
    case Dead(at) => Imbalance(at, member)
    case _ => 0
  }

  function ImbalanceFor(member: Uuid): Pc -> int {
    (pc: Pc) => Imbalance(pc, member)
  }

  /** Net ledger amount from completions, less the positive payouts of the live ones. */
  function Drift(s: State, member: Uuid): int {
    SumBy(s.ledger, NetRow(member)) - SumBy(s.completions, LivePayout(member))
  }

  ghost predicate Accounted(s: State, member: Uuid) {
    Drift(s, member) == SumBy(s.calls, ImbalanceFor(member))
  }

  lemma DeleteTakesAway(completions: seq<Completion>, chore: Uuid, date: int, f: Completion -> int)
    requires DistinctBy(completions, Slot)
    ensures var removed := Deletable(completions, chore, date);
      SumBy(Filter(completions, Kept(chore, date)), f) == SumBy(completions, f) - if removed.Some? then f(removed.value) else 0
  {
    FindSpec(completions, OnDay(chore, date));
    var found := Find(completions, OnDay(chore, date));
    forall d | d in completions && OnDay(chore, date)(d) ensures found == Some(d) {
      assert Slot(d) == Slot(found.value);
    }
    if found.Some? && !found.value.closed {
      SumByRemove(completions, Kept(chore, date), f, found.value);
    } else {
      FilterAll(completions, Kept(chore, date));
    }
  }

  /** A call that pays was auto-approved at a positive price; its row is its own. */
  ghost predicate Consistent(pc: Pc) {
    match pc
    case Pay(row, c, price) => c.autoApprove && price > 0
    case Reverse(row) => row.payout > 0
    case Dead(at) => Consistent(at)
    case _ => true
  }

  ghost predicate AllConsistent(s: State) {
    forall pc :: pc in s.calls ==> Consistent(pc)
  }

  /** Payout rows refer only to completions whose call has paid, and generated identifiers are distinct. */
  function IdIn(pc: Pc): Option<Uuid> {
    match pc
    case Insert(c, price, date, id) => Some(id)
    case Pay(row, c, price) => Some(row.id)
    case Completed(row, c, price) => Some(row.id)
    case Dead(at) => IdIn(at)
    case _ => None
  }

  predicate Unpaid(pc: Pc) {
    match pc
    case Insert(_, _, _, _) => true
    case Pay(_, _, _) => true
    case _ => false
  }

  ghost predicate Ids(s: State) {
    && (forall p :: 0 <= p < |s.calls| && IdIn(s.calls[p]).Some? ==> IdIn(s.calls[p]).value in s.used)
    && (forall p, q :: 0 <= p < q < |s.calls| && IdIn(s.calls[p]).Some? ==> IdIn(s.calls[p]) != IdIn(s.calls[q]))
  }

  /** A call that has not paid yet has no payout row. */
  ghost predicate NoEarlyRows(s: State) {
    && (forall r :: r in s.ledger && r.kind == ChorePayout ==> r.ref.Some? && r.ref.value in s.used)
    && (forall p, r :: 0 <= p < |s.calls| && Unpaid(s.calls[p]) && r in s.ledger && r.kind == ChorePayout ==>
          r.ref != IdIn(s.calls[p]))
  }

  lemma AdvanceKeepsId(s: State, p: nat)
    requires p < |s.calls|
    ensures var after := DoAdvance(s, p);
      && after.calls == s.calls[p := after.calls[p]] && after.used == s.used
      && (IdIn(after.calls[p]).None? || IdIn(after.calls[p]) == IdIn(s.calls[p]))
  {
  }

  lemma IdsUpdate(s: State, after: State, p: nat)
    requires Ids(s) && p < |s.calls| == |after.calls| && after.calls == s.calls[p := after.calls[p]] && after.used == s.used
    requires IdIn(after.calls[p]).None? || IdIn(after.calls[p]) == IdIn(s.calls[p])
    ensures Ids(after)
  {
  }

  lemma StepKeepsIds(s: State, a: Action)
    requires Ids(s)
    ensures Ids(Step(s, a))
  {
    var after := Step(s, a);
    match a
    case StartComplete(c, price, date, id) =>
    case StartUndo(chore, date) =>
    case Advance(p) =>
      if p < |s.calls| {
        AdvanceKeepsId(s, p);
        IdsUpdate(s, after, p);
      }
    case Crash(p) =>
      if p < |s.calls| && !s.calls[p].Dead? {
        IdsUpdate(s, after, p);
      }
    case Close(_, _, _) =>
  }

  lemma StepKeepsConsistent(s: State, a: Action)
    requires AllConsistent(s)
    ensures AllConsistent(Step(s, a))
  {
  }

  lemma PayKeepsNoEarlyRows(s: State, p: nat)
    requires Ids(s) && NoEarlyRows(s) && p < |s.calls| && s.calls[p].Pay?
    ensures NoEarlyRows(DoAdvance(s, p))
    ensures !Violates(s.ledger, Payment(s.calls[p].row, s.calls[p].price))
  {
  }

  lemma StepKeepsNoEarlyRows(s: State, a: Action)
    requires Ids(s) && NoEarlyRows(s)
    ensures NoEarlyRows(Step(s, a))
  {
    match a
    case Advance(p) =>
      if p < |s.calls| {
        if s.calls[p].Pay? {
          PayKeepsNoEarlyRows(s, p);
        } else {
          var after := DoAdvance(s, p);
          assert forall r :: r in after.ledger && r.kind == ChorePayout ==> r in s.ledger;
          assert Unpaid(after.calls[p]) ==> Unpaid(s.calls[p]) && IdIn(after.calls[p]) == IdIn(s.calls[p]);
        }
      }
    case _ =>
  }

  // ---- Every step is accounted for ----

  lemma InsertedImbalance(c: Chore, price: int, date: int, id: Uuid, member: Uuid)
    ensures ImbalanceFor(member)(Inserted(c, price, date, id)) == -LivePayout(member)(NewRow(c, date, price, id))
  {
  }

  lemma AdvanceInsert(s: State, p: nat, member: Uuid)
    requires p < |s.calls| && s.calls[p].Insert? && Accounted(s, member)
    ensures Accounted(DoAdvance(s, p), member)
  {
    var pc, after := s.calls[p], DoAdvance(s, p);
    if Find(s.completions, OnDay(pc.c.id, pc.date)).Some? {
      SumByUpdate(s.calls, p, Stopped, ImbalanceFor(member));
    } else {
      var row, next := NewRow(pc.c, pc.date, pc.price, pc.id), Inserted(pc.c, pc.price, pc.date, pc.id);
      assert after == s.(calls := s.calls[p := next], completions := s.completions + [row]);
      InsertedImbalance(pc.c, pc.price, pc.date, pc.id, member);
      SumByUpdate(s.calls, p, next, ImbalanceFor(member));
      SumByAppend(s.completions, row, LivePayout(member));
    }
  }

  lemma AdvancePay(s: State, p: nat, member: Uuid)
    requires p < |s.calls| && s.calls[p].Pay? && Consistent(s.calls[p]) && Accounted(s, member)
    requires !Violates(s.ledger, Payment(s.calls[p].row, s.calls[p].price))
    ensures Accounted(DoAdvance(s, p), member)
  {
    SumByUpdate(s.calls, p, DoAdvance(s, p).calls[p], ImbalanceFor(member));
    SumByAppend(s.ledger, Payment(s.calls[p].row, s.calls[p].price), NetRow(member));
  }

  lemma ReversalImbalance(row: Completion, member: Uuid)
    requires row.payout > 0
    ensures NetRow(member)(Reversal(row)) == ImbalanceFor(member)(Delete(row))
  {
  }

  lemma AdvanceReverse(s: State, p: nat, member: Uuid)
    requires p < |s.calls| && s.calls[p].Reverse? && Consistent(s.calls[p]) && Accounted(s, member)
    ensures Accounted(DoAdvance(s, p), member)
  {
    var row := s.calls[p].row;
    assert DoAdvance(s, p) == s.(calls := s.calls[p := Delete(row)], ledger := s.ledger + [Reversal(row)]);
    ReversalImbalance(row, member);
    SumByUpdate(s.calls, p, Delete(row), ImbalanceFor(member));
    SumByAppend(s.ledger, Reversal(row), NetRow(member));
  }

  lemma AdvanceDelete(s: State, p: nat, member: Uuid)
    requires p < |s.calls| && s.calls[p].Delete? && UniqueSlots(s) && Accounted(s, member)
    ensures Accounted(DoAdvance(s, p), member)
  {
    var row := s.calls[p].row;
    var removed := Deletable(s.completions, row.chore, row.date);
    SumByUpdate(s.calls, p, UndoDone(row, removed), ImbalanceFor(member));
    DeleteTakesAway(s.completions, row.chore, row.date, LivePayout(member));
  }

  lemma AdvanceRead(s: State, p: nat, member: Uuid)
    requires p < |s.calls| && s.calls[p].Read? && Accounted(s, member)
    ensures Accounted(DoAdvance(s, p), member)
  {
    SumByUpdate(s.calls, p, DoAdvance(s, p).calls[p], ImbalanceFor(member));
  }

  ghost predicate Inv(s: State) {
    UniqueSlots(s) && AllConsistent(s) && Ids(s) && NoEarlyRows(s)
  }

  lemma StepKeepsInv(s: State, a: Action)
    requires Inv(s)
    ensures Inv(Step(s, a))
  {
    StepKeepsSlots(s, a);
    StepKeepsConsistent(s, a);
    StepKeepsIds(s, a);
    StepKeepsNoEarlyRows(s, a);
  }

  lemma AdvanceIsAccounted(s: State, p: nat, member: Uuid)
    requires Inv(s) && Accounted(s, member) && p < |s.calls|
    ensures Accounted(DoAdvance(s, p), member)
  {
    assert Consistent(s.calls[p]);
    match s.calls[p]
    case Insert(_, _, _, _) => AdvanceInsert(s, p, member);
    case Pay(_, _, _) =>
      PayKeepsNoEarlyRows(s, p);
      AdvancePay(s, p, member);
    case Read(_, _) => AdvanceRead(s, p, member);
    case Reverse(_) => AdvanceReverse(s, p, member);
    case Delete(_) => AdvanceDelete(s, p, member);
    case _ =>
  }

  lemma CloseIsAccounted(s: State, m: Uuid, from: int, to: int, member: Uuid)
    requires Accounted(s, member)
    ensures Accounted(Step(s, Close(m, from, to)), member)
  {
    SumByMap(s.completions, Closing(m, from, to), LivePayout(member), LivePayout(member));
  }

  lemma CrashIsAccounted(s: State, p: nat, member: Uuid)
    requires Accounted(s, member)
    ensures Accounted(Step(s, Crash(p)), member)
  {
    if p < |s.calls| {
      SumByUpdate(s.calls, p, Dead(s.calls[p]), ImbalanceFor(member));
    }
  }

  lemma StartIsAccounted(s: State, pc: Pc, used: set<Uuid>, member: Uuid)
    requires Accounted(s, member) && Imbalance(pc, member) == 0
    ensures Accounted(s.(calls := s.calls + [pc], used := used), member)
  {
    SumByAppend(s.calls, pc, ImbalanceFor(member));
  }

  lemma StepIsAccounted(s: State, a: Action, member: Uuid)
    requires Inv(s) && Accounted(s, member)
    ensures Accounted(Step(s, a), member)
  {
    match a
    case StartComplete(c, price, date, id) => StartIsAccounted(s, Insert(c, price, date, id), s.used + {id}, member);
    case StartUndo(chore, date) => StartIsAccounted(s, Read(chore, date), s.used, member);
    case Advance(p) =>
      if p < |s.calls| {
        AdvanceIsAccounted(s, p, member);
      }
    case Crash(p) => CrashIsAccounted(s, p, member);
    case Close(m, from, to) => CloseIsAccounted(s, m, from, to, member);
  }

  lemma {:induction false} RunKeepsInv(actions: seq<Action>)
    ensures Inv(Run(START, actions))
  {
    if actions != [] {
      RunKeepsInv(actions[..|actions| - 1]);
      StepKeepsInv(Run(START, actions[..|actions| - 1]), actions[|actions| - 1]);
    }
  }

  /**
   In every interleaving, crashes included, the difference between the net ledger amount and the live
   payouts is exactly the sum of what the calls, as far as each of them got, have left behind.
   */
  lemma {:induction false} EveryCentIsAccounted(actions: seq<Action>, member: Uuid)
    ensures Accounted(Run(START, actions), member)
  {
    if actions != [] {
      RunKeepsInv(actions[..|actions| - 1]);
      EveryCentIsAccounted(actions[..|actions| - 1], member);
      StepIsAccounted(Run(START, actions[..|actions| - 1]), actions[|actions| - 1], member);
    }
  }

  /** The unique index never refuses a payout: a call about to pay can always advance to having paid. */
  lemma PayoutsAreNeverRefused(actions: seq<Action>, p: nat)
    requires var s := Run(START, actions); p < |s.calls| && s.calls[p].Pay?
    ensures DoAdvance(Run(START, actions), p).calls[p].Completed?
  {
    RunKeepsInv(actions);
    PayKeepsNoEarlyRows(Run(START, actions), p);
  }

  /** In every interleaving a completion has at most one payout row. */
  lemma {:induction false} InterleavedRunPaysOnce(actions: seq<Action>)
    ensures ChoreRuns.PaidOnce(Run(START, actions).ledger)
  {
    if actions != [] {
      var s, a := Run(START, actions[..|actions| - 1]), actions[|actions| - 1];
      InterleavedRunPaysOnce(actions[..|actions| - 1]);
      if a.Advance? && a.p < |s.calls| {
        AdvancePaysOnce(s, a.p);
      }
    }
  }

  lemma AdvancePaysOnce(s: State, p: nat)
    requires ChoreRuns.PaidOnce(s.ledger) && p < |s.calls|
    ensures ChoreRuns.PaidOnce(DoAdvance(s, p).ledger)
  {
  }

  // ---- Quiet states ----

  /** No call is under way or has died. */
  predicate Quiet(s: State) {
    forall pc :: pc in s.calls ==> pc.Completed? || pc.UndoDone? || pc.Stopped?
  }

  predicate PricesReversible(s: State) {
    forall pc :: pc in s.calls && pc.Completed? ==> Reversible(pc.c, pc.price)
  }

  /** What an undo charged beyond the payout of the row it removed. */
  function Overcharge(pc: Pc, member: Uuid): int {
    if pc.UndoDone? then
      LivePayout(member)(pc.row) - if pc.removed.Some? then LivePayout(member)(pc.removed.value) else 0
    else 0
  }

  function Undercredit(member: Uuid): Pc -> int {
    (pc: Pc) => -Overcharge(pc, member)
  }

  predicate RowsAreOwn(s: State) {
    forall pc :: pc in s.calls ==> OwnRow(pc)
  }

  /** The row of a completing call is the one it inserted. */
  predicate OwnRow(pc: Pc) {
    match pc
    case Pay(row, c, price) => row.member == c.member && row.payout == Wrap32(price)
    case Completed(row, c, price) => row.member == c.member && row.payout == Wrap32(price)
    case Dead(at) => OwnRow(at)
    case _ => true
  }

  lemma {:induction false} RunKeepsOwnRows(actions: seq<Action>)
    ensures RowsAreOwn(Run(START, actions))
  {
    if actions != [] {
      var s, a := Run(START, actions[..|actions| - 1]), actions[|actions| - 1];
      RunKeepsOwnRows(actions[..|actions| - 1]);
      if a.Advance? && a.p < |s.calls| {
        assert OwnRow(s.calls[a.p]);
        assert OwnRow(DoAdvance(s, a.p).calls[a.p]);
      } else if a.Crash? && a.p < |s.calls| {
        assert OwnRow(s.calls[a.p]);
      }
    }
  }

  /**
   Once all calls have returned, with reversible prices, the ledger falls short of the live payouts by
   exactly what the undos overcharged.
   */
  lemma QuietDriftIsOvercharge(actions: seq<Action>, member: Uuid)
    requires var s := Run(START, actions); Quiet(s) && PricesReversible(s)
    ensures var s := Run(START, actions); Drift(s, member) == SumBy(s.calls, Undercredit(member))
  {
    var s := Run(START, actions);
    EveryCentIsAccounted(actions, member);
    RunKeepsOwnRows(actions);
    forall pc | pc in s.calls ensures ImbalanceFor(member)(pc) == Undercredit(member)(pc) {
      if pc.Completed? {
        assert OwnRow(pc);
        ReversibleIff(pc.c, pc.price);
      }
    }
    SumByEqual(s.calls, ImbalanceFor(member), Undercredit(member));
  }

  /** An undo removes the row it had read precisely when that row is still there, untouched, at its DELETE. */
  lemma UndoIsUndisturbedIff(s: State, p: nat)
    requires UniqueSlots(s) && p < |s.calls| && s.calls[p].Delete? && !s.calls[p].row.closed
    ensures var row := s.calls[p].row;
      DoAdvance(s, p).calls[p] == UndoDone(row, Some(row)) <==> row in s.completions
  {
    var row := s.calls[p].row;
    FindSpec(s.completions, OnDay(row.chore, row.date));
    if row in s.completions {
      assert Slot(Find(s.completions, OnDay(row.chore, row.date)).value) == Slot(row);
    }
  }

  /** A closed completion survives every later interleaving unchanged. */
  lemma {:induction false} ClosedSurvives(s: State, actions: seq<Action>, c: Completion)
    requires c in s.completions && c.closed
    ensures c in Run(s, actions).completions
  {
    if actions != [] {
      var before, a := Run(s, actions[..|actions| - 1]), actions[|actions| - 1];
      ClosedSurvives(s, actions[..|actions| - 1], c);
      if a.Advance? && a.p < |before.calls| && before.calls[a.p].Delete? {
        FilterMembers(before.completions, Kept(before.calls[a.p].row.chore, before.calls[a.p].row.date));
      } else if a.Close? {
        var i :| 0 <= i < |before.completions| && before.completions[i] == c;
        assert Step(before, a).completions[i] == c;
      }
    }
  }

  // ---- Races ----

  lemma NothingLeftOnDay(completions: seq<Completion>, row: Completion)
    requires DistinctBy(completions, Slot) && row in completions && !row.closed
    ensures Deletable(Filter(completions, Kept(row.chore, row.date)), row.chore, row.date).None?
  {
    var left := Filter(completions, Kept(row.chore, row.date));
    FilterMembers(completions, Kept(row.chore, row.date));
    FindSpec(left, OnDay(row.chore, row.date));
  }

  /** Both reversals are written before either delete: two rows against one completion. */
  lemma BothReverse(s: State, p: nat, q: nat, row: Completion)
    requires p < |s.calls| && q < |s.calls| && p != q && s.calls[p] == s.calls[q] == Reverse(row)
    ensures var t := DoAdvance(DoAdvance(s, p), q);
      t == s.(calls := s.calls[p := Delete(row)][q := Delete(row)], ledger := s.ledger + [Reversal(row), Reversal(row)])
  {
  }

  lemma BothDelete(s: State, p: nat, q: nat, row: Completion)
    requires UniqueSlots(s) && row in s.completions && !row.closed
    requires p < |s.calls| && q < |s.calls| && p != q && s.calls[p] == s.calls[q] == Delete(row)
    ensures var t := DoAdvance(DoAdvance(s, p), q);
      t == s.(calls := s.calls[p := UndoDone(row, Some(row))][q := UndoDone(row, None)],
              completions := Filter(s.completions, Kept(row.chore, row.date)))
  {
    UndoIsUndisturbedIff(s, p);
    NothingLeftOnDay(s.completions, row);
    FilterTwice(s.completions, Kept(row.chore, row.date));
  }

  lemma TwoReversalsDrift(s: State, t: State, row: Completion)
    requires UniqueSlots(s) && row in s.completions && !row.closed && row.payout > 0
    requires t.ledger == s.ledger + [Reversal(row), Reversal(row)]
    requires t.completions == Filter(s.completions, Kept(row.chore, row.date))
    ensures Drift(t, row.member) == Drift(s, row.member) - row.payout
  {
    var net := NetRow(row.member);
    FindSpec(s.completions, OnDay(row.chore, row.date));
    assert Slot(Find(s.completions, OnDay(row.chore, row.date)).value) == Slot(row);
    DeleteTakesAway(s.completions, row.chore, row.date, LivePayout(row.member));
    SumByAppend(s.ledger, Reversal(row), net);
    SumByAppend(s.ledger + [Reversal(row)], Reversal(row), net);
    assert t.ledger == s.ledger + [Reversal(row)] + [Reversal(row)];
  }

  /**
   Two undos of one completion that have both read it before either deletes it charge the member twice:
   the second one removes nothing.
   */
  lemma RacingUndosChargeTwice(s: State, p: nat, q: nat, row: Completion)
    requires UniqueSlots(s) && row in s.completions && !row.closed && row.payout > 0
    requires p < |s.calls| && q < |s.calls| && p != q && s.calls[p] == s.calls[q] == Reverse(row)
    ensures var t := DoAdvance(DoAdvance(DoAdvance(DoAdvance(s, p), q), p), q);
      && t.calls[p] == UndoDone(row, Some(row)) && t.calls[q] == UndoDone(row, None)
      && Drift(t, row.member) == Drift(s, row.member) - row.payout
  {
    var t2 := DoAdvance(DoAdvance(s, p), q);
    BothReverse(s, p, q, row);
    BothDelete(t2, p, q, row);
    TwoReversalsDrift(s, DoAdvance(DoAdvance(t2, p), q), row);
  }

  lemma FilterTwice(completions: seq<Completion>, p: Completion -> bool)
    ensures Filter(Filter(completions, p), p) == Filter(completions, p)
  {
    FilterMembers(completions, p);
    FilterAll(Filter(completions, p), p);
  }

  /** An undo that read its completion before the week was closed charges for it, yet the completion stays. */
  lemma ClosingRaceChargesForLiveRow(s: State, p: nat, row: Completion, from: int, to: int)
    requires UniqueSlots(s) && row in s.completions && !row.closed && from <= row.date <= to
    requires p < |s.calls| && s.calls[p] == Reverse(row)
    ensures var t := DoAdvance(DoAdvance(Step(s, Close(row.member, from, to)), p), p);
      && t.calls[p] == UndoDone(row, None)
      && row.(closed := true) in t.completions
      && t.ledger == s.ledger + [Reversal(row)]
  {
    var completions := Map(s.completions, Closing(row.member, from, to));
    ClosedIsNotDeletable(s.completions, row, from, to);
    var t1 := s.(completions := completions);
    assert Step(s, Close(row.member, from, to)) == t1;
    var t2 := DoAdvance(t1, p);
    assert t2 == t1.(calls := s.calls[p := Delete(row)], ledger := s.ledger + [Reversal(row)]);
    FilterMembers(completions, Kept(row.chore, row.date));
  }

  lemma ClosedIsNotDeletable(before: seq<Completion>, row: Completion, from: int, to: int)
    requires DistinctBy(before, Slot) && row in before && from <= row.date <= to
    ensures var after := Map(before, Closing(row.member, from, to));
      row.(closed := true) in after && Deletable(after, row.chore, row.date).None?
  {
    var after := Map(before, Closing(row.member, from, to));
    var i :| 0 <= i < |before| && before[i] == row;
    assert InWeek(row.member, from, to)(row);
    assert after[i] == row.(closed := true);
    CloseKeepsSlots(before, row.member, from, to);
    FindSpec(after, OnDay(row.chore, row.date));
    assert after[i] in after && OnDay(row.chore, row.date)(after[i]);
    var found := Find(after, OnDay(row.chore, row.date)).value;
    assert Slot(found) == Slot(after[i]);
  }
}

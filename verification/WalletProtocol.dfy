/**
 Concurrent wallet credits and ad-hoc task calls. Each statement is one atomic step; a call
 may be interleaved with others between any two of its statements and may die anywhere. A
 credit makes sure the wallet exists, inserts its ledger row and then adjusts the cached
 balance; an approval changes the task's status first and credits afterwards.
 */
module WalletProtocol {
  import opened Common
  import opened Seqs
  import opened Ledger

  datatype Status = Open | Pending | Approved | Declined

  datatype Task = Task(household: Uuid, member: Uuid, payout: int, status: Status)

  /** Where a call stands; `Dead(pc)` is a call that stopped before executing `pc`. */
  datatype Pc =
    | CheckCaller(task: Uuid, household: Uuid, isAdmin: bool, caller: Option<Uuid>)
    | MarkCompleted(task: Uuid, household: Uuid)
    | Approve(task: Uuid, household: Uuid)
    | Decline(task: Uuid, household: Uuid)
    | GetWallet(credit: Row)
    | InsertRow(credit: Row)
    | AdjustBalance(credit: Row)
    | Finished(ok: bool)
    | Dead(at: Pc)

  datatype State = State(
    tasks: map<Uuid, Task>,
    ledger: seq<Row>,
    wallets: map<Uuid, int>,
    calls: seq<Pc>)

  const EMPTY := State(map[], [], map[], [])

  datatype Action =
    | CreateTask(id: Uuid, household: Uuid, member: Uuid, payout: int)
    | Call(pc: Pc)
    | Advance(p: nat)
    | Crash(p: nat)

  /** The entry points. Only an approval credits with kind ad_hoc, and only admins approve or decline. */
  predicate IsEntry(pc: Pc) {
    pc.CheckCaller? || pc.Approve? || pc.Decline? || (pc.GetWallet? && pc.credit.kind != AdHoc)
  }

  /** A guarded UPDATE: the task exists in the household and has the status the statement asks for. */
  predicate Matches(s: State, task: Uuid, household: Uuid, status: Status) {
    task in s.tasks && s.tasks[task].household == household && s.tasks[task].status == status
  }

  function SetStatus(s: State, task: Uuid, status: Status): State
    requires task in s.tasks
  {
    s.(tasks := s.tasks[task := s.tasks[task].(status := status)])
  }

  function Goto(s: State, p: nat, pc: Pc): State
    requires p < |s.calls|
  {
    s.(calls := s.calls[p := pc])
  }

  function Payout(id: Uuid, t: Task): Row {
    Row(t.member, t.payout, AdHoc, Some(id))
  }

  function DoAdvance(s: State, p: nat): State
    requires p < |s.calls|
  {
    match s.calls[p]
    case CheckCaller(task, household, isAdmin, caller) =>
      if task in s.tasks && s.tasks[task].household == household && (isAdmin || caller == Some(s.tasks[task].member))
      then Goto(s, p, MarkCompleted(task, household))
      else Goto(s, p, Finished(false))
    case MarkCompleted(task, household) =>
      if Matches(s, task, household, Open) then Goto(SetStatus(s, task, Pending), p, Finished(true))
      else Goto(s, p, Finished(false))
    case Approve(task, household) =>
      if Matches(s, task, household, Pending) then
        Goto(SetStatus(s, task, Approved), p,
             if s.tasks[task].payout > 0 then GetWallet(Payout(task, s.tasks[task])) else Finished(true))
      else Goto(s, p, Finished(false))
    case Decline(task, household) =>
      if Matches(s, task, household, Pending) then Goto(SetStatus(s, task, Declined), p, Finished(true))
      else Goto(s, p, Finished(false))
    case GetWallet(c) =>
      Goto(s, p, InsertRow(c)).(wallets := s.wallets[c.member := Cached(s.wallets, c.member)])
    case InsertRow(c) =>
      if Violates(s.ledger, c) then Goto(s, p, Finished(false))
      else Goto(s, p, AdjustBalance(c)).(ledger := s.ledger + [c])
    case AdjustBalance(c) =>
      if c.member in s.wallets
      then Goto(s, p, Finished(true)).(wallets := s.wallets[c.member := s.wallets[c.member] + c.amount])
      else Goto(s, p, Finished(false))
    case Finished(_) => s
    case Dead(_) => s
  }

  /** One statement of one call, or a new call; an action that is not enabled changes nothing. */
  function Step(s: State, a: Action): State {
    match a
    case CreateTask(id, household, member, payout) =>
      if id !in s.tasks && payout >= 0 then s.(tasks := s.tasks[id := Task(household, member, payout, Open)]) else s
    case Call(pc) => if IsEntry(pc) then s.(calls := s.calls + [pc]) else s
    case Advance(p) => if p < |s.calls| then DoAdvance(s, p) else s
    case Crash(p) => if p < |s.calls| && !s.calls[p].Finished? then Goto(s, p, Dead(s.calls[p])) else s
  }

  function Run(s: State, actions: seq<Action>): State {
    if actions == [] then s else Step(Run(s, actions[..|actions| - 1]), actions[|actions| - 1])
  }

  // ---- Cached balance and ledger ----

  /** The adjustment of a member's balance a call still owes after inserting its row. */
  function Outstanding(pc: Pc, member: Uuid): int {
    match pc
    case AdjustBalance(c) => if c.member == member then c.amount else 0
    case Dead(at) => Outstanding(at, member)
    case _ => 0
  }

  function OutstandingFor(member: Uuid): Pc -> int {
    (pc: Pc) => Outstanding(pc, member)
  }

  function TotalOutstanding(s: State, member: Uuid): int {
    SumBy(s.calls, OutstandingFor(member))
  }

  ghost predicate BalanceOk(s: State, member: Uuid) {
    Cached(s.wallets, member) + TotalOutstanding(s, member) == LedgerSum(s.ledger, member)
  }

  /** A call that is about to insert or adjust has its wallet. */
  ghost predicate WalletsExist(s: State) {
    forall p :: 0 <= p < |s.calls| && (s.calls[p].InsertRow? || s.calls[p].AdjustBalance?) ==>
      s.calls[p].credit.member in s.wallets
  }

  lemma InsertLeavesAdjustmentOutstanding(s: State, p: nat, member: Uuid)
    requires p < |s.calls| && s.calls[p].InsertRow?
    ensures var c := s.calls[p].credit;
      SumBy(s.calls[p := AdjustBalance(c)], OutstandingFor(member)) - LedgerSum(s.ledger + [c], member)
        == TotalOutstanding(s, member) - LedgerSum(s.ledger, member)
  {
    var c := s.calls[p].credit;
    SumByUpdate(s.calls, p, AdjustBalance(c), OutstandingFor(member));
    SumByAppend(s.ledger, c, AmountFor(member));
  }

  lemma InsertKeepsBalance(s: State, p: nat, member: Uuid)
    requires p < |s.calls| && s.calls[p].InsertRow? && BalanceOk(s, member)
    ensures BalanceOk(DoAdvance(s, p), member)
  {
    InsertLeavesAdjustmentOutstanding(s, p, member);
    SumByUpdate(s.calls, p, Finished(false), OutstandingFor(member));
  }

  lemma AdvanceKeepsBalance(s: State, p: nat, member: Uuid)
    requires p < |s.calls| && BalanceOk(s, member) && WalletsExist(s)
    ensures BalanceOk(DoAdvance(s, p), member)
  {
    if s.calls[p].InsertRow? {
      InsertKeepsBalance(s, p, member);
    } else {
      var s' := DoAdvance(s, p);
      SumByUpdate(s.calls, p, s'.calls[p], OutstandingFor(member));
      assert s'.ledger == s.ledger && s'.calls == s.calls[p := s'.calls[p]];
    }
  }

  lemma StepKeepsBalance(s: State, a: Action, member: Uuid)
    requires BalanceOk(s, member) && WalletsExist(s)
    ensures BalanceOk(Step(s, a), member)
  {
    match a {
      case CreateTask(_, _, _, _) =>
      case Call(pc) =>
        SumByAppend(s.calls, pc, OutstandingFor(member));
      case Advance(p) =>
        if p < |s.calls| {
          AdvanceKeepsBalance(s, p, member);
        }
      case Crash(p) =>
        if p < |s.calls| {
          SumByUpdate(s.calls, p, Dead(s.calls[p]), OutstandingFor(member));
        }
    }
  }

  lemma AdvanceKeepsWallets(s: State, p: nat)
    requires WalletsExist(s) && p < |s.calls|
    ensures WalletsExist(DoAdvance(s, p))
  {
  }

  lemma StepKeepsWallets(s: State, a: Action)
    requires WalletsExist(s)
    ensures WalletsExist(Step(s, a))
  {
    if a.Advance? && a.p < |s.calls| {
      AdvanceKeepsWallets(s, a.p);
    }
  }

  lemma {:induction false} RunKeepsBalance(actions: seq<Action>, member: Uuid)
    ensures BalanceOk(Run(EMPTY, actions), member) && WalletsExist(Run(EMPTY, actions))
  {
    if actions != [] {
      var before, last := Run(EMPTY, actions[..|actions| - 1]), actions[|actions| - 1];
      RunKeepsBalance(actions[..|actions| - 1], member);
      StepKeepsBalance(before, last, member);
      StepKeepsWallets(before, last);
    }
  }

  function Recompute(s: State, member: Uuid): State {
    if member in s.wallets then s.(wallets := s.wallets[member := LedgerSum(s.ledger, member)]) else s
  }

  /**
   In every interleaving, with calls dying anywhere, recomputing a balance from the ledger changes
   nothing exactly when no adjustment of that member is outstanding.
   */
  lemma RecomputeIsANoOpIffNothingIsOutstanding(actions: seq<Action>, member: Uuid)
    ensures var s := Run(EMPTY, actions);
      && Cached(s.wallets, member) + TotalOutstanding(s, member) == LedgerSum(s.ledger, member)
      && (member in s.wallets ==> (Recompute(s, member) == s <==> TotalOutstanding(s, member) == 0))
  {
    RunKeepsBalance(actions, member);
    var s := Run(EMPTY, actions);
    if member in s.wallets && LedgerSum(s.ledger, member) == s.wallets[member] {
      assert s.wallets[member := LedgerSum(s.ledger, member)] == s.wallets;
    }
    if member in s.wallets && LedgerSum(s.ledger, member) != s.wallets[member] {
      assert Recompute(s, member).wallets[member] != s.wallets[member];
    }
  }

  lemma {:induction false} NothingOutstanding(calls: seq<Pc>, member: Uuid)
    requires forall pc :: pc in calls ==> pc.Finished?
    ensures SumBy(calls, OutstandingFor(member)) == 0
  {
    if calls != [] {
      assert calls[|calls| - 1] in calls && forall pc :: pc in calls[..|calls| - 1] ==> pc in calls;
      NothingOutstanding(calls[..|calls| - 1], member);
    }
  }

  /** Once every call has finished, each cached balance is its ledger sum. */
  lemma QuiescentBalanceIsLedgerSum(actions: seq<Action>, member: Uuid)
    requires forall pc :: pc in Run(EMPTY, actions).calls ==> pc.Finished?
    ensures Cached(Run(EMPTY, actions).wallets, member) == LedgerSum(Run(EMPTY, actions).ledger, member)
  {
    RunKeepsBalance(actions, member);
    NothingOutstanding(Run(EMPTY, actions).calls, member);
  }

  // ---- Ad-hoc tasks ----

  function Pays(task: Uuid): Row -> int {
    (r: Row) => if r.kind == AdHoc && r.ref == Some(task) then 1 else 0
  }

  /** 1 when the call is an approval of the task that has yet to insert its ledger row. */
  function Owes(pc: Pc, task: Uuid): int {
    match pc
    case GetWallet(c) => if c.kind == AdHoc && c.ref == Some(task) then 1 else 0
    case InsertRow(c) => if c.kind == AdHoc && c.ref == Some(task) then 1 else 0
    case Dead(at) => Owes(at, task)
    case _ => 0
  }

  function OwesFor(task: Uuid): Pc -> int {
    (pc: Pc) => Owes(pc, task)
  }

  predicate IsPaidTask(s: State, task: Uuid) {
    task in s.tasks && s.tasks[task].status == Approved && s.tasks[task].payout > 0
  }

  /** Ledger rows written for the task and rows still owed to it are together one if it was approved with a payout. */
  ghost predicate PaymentsOk(s: State, task: Uuid) {
    SumBy(s.ledger, Pays(task)) + SumBy(s.calls, OwesFor(task)) == if IsPaidTask(s, task) then 1 else 0
  }

  predicate IsAdHocCredit(pc: Pc) {
    (pc.GetWallet? || pc.InsertRow?) && pc.credit.kind == AdHoc
  }

  lemma TaskCallKeepsPayments(s: State, p: nat, task: Uuid)
    requires p < |s.calls| && PaymentsOk(s, task)
    requires s.calls[p].CheckCaller? || s.calls[p].MarkCompleted? || s.calls[p].Approve? || s.calls[p].Decline?
    ensures PaymentsOk(DoAdvance(s, p), task)
  {
    var s' := DoAdvance(s, p);
    SumByUpdate(s.calls, p, s'.calls[p], OwesFor(task));
    assert s'.ledger == s.ledger && s'.calls == s.calls[p := s'.calls[p]];
  }

  lemma InsertSettlesOneDebt(s: State, p: nat, task: Uuid)
    requires p < |s.calls| && s.calls[p].InsertRow?
    ensures var c := s.calls[p].credit;
      SumBy(s.ledger + [c], Pays(task)) + SumBy(s.calls[p := AdjustBalance(c)], OwesFor(task))
        == SumBy(s.ledger, Pays(task)) + SumBy(s.calls, OwesFor(task))
  {
    var c := s.calls[p].credit;
    SumByUpdate(s.calls, p, AdjustBalance(c), OwesFor(task));
    SumByAppend(s.ledger, c, Pays(task));
  }

  lemma InsertKeepsPayments(s: State, p: nat, task: Uuid)
    requires p < |s.calls| && s.calls[p].InsertRow? && PaymentsOk(s, task)
    ensures PaymentsOk(DoAdvance(s, p), task)
  {
    if Violates(s.ledger, s.calls[p].credit) {
      SumByUpdate(s.calls, p, Finished(false), OwesFor(task));
    } else {
      InsertSettlesOneDebt(s, p, task);
    }
  }

  lemma AdvanceKeepsPayments(s: State, p: nat, task: Uuid)
    requires p < |s.calls| && PaymentsOk(s, task)
    ensures PaymentsOk(DoAdvance(s, p), task)
  {
    match s.calls[p] {
      case Finished(_) =>
      case Dead(_) =>
      case InsertRow(_) =>
        InsertKeepsPayments(s, p, task);
      case GetWallet(c) =>
        SumByUpdate(s.calls, p, InsertRow(c), OwesFor(task));
      case AdjustBalance(c) =>
        SumByUpdate(s.calls, p, DoAdvance(s, p).calls[p], OwesFor(task));
      case _ =>
        TaskCallKeepsPayments(s, p, task);
    }
  }

  lemma StepKeepsPayments(s: State, a: Action, task: Uuid)
    requires PaymentsOk(s, task)
    ensures PaymentsOk(Step(s, a), task)
  {
    match a {
      case CreateTask(_, _, _, _) =>
      case Call(pc) =>
        SumByAppend(s.calls, pc, OwesFor(task));
      case Advance(p) =>
        if p < |s.calls| {
          AdvanceKeepsPayments(s, p, task);
        }
      case Crash(p) =>
        if p < |s.calls| {
          SumByUpdate(s.calls, p, Dead(s.calls[p]), OwesFor(task));
        }
    }
  }

  /** Tasks keep their payout and member; the status moves only along open, pending, approved or declined. */
  predicate Follows(before: Status, after: Status) {
    || before == after
    || (before == Open && after == Pending)
    || (before == Pending && (after == Approved || after == Declined))
  }

  ghost predicate TasksEvolve(s: State, s': State) {
    forall t :: t in s.tasks ==>
      && t in s'.tasks
      && s'.tasks[t] == s.tasks[t].(status := s'.tasks[t].status)
      && Follows(s.tasks[t].status, s'.tasks[t].status)
  }

  lemma StepEvolvesTasks(s: State, a: Action)
    ensures TasksEvolve(s, Step(s, a))
  {
  }

  ghost predicate RowAmountOk(s: State, r: Row) {
    r.kind == AdHoc ==>
      && r.ref.Some? && r.ref.value in s.tasks
      && r.amount == s.tasks[r.ref.value].payout && r.member == s.tasks[r.ref.value].member
  }

  ghost predicate CallAmountOk(s: State, pc: Pc) {
    IsAdHocCredit(pc) ==>
      && pc.credit.ref.Some? && pc.credit.ref.value in s.tasks
      && pc.credit == Payout(pc.credit.ref.value, s.tasks[pc.credit.ref.value])
  }

  /** Every ad_hoc row, written or on its way, is for an existing task's own payout. */
  ghost predicate AmountsOk(s: State) {
    && (forall r :: r in s.ledger ==> RowAmountOk(s, r))
    && (forall p :: 0 <= p < |s.calls| ==> CallAmountOk(s, s.calls[p]))
  }

  lemma AdvanceKeepsOwnAmount(s: State, p: nat)
    requires p < |s.calls| && CallAmountOk(s, s.calls[p])
    ensures CallAmountOk(DoAdvance(s, p), DoAdvance(s, p).calls[p])
    ensures var s' := DoAdvance(s, p);
      s'.ledger == s.ledger || (|s'.ledger| == |s.ledger| + 1 && s'.ledger[..|s.ledger|] == s.ledger
                                && RowAmountOk(s', s'.ledger[|s.ledger|]))
  {
  }

  lemma AdvanceKeepsAmounts(s: State, p: nat)
    requires p < |s.calls| && AmountsOk(s)
    ensures AmountsOk(DoAdvance(s, p))
  {
    var s' := DoAdvance(s, p);
    AdvanceKeepsOwnAmount(s, p);
    StepEvolvesTasks(s, Advance(p));
    forall r | r in s'.ledger ensures RowAmountOk(s', r) {
      if r in s.ledger {
        assert RowAmountOk(s, r);
      }
    }
    forall q | 0 <= q < |s'.calls| ensures CallAmountOk(s', s'.calls[q]) {
      if q != p {
        assert s'.calls[q] == s.calls[q] && CallAmountOk(s, s.calls[q]);
      }
    }
  }

  lemma StepKeepsAmounts(s: State, a: Action)
    requires AmountsOk(s)
    ensures AmountsOk(Step(s, a))
  {
    match a {
      case Advance(p) =>
        if p < |s.calls| {
          AdvanceKeepsAmounts(s, p);
        }
      case _ =>
        var s' := Step(s, a);
        StepEvolvesTasks(s, a);
        forall r | r in s'.ledger ensures RowAmountOk(s', r) {
          assert RowAmountOk(s, r);
        }
        forall q | 0 <= q < |s'.calls| ensures CallAmountOk(s', s'.calls[q]) {
          assert q < |s.calls| ==> CallAmountOk(s, s.calls[q]);
        }
    }
  }

  lemma {:induction false} RunKeepsPayments(actions: seq<Action>, task: Uuid)
    ensures PaymentsOk(Run(EMPTY, actions), task) && AmountsOk(Run(EMPTY, actions))
  {
    if actions != [] {
      var before, last := Run(EMPTY, actions[..|actions| - 1]), actions[|actions| - 1];
      RunKeepsPayments(actions[..|actions| - 1], task);
      StepKeepsPayments(before, last, task);
      StepKeepsAmounts(before, last);
    }
  }

  lemma {:induction false} OwesIsNotNegative(pc: Pc, task: Uuid)
    ensures Owes(pc, task) >= 0
  {
    if pc.Dead? {
      OwesIsNotNegative(pc.at, task);
    }
  }

  /**
   In every interleaving a task has at most one ad_hoc ledger row; it has one only if it was approved,
   and then for exactly its payout and its member. A declined task is never paid.
   */
  lemma TasksArePaidAtMostOnce(actions: seq<Action>, task: Uuid)
    ensures var s := Run(EMPTY, actions);
      && 0 <= SumBy(s.ledger, Pays(task)) <= (if IsPaidTask(s, task) then 1 else 0)
      && (forall r :: r in s.ledger && r.kind == AdHoc && r.ref == Some(task) ==>
            IsPaidTask(s, task) && r.amount == s.tasks[task].payout && r.member == s.tasks[task].member)
  {
    var s := Run(EMPTY, actions);
    RunKeepsPayments(actions, task);
    forall pc | pc in s.calls ensures OwesFor(task)(pc) >= 0 {
      OwesIsNotNegative(pc, task);
    }
    SumByNonNegative(s.calls, OwesFor(task));
    SumByNonNegative(s.ledger, Pays(task));
    forall r | r in s.ledger && r.kind == AdHoc && r.ref == Some(task) ensures IsPaidTask(s, task) {
      assert Pays(task)(r) == 1;
    }
  }

  lemma {:induction false} NothingOwed(calls: seq<Pc>, task: Uuid)
    requires forall pc :: pc in calls ==> pc.Finished?
    ensures SumBy(calls, OwesFor(task)) == 0
  {
    if calls != [] {
      assert calls[|calls| - 1] in calls && forall pc :: pc in calls[..|calls| - 1] ==> pc in calls;
      NothingOwed(calls[..|calls| - 1], task);
    }
  }

  /** Once every call has finished without dying, an approved task with a payout has been paid exactly once. */
  lemma QuiescentTasksArePaidExactlyOnce(actions: seq<Action>, task: Uuid)
    requires forall pc :: pc in Run(EMPTY, actions).calls ==> pc.Finished?
    ensures var s := Run(EMPTY, actions);
      SumBy(s.ledger, Pays(task)) == if IsPaidTask(s, task) then 1 else 0
  {
    RunKeepsPayments(actions, task);
    NothingOwed(Run(EMPTY, actions).calls, task);
  }

  /** A decision is final: later steps of any calls keep the task approved or declined, with the same payout. */
  lemma {:induction false} DecisionsAreFinal(s: State, actions: seq<Action>, task: Uuid)
    requires task in s.tasks
    ensures var s' := Run(s, actions);
      && task in s'.tasks
      && s'.tasks[task] == s.tasks[task].(status := s'.tasks[task].status)
      && (s.tasks[task].status == Approved || s.tasks[task].status == Declined ==> s'.tasks[task] == s.tasks[task])
      && (s.tasks[task].status == Pending ==> s'.tasks[task].status != Open)
  {
    if actions != [] {
      DecisionsAreFinal(s, actions[..|actions| - 1], task);
      StepEvolvesTasks(Run(s, actions[..|actions| - 1]), actions[|actions| - 1]);
    }
  }

  // ---- What the calls achieve ----

  /** The guarded UPDATE of an approval: it approves a pending task of the household and changes no task otherwise. */
  lemma ApprovalDecides(s: State, p: nat, task: Uuid, household: Uuid)
    requires p < |s.calls| && s.calls[p] == Approve(task, household)
    ensures var s' := DoAdvance(s, p);
      var decides := task in s.tasks && s.tasks[task].household == household && s.tasks[task].status == Pending;
      && s'.tasks == (if decides then s.tasks[task := s.tasks[task].(status := Approved)] else s.tasks)
      && (s'.calls[p] == Finished(false) <==> !decides)
      && s'.ledger == s.ledger && s'.wallets == s.wallets
  {
  }

  lemma DeclineDecides(s: State, p: nat, task: Uuid, household: Uuid)
    requires p < |s.calls| && s.calls[p] == Decline(task, household)
    ensures var s' := DoAdvance(s, p);
      var decides := task in s.tasks && s.tasks[task].household == household && s.tasks[task].status == Pending;
      && s'.tasks == (if decides then s.tasks[task := s.tasks[task].(status := Declined)] else s.tasks)
      && s'.calls[p] == Finished(decides)
      && s'.ledger == s.ledger && s'.wallets == s.wallets
  {
  }

  /** A task is created open, for its member and payout, exactly if its identifier is new and the payout not negative. */
  lemma TaskIsCreatedIff(s: State, id: Uuid, household: Uuid, member: Uuid, payout: int)
    ensures var s' := Step(s, CreateTask(id, household, member, payout));
      && (id !in s.tasks && payout >= 0 ==> s' == s.(tasks := s.tasks[id := Task(household, member, payout, Open)]))
      && (id in s.tasks || payout < 0 ==> s' == s)
  {
  }

  lemma {:induction false} RunConcat(s: State, first: seq<Action>, rest: seq<Action>)
    ensures Run(s, first + rest) == Run(Run(s, first), rest)
  {
    if rest == [] {
      assert first + rest == first;
    } else {
      assert (first + rest)[..|first + rest| - 1] == first + rest[..|rest| - 1];
      RunConcat(s, first, rest[..|rest| - 1]);
    }
  }

  lemma RunOfOne(s: State, a: Action)
    ensures Run(s, [a]) == Step(s, a)
  {
    assert [a][..0] == [];
  }

  lemma RunOfTwo(s: State, a: Action, b: Action)
    ensures Run(s, [a, b]) == Step(Step(s, a), b)
  {
    RunOfOne(s, a);
    assert [a, b][..1] == [a];
  }

  lemma RunOfThree(s: State, a: Action, b: Action, c: Action)
    ensures Run(s, [a, b, c]) == Step(Step(Step(s, a), b), c)
  {
    RunOfTwo(s, a, b);
    assert [a, b, c][..2] == [a, b];
  }

  /**
   Whatever else goes on, a task that was pending in the household when its approval ran stays approved;
   once every call has finished it has exactly one ledger row if it has a payout, and none otherwise.
   */
  lemma ApprovedTasksArePaid(before: seq<Action>, p: nat, after: seq<Action>, task: Uuid, household: Uuid)
    requires var s := Run(EMPTY, before);
      p < |s.calls| && s.calls[p] == Approve(task, household) && Matches(s, task, household, Pending)
    requires forall pc :: pc in Run(EMPTY, before + [Advance(p)] + after).calls ==> pc.Finished?
    ensures var s, end := Run(EMPTY, before), Run(EMPTY, before + [Advance(p)] + after);
      && task in end.tasks && end.tasks[task] == s.tasks[task].(status := Approved)
      && SumBy(end.ledger, Pays(task)) == if s.tasks[task].payout > 0 then 1 else 0
  {
    RunConcat(EMPTY, before, [Advance(p)]);
    RunConcat(EMPTY, before + [Advance(p)], after);
    RunOfOne(Run(EMPTY, before), Advance(p));
    ApprovalDecides(Run(EMPTY, before), p, task, household);
    DecisionsAreFinal(Run(EMPTY, before + [Advance(p)]), after, task);
    QuiescentTasksArePaidExactlyOnce(before + [Advance(p)] + after, task);
  }

  /** A task that was pending in the household when its refusal ran stays declined, and is never paid, crashes or not. */
  lemma DeclinedTasksAreNotPaid(before: seq<Action>, p: nat, after: seq<Action>, task: Uuid, household: Uuid)
    requires var s := Run(EMPTY, before);
      p < |s.calls| && s.calls[p] == Decline(task, household) && Matches(s, task, household, Pending)
    ensures var s, end := Run(EMPTY, before), Run(EMPTY, before + [Advance(p)] + after);
      && task in end.tasks && end.tasks[task] == s.tasks[task].(status := Declined)
      && forall r :: r in end.ledger && r.kind == AdHoc ==> r.ref != Some(task)
  {
    RunConcat(EMPTY, before, [Advance(p)]);
    RunConcat(EMPTY, before + [Advance(p)], after);
    RunOfOne(Run(EMPTY, before), Advance(p));
    DeclineDecides(Run(EMPTY, before), p, task, household);
    DecisionsAreFinal(Run(EMPTY, before + [Advance(p)]), after, task);
    TasksArePaidAtMostOnce(before + [Advance(p)] + after, task);
  }

  /**
   Marking a task done makes it pending exactly when it is open, in the caller's household, and the caller
   is an admin or its own member.
   */
  lemma CompletionIffAllowed(s: State, p: nat, task: Uuid, household: Uuid, isAdmin: bool, caller: Option<Uuid>)
    requires p < |s.calls| && s.calls[p] == CheckCaller(task, household, isAdmin, caller)
    ensures var s' := Run(s, [Advance(p), Advance(p)]);
      var allowed := task in s.tasks && s.tasks[task].household == household && s.tasks[task].status == Open
        && (isAdmin || caller == Some(s.tasks[task].member));
      && s'.calls == s.calls[p := Finished(allowed)]
      && s'.tasks == (if allowed then s.tasks[task := s.tasks[task].(status := Pending)] else s.tasks)
      && s'.ledger == s.ledger && s'.wallets == s.wallets
  {
    RunOfTwo(s, Advance(p), Advance(p));
    var checked := DoAdvance(s, p);
    if task in s.tasks && s.tasks[task].household == household && (isAdmin || caller == Some(s.tasks[task].member)) {
      MarksOpenTask(checked, p, task, household);
      assert checked.calls[p := Finished(s.tasks[task].status == Open)] == s.calls[p := Finished(s.tasks[task].status == Open)];
    } else {
      assert checked.calls == s.calls[p := Finished(false)] && DoAdvance(checked, p) == checked;
    }
  }

  lemma MarksOpenTask(s: State, p: nat, task: Uuid, household: Uuid)
    requires p < |s.calls| && s.calls[p] == MarkCompleted(task, household)
    requires task in s.tasks && s.tasks[task].household == household
    ensures var s', open := DoAdvance(s, p), s.tasks[task].status == Open;
      && s'.calls == s.calls[p := Finished(open)]
      && s'.tasks == (if open then s.tasks[task := s.tasks[task].(status := Pending)] else s.tasks)
      && s'.ledger == s.ledger && s'.wallets == s.wallets
  {
  }

  /**
   A credit nobody interrupts, whether a new wallet or an old one, appends its row and raises the balance
   by its amount; one that the unique index refuses leaves both alone.
   */
  lemma UninterruptedCredit(s: State, p: nat, c: Row)
    requires p < |s.calls| && s.calls[p] == GetWallet(c)
    ensures var s', refused := Run(s, [Advance(p), Advance(p), Advance(p)]), Violates(s.ledger, c);
      && s'.calls == s.calls[p := Finished(!refused)] && s'.tasks == s.tasks
      && s'.ledger == (if refused then s.ledger else s.ledger + [c])
      && c.member in s'.wallets
      && s'.wallets[c.member] == Cached(s.wallets, c.member) + (if refused then 0 else c.amount)
      && (forall m :: m != c.member ==> Cached(s'.wallets, m) == Cached(s.wallets, m))
  {
    RunOfThree(s, Advance(p), Advance(p), Advance(p));
    var ready := DoAdvance(s, p);
    OpensWallet(s, p, c);
    if Violates(s.ledger, c) {
      var refused := DoAdvance(ready, p);
      assert refused.calls == s.calls[p := Finished(false)] && DoAdvance(refused, p) == refused;
    } else {
      var inserted := DoAdvance(ready, p);
      assert inserted == ready.(calls := s.calls[p := AdjustBalance(c)], ledger := s.ledger + [c]);
      Adjusts(inserted, p, c);
    }
  }

  lemma OpensWallet(s: State, p: nat, c: Row)
    requires p < |s.calls| && s.calls[p] == GetWallet(c)
    ensures var s' := DoAdvance(s, p);
      && s'.calls == s.calls[p := InsertRow(c)] && s'.ledger == s.ledger && s'.tasks == s.tasks
      && c.member in s'.wallets && forall m :: Cached(s'.wallets, m) == Cached(s.wallets, m)
  {
  }

  lemma Adjusts(s: State, p: nat, c: Row)
    requires p < |s.calls| && s.calls[p] == AdjustBalance(c) && c.member in s.wallets
    ensures var s' := DoAdvance(s, p);
      && s'.calls == s.calls[p := Finished(true)] && s'.ledger == s.ledger && s'.tasks == s.tasks
      && c.member in s'.wallets && s'.wallets[c.member] == s.wallets[c.member] + c.amount
      && forall m :: m != c.member ==> Cached(s'.wallets, m) == Cached(s.wallets, m)
  {
  }

  /** An approval nobody interrupts pays the task's member its payout, on ledger and balance. */
  lemma UninterruptedApproval(s: State, p: nat, task: Uuid, household: Uuid)
    requires p < |s.calls| && s.calls[p] == Approve(task, household) && Matches(s, task, household, Pending)
    requires s.tasks[task].payout > 0
    ensures var t, end := s.tasks[task], Run(s, [Advance(p)] + [Advance(p), Advance(p), Advance(p)]);
      && end.tasks == s.tasks[task := t.(status := Approved)] && end.calls == s.calls[p := Finished(true)]
      && end.ledger == s.ledger + [Row(t.member, t.payout, AdHoc, Some(task))]
      && Cached(end.wallets, t.member) == Cached(s.wallets, t.member) + t.payout
      && (forall m :: m != t.member ==> Cached(end.wallets, m) == Cached(s.wallets, m))
  {
    RunConcat(s, [Advance(p)], [Advance(p), Advance(p), Advance(p)]);
    RunOfOne(s, Advance(p));
    ApprovalDecides(s, p, task, household);
    UninterruptedCredit(Step(s, Advance(p)), p, Payout(task, s.tasks[task]));
  }

  // ---- The life of a task ----

  /** A task of member 3 in household 1, worth 500 cents, is created and marked done by its own member. */
  const DONE_BY_MEMBER := [CreateTask(7, 1, 3, 500), Call(CheckCaller(7, 1, false, Some(3))), Advance(0)] + [Advance(0)]

  const PENDING_TASK := State(map[7 := Task(1, 3, 500, Pending)], [], map[], [Finished(true)])

  lemma MemberFinishes()
    ensures Run(EMPTY, DONE_BY_MEMBER) == PENDING_TASK
  {
    RunConcat(EMPTY, [CreateTask(7, 1, 3, 500), Call(CheckCaller(7, 1, false, Some(3))), Advance(0)], [Advance(0)]);
    RunOfThree(EMPTY, CreateTask(7, 1, 3, 500), Call(CheckCaller(7, 1, false, Some(3))), Advance(0));
    var s := Run(EMPTY, [CreateTask(7, 1, 3, 500), Call(CheckCaller(7, 1, false, Some(3))), Advance(0)]);
    assert s == State(map[7 := Task(1, 3, 500, Open)], [], map[], [MarkCompleted(7, 1)]);
    RunOfOne(s, Advance(0));
  }

  /** Approved without interruption, it is paid: one row, and 500 cents on the balance. */
  lemma TaskIsPaid()
    ensures var s := Run(EMPTY, DONE_BY_MEMBER + [Call(Approve(7, 1))] + ([Advance(1)] + [Advance(1), Advance(1), Advance(1)]));
      && 7 in s.tasks && s.tasks[7] == Task(1, 3, 500, Approved)
      && s.ledger == [Row(3, 500, AdHoc, Some(7))] && Cached(s.wallets, 3) == 500
  {
    MemberFinishes();
    var called := Run(EMPTY, DONE_BY_MEMBER + [Call(Approve(7, 1))]);
    RunConcat(EMPTY, DONE_BY_MEMBER, [Call(Approve(7, 1))]);
    RunOfOne(PENDING_TASK, Call(Approve(7, 1)));
    RunConcat(EMPTY, DONE_BY_MEMBER + [Call(Approve(7, 1))], [Advance(1)] + [Advance(1), Advance(1), Advance(1)]);
    UninterruptedApproval(called, 1, 7, 1);
  }

  predicate DiedBeforePaying(pc: Pc, task: Uuid) {
    pc.Dead? && (pc.at.GetWallet? || pc.at.InsertRow?) && pc.at.credit.kind == AdHoc && pc.at.credit.ref == Some(task)
  }

  lemma StepKeepsDead(s: State, a: Action, p: nat, task: Uuid)
    requires p < |s.calls| && s.calls[p].Dead? && Owes(s.calls[p], task) == 1
    ensures p < |Step(s, a).calls| && Step(s, a).calls[p].Dead? && Owes(Step(s, a).calls[p], task) == 1
  {
  }

  lemma {:induction false} RunKeepsDead(s: State, actions: seq<Action>, p: nat, task: Uuid)
    requires p < |s.calls| && s.calls[p].Dead? && Owes(s.calls[p], task) == 1
    ensures var s' := Run(s, actions); p < |s'.calls| && s'.calls[p].Dead? && Owes(s'.calls[p], task) == 1
  {
    if actions != [] {
      RunKeepsDead(s, actions[..|actions| - 1], p, task);
      StepKeepsDead(Run(s, actions[..|actions| - 1]), actions[|actions| - 1], p, task);
    }
  }

  /**
   An approval that has changed the status and dies before its ledger row leaves the task approved and
   unpaid for good, whatever is called afterwards.
   */
  lemma DiedApprovalNeverPays(before: seq<Action>, p: nat, after: seq<Action>, task: Uuid)
    requires var s := Run(EMPTY, before); p < |s.calls| && DiedBeforePaying(s.calls[p], task)
    ensures var s := Run(EMPTY, before + after);
      && IsPaidTask(s, task)
      && forall r :: r in s.ledger && r.kind == AdHoc ==> r.ref != Some(task)
  {
    var s := Run(EMPTY, before + after);
    RunConcat(EMPTY, before, after);
    RunKeepsDead(Run(EMPTY, before), after, p, task);
    RunKeepsPayments(before + after, task);
    forall pc | pc in s.calls ensures OwesFor(task)(pc) >= 0 {
      OwesIsNotNegative(pc, task);
    }
    SumByNonNegative(s.calls, OwesFor(task));
    SumByNonNegative(s.ledger, Pays(task));
    assert OwesFor(task)(s.calls[p]) == 1 && s.calls[p] in s.calls;
    forall r | r in s.ledger && r.kind == AdHoc ensures r.ref != Some(task) {
      assert Pays(task)(r) <= SumBy(s.ledger, Pays(task));
    }
  }

  /** A run from the start in which that happens. */
  lemma TaskStaysUnpaid(after: seq<Action>)
    ensures var s := Run(EMPTY, DONE_BY_MEMBER + [Call(Approve(7, 1)), Advance(1), Crash(1)] + after);
      && 7 in s.tasks && s.tasks[7] == Task(1, 3, 500, Approved)
      && forall r :: r in s.ledger && r.kind == AdHoc ==> r.ref != Some(7)
  {
    var dies := [Call(Approve(7, 1)), Advance(1), Crash(1)];
    MemberFinishes();
    RunConcat(EMPTY, DONE_BY_MEMBER, dies);
    RunOfThree(PENDING_TASK, Call(Approve(7, 1)), Advance(1), Crash(1));
    var s := Run(EMPTY, DONE_BY_MEMBER + dies);
    assert s.calls[1] == Dead(GetWallet(Row(3, 500, AdHoc, Some(7)))) && s.tasks[7] == Task(1, 3, 500, Approved);
    DiedApprovalNeverPays(DONE_BY_MEMBER + dies, 1, after, 7);
    RunConcat(EMPTY, DONE_BY_MEMBER + dies, after);
    DecisionsAreFinal(s, after, 7);
  }
}

/**
 First-login provisioning of one account: any number of concurrent requests look the
 membership up, lock the account row, look again, create a starter household and member,
 and commit, with a fallback lookup on every error. The account row already exists.
 A statement is one atomic step. Under READ COMMITTED a statement sees everything
 committed before it, and FOR UPDATE waits for the holder of the row lock.
 */
module Provisioning {
  import opened Common
  import opened Seqs

  datatype Membership = Membership(household: Uuid, member: Uuid, role: string)

  /** Rows a transaction has inserted and nobody else can see yet. */
  datatype Writes = Writes(households: set<Uuid>, members: seq<Membership>)

  const NO_WRITES := Writes({}, [])

  /** Where one request stands. `Done(None)` is an error returned to the caller. */
  datatype Pc =
    | Lookup
    | Begin
    | AwaitLock
    | Recheck
    | CreateHousehold
    | CreateMember(household: Uuid)
    | Commit(result: Membership)
    | Fallback
    | Done(outcome: Option<Membership>)

  datatype Request = Request(pc: Pc, writes: Writes)

  /** `members` are the account's committed memberships, earliest first. */
  datatype State = State(
    households: set<Uuid>,
    members: seq<Membership>,
    lock: Option<nat>,
    used: set<Uuid>,
    requests: seq<Request>)

  datatype Action =
    | DoLookup(p: nat)
    | LookupFails(p: nat)
    | DoBegin(p: nat)
    | BeginFails(p: nat)
    | TakeLock(p: nat)
    | DoRecheck(p: nat)
    | InsertHousehold(p: nat, id: Uuid)
    | InsertMember(p: nat, id: Uuid)
    | CommitAcknowledged(p: nat)
    | CommitUnacknowledged(p: nat)
    | Abort(p: nat)
    | DoFallback(p: nat)
    | FallbackFails(p: nat)

  predicate IsFault(a: Action) {
    a.LookupFails? || a.BeginFails? || a.CommitUnacknowledged? || a.Abort? || a.FallbackFails?
  }

  predicate HoldsLock(pc: Pc) {
    pc.Recheck? || pc.CreateHousehold? || pc.CreateMember? || pc.Commit?
  }

  function PrimaryMember(members: seq<Membership>): Option<Membership> {
    if members == [] then None else Some(members[0])
  }

  predicate Enabled(s: State, a: Action) {
    a.p < |s.requests| &&
    var pc := s.requests[a.p].pc;
    match a
    case DoLookup(_) => pc.Lookup?
    case LookupFails(_) => pc.Lookup?
    case DoBegin(_) => pc.Begin?
    case BeginFails(_) => pc.Begin?
    case TakeLock(_) => pc.AwaitLock? && s.lock.None?
    case DoRecheck(_) => pc.Recheck?
    case InsertHousehold(_, id) => pc.CreateHousehold? && id !in s.used
    case InsertMember(_, id) => pc.CreateMember? && id !in s.used
    case CommitAcknowledged(_) => pc.Commit?
    case CommitUnacknowledged(_) => pc.Commit?
    case Abort(_) => pc.AwaitLock? || HoldsLock(pc)
    case DoFallback(_) => pc.Fallback?
    case FallbackFails(_) => pc.Fallback?
  }

  function Goto(s: State, p: nat, pc: Pc): State
    requires p < |s.requests|
  {
    s.(requests := s.requests[p := s.requests[p].(pc := pc)])
  }

  function Unlocked(s: State, p: nat): Option<nat> {
    if s.lock == Some(p) then None else s.lock
  }

  /** The transaction ends without effect and the row lock is free again. */
  function Rollback(s: State, p: nat): State
    requires p < |s.requests|
  {
    s.(lock := Unlocked(s, p), requests := s.requests[p := Request(Fallback, NO_WRITES)])
  }

  /** The transaction's rows become visible in one step, and the row lock is free again. */
  function CommitWrites(s: State, p: nat, pc: Pc): State
    requires p < |s.requests|
  {
    var w := s.requests[p].writes;
    s.(households := s.households + w.households,
       members := s.members + w.members,
       lock := Unlocked(s, p),
       requests := s.requests[p := Request(pc, NO_WRITES)])
  }

  /** One statement of one request; an action that is not enabled changes nothing. */
  function Step(s: State, a: Action): State {
    if !Enabled(s, a) then s else
    var p := a.p;
    var r := s.requests[p];
    match a
    case DoLookup(_) =>
      if s.members != [] then Goto(s, p, Done(PrimaryMember(s.members))) else Goto(s, p, Begin)
    case LookupFails(_) => Goto(s, p, Done(None))
    case DoBegin(_) => Goto(s, p, AwaitLock)
    case BeginFails(_) => Goto(s, p, Fallback)
    case TakeLock(_) => Goto(s, p, Recheck).(lock := Some(p))
    case DoRecheck(_) =>
      var visible := s.members + r.writes.members;
      if visible != [] then Goto(s, p, Commit(visible[0])) else Goto(s, p, CreateHousehold)
    case InsertHousehold(_, id) =>
      s.(used := s.used + {id},
         requests := s.requests[p := Request(CreateMember(id), r.writes.(households := r.writes.households + {id}))])
    case InsertMember(_, id) =>
      var m := Membership(r.pc.household, id, "admin");
      s.(used := s.used + {id},
         requests := s.requests[p := Request(Commit(m), r.writes.(members := r.writes.members + [m]))])
    case CommitAcknowledged(_) => CommitWrites(s, p, Done(Some(r.pc.result)))
    case CommitUnacknowledged(_) => CommitWrites(s, p, Fallback)
    case Abort(_) => Rollback(s, p)
    case DoFallback(_) => Goto(s, p, Done(PrimaryMember(s.members)))
    case FallbackFails(_) => Goto(s, p, Done(None))
  }

  function Run(s: State, actions: seq<Action>): State {
    if actions == [] then s else Step(Run(s, actions[..|actions| - 1]), actions[|actions| - 1])
  }

  /** Every request is about to do its first lookup and no transaction is open. */
  predicate Init(s: State) {
    && s.lock.None?
    && s.households <= s.used
    && (forall r :: r in s.requests ==> r == Request(Lookup, NO_WRITES))
  }

  predicate RequestOk(s: State, p: nat)
    requires p < |s.requests|
  {
    var r := s.requests[p];
    && (HoldsLock(r.pc) <==> s.lock == Some(p))
    && match r.pc
       case CreateHousehold => r.writes == NO_WRITES && s.members == []
       case CreateMember(h) => r.writes == Writes({h}, []) && s.members == [] && h !in s.households && h in s.used
       case Commit(m) =>
         || (r.writes == NO_WRITES && s.members != [] && m == s.members[0])
         || (r.writes == Writes({m.household}, [m]) && m.role == "admin"
             && s.members == [] && m.household !in s.households && m.household in s.used)
       case Done(Some(m)) => r.writes == NO_WRITES && s.members != [] && m == s.members[0]
       case _ => r.writes == NO_WRITES
  }

  /** What has been committed since `init`: nothing, or one starter household with its one member. */
  predicate CommittedOk(init: State, s: State) {
    || (s.members == init.members && s.households == init.households)
    || (init.members == [] && |s.members| == 1
        && s.members[0].role == "admin"
        && s.members[0].household !in init.households
        && s.households == init.households + {s.members[0].household})
  }

  predicate Inv(init: State, s: State) {
    && |s.requests| == |init.requests|
    && CommittedOk(init, s)
    && s.households <= s.used
    && (s.lock.Some? ==> s.lock.value < |s.requests|)
    && forall p :: 0 <= p < |s.requests| ==> RequestOk(s, p)
  }

  lemma StepKeepsCommittedOk(init: State, s: State, a: Action)
    requires Inv(init, s) && Enabled(s, a)
    ensures CommittedOk(init, Step(s, a))
    ensures Step(s, a).households <= Step(s, a).used
  {
    assert RequestOk(s, a.p);
  }

  lemma StepKeepsOwnRequestOk(init: State, s: State, a: Action)
    requires Inv(init, s) && Enabled(s, a)
    ensures RequestOk(Step(s, a), a.p)
  {
    assert RequestOk(s, a.p);
  }

  lemma StepKeepsOtherRequestOk(init: State, s: State, a: Action, q: nat)
    requires Inv(init, s) && Enabled(s, a) && q < |s.requests| && q != a.p
    ensures RequestOk(Step(s, a), q)
  {
    assert RequestOk(s, a.p);
    assert RequestOk(s, q);
  }

  lemma StepKeepsInv(init: State, s: State, a: Action)
    requires Inv(init, s)
    ensures Inv(init, Step(s, a))
  {
    if Enabled(s, a) {
      StepKeepsCommittedOk(init, s, a);
      StepKeepsOwnRequestOk(init, s, a);
      forall q | 0 <= q < |s.requests| ensures RequestOk(Step(s, a), q) {
        if q != a.p {
          StepKeepsOtherRequestOk(init, s, a, q);
        }
      }
    }
  }

  lemma {:induction false} RunKeepsInv(init: State, actions: seq<Action>)
    requires Init(init)
    ensures Inv(init, Run(init, actions))
  {
    if actions != [] {
      var prefix := actions[..|actions| - 1];
      RunKeepsInv(init, prefix);
      StepKeepsInv(init, Run(init, prefix), actions[|actions| - 1]);
    } else {
      forall p | 0 <= p < |init.requests| ensures RequestOk(init, p) {
        assert init.requests[p] in init.requests;
      }
    }
  }

  // ---- Generated identifiers ----

  /** Households and members written since the start have identifiers that did not exist then. */
  ghost predicate IsNew(init: State, m: Membership) {
    m.household !in init.used && m.member !in init.used && m.household != m.member
  }

  ghost predicate FreshWrites(init: State, s: State) {
    && init.used <= s.used && |init.members| <= |s.members|
    && (forall i :: |init.members| <= i < |s.members| ==> IsNew(init, s.members[i]) && s.members[i].member in s.used)
    && (forall r :: r in s.requests ==>
          && (forall m :: m in r.writes.members ==> IsNew(init, m) && m.member in s.used)
          && (r.pc.CreateMember? ==> r.pc.household !in init.used && r.pc.household in s.used))
  }

  lemma StepKeepsFreshWrites(init: State, s: State, a: Action)
    requires FreshWrites(init, s)
    ensures FreshWrites(init, Step(s, a))
  {
    var s' := Step(s, a);
    if Enabled(s, a) {
      assert s.requests[a.p] in s.requests;
      forall r | r in s'.requests
        ensures (forall m :: m in r.writes.members ==> IsNew(init, m) && m.member in s'.used)
        ensures r.pc.CreateMember? ==> r.pc.household !in init.used && r.pc.household in s'.used
      {
        var q :| 0 <= q < |s'.requests| && s'.requests[q] == r;
        assert q != a.p ==> s.requests[q] == r && s.requests[q] in s.requests;
      }
      forall i | |init.members| <= i < |s'.members| ensures IsNew(init, s'.members[i]) && s'.members[i].member in s'.used {
        assert i >= |s.members| ==> s'.members[i] in s.requests[a.p].writes.members;
      }
    }
  }

  lemma {:induction false} RunKeepsFreshWrites(init: State, actions: seq<Action>)
    requires Init(init)
    ensures FreshWrites(init, Run(init, actions))
  {
    if actions != [] {
      RunKeepsFreshWrites(init, actions[..|actions| - 1]);
      StepKeepsFreshWrites(init, Run(init, actions[..|actions| - 1]), actions[|actions| - 1]);
    }
  }

  // ---- Safety over every interleaving ----

  /**
   The households committed by the run are exactly those of the members it committed, at most one was, and
   that member administers the new household.
   */
  lemma AtMostOneStarter(init: State, actions: seq<Action>)
    requires Init(init)
    ensures var s := Run(init, actions);
      && init.members <= s.members
      && |s.members| - |init.members| <= (if init.members == [] then 1 else 0)
      && init.households <= s.households
      && s.households - init.households == (set m | m in s.members[|init.members|..] :: m.household)
      && forall m :: m in s.members[|init.members|..] ==>
           && m.household !in init.households && m.role == "admin"
           && m.household !in init.used && m.member !in init.used && m.member in s.used
  {
    RunKeepsInv(init, actions);
    RunKeepsFreshWrites(init, actions);
    var s := Run(init, actions);
    var added := s.members[|init.members|..];
    if s.members == init.members && s.households == init.households {
      assert added == [];
    } else {
      assert added == [s.members[0]];
    }
  }

  /** Every request that succeeds returns the one committed primary membership. */
  lemma SuccessesReturnTheCommittedMembership(init: State, actions: seq<Action>, p: nat)
    requires Init(init)
    requires p < |init.requests|
    ensures var s := Run(init, actions);
      && p < |s.requests|
      && (s.requests[p].pc.Done? && s.requests[p].pc.outcome.Some? ==>
            s.members != [] && s.requests[p].pc.outcome.value == s.members[0])
  {
    RunKeepsInv(init, actions);
    assert RequestOk(Run(init, actions), p);
  }

  lemma {:induction false} RunConcat(s: State, first: seq<Action>, rest: seq<Action>)
    ensures Run(s, first + rest) == Run(Run(s, first), rest)
  {
    if rest == [] {
      assert first + rest == first;
    } else {
      assert (first + rest)[..|first + rest| - 1] == first + rest[..|rest| - 1];
      RunConcat(s, first, rest[..|rest| - 1]);
    }
  }

  lemma StepKeepsAnswers(s: State, a: Action, p: nat)
    requires p < |s.requests|
    ensures var s' := Step(s, a);
      && s.members <= s'.members
      && |s'.requests| == |s.requests|
      && (s.requests[p].pc.Done? ==> s'.requests[p].pc == s.requests[p].pc)
  {
  }

  /**
   A request that waits for the row lock or is inside its transaction can fail at any statement; it then leaves
   no rows and no lock behind, and goes on to its fallback lookup.
   */
  lemma AbortsLeaveNothing(init: State, actions: seq<Action>, p: nat)
    requires Init(init) && p < |Run(init, actions).requests|
    requires var pc := Run(init, actions).requests[p].pc;
      pc.AwaitLock? || pc.Recheck? || pc.CreateHousehold? || pc.CreateMember? || pc.Commit?
    ensures var s := Run(init, actions);
      var s' := Step(s, Abort(p));
      && Enabled(s, Abort(p))
      && s'.households == s.households && s'.members == s.members && s'.lock != Some(p)
      && s'.requests[p] == Request(Fallback, NO_WRITES)
  {
    RunKeepsInv(init, actions);
    assert RequestOk(Run(init, actions), p);
  }

  /** An account that has a membership is answered with the earliest one by the first lookup, without a transaction. */
  lemma KnownAccountsAreAnsweredAtOnce(s: State, p: nat)
    requires Enabled(s, DoLookup(p)) && s.members != []
    ensures Step(s, DoLookup(p)) == s.(requests := s.requests[p := s.requests[p].(pc := Done(Some(s.members[0])))])
  {
  }

  /**
   Whatever fails between the first lookup and the commit, the fallback lookup then answers with the primary
   membership if there is one by that time; only lookups that fail themselves answer with an error at once.
   */
  lemma FailuresFallBack(init: State, actions: seq<Action>, fault: Action)
    requires Init(init) && IsFault(fault) && Enabled(Run(init, actions), fault)
    ensures var s, p := Run(init, actions), fault.p;
      var failed := Step(s, fault);
      && p < |failed.requests|
      && (fault.LookupFails? || fault.FallbackFails? ==> failed.requests[p].pc == Done(None))
      && (fault.BeginFails? || fault.Abort? || fault.CommitUnacknowledged? ==>
            Step(failed, DoFallback(p)).requests[p].pc
              == Done(if failed.members == [] then None else Some(failed.members[0])))
      && (fault.CommitUnacknowledged? || failed.members == s.members)
  {
  }

  /** An answer once given, and the primary membership once committed, never change. */
  lemma {:induction false} AnswersAreFinal(init: State, first: seq<Action>, rest: seq<Action>, p: nat)
    requires p < |Run(init, first).requests|
    ensures var mid := Run(init, first);
      var end := Run(init, first + rest);
      && mid.members <= end.members
      && |mid.requests| == |end.requests|
      && (mid.requests[p].pc.Done? ==> end.requests[p].pc == mid.requests[p].pc)
  {
    if rest == [] {
      assert first + rest == first;
    } else {
      var most := rest[..|rest| - 1];
      AnswersAreFinal(init, first, most, p);
      assert (first + rest)[..|first + rest| - 1] == first + most;
      StepKeepsAnswers(Run(init, first + most), rest[|rest| - 1], p);
    }
  }

  // ---- Progress ----

  /** Statements a request may still execute before it has answered. */
  function Remaining(pc: Pc): nat {
    match pc
    case Lookup => 8
    case Begin => 7
    case AwaitLock => 6
    case Recheck => 5
    case CreateHousehold => 4
    case CreateMember(_) => 3
    case Commit(_) => 2
    case Fallback => 1
    case Done(_) => 0
  }

  function RemainingOf(r: Request): int { Remaining(r.pc) }

  function TotalRemaining(s: State): int {
    SumBy(s.requests, RemainingOf)
  }

  lemma StepLowersOwnRemaining(s: State, a: Action)
    requires Enabled(s, a)
    ensures var r' := Step(s, a).requests[a.p];
      && Step(s, a).requests == s.requests[a.p := r']
      && Remaining(r'.pc) < Remaining(s.requests[a.p].pc)
  {
  }

  /** No request loops: each enabled statement, failed or not, brings the whole system closer to its end. */
  lemma EnabledStepsDecrease(s: State, a: Action)
    requires Enabled(s, a)
    ensures 0 <= TotalRemaining(Step(s, a)) < TotalRemaining(s)
  {
    StepLowersOwnRemaining(s, a);
    SumByUpdate(s.requests, a.p, Step(s, a).requests[a.p], RemainingOf);
    SumByNonNegative(Step(s, a).requests, RemainingOf);
  }

  /** No deadlock: while some request has not answered, some statement can execute without a fault. */
  lemma SomeRequestCanMove(init: State, actions: seq<Action>, p: nat) returns (a: Action)
    requires Init(init)
    requires p < |Run(init, actions).requests|
    requires !Run(init, actions).requests[p].pc.Done?
    ensures !IsFault(a) && Enabled(Run(init, actions), a)
  {
    RunKeepsInv(init, actions);
    var s := Run(init, actions);
    var q := if s.requests[p].pc.AwaitLock? && s.lock.Some? then s.lock.value else p;
    assert RequestOk(s, q);
    var id := FreshIdExists(s.used);
    match s.requests[q].pc {
      case Lookup => a := DoLookup(q);
      case Begin => a := DoBegin(q);
      case AwaitLock => a := TakeLock(q);
      case Recheck => a := DoRecheck(q);
      case CreateHousehold => a := InsertHousehold(q, id);
      case CreateMember(_) => a := InsertMember(q, id);
      case Commit(_) => a := CommitAcknowledged(q);
      case Fallback => a := DoFallback(q);
    }
  }

  /** Without faults nobody is turned away. */
  lemma {:induction false} FaultFreeRunsNeverFail(init: State, actions: seq<Action>)
    requires Init(init)
    requires forall a :: a in actions ==> !IsFault(a)
    ensures forall r :: r in Run(init, actions).requests ==> r.pc != Done(None) && !r.pc.Fallback?
  {
    if actions != [] {
      var prefix, last := actions[..|actions| - 1], actions[|actions| - 1];
      assert actions == prefix + [last];
      FaultFreeRunsNeverFail(init, prefix);
      var s, s' := Run(init, prefix), Run(init, actions);
      assert !IsFault(last) by {
        assert last in actions;
      }
      assert last.p < |s.requests| ==> s.requests[last.p] in s.requests;
      forall q | 0 <= q < |s'.requests|
        ensures s'.requests[q].pc != Done(None) && !s'.requests[q].pc.Fallback?
      {
        assert |s.requests| == |s'.requests|;
        assert s.requests[q] in s.requests;
      }
    }
  }

  lemma RequestsAreKept(init: State, actions: seq<Action>)
    requires Init(init)
    ensures |Run(init, actions).requests| == |init.requests|
  {
  }

  lemma FinishedRequestIsServed(init: State, actions: seq<Action>, q: nat)
    requires Init(init) && q < |Run(init, actions).requests|
    requires forall a :: a in actions ==> !IsFault(a)
    requires Run(init, actions).requests[q].pc.Done?
    ensures var s := Run(init, actions); s.members != [] && s.requests[q].pc == Done(Some(s.members[0]))
  {
    RunKeepsInv(init, actions);
    FaultFreeRunsNeverFail(init, actions);
    var s := Run(init, actions);
    assert RequestOk(s, q) && s.requests[q] in s.requests;
  }

  /** A fault-free run in which nothing more can happen has served every request, all with the same membership. */
  lemma FinishedRunsServeEveryone(init: State, actions: seq<Action>)
    requires Init(init)
    requires init.requests != []
    requires forall a :: a in actions ==> !IsFault(a)
    requires forall a :: !IsFault(a) ==> !Enabled(Run(init, actions), a)
    ensures var s := Run(init, actions);
      s.members != [] && forall r :: r in s.requests ==> r.pc == Done(Some(s.members[0]))
  {
    var s := Run(init, actions);
    RequestsAreKept(init, actions);
    forall q | 0 <= q < |s.requests|
      ensures s.members != [] && s.requests[q].pc == Done(Some(s.members[0]))
    {
      if !s.requests[q].pc.Done? {
        var a := SomeRequestCanMove(init, actions, q);
      }
      FinishedRequestIsServed(init, actions, q);
    }
    assert s.requests[0].pc.Done?;
  }

  /** The first logins of an account without memberships are all answered with an admin membership of one new household. */
  lemma NewAccountsGetTheirHousehold(init: State, actions: seq<Action>)
    requires Init(init) && init.requests != [] && init.members == []
    requires forall a :: a in actions ==> !IsFault(a)
    requires forall a :: !IsFault(a) ==> !Enabled(Run(init, actions), a)
    ensures exists m: Membership ::
      && m.role == "admin" && m.household !in init.households
      && Run(init, actions).members == [m] && Run(init, actions).households == init.households + {m.household}
      && forall r :: r in Run(init, actions).requests ==> r.pc == Done(Some(m))
  {
    FinishedRunsServeEveryone(init, actions);
    RunKeepsInv(init, actions);
    var m := Run(init, actions).members[0];
    assert Run(init, actions).members == [m];
  }

  /**
   A fault alone never locks the account out: a request whose transaction was committed but not
   acknowledged recovers the committed membership from its fallback lookup.
   */
  lemma LostAcknowledgementIsRecovered(init: State, actions: seq<Action>, p: nat)
    requires Init(init)
    requires Enabled(Run(init, actions), CommitUnacknowledged(p))
    ensures var before := Run(init, actions);
      var after := Run(init, actions + [CommitUnacknowledged(p), DoFallback(p)]);
      && p < |before.requests| == |after.requests|
      && before.requests[p].pc.Commit?
      && after.requests[p].pc == Done(Some(before.requests[p].pc.result))
      && after.members != [] && after.members[0] == before.requests[p].pc.result
  {
    var tail := [CommitUnacknowledged(p), DoFallback(p)];
    RunKeepsInv(init, actions);
    assert RequestOk(Run(init, actions), p);
    RunConcat(init, actions, tail);
    assert tail[..1] == [CommitUnacknowledged(p)];
    assert tail[..1][..0] == [];
    assert Run(Run(init, actions), tail[..1]) == Step(Run(init, actions), CommitUnacknowledged(p));
  }
}

/**
 Any number of week-end batches, statement by statement, among completions, undos and each other: each
 lists a member's chores and week, credits one chore's bonus after the other, closes the week and stores
 its summary. A batch may die between any two statements and be run again.
 */
module BatchProtocol {
  import opened Common
  import opened Seqs
  import opened Ledger
  import opened Chores
  import opened WeekEnd
  import P = ChoreProtocol
  import ChoreRaces
  import W = WeekEndProtocol

  /** What a batch works on once it has listed both. */
  datatype Job = Job(household: Uuid, member: Uuid, from: int, to: int, active: seq<Chore>, week: seq<Completion>)

  /** `next` is the chore to be credited next; a `Replaced` batch has stored a summary that is no longer the last. */
  datatype Batch =
    | Listing(household: Uuid, member: Uuid, from: int, to: int, active: seq<Chore>)
    | Crediting(job: Job, next: nat)
    | Storing(job: Job)
    | Stored(job: Job)
    | Replaced(job: Job)
    | Dead(at: Batch)

  datatype State = State(s: P.State, batches: seq<Batch>, summaries: map<(Uuid, int), Summary>)

  const START := State(P.START, [], map[])

  /** `active` is what the listing of the chores returned. */
  datatype Action =
    | Call(a: P.Action)
    | Begin(household: Uuid, member: Uuid, from: int, to: int, active: seq<Chore>)
    | Advance(b: nat)
    | Die(b: nat)

  function Goto(w: State, b: nat, batch: Batch): State
    requires b < |w.batches|
  {
    w.(batches := w.batches[b := batch])
  }

  /** The bonus row of a chore, if it earns one. */
  function Credits(job: Job, c: Chore): seq<Row> {
    if EarnsBonus(job.week)(c) then [BonusRow(job.member, job.week)(c)] else []
  }

  function Key(job: Job): (Uuid, int) { (job.member, job.from) }

  function Supersede(key: (Uuid, int)): Batch -> Batch {
    (b: Batch) => if b.Stored? && Key(b.job) == key then Replaced(b.job) else b
  }

  function DoAdvance(w: State, b: nat): State
    requires b < |w.batches|
  {
    match w.batches[b]
    case Listing(household, member, from, to, active) =>
      Goto(w, b, Crediting(Job(household, member, from, to, active, Filter(w.s.completions, InWeek(member, from, to))), 0))
    case Crediting(job, next) =>
      if next < |job.active| then
        Goto(w, b, Crediting(job, next + 1)).(s := w.s.(ledger := w.s.ledger + Credits(job, job.active[next])))
      else
        Goto(w, b, Storing(job)).(s := P.Step(w.s, P.Close(job.member, job.from, job.to)))
    case Storing(job) =>
      State(w.s, Map(w.batches, Supersede(Key(job)))[b := Stored(job)],
            w.summaries[Key(job) := SummaryOf(w.summaries, job.household, job.member, job.from, job.active, job.week)])
    case _ => w
  }

  function Step(w: State, a: Action): State {
    match a
    case Call(a) => w.(s := P.Step(w.s, a))
    case Begin(household, member, from, to, active) =>
      w.(batches := w.batches + [Listing(household, member, from, to, active)])
    case Advance(b) => if b < |w.batches| then DoAdvance(w, b) else w
    case Die(b) =>
      if b < |w.batches| && (w.batches[b].Listing? || w.batches[b].Crediting? || w.batches[b].Storing?) then
        Goto(w, b, Dead(w.batches[b]))
      else w
  }

  function Run(w: State, actions: seq<Action>): State {
    if actions == [] then w else Step(Run(w, actions[..|actions| - 1]), actions[|actions| - 1])
  }

  // ---- Batches do not disturb the other calls ----

  function NotBonus(r: Row): bool { r.kind != StreakBonus }

  /** The state without the bonus rows. */
  function Bare(s: P.State): P.State {
    s.(ledger := Filter(s.ledger, NotBonus))
  }

  /** What a step does to completions: a call's own step, or the closing by a batch. */
  function CallsOf(w: State, a: Action): seq<P.Action> {
    if a.Call? then [a.a]
    else if a.Advance? && a.b < |w.batches| && w.batches[a.b].Crediting? && w.batches[a.b].next >= |w.batches[a.b].job.active| then
      var job := w.batches[a.b].job;
      [P.Close(job.member, job.from, job.to)]
    else []
  }

  function Trace(w: State, actions: seq<Action>): seq<P.Action> {
    if actions == [] then []
    else
      var init := actions[..|actions| - 1];
      Trace(w, init) + CallsOf(Run(w, init), actions[|actions| - 1])
  }

  lemma SameViolations(ledger: seq<Row>, row: Row)
    ensures Violates(Filter(ledger, NotBonus), row) == Violates(ledger, row)
  {
    FilterMembers(ledger, NotBonus);
    if r :| r in ledger && r.kind == ChorePayout && r.ref == row.ref {
      assert r in Filter(ledger, NotBonus);
    }
  }

  lemma AdvanceIgnoresBonuses(s: P.State, p: nat)
    requires p < |s.calls|
    ensures P.DoAdvance(Bare(s), p) == Bare(P.DoAdvance(s, p))
  {
    match s.calls[p]
    case Pay(row, c, price) =>
      SameViolations(s.ledger, Payment(row, price));
      FilterAppend(s.ledger, Payment(row, price), NotBonus);
    case Reverse(row) => FilterAppend(s.ledger, Reversal(row), NotBonus);
    case _ =>
  }

  lemma CallIgnoresBonuses(s: P.State, a: P.Action)
    ensures P.Step(Bare(s), a) == Bare(P.Step(s, a))
  {
    if a.Advance? && a.p < |s.calls| {
      AdvanceIgnoresBonuses(s, a.p);
    }
  }

  lemma CreditIsBare(s: P.State, job: Job, c: Chore)
    ensures Bare(s.(ledger := s.ledger + Credits(job, c))) == Bare(s)
  {
    if EarnsBonus(job.week)(c) {
      FilterAppend(s.ledger, BonusRow(job.member, job.week)(c), NotBonus);
    } else {
      assert s.ledger + [] == s.ledger;
    }
  }

  lemma RunOfOne(s: P.State, a: P.Action)
    ensures P.Run(s, [a]) == P.Step(s, a) && P.Run(s, []) == s
  {
    assert [a][..0] == [];
  }

  lemma StepTraces(w: State, a: Action)
    ensures Bare(Step(w, a).s) == P.Run(Bare(w.s), CallsOf(w, a))
  {
    match a
    case Call(a) =>
      RunOfOne(Bare(w.s), a);
      CallIgnoresBonuses(w.s, a);
    case Advance(b) =>
      if b < |w.batches| && w.batches[b].Crediting? {
        var job, next := w.batches[b].job, w.batches[b].next;
        if next < |job.active| {
          CreditIsBare(w.s, job, job.active[next]);
        } else {
          RunOfOne(Bare(w.s), P.Close(job.member, job.from, job.to));
          CallIgnoresBonuses(w.s, P.Close(job.member, job.from, job.to));
        }
      }
    case _ =>
  }

  /**
   Apart from bonus rows, every run with batches in it is a run of completions, undos and closings alone:
   whatever holds of those runs holds here.
   */
  lemma {:induction false} BatchesOnlyClose(w: State, actions: seq<Action>)
    ensures Bare(Run(w, actions).s) == P.Run(Bare(w.s), Trace(w, actions))
  {
    if actions != [] {
      var init, a := actions[..|actions| - 1], actions[|actions| - 1];
      BatchesOnlyClose(w, init);
      StepTraces(Run(w, init), a);
      ChoreRaces.RunConcat(Bare(w.s), Trace(w, init), CallsOf(Run(w, init), a));
    }
  }

  // ---- Exactly when a bonus stands ----

  /** The completions move by the step's calls, if it has any. */
  lemma StepMovesCompletions(w: State, a: Action)
    ensures Step(w, a).s.completions
         == if CallsOf(w, a) == [] then w.s.completions else P.Step(w.s, CallsOf(w, a)[0]).completions
  {
  }

  lemma StepKeepsSlots(w: State, a: Action)
    requires P.UniqueSlots(w.s)
    ensures P.UniqueSlots(Step(w, a).s)
  {
    StepMovesCompletions(w, a);
    if CallsOf(w, a) != [] {
      P.StepKeepsSlots(w.s, CallsOf(w, a)[0]);
    }
  }

  lemma {:induction false} RunKeepsSlots(w: State, actions: seq<Action>)
    requires P.UniqueSlots(w.s)
    ensures P.UniqueSlots(Run(w, actions).s)
  {
    if actions != [] {
      RunKeepsSlots(w, actions[..|actions| - 1]);
      StepKeepsSlots(Run(w, actions[..|actions| - 1]), actions[|actions| - 1]);
    }
  }

  predicate Keeps(w: State, a: Action, job: Job, c: Chore) {
    CallsOf(w, a) == [] || W.KeepsStreak(w.s, CallsOf(w, a)[0], job.member, job.from, job.to, c)
  }

  function Deserved(s: P.State, job: Job, c: Chore): nat {
    W.Deserved(s, job.member, job.from, job.to, c)
  }

  lemma StepKeepsIff(w: State, a: Action, job: Job, c: Chore)
    requires P.UniqueSlots(w.s)
    ensures Deserved(Step(w, a).s, job, c) == Deserved(w.s, job, c) <==> Keeps(w, a, job, c)
  {
    StepMovesCompletions(w, a);
    if CallsOf(w, a) != [] {
      W.StepKeepsStreakIff(w.s, CallsOf(w, a)[0], job.member, job.from, job.to, c);
    }
  }

  /** If the week were closed now, it would deserve the bonus the job has computed for the chore. */
  predicate Stands(w: State, job: Job, c: Chore) {
    Deserved(P.Step(w.s, P.Close(job.member, job.from, job.to)), job, c) == BonusFor(job.week, c)
  }

  lemma StepStandsIff(w: State, a: Action, job: Job, c: Chore)
    requires P.UniqueSlots(w.s) && Stands(w, job, c)
    ensures Stands(Step(w, a), job, c) <==> Keeps(w, a, job, c)
  {
    StepKeepsIff(w, a, job, c);
    StepKeepsSlots(w, a);
    W.ClosingKeepsStreak(w.s, job.member, job.from, job.to, c);
    W.ClosingKeepsStreak(Step(w, a).s, job.member, job.from, job.to, c);
  }

  lemma OneMoreStands(w: State, prefix: seq<Action>, a: Action, job: Job, c: Chore)
    requires P.UniqueSlots(w.s) && Stands(Run(w, prefix), job, c)
    ensures Stands(Run(w, prefix + [a]), job, c) <==> Keeps(Run(w, prefix), a, job, c)
  {
    assert (prefix + [a])[..|prefix|] == prefix;
    RunKeepsSlots(w, prefix);
    StepStandsIff(Run(w, prefix), a, job, c);
  }

  /**
   Wherever a batch's closing falls after its listing, among any calls and other batches, the bonus it
   credits for a chore is the one the closed week deserves, if and only if no step in between tips it.
   */
  lemma BonusStandsIff(w: State, actions: seq<Action>, job: Job, c: Chore)
    requires P.UniqueSlots(w.s) && job.week == Filter(w.s.completions, InWeek(job.member, job.from, job.to))
    ensures OnPrefixes(actions, (prefix: seq<Action>) => Stands(Run(w, prefix), job, c))
       <==> OnSteps(actions, (prefix: seq<Action>, a: Action) => Keeps(Run(w, prefix), a, job, c))
  {
    var p := (prefix: seq<Action>) => Stands(Run(w, prefix), job, c);
    var g := (prefix: seq<Action>, a: Action) => Keeps(Run(w, prefix), a, job, c);
    W.ClosingKeepsStreak(w.s, job.member, job.from, job.to, c);
    forall prefix, a | p(prefix) ensures p(prefix + [a]) <==> g(prefix, a) {
      OneMoreStands(w, prefix, a, job, c);
    }
    PrefixesIffSteps(actions, p, g);
  }

  // ---- What batches have paid ----

  function BonusTo(member: Uuid): Row -> int {
    (r: Row) => if r.kind == StreakBonus && r.member == member then r.amount else 0
  }

  /** The chores a batch has credited so far. */
  function Credited(b: Batch): (Job, seq<Chore>) {
    match b
    case Crediting(job, next) => (job, if next <= |job.active| then job.active[..next] else job.active)
    case Storing(job) => (job, job.active)
    case Stored(job) => (job, job.active)
    case Replaced(job) => (job, job.active)
    case Dead(at) => Credited(at)
    case Listing(household, member, from, to, active) => (Job(household, member, from, to, active, []), [])
  }

  function PaidBy(member: Uuid): Batch -> int {
    (b: Batch) => var (job, chores) := Credited(b); if job.member == member then SumBy(chores, Bonus(job.week)) else 0
  }

  ghost predicate Accounted(w: State, member: Uuid) {
    SumBy(w.s.ledger, BonusTo(member)) == SumBy(w.batches, PaidBy(member))
  }

  ghost predicate InOrder(w: State) {
    forall b :: b in w.batches && b.Crediting? ==> b.next <= |b.job.active|
  }

  lemma CallPaysNoBonus(s: P.State, a: P.Action, member: Uuid)
    ensures SumBy(P.Step(s, a).ledger, BonusTo(member)) == SumBy(s.ledger, BonusTo(member))
  {
    if a.Advance? && a.p < |s.calls| {
      match s.calls[a.p]
      case Pay(row, c, price) => SumByAppend(s.ledger, Payment(row, price), BonusTo(member));
      case Reverse(row) => SumByAppend(s.ledger, Reversal(row), BonusTo(member));
      case _ =>
    }
  }

  lemma CreditIsAccounted(w: State, b: nat, member: Uuid)
    requires InOrder(w) && Accounted(w, member)
    requires b < |w.batches| && w.batches[b].Crediting? && w.batches[b].next < |w.batches[b].job.active|
    ensures Accounted(DoAdvance(w, b), member)
  {
    var job, next := w.batches[b].job, w.batches[b].next;
    var c := job.active[next];
    SumByUpdate(w.batches, b, Crediting(job, next + 1), PaidBy(member));
    assert job.active[..next + 1] == job.active[..next] + [c];
    SumByAppend(job.active[..next], c, Bonus(job.week));
    if EarnsBonus(job.week)(c) {
      SumByAppend(w.s.ledger, BonusRow(job.member, job.week)(c), BonusTo(member));
    } else {
      assert w.s.ledger + [] == w.s.ledger;
    }
  }

  lemma AdvanceIsAccounted(w: State, b: nat, member: Uuid)
    requires InOrder(w) && Accounted(w, member) && b < |w.batches|
    ensures Accounted(DoAdvance(w, b), member)
  {
    match w.batches[b]
    case Listing(_, _, _, _, _) => SumByUpdate(w.batches, b, DoAdvance(w, b).batches[b], PaidBy(member));
    case Crediting(job, next) =>
      assert w.batches[b] in w.batches;
      if next < |job.active| {
        CreditIsAccounted(w, b, member);
      } else {
        assert job.active[..next] == job.active;
        SumByUpdate(w.batches, b, Storing(job), PaidBy(member));
        CallPaysNoBonus(w.s, P.Close(job.member, job.from, job.to), member);
      }
    case Storing(job) =>
      SumByMap(w.batches, Supersede(Key(job)), PaidBy(member), PaidBy(member));
      SumByUpdate(Map(w.batches, Supersede(Key(job))), b, Stored(job), PaidBy(member));
    case _ =>
  }

  lemma StepIsAccounted(w: State, a: Action, member: Uuid)
    requires InOrder(w) && Accounted(w, member)
    ensures Accounted(Step(w, a), member)
  {
    match a
    case Call(a) => CallPaysNoBonus(w.s, a, member);
    case Begin(household, member', from, to, active) =>
      SumByAppend(w.batches, Listing(household, member', from, to, active), PaidBy(member));
    case Advance(b) =>
      if b < |w.batches| {
        AdvanceIsAccounted(w, b, member);
      }
    case Die(b) =>
      if b < |w.batches| && Step(w, a) != w {
        SumByUpdate(w.batches, b, Dead(w.batches[b]), PaidBy(member));
      }
  }

  lemma StepKeepsOrder(w: State, a: Action)
    requires InOrder(w)
    ensures InOrder(Step(w, a))
  {
  }

  /** In every run the bonus rows of a member are exactly what each batch, as far as it got, has credited. */
  lemma {:induction false} BonusesAreAccounted(actions: seq<Action>, member: Uuid)
    ensures InOrder(Run(START, actions)) && Accounted(Run(START, actions), member)
  {
    if actions != [] {
      var init, a := actions[..|actions| - 1], actions[|actions| - 1];
      BonusesAreAccounted(init, member);
      StepKeepsOrder(Run(START, init), a);
      StepIsAccounted(Run(START, init), a, member);
    }
  }

  // ---- What the summaries say ----

  /** The batches whose summaries are in the table are one per week, and the table holds their figures. */
  ghost predicate Authored(w: State) {
    OneAuthor(w.batches) && HaveSummaries(w) && HaveAuthors(w)
  }

  ghost predicate OneAuthor(batches: seq<Batch>) {
    forall i, j :: 0 <= i < j < |batches| && batches[i].Stored? && batches[j].Stored? ==> Key(batches[i].job) != Key(batches[j].job)
  }

  ghost predicate HaveSummaries(w: State) {
    forall i :: 0 <= i < |w.batches| && w.batches[i].Stored? ==> HasSummary(w, w.batches[i].job)
  }

  ghost predicate HaveAuthors(w: State) {
    forall key :: key in w.summaries ==> exists i :: 0 <= i < |w.batches| && IsAuthor(w.batches[i], key)
  }

  predicate IsAuthor(b: Batch, key: (Uuid, int)) {
    b.Stored? && Key(b.job) == key
  }

  ghost predicate HasSummary(w: State, job: Job) {
    && Key(job) in w.summaries
    && w.summaries[Key(job)].bonus == SumBy(job.active, Bonus(job.week))
    && w.summaries[Key(job)].earned == SumBy(job.active, WeekTotal(job.week))
  }

  lemma UpdateKeepsAuthored(w: State, b: nat, next: Batch)
    requires Authored(w) && b < |w.batches| && !w.batches[b].Stored? && !next.Stored?
    ensures Authored(Goto(w, b, next))
  {
    var after := Goto(w, b, next);
    forall key | key in after.summaries ensures exists i :: 0 <= i < |after.batches| && IsAuthor(after.batches[i], key) {
      var i :| 0 <= i < |w.batches| && IsAuthor(w.batches[i], key);
      assert IsAuthor(after.batches[i], key);
    }
  }

  /** After a store the other batches are as before, but for an earlier author of the same week. */
  lemma StoredShape(w: State, b: nat)
    requires b < |w.batches| && w.batches[b].Storing?
    ensures var after, job := DoAdvance(w, b), w.batches[b].job;
      && |after.batches| == |w.batches| && after.batches[b] == Stored(job) && HasSummary(after, job)
      && (forall i :: 0 <= i < |w.batches| && i != b && after.batches[i].Stored? ==>
            after.batches[i] == w.batches[i] && Key(w.batches[i].job) != Key(job))
      && (forall i :: 0 <= i < |w.batches| && w.batches[i].Stored? && Key(w.batches[i].job) != Key(job) ==>
            after.batches[i] == w.batches[i])
      && (forall key :: key != Key(job) ==> (key in after.summaries <==> key in w.summaries))
      && (forall key :: key != Key(job) && key in w.summaries ==> after.summaries[key] == w.summaries[key])
  {
  }

  lemma StoreKeepsOneAuthor(w: State, b: nat)
    requires OneAuthor(w.batches) && b < |w.batches| && w.batches[b].Storing?
    ensures OneAuthor(DoAdvance(w, b).batches)
  {
    StoredShape(w, b);
  }

  lemma StoreKeepsSummaries(w: State, b: nat)
    requires HaveSummaries(w) && b < |w.batches| && w.batches[b].Storing?
    ensures HaveSummaries(DoAdvance(w, b))
  {
    var after := DoAdvance(w, b);
    StoredShape(w, b);
    forall i | 0 <= i < |after.batches| && after.batches[i].Stored? ensures HasSummary(after, after.batches[i].job) {
      if i != b {
        assert HasSummary(w, w.batches[i].job);
      }
    }
  }

  lemma StoreKeepsAuthors(w: State, b: nat)
    requires HaveAuthors(w) && b < |w.batches| && w.batches[b].Storing?
    ensures HaveAuthors(DoAdvance(w, b))
  {
    var after, job := DoAdvance(w, b), w.batches[b].job;
    StoredShape(w, b);
    forall key | key in after.summaries ensures exists i :: 0 <= i < |after.batches| && IsAuthor(after.batches[i], key) {
      if key == Key(job) {
        assert IsAuthor(after.batches[b], key);
      } else {
        var i :| 0 <= i < |w.batches| && IsAuthor(w.batches[i], key);
        assert IsAuthor(after.batches[i], key);
      }
    }
  }

  lemma AdvanceKeepsAuthored(w: State, b: nat)
    requires Authored(w) && b < |w.batches|
    ensures Authored(DoAdvance(w, b))
  {
    match w.batches[b]
    case Storing(_) =>
      StoreKeepsOneAuthor(w, b);
      StoreKeepsSummaries(w, b);
      StoreKeepsAuthors(w, b);
    case Listing(_, _, _, _, _) => UpdateKeepsAuthored(w, b, DoAdvance(w, b).batches[b]);
    case Crediting(_, _) =>
      UpdateKeepsAuthored(w, b, DoAdvance(w, b).batches[b]);
      var after, same := DoAdvance(w, b), Goto(w, b, DoAdvance(w, b).batches[b]);
      assert after.batches == same.batches && after.summaries == same.summaries;
      SameTables(same, after);
    case _ =>
  }

  lemma SameTables(w: State, after: State)
    requires Authored(w) && after.batches == w.batches && after.summaries == w.summaries
    ensures Authored(after)
  {
    forall i | 0 <= i < |after.batches| && after.batches[i].Stored? ensures HasSummary(after, after.batches[i].job) {
      assert HasSummary(w, w.batches[i].job);
    }
  }

  lemma BeginKeepsAuthored(w: State, next: Batch)
    requires Authored(w) && !next.Stored?
    ensures Authored(w.(batches := w.batches + [next]))
  {
    var after := w.(batches := w.batches + [next]);
    forall i | 0 <= i < |after.batches| && after.batches[i].Stored? ensures HasSummary(after, after.batches[i].job) {
      assert HasSummary(w, w.batches[i].job);
    }
    forall key | key in after.summaries ensures exists i :: 0 <= i < |after.batches| && IsAuthor(after.batches[i], key) {
      var i :| 0 <= i < |w.batches| && IsAuthor(w.batches[i], key);
      assert IsAuthor(after.batches[i], key);
    }
  }

  lemma StepKeepsAuthored(w: State, a: Action)
    requires Authored(w)
    ensures Authored(Step(w, a))
  {
    match a
    case Call(_) => SameTables(w, Step(w, a));
    case Begin(household, member, from, to, active) => BeginKeepsAuthored(w, Listing(household, member, from, to, active));
    case Advance(b) =>
      if b < |w.batches| {
        AdvanceKeepsAuthored(w, b);
      }
    case Die(b) =>
      if b < |w.batches| && Step(w, a) != w {
        UpdateKeepsAuthored(w, b, Dead(w.batches[b]));
      }
  }

  /** In every run each stored summary has the bonus and the earnings of exactly one batch, the last to store for its week. */
  lemma {:induction false} SummariesHaveOneAuthor(actions: seq<Action>)
    ensures Authored(Run(START, actions))
  {
    if actions != [] {
      SummariesHaveOneAuthor(actions[..|actions| - 1]);
      StepKeepsAuthored(Run(START, actions[..|actions| - 1]), actions[|actions| - 1]);
    }
  }

  // ---- Paid against stored ----

  /** The bonus in the summary a batch has stored, if it is still the last for its week. */
  function InTable(w: State, member: Uuid): Batch -> int {
    (b: Batch) => if b.Stored? && b.job.member == member && Key(b.job) in w.summaries then w.summaries[Key(b.job)].bonus else 0
  }

  /** A batch has credited the member no bonus yet. */
  ghost predicate PaidNothing(b: Batch, member: Uuid) {
    var (job, chores) := Credited(b);
    job.member == member ==> forall c :: c in chores ==> !EarnsBonus(job.week)(c)
  }

  function Surplus(member: Uuid): Batch -> int {
    (b: Batch) => if b.Stored? then 0 else PaidBy(member)(b)
  }

  lemma PaidNothingIff(b: Batch, member: Uuid)
    ensures PaidBy(member)(b) >= 0
    ensures PaidBy(member)(b) == 0 <==> PaidNothing(b, member)
  {
    var (job, chores) := Credited(b);
    SumByNonNegative(chores, Bonus(job.week));
    if PaidNothing(b, member) {
      if job.member == member {
        SumByZero(chores, Bonus(job.week));
      }
    }
  }

  /**
   In every run a member's bonus rows are at least the bonuses in the stored summaries, and they are equal
   if and only if no batch that died, is still under way or had its summary replaced has paid the member.
   */
  lemma PaidIsStoredIff(actions: seq<Action>, member: Uuid)
    ensures var w := Run(START, actions);
      var paid, stored := SumBy(w.s.ledger, BonusTo(member)), SumBy(w.batches, InTable(w, member));
      && paid >= stored
      && (paid == stored <==> forall b :: b in w.batches && !b.Stored? ==> PaidNothing(b, member))
  {
    var w := Run(START, actions);
    BonusesAreAccounted(actions, member);
    SummariesHaveOneAuthor(actions);
    SumByPlus(w.batches, InTable(w, member), Surplus(member), PaidBy(member));
    forall b | b in w.batches ensures Surplus(member)(b) >= 0 && (Surplus(member)(b) == 0 <==> b.Stored? || PaidNothing(b, member)) {
      PaidNothingIff(b, member);
    }
    SumByNonNegative(w.batches, Surplus(member));
    if forall b :: b in w.batches && !b.Stored? ==> PaidNothing(b, member) {
      SumByZero(w.batches, Surplus(member));
    }
  }

  // ---- A batch that dies and is run again ----

  lemma {:induction false} RunConcat(w: State, first: seq<Action>, rest: seq<Action>)
    ensures Run(w, first + rest) == Run(Run(w, first), rest)
  {
    if rest == [] {
      assert first + rest == first;
    } else {
      assert (first + rest)[..|first + rest| - 1] == first + rest[..|rest| - 1];
      RunConcat(w, first, rest[..|rest| - 1]);
    }
  }

  lemma RunOfTwo(w: State, a: Action, b: Action)
    ensures Run(w, [a, b]) == Step(Step(w, a), b)
  {
    assert [a, b][..1] == [a] && [a][..0] == [];
    assert Run(w, [a]) == Step(w, a);
  }

  lemma RunOfThree(w: State, a: Action, b: Action, c: Action)
    ensures Run(w, [a, b, c]) == Step(Step(Step(w, a), b), c)
  {
    RunOfTwo(w, a, b);
    assert [a, b, c][..2] == [a, b];
  }

  /** The batch of a member who has just the one chore lists it and credits it. */
  function CreditActions(b: nat, c: Chore, from: int, to: int): seq<Action> {
    [Begin(c.household, c.member, from, to, [c]), Advance(b), Advance(b)]
  }

  function OnlyJob(c: Chore, row: Completion, from: int, to: int): Job {
    Job(c.household, c.member, from, to, [c], [row])
  }

  /** A weekly chore, completed in the week. */
  predicate OnceIn(c: Chore, row: Completion, from: int, to: int) {
    row.chore == c.id && row.member == c.member && from <= row.date <= to && Frequency(c) == 1
  }

  lemma OnlyBonus(c: Chore, row: Completion, from: int, to: int)
    requires OnceIn(c, row, from, to)
    ensures Filter([row], InWeek(c.member, from, to)) == [row]
    ensures SumBy([c], Bonus([row])) == WalletMath.StreakBonus(row.payout)
  {
    FilterOne(row, InWeek(c.member, from, to));
    FilterOne(row, OfChore(c.id));
    SumByOne(row, PayoutOf);
    SumByOne(c, Bonus([row]));
  }

  lemma Lists(w: State, b: nat, c: Chore, row: Completion, from: int, to: int)
    requires b < |w.batches| && w.batches[b] == Listing(c.household, c.member, from, to, [c])
    requires w.s.completions == [row] && OnceIn(c, row, from, to)
    ensures DoAdvance(w, b) == Goto(w, b, Crediting(OnlyJob(c, row, from, to), 0))
  {
    OnlyBonus(c, row, from, to);
  }

  lemma CreditsFirst(w: State, job: Job)
    requires |job.active| == 1
    ensures var after := Step(w.(batches := w.batches + [Crediting(job, 0)]), Advance(|w.batches|));
      && after.batches == w.batches + [Crediting(job, 1)]
      && after.s.completions == w.s.completions && after.summaries == w.summaries
  {
    var listed := w.(batches := w.batches + [Crediting(job, 0)]);
    assert listed.batches[|w.batches| := Crediting(job, 1)] == w.batches + [Crediting(job, 1)];
  }

  lemma BeginsAndLists(w: State, c: Chore, row: Completion, from: int, to: int)
    requires w.s.completions == [row] && OnceIn(c, row, from, to)
    ensures Step(Step(w, Begin(c.household, c.member, from, to, [c])), Advance(|w.batches|))
         == w.(batches := w.batches + [Crediting(OnlyJob(c, row, from, to), 0)])
  {
    var b, listing := |w.batches|, Listing(c.household, c.member, from, to, [c]);
    var begun := w.(batches := w.batches + [listing]);
    assert Step(w, Begin(c.household, c.member, from, to, [c])) == begun;
    Lists(begun, b, c, row, from, to);
    assert begun.batches[b := Crediting(OnlyJob(c, row, from, to), 0)] == w.batches + [Crediting(OnlyJob(c, row, from, to), 0)];
  }

  lemma ListsAndCredits(w: State, c: Chore, row: Completion, from: int, to: int)
    requires w.s.completions == [row] && OnceIn(c, row, from, to)
    ensures var after := Run(w, CreditActions(|w.batches|, c, from, to));
      && after.batches == w.batches + [Crediting(OnlyJob(c, row, from, to), 1)]
      && after.s.completions == [row] && after.summaries == w.summaries
  {
    var b := |w.batches|;
    RunOfThree(w, Begin(c.household, c.member, from, to, [c]), Advance(b), Advance(b));
    BeginsAndLists(w, c, row, from, to);
    CreditsFirst(w, OnlyJob(c, row, from, to));
  }

  lemma Closes(w: State, b: nat, job: Job)
    requires b < |w.batches| && w.batches[b] == Crediting(job, |job.active|)
    ensures DoAdvance(w, b).batches == w.batches[b := Storing(job)]
  {
  }

  lemma Stores(w: State, dead: Batch, job: Job)
    requires w.batches == [dead, Storing(job)] && !dead.Stored?
    ensures var after := DoAdvance(w, 1);
      && after.batches == [dead, Stored(job)] && Key(job) in after.summaries
      && after.summaries[Key(job)].bonus == SumBy(job.active, Bonus(job.week))
  {
  }

  /** From its last credit the batch closes the week and stores the summary. */
  lemma ClosesAndStores(w: State, dead: Batch, c: Chore, row: Completion, from: int, to: int)
    requires OnceIn(c, row, from, to) && !dead.Stored?
    requires w.batches == [dead, Crediting(OnlyJob(c, row, from, to), 1)]
    ensures var after := Run(w, [Advance(1), Advance(1)]);
      && after.batches == [dead, Stored(OnlyJob(c, row, from, to))]
      && (c.member, from) in after.summaries
      && after.summaries[(c.member, from)].bonus == WalletMath.StreakBonus(row.payout)
  {
    var job := OnlyJob(c, row, from, to);
    RunOfTwo(w, Advance(1), Advance(1));
    OnlyBonus(c, row, from, to);
    Closes(w, 1, job);
    Stores(DoAdvance(w, 1), dead, job);
  }

  function CompleteActions(c: Chore, price: int, date: int, id: Uuid): seq<Action> {
    [Call(P.StartComplete(c, price, date, id)), Call(P.Advance(0)), Call(P.Advance(0))]
  }

  lemma OneCompletion(c: Chore, price: int, date: int, id: Uuid)
    requires ChoreRaces.Fair(c, price)
    ensures var w := Run(START, CompleteActions(c, price, date, id));
      w.s.completions == [NewRow(c, date, price, id)] && w.batches == [] && w.summaries == map[]
  {
    RunOfThree(START, Call(P.StartComplete(c, price, date, id)), Call(P.Advance(0)), Call(P.Advance(0)));
    ChoreRaces.RunOfThree(P.START, P.StartComplete(c, price, date, id), P.Advance(0), P.Advance(0));
    ChoreRaces.CompletesAndPays(P.START, c, price, date, id);
  }

  /** One batch dies between its first credit and its closing, and a second one runs to the end. */
  function RetryActions(c: Chore, from: int, to: int): seq<Action> {
    CreditActions(0, c, from, to) + [Die(0)] + CreditActions(1, c, from, to) + [Advance(1), Advance(1)]
  }

  lemma RetryEnds(w: State, c: Chore, row: Completion, from: int, to: int)
    requires w.s.completions == [row] && w.batches == [] && OnceIn(c, row, from, to)
    ensures var after, job := Run(w, RetryActions(c, from, to)), OnlyJob(c, row, from, to);
      && after.batches == [Dead(Crediting(job, 1)), Stored(job)]
      && (c.member, from) in after.summaries
      && after.summaries[(c.member, from)].bonus == WalletMath.StreakBonus(row.payout)
  {
    var job := OnlyJob(c, row, from, to);
    var first, dies, second := CreditActions(0, c, from, to), [Die(0)], CreditActions(1, c, from, to);
    ListsAndCredits(w, c, row, from, to);
    RunConcat(w, first, dies);
    assert dies[..0] == [];
    var dead := Run(w, first + dies);
    assert dead == Step(Run(w, first), Die(0));
    assert dead.batches == [Dead(Crediting(job, 1))];
    ListsAndCredits(dead, c, row, from, to);
    RunConcat(w, first + dies, second);
    RunConcat(w, first + dies + second, [Advance(1), Advance(1)]);
    ClosesAndStores(Run(w, first + dies + second), Dead(Crediting(job, 1)), c, row, from, to);
  }

  lemma BothPay(c: Chore, row: Completion, from: int, to: int)
    requires OnceIn(c, row, from, to)
    ensures var job := OnlyJob(c, row, from, to);
      SumBy([Dead(Crediting(job, 1)), Stored(job)], PaidBy(c.member)) == 2 * WalletMath.StreakBonus(row.payout)
  {
    var job := OnlyJob(c, row, from, to);
    assert [c][..1] == [c];
    OnlyBonus(c, row, from, to);
    SumByTwo(Dead(Crediting(job, 1)), Stored(job), PaidBy(c.member));
  }

  /** From the empty state: the bonus is paid by the batch that died and by the one run after it, and stored once. */
  lemma RetryPaysTwice(c: Chore, price: int, date: int, id: Uuid, from: int, to: int)
    requires ChoreRaces.Fair(c, price) && from <= date <= to && Frequency(c) == 1
    ensures var w := Run(START, CompleteActions(c, price, date, id) + RetryActions(c, from, to));
      && SumBy(w.s.ledger, BonusTo(c.member)) == 2 * WalletMath.StreakBonus(price)
      && (c.member, from) in w.summaries
      && w.summaries[(c.member, from)].bonus == WalletMath.StreakBonus(price)
  {
    var complete, retry, row := CompleteActions(c, price, date, id), RetryActions(c, from, to), NewRow(c, date, price, id);
    OneCompletion(c, price, date, id);
    RunConcat(START, complete, retry);
    RetryEnds(Run(START, complete), c, row, from, to);
    BonusesAreAccounted(complete + retry, c.member);
    BothPay(c, row, from, to);
  }
}

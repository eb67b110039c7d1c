/**
 Chore completions and what they do to the wallet. Each SQL statement acts on in-memory
 tables; completions are plain rows, so that their uniqueness is something to prove.
 */
module Chores {
  import opened Common
  import opened Seqs
  import opened Ledger
  import opened WalletMath

  datatype Chore = Chore(id: Uuid, household: Uuid, member: Uuid, weight: int, kind: string, days: seq<string>,
                         autoApprove: bool, archived: bool)

  /** `date` is a day number. */
  datatype Completion = Completion(id: Uuid, chore: Uuid, member: Uuid, date: int, approved: bool, payout: int, closed: bool)

  datatype Summary = Summary(household: Uuid, earned: int, bonus: int, completed: int, possible: int)

  /** `allowances` holds the active allowance of a member, `rates` the cents per weight unit of a household. */
  datatype Tables = Tables(
    chores: seq<Chore>,
    allowances: map<Uuid, int>,
    rates: map<Uuid, int>,
    completions: seq<Completion>,
    ledger: seq<Row>,
    wallets: map<Uuid, int>,
    summaries: map<(Uuid, int), Summary>)

  const EMPTY := Tables([], map[], map[], [], [], map[], map[])

  datatype Outcome = Done(completion: Completion) | Undone | Failed

  // ---- Queries ----

  function ChoreIn(chore: Uuid, household: Uuid): Chore -> bool {
    (c: Chore) => c.id == chore && c.household == household
  }

  function ActiveOf(household: Uuid, member: Uuid): Chore -> bool {
    (c: Chore) => c.household == household && c.member == member && !c.archived
  }

  function OnDay(chore: Uuid, date: int): Completion -> bool {
    (c: Completion) => c.chore == chore && c.date == date
  }

  /** The rows the guarded DELETE leaves. */
  function Kept(chore: Uuid, date: int): Completion -> bool {
    (c: Completion) => !(c.chore == chore && c.date == date && !c.closed)
  }

  // ---- Wallet ----

  /** Make sure the wallet exists, insert the row unless the unique index refuses it, adjust the balance. */
  function Credit(t: Tables, row: Row): Tables {
    var before := Cached(t.wallets, row.member);
    if Violates(t.ledger, row) then t.(wallets := t.wallets[row.member := before])
    else t.(ledger := t.ledger + [row], wallets := t.wallets[row.member := before + row.amount])
  }

  // ---- Pricing ----

  function PlanOf(c: Chore): Plan {
    Plan(c.weight, FrequencyPerWeek(c.kind, c.days))
  }

  function Siblings(t: Tables, c: Chore): seq<Chore> {
    Filter(t.chores, ActiveOf(c.household, c.member))
  }

  /** A share of the allowance when there is one, otherwise the flat rate of the household, if it exists. */
  function Price(t: Tables, c: Chore): Option<int> {
    if c.member in t.allowances && t.allowances[c.member] > 0 then
      Some(PerInstancePayout(t.allowances[c.member], c.weight, Divisor(Map(Siblings(t, c), PlanOf))))
    else if c.household in t.rates then Some(c.weight * t.rates[c.household])
    else None
  }

  /** What a chore pays for a full week at its current price. */
  function FullWeekPrice(t: Tables): Chore -> int {
    (c: Chore) => if Price(t, c).Some? then FrequencyPerWeek(c.kind, c.days) * Price(t, c).value else 0
  }

  /**
   At the prices of one moment, a full week of all of a member's active chores pays the weekly allowance,
   short of it by less than a cent per instance and never over it.
   */
  lemma PricesShareOutTheAllowance(t: Tables, household: Uuid, member: Uuid)
    requires member in t.allowances && t.allowances[member] > 0
    requires var plans := Map(Filter(t.chores, ActiveOf(household, member)), PlanOf);
      Divisor(plans) > 0 && forall p :: p in plans ==> Sound(t.allowances[member], p)
    ensures var active := Filter(t.chores, ActiveOf(household, member));
      t.allowances[member] - SumBy(Map(active, PlanOf), FrequencyOf) < SumBy(active, FullWeekPrice(t)) <= t.allowances[member]
  {
    var active := Filter(t.chores, ActiveOf(household, member));
    var plans := Map(active, PlanOf);
    FilterMembers(t.chores, ActiveOf(household, member));
    var week := FullWeek(t.allowances[member], Divisor(plans));
    forall c | c in active ensures week(PlanOf(c)) == FullWeekPrice(t)(c) {
      SameSiblings(t, c, household, member);
    }
    SumByMap(active, PlanOf, week, FullWeekPrice(t));
    FullWeekPaysTheAllowance(t.allowances[member], plans);
  }

  lemma SameSiblings(t: Tables, c: Chore, household: Uuid, member: Uuid)
    requires c.household == household && c.member == member
    ensures Siblings(t, c) == Filter(t.chores, ActiveOf(household, member))
  {
  }

  /** Without a positive allowance the price is the flat rate times the weight, if the household has a rate. */
  lemma FlatPrice(t: Tables, c: Chore)
    requires c.member in t.allowances ==> t.allowances[c.member] <= 0
    ensures Price(t, c) == if c.household in t.rates then Some(c.weight * t.rates[c.household]) else None
  {
  }

  lemma DivisorOfOne(c: Chore)
    requires c.weight > 0
    ensures Divisor(Map([c], PlanOf)) == c.weight * FrequencyPerWeek(c.kind, c.days)
  {
    assert Map([c], PlanOf) == [PlanOf(c)];
    SumByOne(PlanOf(c), Share);
  }

  lemma SharedOut(allowance: int, weight: int, due: int)
    requires 0 < allowance && 0 < weight && 0 < due && allowance * weight <= MAX_INT64
    ensures PerInstancePayout(allowance, weight, weight * due) == allowance / due
  {
    var q := allowance / due;
    assert allowance == q * due + allowance % due;
    var n, d := allowance * weight, weight * due;
    assert n == q * d + (allowance % due) * weight by {
      Distribute(q * due, allowance % due, weight);
      assert q * due * weight == q * (weight * due);
    }
    Below(allowance % due, due, weight);
    Wrap64Fits(n);
    QuotientIs(n, d, q, (allowance % due) * weight);
  }

  lemma Distribute(a: int, b: int, w: int)
    ensures (a + b) * w == a * w + b * w
  {
  }

  lemma Below(r: int, due: int, weight: int)
    requires 0 <= r < due && weight > 0
    ensures 0 <= r * weight < weight * due
  {
  }

  lemma Wrap64Fits(n: int)
    requires 0 < n <= MAX_INT64
    ensures Wrap64(n) == n
  {
  }

  lemma QuotientIs(n: int, d: int, q: int, r: int)
    requires d > 0 && n >= 0 && n == q * d + r && 0 <= r < d
    ensures Quotient(n, d) == q
  {
    var p := Quotient(n, d);
    QuotientBounds(n, d);
    if p < q {
      Ordered(p + 1, q, d);
    } else if q < p {
      Ordered(q + 1, p, d);
    }
  }

  lemma Ordered(a: int, b: int, d: int)
    requires a <= b && d > 0
    ensures a * d <= b * d
  {
  }

  /** A member's only chore is paid the allowance over the days it is due: seven, five, one, or as many as are listed. */
  lemma OnlyChorePrice(t: Tables, c: Chore)
    requires Filter(t.chores, ActiveOf(c.household, c.member)) == [c] && c.weight > 0
    requires c.member in t.allowances && t.allowances[c.member] > 0 && t.allowances[c.member] * c.weight <= MAX_INT64
    ensures var a := t.allowances[c.member];
      Price(t, c) == Some(
        match c.kind
        case "daily" => a / 7
        case "weekdays" => a / 5
        case "weekly" => a
        case "specific_days" => if |c.days| > 0 then a / |c.days| else 0
        case _ => 0)
  {
    var due := FrequencyPerWeek(c.kind, c.days);
    DivisorOfOne(c);
    if due > 0 {
      SharedOut(t.allowances[c.member], c.weight, due);
    }
  }

  /** An archived chore, or another member's, has no part in the price of a member's chores. */
  lemma OthersDoNotShare(t: Tables, c: Chore, other: Chore)
    requires other.archived || other.member != c.member || other.household != c.household
    ensures Price(t.(chores := t.chores + [other]), c) == Price(t, c)
  {
    FilterAppend(t.chores, other, ActiveOf(c.household, c.member));
    assert Siblings(t, c) + [] == Siblings(t, c);
  }

  /** A share of the allowance takes precedence: with one, the flat rate has no influence. */
  lemma AllowanceComesFirst(t: Tables, c: Chore, rates: map<Uuid, int>)
    requires c.member in t.allowances && t.allowances[c.member] > 0
    ensures Price(t, c).Some? && Price(t.(rates := rates), c) == Price(t, c)
  {
  }

  // ---- Complete and undo ----

  function NewRow(c: Chore, date: int, price: int, id: Uuid): Completion {
    Completion(id, c.id, c.member, date, c.autoApprove, Wrap32(price), false)
  }

  function Payment(c: Completion, price: int): Row {
    Row(c.member, price, ChorePayout, Some(c.id))
  }

  function Reversal(c: Completion): Row {
    Row(c.member, -c.payout, Adjustment, Some(c.id))
  }

  /** The chore and price with which a call of Complete gets to insert its row. */
  function Insertion(t: Tables, household: Uuid, chore: Uuid, date: int): Option<(Chore, int)> {
    match Find(t.chores, ChoreIn(chore, household))
    case None => None
    case Some(c) =>
      match Price(t, c)
      case None => None
      case Some(price) => if Find(t.completions, OnDay(chore, date)).None? then Some((c, price)) else None
  }

  /** `id` is the identifier generated for the new row. */
  function Complete(t: Tables, household: Uuid, chore: Uuid, date: int, id: Uuid): (Tables, Outcome) {
    match Find(t.chores, ChoreIn(chore, household))
    case None => (t, Failed)
    case Some(c) =>
      match Price(t, c)
      case None => (t, Failed)
      case Some(price) =>
        match Find(t.completions, OnDay(chore, date))
        case Some(existing) => (t, Done(existing))
        case None =>
          var row := NewRow(c, date, price, id);
          var t1 := t.(completions := t.completions + [row]);
          if c.autoApprove && price > 0 then
            (Credit(t1, Payment(row, price)), if Violates(t.ledger, Payment(row, price)) then Failed else Done(row))
          else (t1, Done(row))
  }

  function Undo(t: Tables, chore: Uuid, date: int): (Tables, Outcome) {
    match Find(t.completions, OnDay(chore, date))
    case None => (t, Failed)
    case Some(c) =>
      if c.closed then (t, Failed)
      else
        var t1 := if c.payout > 0 then Credit(t, Reversal(c)) else t;
        (t1.(completions := Filter(t1.completions, Kept(chore, date))), Undone)
  }

  // ---- Keys ----

  function Slot(c: Completion): (Uuid, int) { (c.chore, c.date) }

  function IdOf(c: Completion): Uuid { c.id }

  function ChoreId(c: Chore): Uuid { c.id }

  /** The primary keys of both tables and the unique index on (chore, date). */
  ghost predicate Keys(t: Tables) {
    && DistinctBy(t.chores, ChoreId)
    && DistinctBy(t.completions, Slot)
    && DistinctBy(t.completions, IdOf)
  }

  /** A newly generated identifier: no completion has it and no ledger row refers to it. */
  ghost predicate Fresh(t: Tables, id: Uuid) {
    && (forall c :: c in t.completions ==> c.id != id)
    && (forall r :: r in t.ledger ==> r.ref != Some(id))
  }

  lemma CompleteKeepsKeys(t: Tables, household: Uuid, chore: Uuid, date: int, id: Uuid)
    requires Keys(t) && Fresh(t, id)
    ensures Keys(Complete(t, household, chore, date, id).0)
  {
    FindSpec(t.chores, ChoreIn(chore, household));
    FindSpec(t.completions, OnDay(chore, date));
    match Insertion(t, household, chore, date)
    case None =>
    case Some((c, price)) =>
      var row := NewRow(c, date, price, id);
      DistinctByAppend(t.completions, row, Slot);
      DistinctByAppend(t.completions, row, IdOf);
  }

  lemma UndoKeepsKeys(t: Tables, chore: Uuid, date: int)
    requires Keys(t)
    ensures Keys(Undo(t, chore, date).0)
  {
    DistinctByFilter(t.completions, Kept(chore, date), Slot);
    DistinctByFilter(t.completions, Kept(chore, date), IdOf);
  }

  // ---- What the calls promise ----

  /** The unique index never refuses the payout of a new completion, so Complete fails only before it has written anything. */
  lemma CompleteFailsOnlyUpFront(t: Tables, household: Uuid, chore: Uuid, date: int, id: Uuid)
    requires Fresh(t, id)
    ensures var (after, outcome) := Complete(t, household, chore, date, id);
      && (outcome.Failed? <==>
            var c := Find(t.chores, ChoreIn(chore, household));
            c.None? || Price(t, c.value).None?)
      && (outcome.Failed? ==> after == t)
  {
  }

  lemma CompleteKeepsPrices(t: Tables, household: Uuid, chore: Uuid, date: int, id: Uuid)
    ensures var after := Complete(t, household, chore, date, id).0;
      after.chores == t.chores && after.allowances == t.allowances && after.rates == t.rates
  {
  }

  /** A second call for the same chore and day changes nothing, pays nothing and returns the first call's row. */
  lemma CompleteIsIdempotent(t: Tables, household: Uuid, chore: Uuid, date: int, id: Uuid, again: Uuid)
    requires Fresh(t, id) && Complete(t, household, chore, date, id).1.Done?
    ensures var (after, outcome) := Complete(t, household, chore, date, id);
      Complete(after, household, chore, date, again) == (after, outcome)
  {
    match Insertion(t, household, chore, date)
    case None =>
    case Some((c, price)) =>
      CompleteAppends(t, household, chore, date, id);
      AppendedRow(t.completions, NewRow(c, date, price, id));
      CompleteKeepsPrices(t, household, chore, date, id);
  }

  // ---- The ledger against the completions ----

  /** Rows written for completions: their payouts and the reversals of undone ones. */
  predicate IsCompletionRow(r: Row) {
    r.kind == ChorePayout || (r.kind == Adjustment && r.ref.Some?)
  }

  function NetRow(member: Uuid): Row -> int {
    (r: Row) => if r.member == member && IsCompletionRow(r) then r.amount else 0
  }

  function Positive(n: int): nat {
    if n > 0 then n else 0
  }

  function LivePayout(member: Uuid): Completion -> int {
    (c: Completion) => if c.member == member then Positive(c.payout) else 0
  }

  /** Net ledger amount from completions, less the positive payouts of the completions that exist. */
  function Drift(t: Tables, member: Uuid): int {
    SumBy(t.ledger, NetRow(member)) - SumBy(t.completions, LivePayout(member))
  }

  /** What inserting a completion writes to the ledger. */
  function Credited(c: Chore, price: int): nat {
    if c.autoApprove then Positive(price) else 0
  }

  /**
   The guard under which Undo will take back exactly what Complete paid. It fails when the price
   does not fit the stored 32 bits, and when a chore that is not auto-approved has a positive price:
   nothing is paid then, yet the stored payout makes Undo charge for it.
   */
  predicate Reversible(c: Chore, price: int) {
    if c.autoApprove && price > 0 then price <= MAX_INT32 else Wrap32(price) <= 0
  }

  lemma ReversibleIff(c: Chore, price: int)
    ensures Reversible(c, price) <==> Credited(c, price) == Positive(Wrap32(price))
  {
  }

  lemma CreditMovesNet(t: Tables, row: Row, member: Uuid)
    requires !Violates(t.ledger, row)
    ensures Drift(Credit(t, row), member) == Drift(t, member) + NetRow(member)(row)
  {
  }

  /** How far a call of Complete moves the drift of a member. */
  function Mismatch(t: Tables, household: Uuid, chore: Uuid, date: int, member: Uuid): int {
    match Insertion(t, household, chore, date)
    case None => 0
    case Some((c, price)) => if c.member == member then Credited(c, price) - Positive(Wrap32(price)) else 0
  }

  lemma CompleteMovesDrift(t: Tables, household: Uuid, chore: Uuid, date: int, id: Uuid, member: Uuid)
    requires Fresh(t, id)
    ensures Drift(Complete(t, household, chore, date, id).0, member)
         == Drift(t, member) + Mismatch(t, household, chore, date, member)
  {
    match Insertion(t, household, chore, date)
    case None =>
    case Some((c, price)) =>
      var row := NewRow(c, date, price, id);
      var t1 := t.(completions := t.completions + [row]);
      SumByAppend(t.completions, row, LivePayout(member));
      assert Drift(t1, member) == Drift(t, member) - LivePayout(member)(row);
      if c.autoApprove && price > 0 {
        CreditMovesNet(t1, Payment(row, price), member);
        assert Complete(t, household, chore, date, id).0 == Credit(t1, Payment(row, price));
      } else {
        assert Complete(t, household, chore, date, id).0 == t1;
      }
  }

  lemma UndoKeepsDrift(t: Tables, chore: Uuid, date: int, member: Uuid)
    requires Keys(t)
    ensures Drift(Undo(t, chore, date).0, member) == Drift(t, member)
  {
    FindSpec(t.completions, OnDay(chore, date));
    match Find(t.completions, OnDay(chore, date))
    case None =>
    case Some(c) =>
      if !c.closed {
        if c.payout > 0 {
          CreditMovesNet(t, Reversal(c), member);
        }
        forall d | d in t.completions && !Kept(chore, date)(d) ensures d == c {
          assert Slot(d) == Slot(c);
        }
        SumByRemove(t.completions, Kept(chore, date), LivePayout(member), c);
      }
  }

  /** A row appended at a free slot is found there, and deleting it again leaves the rows before it. */
  lemma AppendedRow(completions: seq<Completion>, row: Completion)
    requires Find(completions, OnDay(row.chore, row.date)).None? && !row.closed
    ensures Find(completions + [row], OnDay(row.chore, row.date)) == Some(row)
    ensures Filter(completions + [row], Kept(row.chore, row.date)) == completions
  {
    FindSpec(completions, OnDay(row.chore, row.date));
    FindAppend(completions, row, OnDay(row.chore, row.date));
    FilterAppend(completions, row, Kept(row.chore, row.date));
    FilterAll(completions, Kept(row.chore, row.date));
  }

  lemma CompleteAppends(t: Tables, household: Uuid, chore: Uuid, date: int, id: Uuid)
    requires Insertion(t, household, chore, date).Some?
    ensures var (c, price) := Insertion(t, household, chore, date).value;
      && c.id == chore
      && Complete(t, household, chore, date, id).0.completions == t.completions + [NewRow(c, date, price, id)]
      && Find(t.completions, OnDay(chore, date)).None?
  {
    FindSpec(t.chores, ChoreIn(chore, household));
  }

  lemma InsertedRow(t: Tables, household: Uuid, chore: Uuid, date: int, id: Uuid)
    requires Insertion(t, household, chore, date).Some?
    ensures var (c, price) := Insertion(t, household, chore, date).value;
      var after := Complete(t, household, chore, date, id).0.completions;
      && after == t.completions + [NewRow(c, date, price, id)]
      && Find(after, OnDay(chore, date)) == Some(NewRow(c, date, price, id))
      && Filter(after, Kept(chore, date)) == t.completions
  {
    var (c, price) := Insertion(t, household, chore, date).value;
    CompleteAppends(t, household, chore, date, id);
    AppendedRow(t.completions, NewRow(c, date, price, id));
  }

  /**
   What a new completion stores: one more row at its slot, approved exactly if the chore approves itself, with
   the price as payout; an approved positive price goes to the member's ledger and balance, and nothing else.
   */
  lemma CompletionIsStored(t: Tables, household: Uuid, chore: Uuid, date: int, id: Uuid)
    requires Fresh(t, id) && Insertion(t, household, chore, date).Some?
    ensures var (c, price) := Insertion(t, household, chore, date).value;
      var (after, outcome) := Complete(t, household, chore, date, id);
      var row := Completion(id, chore, c.member, date, c.autoApprove, Wrap32(price), false);
      var paid := c.autoApprove && price > 0;
      && outcome == Done(row) && after.completions == t.completions + [row]
      && c in t.chores && c.id == chore && c.household == household && Price(t, c) == Some(price)
      && after.ledger == t.ledger + (if paid then [Row(c.member, price, ChorePayout, Some(id))] else [])
      && Cached(after.wallets, c.member) == Cached(t.wallets, c.member) + (if paid then price else 0)
  {
    CompleteAppends(t, household, chore, date, id);
    FindSpec(t.chores, ChoreIn(chore, household));
    InsertedBalances(t, household, chore, date, id);
    assert t.ledger + [] == t.ledger;
  }

  /**
   Undo fails, and does nothing, exactly when the slot is empty or its completion closed. Otherwise it
   takes that completion away and no other, and charges its positive payout to its member.
   */
  lemma UndoIffOpen(t: Tables, chore: Uuid, date: int)
    requires Keys(t)
    ensures var (after, outcome) := Undo(t, chore, date);
      && (outcome == Undone <==> exists c :: c in t.completions && c.chore == chore && c.date == date && !c.closed)
      && (outcome == Undone || (outcome == Failed && after == t))
      && (forall c :: c in after.completions <==> c in t.completions && !(outcome == Undone && c.chore == chore && c.date == date))
      && (forall c :: outcome == Undone && c in t.completions && c.chore == chore && c.date == date ==>
            after.ledger == t.ledger + if c.payout > 0 then [Row(c.member, -c.payout, Adjustment, Some(c.id))] else [])
  {
    FindSpec(t.completions, OnDay(chore, date));
    FilterMembers(t.completions, Kept(chore, date));
    forall c | c in t.completions && c.chore == chore && c.date == date
      ensures Find(t.completions, OnDay(chore, date)) == Some(c)
    {
      var found := Find(t.completions, OnDay(chore, date)).value;
      assert Slot(c) == Slot(found);
    }
    assert t.ledger + [] == t.ledger;
  }

  lemma InsertedBalances(t: Tables, household: Uuid, chore: Uuid, date: int, id: Uuid)
    requires Fresh(t, id) && Insertion(t, household, chore, date).Some?
    ensures var (c, price) := Insertion(t, household, chore, date).value;
      var after := Complete(t, household, chore, date, id).0;
      && Cached(after.wallets, c.member) == Cached(t.wallets, c.member) + Credited(c, price)
      && (forall m :: m != c.member ==> Cached(after.wallets, m) == Cached(t.wallets, m))
  {
  }

  lemma UndoShape(t: Tables, chore: Uuid, date: int)
    requires Find(t.completions, OnDay(chore, date)).Some?
    requires !Find(t.completions, OnDay(chore, date)).value.closed
    ensures var c := Find(t.completions, OnDay(chore, date)).value;
      var (after, outcome) := Undo(t, chore, date);
      && outcome == Undone
      && after.completions == Filter(t.completions, Kept(chore, date))
      && Cached(after.wallets, c.member) == Cached(t.wallets, c.member) - Positive(c.payout)
      && (forall m :: m != c.member ==> Cached(after.wallets, m) == Cached(t.wallets, m))
  {
  }

  /**
   Undoing a fresh completion removes exactly the row that was inserted, and gives every balance back
   precisely when the price was reversible; otherwise the member's balance is off by the mismatch.
   */
  lemma UndoRevertsCompleteIff(t: Tables, household: Uuid, chore: Uuid, date: int, id: Uuid)
    requires Fresh(t, id) && Insertion(t, household, chore, date).Some?
    ensures var (c, price) := Insertion(t, household, chore, date).value;
      var (after, outcome) := Undo(Complete(t, household, chore, date, id).0, chore, date);
      && outcome == Undone
      && after.completions == t.completions
      && Cached(after.wallets, c.member) == Cached(t.wallets, c.member) + Credited(c, price) - Positive(Wrap32(price))
      && (forall m :: m != c.member ==> Cached(after.wallets, m) == Cached(t.wallets, m))
      && (Cached(after.wallets, c.member) == Cached(t.wallets, c.member) <==> Reversible(c, price))
  {
    var (c, price) := Insertion(t, household, chore, date).value;
    var between := Complete(t, household, chore, date, id).0;
    InsertedRow(t, household, chore, date, id);
    InsertedBalances(t, household, chore, date, id);
    UndoShape(between, chore, date);
    ReversibleIff(c, price);
  }
}

/** The week-end batch: streak bonuses, closing of the week's completions and the weekly summary. */
module WeekEnd {
  import opened Common
  import opened Seqs
  import opened Ledger
  import opened WalletMath
  import opened Chores

  // ---- Which week ----

  /** Day 0 is 1 January 1970, a Thursday; Sunday is 0. */
  function Weekday(day: int): nat {
    (day + 4) % 7
  }

  function LastFullWeek(today: int): (int, int) {
    var thisSunday := today - Weekday(today);
    (thisSunday - 7, thisSunday - 1)
  }

  /** It is the one Sunday-to-Saturday stretch that ended within the last seven days, today excluded. */
  lemma LastFullWeekIff(today: int, from: int, to: int)
    ensures (from, to) == LastFullWeek(today)
      <==> Weekday(from) == 0 && Weekday(to) == 6 && to - from == 6 && to < today <= to + 7
  {
  }

  /** 1 January 1970 was a Thursday; for Wednesday, 10 January 2024 the last full week is 31 December to 6 January. */
  lemma CalendarAgrees()
    ensures Weekday(0) == 4
    ensures LastFullWeek(19732) == (19722, 19728)
  {
  }

  // ---- One member's week ----

  function InWeek(member: Uuid, from: int, to: int): Completion -> bool {
    (c: Completion) => c.member == member && from <= c.date <= to
  }

  function OfChore(chore: Uuid): Completion -> bool {
    (c: Completion) => c.chore == chore
  }

  function ChoreOf(c: Completion): Uuid { c.chore }

  function PayoutOf(c: Completion): int { c.payout }

  function One(c: Completion): int { 1 }

  function Frequency(c: Chore): nat {
    FrequencyPerWeek(c.kind, c.days)
  }

  function Instances(week: seq<Completion>): Chore -> int {
    (c: Chore) => |Filter(week, OfChore(c.id))|
  }

  function WeekTotal(week: seq<Completion>): Chore -> int {
    (c: Chore) => SumBy(Filter(week, OfChore(c.id)), PayoutOf)
  }

  /** Ten percent on a chore done as often as it was due. */
  function BonusFor(week: seq<Completion>, c: Chore): nat {
    var done := Filter(week, OfChore(c.id));
    if Frequency(c) > 0 && |done| >= Frequency(c) then WalletMath.StreakBonus(SumBy(done, PayoutOf)) else 0
  }

  function Bonus(week: seq<Completion>): Chore -> int {
    (c: Chore) => BonusFor(week, c)
  }

  function EarnsBonus(week: seq<Completion>): Chore -> bool {
    (c: Chore) => BonusFor(week, c) > 0
  }

  function BonusRow(member: Uuid, week: seq<Completion>): Chore -> Row {
    (c: Chore) => Row(member, BonusFor(week, c), StreakBonus, Some(c.id))
  }

  function CreditAll(t: Tables, rows: seq<Row>): Tables {
    if rows == [] then t else Credit(CreditAll(t, rows[..|rows| - 1]), rows[|rows| - 1])
  }

  function Active(t: Tables, household: Uuid, member: Uuid): seq<Chore> {
    Filter(t.chores, ActiveOf(household, member))
  }

  function Week(t: Tables, member: Uuid, from: int, to: int): seq<Completion> {
    Filter(t.completions, InWeek(member, from, to))
  }

  function BonusRows(member: Uuid, active: seq<Chore>, week: seq<Completion>): seq<Row> {
    Map(Filter(active, EarnsBonus(week)), BonusRow(member, week))
  }

  function Closing(member: Uuid, from: int, to: int): Completion -> Completion {
    (c: Completion) => if InWeek(member, from, to)(c) then c.(closed := true) else c
  }

  function Frequencies(c: Chore): int { Frequency(c) }

  /** An existing summary of the week keeps its household. */
  function SummaryOf(
    summaries: map<(Uuid, int), Summary>, household: Uuid, member: Uuid, from: int, active: seq<Chore>, week: seq<Completion>)
    : Summary
  {
    Summary(if (member, from) in summaries then summaries[(member, from)].household else household,
            SumBy(active, WeekTotal(week)), SumBy(active, Bonus(week)),
            Wrap32(SumBy(active, Instances(week))), Wrap32(SumBy(active, Frequencies)))
  }

  function CloseWeek(t: Tables, household: Uuid, member: Uuid, from: int, to: int): Tables {
    var active, week := Active(t, household, member), Week(t, member, from, to);
    CreditAll(t, BonusRows(member, active, week)).(
      completions := Map(t.completions, Closing(member, from, to)),
      summaries := t.summaries[(member, from) := SummaryOf(t.summaries, household, member, from, active, week)])
  }

  function RunForHousehold(t: Tables, household: Uuid, members: seq<Uuid>, today: int): Tables {
    if members == [] then t
    else
      var (from, to) := LastFullWeek(today);
      CloseWeek(RunForHousehold(t, household, members[..|members| - 1], today), household, members[|members| - 1], from, to)
  }

  // ---- The credits ----

  function AmountOf(r: Row): int { r.amount }

  predicate AreBonuses(rows: seq<Row>, member: Uuid) {
    forall r :: r in rows ==> r.member == member && r.kind == StreakBonus
  }

  /** The tables with the bonus rows appended and the member's balance raised by their total. */
  function WithBonuses(t: Tables, rows: seq<Row>, member: Uuid): Tables {
    if rows == [] then t
    else t.(ledger := t.ledger + rows, wallets := t.wallets[member := Cached(t.wallets, member) + SumBy(rows, AmountOf)])
  }

  lemma OneMoreBonus(t: Tables, rows: seq<Row>, row: Row, member: Uuid)
    requires row.member == member && row.kind == StreakBonus
    ensures Credit(WithBonuses(t, rows, member), row) == WithBonuses(t, rows + [row], member)
  {
    SumByAppend(rows, row, AmountOf);
    assert t.ledger + rows + [row] == t.ledger + (rows + [row]);
  }

  /** Bonus credits never fail; together they append their rows and raise one balance by their total. */
  lemma {:induction false} CreditAllShape(t: Tables, rows: seq<Row>, member: Uuid)
    requires AreBonuses(rows, member)
    ensures CreditAll(t, rows) == WithBonuses(t, rows, member)
  {
    if rows != [] {
      var init, last := rows[..|rows| - 1], rows[|rows| - 1];
      assert rows == init + [last];
      CreditAllShape(t, init, member);
      OneMoreBonus(t, init, last, member);
    }
  }

  lemma RowsAreBonuses(member: Uuid, chores: seq<Chore>, week: seq<Completion>)
    ensures AreBonuses(Map(chores, BonusRow(member, week)), member)
  {
  }

  /** The rows add up to the bonus total of the summary. */
  lemma BonusRowsTotal(member: Uuid, active: seq<Chore>, week: seq<Completion>)
    ensures SumBy(BonusRows(member, active, week), AmountOf) == SumBy(active, Bonus(week))
  {
    SumByMap(Filter(active, EarnsBonus(week)), BonusRow(member, week), AmountOf, Bonus(week));
    SumByFilter(active, EarnsBonus(week), Bonus(week), Bonus(week));
  }

  lemma CloseWeekShape(t: Tables, household: Uuid, member: Uuid, from: int, to: int) returns (rows: seq<Row>)
    ensures rows == BonusRows(member, Active(t, household, member), Week(t, member, from, to))
    ensures AreBonuses(rows, member)
    ensures var after := CloseWeek(t, household, member, from, to);
      && after.chores == t.chores
      && after.ledger == t.ledger + rows
      && after.wallets == WithBonuses(t, rows, member).wallets
      && after.summaries[(member, from)].bonus == SumBy(rows, AmountOf)
  {
    var active, week := Active(t, household, member), Week(t, member, from, to);
    rows := BonusRows(member, active, week);
    RowsAreBonuses(member, Filter(active, EarnsBonus(week)), week);
    BonusRowsTotal(member, active, week);
    CreditAllShape(t, rows, member);
    assert t.ledger + [] == t.ledger;
  }

  /** An archived chore, or another member's, has no part in the bonuses and the summary of a member's week. */
  lemma OthersDoNotCount(t: Tables, other: Chore, household: Uuid, member: Uuid, from: int, to: int)
    requires other.archived || other.member != member || other.household != household
    ensures var more := t.(chores := t.chores + [other]);
      && CloseWeek(more, household, member, from, to).ledger == CloseWeek(t, household, member, from, to).ledger
      && CloseWeek(more, household, member, from, to).summaries == CloseWeek(t, household, member, from, to).summaries
  {
    var more := t.(chores := t.chores + [other]);
    FilterAppend(t.chores, other, ActiveOf(household, member));
    assert Active(t, household, member) + [] == Active(t, household, member);
    var rows := CloseWeekShape(t, household, member, from, to);
    var again := CloseWeekShape(more, household, member, from, to);
  }

  predicate IsBonusOf(r: Row, member: Uuid, c: Chore, week: seq<Completion>) {
    r == Row(member, BonusFor(week, c), StreakBonus, Some(c.id))
  }

  /** Each active chore that earns a bonus gets one row, which refers to it; nothing else is written to the ledger. */
  lemma OneRowPerStreak(t: Tables, household: Uuid, member: Uuid, from: int, to: int)
    ensures var after, week := CloseWeek(t, household, member, from, to).ledger, Week(t, member, from, to);
      var earning := Filter(Active(t, household, member), EarnsBonus(week));
      && |after| == |t.ledger| + |earning| && after[..|t.ledger|] == t.ledger
      && forall i :: 0 <= i < |earning| ==> IsBonusOf(after[|t.ledger| + i], member, earning[i], week)
  {
    var rows := CloseWeekShape(t, household, member, from, to);
  }

  lemma BalancesWithBonuses(t: Tables, rows: seq<Row>, member: Uuid, other: Uuid)
    ensures var after := WithBonuses(t, rows, member).wallets;
      && Cached(after, member) == Cached(t.wallets, member) + SumBy(rows, AmountOf)
      && (other != member ==> Cached(after, other) == Cached(t.wallets, other))
  {
  }

  /**
   Closing a member's week adds exactly the stored streak bonus to that member's ledger and to the
   cached balance, and leaves everybody else's alone.
   */
  lemma WeekPaysTheStoredBonus(t: Tables, household: Uuid, member: Uuid, from: int, to: int, other: Uuid)
    ensures var after := CloseWeek(t, household, member, from, to);
      var bonus := after.summaries[(member, from)].bonus;
      && LedgerSum(after.ledger, member) == LedgerSum(t.ledger, member) + bonus
      && Cached(after.wallets, member) == Cached(t.wallets, member) + bonus
      && (other != member ==>
            && LedgerSum(after.ledger, other) == LedgerSum(t.ledger, other)
            && Cached(after.wallets, other) == Cached(t.wallets, other))
  {
    var rows := CloseWeekShape(t, household, member, from, to);
    BalancesWithBonuses(t, rows, member, other);
    LedgerGrows(t.ledger, rows, member, other);
  }

  lemma LedgerGrows(ledger: seq<Row>, rows: seq<Row>, member: Uuid, other: Uuid)
    requires AreBonuses(rows, member)
    ensures LedgerSum(ledger + rows, member) == LedgerSum(ledger, member) + SumBy(rows, AmountOf)
    ensures other != member ==> LedgerSum(ledger + rows, other) == LedgerSum(ledger, other)
  {
    SumByConcat(ledger, rows, AmountFor(member));
    SumByEqual(rows, AmountFor(member), AmountOf);
    if other != member {
      SumByConcat(ledger, rows, AmountFor(other));
      SumByZero(rows, AmountFor(other));
    }
  }

  // ---- The summary ----

  /** A completion's amount if it falls in the member's week and its chore is among `chores`. */
  function Counted(member: Uuid, from: int, to: int, chores: seq<Uuid>, amount: Completion -> int): Completion -> int {
    (c: Completion) => if InWeek(member, from, to)(c) && c.chore in chores then amount(c) else 0
  }

  function ChoreTotal(week: seq<Completion>, amount: Completion -> int): Chore -> int {
    (c: Chore) => SumBy(Filter(week, OfChore(c.id)), amount)
  }

  /** Grouping the week by chore and summing over the active chores counts each completion of an active chore once. */
  lemma RegroupingLosesNothing(t: Tables, household: Uuid, member: Uuid, from: int, to: int, amount: Completion -> int)
    requires Keys(t)
    ensures var active := Active(t, household, member);
      SumBy(active, ChoreTotal(Week(t, member, from, to), amount))
        == SumBy(t.completions, Counted(member, from, to, Map(active, ChoreId), amount))
  {
    var active, week := Active(t, household, member), Week(t, member, from, to);
    var ids := Map(active, ChoreId);
    DistinctByFilter(t.chores, ActiveOf(household, member), ChoreId);
    forall c | c in active
      ensures ChoreTotal(week, amount)(c) == GroupSum(week, ChoreOf, amount)(ChoreId(c))
    {
      SumByFilter(week, OfChore(c.id), amount, Restrict(ChoreOf, c.id, amount));
    }
    SumByMap(active, ChoreId, GroupSum(week, ChoreOf, amount), ChoreTotal(week, amount));
    GroupSumsAddUp(ids, week, ChoreOf, amount);
    SumByFilter(t.completions, InWeek(member, from, to), RestrictTo(ChoreOf, ids, amount),
                Counted(member, from, to, ids, amount));
  }

  lemma InstancesAreOnes(week: seq<Completion>, active: seq<Chore>)
    ensures SumBy(active, Instances(week)) == SumBy(active, ChoreTotal(week, One))
  {
    forall c | c in active ensures Instances(week)(c) == ChoreTotal(week, One)(c) {
      SumOfOnes(Filter(week, OfChore(c.id)), One);
    }
    SumByEqual(active, Instances(week), ChoreTotal(week, One));
  }

  /** How often a chore is due in the week, as a number of days. */
  function DueDays(c: Chore): int {
    if c.kind == "daily" then 7 else if c.kind == "weekdays" then 5 else if c.kind == "weekly" then 1
    else if c.kind == "specific_days" then |c.days| else 0
  }

  /**
   The summary: earned is the total payout of the week's completions whose chore is active, completed
   is their number, possible the days on which active chores were due, and the bonus is never negative. A
   summary that exists keeps its household, and other summaries stay as they are.
   */
  lemma SummaryCountsActiveChores(t: Tables, household: Uuid, member: Uuid, from: int, to: int)
    requires Keys(t)
    ensures var after := CloseWeek(t, household, member, from, to).summaries;
      var s, ids := after[(member, from)], Map(Active(t, household, member), ChoreId);
      && s.earned == SumBy(t.completions, Counted(member, from, to, ids, PayoutOf))
      && s.completed == Wrap32(SumBy(t.completions, Counted(member, from, to, ids, One)))
      && s.possible == Wrap32(SumBy(Active(t, household, member), DueDays))
      && s.bonus >= 0
      && s.household == (if (member, from) in t.summaries then t.summaries[(member, from)].household else household)
      && after.Keys == t.summaries.Keys + {(member, from)}
      && (forall week :: week in t.summaries && week != (member, from) ==> after[week] == t.summaries[week])
  {
    SumByEqual(Active(t, household, member), Frequencies, DueDays);
    var active, week := Active(t, household, member), Week(t, member, from, to);
    RegroupingLosesNothing(t, household, member, from, to, PayoutOf);
    SumByEqual(active, WeekTotal(week), ChoreTotal(week, PayoutOf));
    RegroupingLosesNothing(t, household, member, from, to, One);
    InstancesAreOnes(week, active);
    SumByNonNegative(active, Bonus(week));
  }

  // ---- Closing ----

  /** Every completion of the week ends up closed; nothing else about any completion changes. */
  lemma WeekIsClosed(t: Tables, household: Uuid, member: Uuid, from: int, to: int, i: nat)
    requires i < |t.completions|
    ensures var before, after := t.completions, CloseWeek(t, household, member, from, to).completions;
      && |after| == |before|
      && after[i] == before[i].(closed := before[i].closed || InWeek(member, from, to)(before[i]))
  {
  }

  /** After the credits and the closing the same chores are active and the same completions are in the week. */
  lemma SameWeekAgain(t: Tables, household: Uuid, member: Uuid, from: int, to: int)
    ensures var once := CloseWeek(t, household, member, from, to);
      && Active(once, household, member) == Active(t, household, member)
      && Week(once, member, from, to) == Map(Week(t, member, from, to), Closing(member, from, to))
      && Map(once.completions, Closing(member, from, to)) == once.completions
  {
    var rows := BonusRows(member, Active(t, household, member), Week(t, member, from, to));
    RowsAreBonuses(member, Filter(Active(t, household, member), EarnsBonus(Week(t, member, from, to))),
                   Week(t, member, from, to));
    CreditAllShape(t, rows, member);
    FilterMap(t.completions, Closing(member, from, to), InWeek(member, from, to));
  }

  lemma RerunStoresTheSame(t: Tables, household: Uuid, member: Uuid, from: int, to: int)
    ensures var once := CloseWeek(t, household, member, from, to);
      var twice := CloseWeek(once, household, member, from, to);
      && twice.completions == once.completions
      && twice.summaries == once.summaries
  {
    var once := CloseWeek(t, household, member, from, to);
    SameWeekAgain(t, household, member, from, to);
    SameWeekTotals(Active(t, household, member), Week(t, member, from, to), Closing(member, from, to), member, from, to);
    assert SummaryOf(once.summaries, household, member, from, Active(t, household, member), Week(once, member, from, to))
        == once.summaries[(member, from)];
  }

  /**
   The batch is not idempotent: running it again on the same week pays exactly the same bonus again,
   because closed completions count like open ones.
   */
  lemma RerunPaysTheBonusAgain(t: Tables, household: Uuid, member: Uuid, from: int, to: int)
    ensures var once := CloseWeek(t, household, member, from, to);
      var twice := CloseWeek(once, household, member, from, to);
      && twice.completions == once.completions
      && twice.summaries == once.summaries
      && LedgerSum(twice.ledger, member) == LedgerSum(t.ledger, member) + 2 * once.summaries[(member, from)].bonus
  {
    var once := CloseWeek(t, household, member, from, to);
    RerunStoresTheSame(t, household, member, from, to);
    WeekPaysTheStoredBonus(t, household, member, from, to, member);
    WeekPaysTheStoredBonus(once, household, member, from, to, member);
  }

  lemma NoBonusRowsIff(member: Uuid, active: seq<Chore>, week: seq<Completion>)
    ensures BonusRows(member, active, week) == [] <==> forall c :: c in active ==> !EarnsBonus(week)(c)
  {
    var earning := Filter(active, EarnsBonus(week));
    FilterMembers(active, EarnsBonus(week));
    if earning != [] {
      assert earning[0] in earning;
    }
    if c :| c in active && EarnsBonus(week)(c) {
      assert c in earning;
    }
  }

  /** A rerun leaves the ledger alone if and only if no active chore of the member has earned its bonus. */
  lemma RerunIsHarmlessIff(t: Tables, household: Uuid, member: Uuid, from: int, to: int)
    ensures var once := CloseWeek(t, household, member, from, to);
      CloseWeek(once, household, member, from, to).ledger == once.ledger
      <==> forall c :: c in Active(t, household, member) ==> !EarnsBonus(Week(t, member, from, to))(c)
  {
    var active, week := Active(t, household, member), Week(t, member, from, to);
    var once := CloseWeek(t, household, member, from, to);
    var again := Map(week, Closing(member, from, to));
    SameWeekAgain(t, household, member, from, to);
    var rows := CloseWeekShape(once, household, member, from, to);
    assert once.ledger + [] == once.ledger;
    NoBonusRowsIff(member, active, again);
    forall c | c in active ensures EarnsBonus(again)(c) == EarnsBonus(week)(c) {
      SameTotals(c, week, Closing(member, from, to), member, from, to);
    }
  }

  lemma SameWeekTotals(active: seq<Chore>, week: seq<Completion>, close: Completion -> Completion, member: Uuid, from: int, to: int)
    requires close == Closing(member, from, to)
    ensures var again := Map(week, close);
      && SumBy(active, WeekTotal(again)) == SumBy(active, WeekTotal(week))
      && SumBy(active, Bonus(again)) == SumBy(active, Bonus(week))
      && SumBy(active, Instances(again)) == SumBy(active, Instances(week))
  {
    var again := Map(week, close);
    forall c | c in active
      ensures WeekTotal(again)(c) == WeekTotal(week)(c) && Instances(again)(c) == Instances(week)(c)
    {
      SameTotals(c, week, close, member, from, to);
    }
    SumByEqual(active, WeekTotal(again), WeekTotal(week));
    SumByEqual(active, Instances(again), Instances(week));
    SumByEqual(active, Bonus(again), Bonus(week));
  }

  lemma SameTotals(c: Chore, week: seq<Completion>, close: Completion -> Completion, member: Uuid, from: int, to: int)
    requires close == Closing(member, from, to)
    ensures var again := Map(week, close);
      WeekTotal(again)(c) == WeekTotal(week)(c) && Instances(again)(c) == Instances(week)(c) && BonusFor(again, c) == BonusFor(week, c)
  {
    FilterMap(week, close, OfChore(c.id));
    SumByMap(Filter(week, OfChore(c.id)), close, PayoutOf, PayoutOf);
  }

  // ---- Streaks ----

  /** A bonus takes as many completions as were due and a total that ten percent rounds up to a cent. */
  lemma EarnsBonusIff(week: seq<Completion>, c: Chore)
    ensures EarnsBonus(week)(c) <==> Frequency(c) > 0 && Instances(week)(c) >= Frequency(c) && WeekTotal(week)(c) >= 5
  {
  }

  function DateOf(c: Completion): int { c.date }

  predicate DoneOn(t: Tables, member: Uuid, chore: Uuid, date: int) {
    exists c :: c in t.completions && c.chore == chore && c.member == member && c.date == date
  }

  lemma DatesAreDistinct(t: Tables, member: Uuid, from: int, to: int, chore: Uuid)
    requires DistinctBy(t.completions, Slot)
    ensures DistinctBy(Filter(Week(t, member, from, to), OfChore(chore)), DateOf)
  {
    var week := Week(t, member, from, to);
    var done := Filter(week, OfChore(chore));
    DistinctByFilter(t.completions, InWeek(member, from, to), Slot);
    DistinctByFilter(week, OfChore(chore), Slot);
    FilterMembers(week, OfChore(chore));
    forall i, j | 0 <= i < j < |done| ensures DateOf(done[i]) != DateOf(done[j]) {
      assert done[i] in done && done[j] in done && Slot(done[i]) != Slot(done[j]);
    }
  }

  lemma DatesAreDaysDone(t: Tables, member: Uuid, from: int, to: int, chore: Uuid, d: int)
    ensures d in KeySet(Filter(Week(t, member, from, to), OfChore(chore)), DateOf)
      <==> from <= d <= to && DoneOn(t, member, chore, d)
  {
    var week := Week(t, member, from, to);
    FilterMembers(t.completions, InWeek(member, from, to));
    FilterMembers(week, OfChore(chore));
    KeySetMembers(Filter(week, OfChore(chore)), DateOf);
    if from <= d <= to && DoneOn(t, member, chore, d) {
      var c :| c in t.completions && c.chore == chore && c.member == member && c.date == d;
      assert c in Filter(week, OfChore(chore)) && DateOf(c) == d;
    }
  }

  /** The days of the stretch on which the member completed the chore. */
  ghost function DaysDone(t: Tables, member: Uuid, chore: Uuid, from: int, to: int): set<int> {
    set d | d in Range(from, to + 1) && DoneOn(t, member, chore, d)
  }

  /** Thanks to the unique (chore, date), counting rows is counting days. */
  lemma RowsAreDays(t: Tables, member: Uuid, from: int, to: int, c: Chore)
    requires Keys(t) && from <= to
    ensures Instances(Week(t, member, from, to))(c) == |DaysDone(t, member, c.id, from, to)|
  {
    var done := Filter(Week(t, member, from, to), OfChore(c.id));
    DatesAreDistinct(t, member, from, to, c.id);
    KeySetSize(done, DateOf);
    RangeIs(from, to + 1);
    forall d ensures d in KeySet(done, DateOf) <==> d in DaysDone(t, member, c.id, from, to) {
      DatesAreDaysDone(t, member, from, to, c.id, d);
    }
    assert KeySet(done, DateOf) == DaysDone(t, member, c.id, from, to);
  }

  /** A week never holds more completions of a chore than days, and it holds as many exactly when every day has one. */
  lemma FullCountIsEveryDay(t: Tables, member: Uuid, from: int, to: int, c: Chore)
    requires Keys(t) && from <= to
    ensures var n := Instances(Week(t, member, from, to))(c);
      && n <= to - from + 1
      && (n == to - from + 1 <==> forall d :: from <= d <= to ==> DoneOn(t, member, c.id, d))
  {
    var done, days := DaysDone(t, member, c.id, from, to), Range(from, to + 1);
    RowsAreDays(t, member, from, to, c);
    RangeIs(from, to + 1);
    SubsetNoLarger(done, days);
    if |done| == |days| {
      SubsetOfSameSize(done, days);
      forall d | from <= d <= to ensures DoneOn(t, member, c.id, d) {
        assert d in days;
      }
    }
    if forall d :: from <= d <= to ==> DoneOn(t, member, c.id, d) {
      assert done == days;
    }
  }

  /** A daily chore earns its streak bonus exactly when every day of the week has a completion and they pay five cents or more. */
  lemma DailyStreakIsEveryDay(t: Tables, member: Uuid, from: int, to: int, c: Chore)
    requires Keys(t) && to == from + 6 && c.kind == "daily"
    ensures var week := Week(t, member, from, to);
      EarnsBonus(week)(c) <==> (forall d :: from <= d <= to ==> DoneOn(t, member, c.id, d)) && WeekTotal(week)(c) >= 5
  {
    FullCountIsEveryDay(t, member, from, to, c);
    EarnsBonusIff(Week(t, member, from, to), c);
  }

  /**
   Streaks count days: seven for a daily chore, any one for a weekly chore, any five, weekend or not, for
   "weekdays", and for "specific_days" as many as are listed, on whatever days. Any other kind earns nothing.
   */
  lemma StreaksCountDays(t: Tables, member: Uuid, from: int, to: int, c: Chore)
    requires Keys(t) && from <= to
    ensures var week, days := Week(t, member, from, to), |DaysDone(t, member, c.id, from, to)|;
      EarnsBonus(week)(c) <==>
        && WeekTotal(week)(c) >= 5
        && match c.kind
           case "daily" => days >= 7
           case "weekdays" => days >= 5
           case "weekly" => days >= 1
           case "specific_days" => |c.days| > 0 && days >= |c.days|
           case _ => false
  {
    RowsAreDays(t, member, from, to, c);
    EarnsBonusIff(Week(t, member, from, to), c);
  }

  // ---- The whole household ----

  /** Each listed member is paid exactly the bonus stored in the week's summary, and nobody else anything. */
  lemma {:induction false} HouseholdIsPaidTheStoredBonuses(t: Tables, household: Uuid, members: seq<Uuid>, today: int, m: Uuid)
    requires Distinct(members)
    ensures var (after, week) := (RunForHousehold(t, household, members, today), (m, LastFullWeek(today).0));
      && (m in members ==>
            && week in after.summaries
            && LedgerSum(after.ledger, m) == LedgerSum(t.ledger, m) + after.summaries[week].bonus)
      && (m !in members ==>
            && LedgerSum(after.ledger, m) == LedgerSum(t.ledger, m)
            && (week in after.summaries <==> week in t.summaries)
            && (week in t.summaries ==> after.summaries[week] == t.summaries[week]))
  {
    if members != [] {
      var init, last := members[..|members| - 1], members[|members| - 1];
      var (from, to) := LastFullWeek(today);
      assert members == init + [last] && last !in init;
      HouseholdIsPaidTheStoredBonuses(t, household, init, today, m);
      WeekPaysTheStoredBonus(RunForHousehold(t, household, init, today), household, last, from, to, m);
    }
  }

  /** Afterwards exactly the listed members' completions of the week have been closed in addition. */
  lemma {:induction false} HouseholdWeekIsClosed(t: Tables, household: Uuid, members: seq<Uuid>, today: int, i: nat)
    requires i < |t.completions|
    ensures var before, after := t.completions, RunForHousehold(t, household, members, today).completions;
      var (from, to) := LastFullWeek(today);
      && |after| == |before|
      && after[i] == before[i].(closed := before[i].closed || (before[i].member in members && from <= before[i].date <= to))
  {
    if members != [] {
      var init, last := members[..|members| - 1], members[|members| - 1];
      var (from, to) := LastFullWeek(today);
      assert members == init + [last];
      HouseholdWeekIsClosed(t, household, init, today, i);
      WeekIsClosed(RunForHousehold(t, household, init, today), household, last, from, to, i);
    }
  }
}

/** Chore timers: a table of time entries with a partial unique index on the open ones. Times are seconds. */
module Timers {
  import opened Common
  import opened Seqs
  import opened Grouping

  datatype Source = Timer | Manual

  datatype Entry = Entry(id: Uuid, chore: Uuid, member: Uuid, startedAt: real, endedAt: Option<real>, source: Source)

  /** The table and the latest time the database clock has shown. */
  datatype State = State(entries: seq<Entry>, clock: real)

  datatype Outcome = Opened(entry: Entry) | Closed(entry: Entry) | AlreadyRunning | NoOpenTimer | InvalidRange | Recorded(entry: Entry)

  datatype Action =
    | Start(chore: Uuid, member: Uuid, id: Uuid, now: real)
    | Stop(chore: Uuid, member: Uuid, now: real)
    | Record(chore: Uuid, member: Uuid, id: Uuid, from: real, to: real)

  predicate IsOpen(e: Entry, chore: Uuid, member: Uuid) {
    e.chore == chore && e.member == member && e.endedAt.None?
  }

  /** The unique index refuses a second open entry. */
  predicate HasOpen(entries: seq<Entry>, chore: Uuid, member: Uuid) {
    exists i :: 0 <= i < |entries| && IsOpen(entries[i], chore, member)
  }

  /** The pair's open entry that started last. */
  function LatestOpen(entries: seq<Entry>, chore: Uuid, member: Uuid): (r: Option<nat>)
    ensures r.Some? ==> r.value < |entries| && IsOpen(entries[r.value], chore, member)
  {
    if entries == [] then None
    else
      var init, last := entries[..|entries| - 1], entries[|entries| - 1];
      var r := LatestOpen(init, chore, member);
      if IsOpen(last, chore, member) && (r.None? || init[r.value].startedAt <= last.startedAt) then Some(|init|) else r
  }

  function StartTimer(entries: seq<Entry>, chore: Uuid, member: Uuid, id: Uuid, now: real): (seq<Entry>, Outcome) {
    var e := Entry(id, chore, member, now, None, Timer);
    if HasOpen(entries, chore, member) then (entries, AlreadyRunning) else (entries + [e], Opened(e))
  }

  function StopTimer(entries: seq<Entry>, chore: Uuid, member: Uuid, now: real): (seq<Entry>, Outcome) {
    match LatestOpen(entries, chore, member)
    case None => (entries, NoOpenTimer)
    case Some(i) =>
      var e := entries[i].(endedAt := Some(now));
      (entries[i := e], Closed(e))
  }

  function RecordEntry(entries: seq<Entry>, chore: Uuid, member: Uuid, id: Uuid, from: real, to: real): (seq<Entry>, Outcome) {
    var e := Entry(id, chore, member, from, Some(to), Manual);
    if from < to then (entries + [e], Recorded(e)) else (entries, InvalidRange)
  }

  /** The clock never goes back; a call from the past is not enabled. */
  function Step(s: State, a: Action): State {
    match a
    case Start(chore, member, id, now) =>
      if now < s.clock then s else State(StartTimer(s.entries, chore, member, id, now).0, now)
    case Stop(chore, member, now) =>
      if now < s.clock then s else State(StopTimer(s.entries, chore, member, now).0, now)
    case Record(chore, member, id, from, to) => s.(entries := RecordEntry(s.entries, chore, member, id, from, to).0)
  }

  function Run(s: State, actions: seq<Action>): State {
    if actions == [] then s else Step(Run(s, actions[..|actions| - 1]), actions[|actions| - 1])
  }

  // ---- One open timer per pair, and no overlaps ----

  predicate SamePair(d: Entry, e: Entry) {
    d.chore == e.chore && d.member == e.member
  }

  predicate EndsBefore(d: Entry, e: Entry) {
    d.endedAt.Some? && d.endedAt.value <= e.startedAt
  }

  ghost predicate Sequential(entries: seq<Entry>) {
    forall i, j :: 0 <= i < j < |entries| && entries[i].source == entries[j].source == Timer && SamePair(entries[i], entries[j])
      ==> EndsBefore(entries[i], entries[j])
  }

  predicate Sane(e: Entry, clock: real) {
    match e.source
    case Timer => e.startedAt <= clock && (e.endedAt.Some? ==> e.startedAt <= e.endedAt.value <= clock)
    case Manual => e.endedAt.Some? && e.startedAt < e.endedAt.value
  }

  ghost predicate Inv(s: State) {
    Sequential(s.entries) && forall e :: e in s.entries ==> Sane(e, s.clock)
  }

  lemma {:induction false} LatestOpenFinds(entries: seq<Entry>, chore: Uuid, member: Uuid)
    ensures LatestOpen(entries, chore, member).Some? <==> HasOpen(entries, chore, member)
  {
    if entries != [] {
      var init := entries[..|entries| - 1];
      LatestOpenFinds(init, chore, member);
      if HasOpen(init, chore, member) {
        var i :| 0 <= i < |init| && IsOpen(init[i], chore, member);
        assert IsOpen(entries[i], chore, member);
      }
    }
  }

  /** Under the invariant a pair's open entry is its last timer. */
  lemma OpenIsLast(s: State, i: nat, j: nat)
    requires Inv(s) && i < |s.entries| && j < |s.entries|
    requires IsOpen(s.entries[i], s.entries[j].chore, s.entries[j].member) && s.entries[j].source == Timer
    ensures j <= i
  {
    assert s.entries[i] in s.entries && Sane(s.entries[i], s.clock);
  }

  lemma StartKeepsInv(s: State, chore: Uuid, member: Uuid, id: Uuid, now: real)
    requires Inv(s) && s.clock <= now
    ensures Inv(State(StartTimer(s.entries, chore, member, id, now).0, now))
  {
    var e := Entry(id, chore, member, now, None, Timer);
    forall i | 0 <= i < |s.entries| && s.entries[i].source == Timer && SamePair(s.entries[i], e)
               && !HasOpen(s.entries, chore, member)
      ensures EndsBefore(s.entries[i], e)
    {
      assert s.entries[i] in s.entries && Sane(s.entries[i], s.clock);
      assert !IsOpen(s.entries[i], chore, member);
    }
  }

  lemma StopKeepsInv(s: State, chore: Uuid, member: Uuid, now: real)
    requires Inv(s) && s.clock <= now
    ensures Inv(State(StopTimer(s.entries, chore, member, now).0, now))
  {
    match LatestOpen(s.entries, chore, member)
    case None =>
    case Some(k) =>
      var after := s.entries[k := s.entries[k].(endedAt := Some(now))];
      assert s.entries[k] in s.entries && Sane(s.entries[k], s.clock);
      forall i, j | 0 <= i < j < |after| && after[i].source == after[j].source == Timer && SamePair(after[i], after[j])
        ensures EndsBefore(after[i], after[j])
      {
        assert EndsBefore(s.entries[i], s.entries[j]);
      }
      forall e | e in after ensures Sane(e, now) {
        var i :| 0 <= i < |after| && after[i] == e;
        assert Sane(s.entries[i], s.clock);
      }
  }

  lemma RecordKeepsInv(s: State, chore: Uuid, member: Uuid, id: Uuid, from: real, to: real)
    requires Inv(s)
    ensures Inv(s.(entries := RecordEntry(s.entries, chore, member, id, from, to).0))
  {
  }

  lemma {:induction false} RunKeepsInv(actions: seq<Action>, clock: real)
    ensures Inv(Run(State([], clock), actions))
  {
    if actions != [] {
      var s, a := Run(State([], clock), actions[..|actions| - 1]), actions[|actions| - 1];
      RunKeepsInv(actions[..|actions| - 1], clock);
      match a
      case Start(chore, member, id, now) =>
        if s.clock <= now {
          StartKeepsInv(s, chore, member, id, now);
        }
      case Stop(chore, member, now) =>
        if s.clock <= now {
          StopKeepsInv(s, chore, member, now);
        }
      case Record(chore, member, id, from, to) => RecordKeepsInv(s, chore, member, id, from, to);
    }
  }

  /**
   In every run a pair has at most one open entry, and of two timers of one pair the earlier one has
   ended by the time the later one starts.
   */
  lemma TimersNeverOverlap(actions: seq<Action>, clock: real, i: nat, j: nat)
    requires var entries := Run(State([], clock), actions).entries;
      i < j < |entries| && SamePair(entries[i], entries[j])
    ensures var entries := Run(State([], clock), actions).entries;
      && (entries[i].endedAt.Some? || entries[j].endedAt.Some?)
      && (entries[i].source == entries[j].source == Timer ==> EndsBefore(entries[i], entries[j]))
  {
    RunKeepsInv(actions, clock);
    var s := Run(State([], clock), actions);
    assert Sane(s.entries[i], s.clock) && Sane(s.entries[j], s.clock);
  }

  /** The time a closed timer of the pair covers. */
  function Span(chore: Uuid, member: Uuid): Entry -> real {
    (e: Entry) =>
      if IsTimerOf(e, chore, member) && e.endedAt.Some? then e.endedAt.value - e.startedAt
      else 0.0
  }

  ghost predicate Within(entries: seq<Entry>, chore: Uuid, member: Uuid, from: real, to: real) {
    forall e :: e in entries && IsTimerOf(e, chore, member) ==>
      from <= e.startedAt <= to && (e.endedAt.Some? ==> e.startedAt <= e.endedAt.value <= to)
  }

  predicate IsTimerOf(e: Entry, chore: Uuid, member: Uuid) {
    e.source == Timer && e.chore == chore && e.member == member
  }

  /** Before a timer of the pair the pair's earlier timers have all ended. */
  lemma EarlierEndFirst(init: seq<Entry>, last: Entry, chore: Uuid, member: Uuid, from: real, to: real)
    requires Sequential(init + [last]) && Within(init + [last], chore, member, from, to) && IsTimerOf(last, chore, member)
    ensures Within(init, chore, member, from, last.startedAt)
  {
    var entries := init + [last];
    forall e | e in init && IsTimerOf(e, chore, member)
      ensures from <= e.startedAt && e.endedAt.Some? && e.startedAt <= e.endedAt.value <= last.startedAt
    {
      var i :| 0 <= i < |init| && init[i] == e;
      assert entries[i] == e && e in entries && entries[|init|] == last;
      assert EndsBefore(entries[i], entries[|init|]);
    }
  }

  lemma {:induction false} SpansFit(entries: seq<Entry>, chore: Uuid, member: Uuid, from: real, to: real)
    requires Sequential(entries) && Within(entries, chore, member, from, to) && from <= to
    ensures SumReal(entries, Span(chore, member)) <= to - from
  {
    if entries != [] {
      var init, last := entries[..|entries| - 1], entries[|entries| - 1];
      assert entries == init + [last];
      if IsTimerOf(last, chore, member) {
        EarlierEndFirst(init, last, chore, member, from, to);
        assert last in entries;
        SpansFit(init, chore, member, from, last.startedAt);
      } else {
        SpansFit(init, chore, member, from, to);
      }
    }
  }

  lemma {:induction false} TimersStartInTheRun(actions: seq<Action>, clock: real)
    ensures var s := Run(State([], clock), actions);
      clock <= s.clock && forall e :: e in s.entries && e.source == Timer ==> clock <= e.startedAt
  {
    if actions != [] {
      var s, a := Run(State([], clock), actions[..|actions| - 1]), actions[|actions| - 1];
      TimersStartInTheRun(actions[..|actions| - 1], clock);
      if a.Stop? && s.clock <= a.now && LatestOpen(s.entries, a.chore, a.member).Some? {
        var k := LatestOpen(s.entries, a.chore, a.member).value;
        assert s.entries[k] in s.entries;
        forall e | e in Step(s, a).entries && e.source == Timer ensures clock <= e.startedAt {
          assert e in s.entries || e.startedAt == s.entries[k].startedAt;
        }
      }
    }
  }

  /** The time a member's timers claim for one chore never exceeds the time that has passed. */
  lemma TimersClaimAtMostElapsedTime(actions: seq<Action>, clock: real, chore: Uuid, member: Uuid)
    ensures var s := Run(State([], clock), actions);
      SumReal(s.entries, Span(chore, member)) <= s.clock - clock
  {
    var s := Run(State([], clock), actions);
    RunKeepsInv(actions, clock);
    TimersStartInTheRun(actions, clock);
    forall e | e in s.entries ensures Sane(e, s.clock) {
    }
    SpansFit(s.entries, chore, member, clock, s.clock);
  }

  // ---- What the calls answer ----

  /**
   Start is refused exactly when the pair has an open timer. Otherwise, stopped at any later time, it leaves
   exactly one more entry, from the one moment to the other.
   */
  lemma StartThenStop(s: State, chore: Uuid, member: Uuid, id: Uuid, now: real, later: real)
    requires Inv(s) && s.clock <= now <= later
    ensures var (started, outcome) := StartTimer(s.entries, chore, member, id, now);
      var (stopped, answer) := StopTimer(started, chore, member, later);
      && (outcome == AlreadyRunning <==> exists e :: e in s.entries && e.chore == chore && e.member == member && e.endedAt.None?)
      && (outcome == AlreadyRunning ==> started == s.entries)
      && (outcome != AlreadyRunning ==>
            && outcome == Opened(Entry(id, chore, member, now, None, Timer))
            && started == s.entries + [Entry(id, chore, member, now, None, Timer)]
            && answer == Closed(Entry(id, chore, member, now, Some(later), Timer))
            && stopped == s.entries + [Entry(id, chore, member, now, Some(later), Timer)])
  {
    if !HasOpen(s.entries, chore, member) {
      var e := Entry(id, chore, member, now, None, Timer);
      LatestOpenFinds(s.entries, chore, member);
      assert (s.entries + [e])[..|s.entries|] == s.entries;
      assert LatestOpen(s.entries + [e], chore, member) == Some(|s.entries|);
    } else {
      var i :| 0 <= i < |s.entries| && IsOpen(s.entries[i], chore, member);
      assert s.entries[i] in s.entries;
    }
  }

  /** A manual entry is recorded, closed and at the end, exactly when it starts before it ends; nothing else changes. */
  lemma ManualEntryIff(s: State, chore: Uuid, member: Uuid, id: Uuid, from: real, to: real)
    ensures var (after, outcome) := RecordEntry(s.entries, chore, member, id, from, to);
      && (from < to <==> outcome != InvalidRange)
      && (from < to ==>
            && after == s.entries + [Entry(id, chore, member, from, Some(to), Manual)]
            && outcome == Recorded(after[|s.entries|]))
      && (from >= to ==> after == s.entries)
      && Step(s, Record(chore, member, id, from, to)) == State(after, s.clock)
  {
  }

  /** The same as a run: from any reachable table the pair's timer is started at `now` and stopped at `later`. */
  lemma StartThenStopRuns(actions: seq<Action>, clock: real, chore: Uuid, member: Uuid, id: Uuid, now: real, later: real)
    requires var s := Run(State([], clock), actions); s.clock <= now <= later && !HasOpen(s.entries, chore, member)
    ensures var s := Run(State([], clock), actions);
      Run(s, [Start(chore, member, id, now), Stop(chore, member, later)])
        == State(s.entries + [Entry(id, chore, member, now, Some(later), Timer)], later)
  {
    var s := Run(State([], clock), actions);
    var two := [Start(chore, member, id, now), Stop(chore, member, later)];
    RunKeepsInv(actions, clock);
    StartThenStop(s, chore, member, id, now, later);
    assert two[..1] == [Start(chore, member, id, now)] && two[..1][..0] == [];
    assert Run(s, two[..1]) == Step(s, Start(chore, member, id, now));
  }

  /** A timer of a member counts in exactly the ranges that hold its start, for its length to the nearest second. */
  lemma StoppedTimerCounts(e: Entry, from: real, to: real)
    requires e.endedAt.Some? && e.startedAt <= e.endedAt.value
    ensures var length, seconds := e.endedAt.value - e.startedAt, SecondsIn(e.member, from, to)(e);
      && CountedIn(e.member, from, to)(e) == (if from <= e.startedAt < to then 1 else 0)
      && (!(from <= e.startedAt < to) ==> seconds == 0)
      && (from <= e.startedAt < to ==> -0.5 <= length - seconds as real < 0.5)
      && (forall m :: m != e.member ==> SecondsIn(m, from, to)(e) == 0 && CountedIn(m, from, to)(e) == 0)
    ensures forall m :: CountedIn(m, from, to)(e.(endedAt := None)) == 0 && SecondsIn(m, from, to)(e.(endedAt := None)) == 0
  {
  }

  /** Stop fails exactly when none is open; otherwise it closes the one open entry at the current time. */
  lemma StopFailsIff(s: State, chore: Uuid, member: Uuid, now: real)
    requires Inv(s)
    ensures var (after, outcome) := StopTimer(s.entries, chore, member, now);
      && (outcome.NoOpenTimer? <==> !HasOpen(s.entries, chore, member))
      && (outcome.NoOpenTimer? ==> after == s.entries)
      && !HasOpen(after, chore, member)
      && (!outcome.NoOpenTimer? ==>
            outcome.Closed? && outcome.entry.endedAt == Some(now) && outcome.entry.startedAt <= s.clock
            && exists i :: 0 <= i < |after| && after == s.entries[i := outcome.entry] && IsOpen(s.entries[i], chore, member))
  {
    LatestOpenFinds(s.entries, chore, member);
    match LatestOpen(s.entries, chore, member)
    case None =>
    case Some(k) =>
      var after := StopTimer(s.entries, chore, member, now).0;
      assert Sane(s.entries[k], s.clock);
      forall i | 0 <= i < |after| ensures !IsOpen(after[i], chore, member) {
        if i != k && IsOpen(s.entries[i], chore, member) {
          assert Sane(s.entries[i], s.clock);
          OpenIsLast(s, i, k);
          OpenIsLast(s, k, i);
        }
      }
  }

  // ---- Summaries ----

  /** Whole seconds, rounded half up, never negative; open entries have none. */
  function Seconds(e: Entry): (r: int)
    ensures r >= 0
  {
    if e.endedAt.None? || e.endedAt.value < e.startedAt then 0 else (e.endedAt.value - e.startedAt + 0.5).Floor
  }

  /** A closed entry of the member that started in [from, to). */
  predicate Counts(e: Entry, member: Uuid, from: real, to: real) {
    e.member == member && from <= e.startedAt < to && e.endedAt.Some?
  }

  function InRange(member: Uuid, from: real, to: real): Entry -> bool {
    (e: Entry) => Counts(e, member, from, to)
  }

  function OneEntry(e: Entry): int { 1 }

  function ChoreOf(e: Entry): Uuid { e.chore }

  function SecondsIn(member: Uuid, from: real, to: real): Entry -> int {
    (e: Entry) => if Counts(e, member, from, to) then Seconds(e) else 0
  }

  datatype ChoreRow = ChoreRow(chore: Uuid, count: int, seconds: int)

  function RowChore(r: ChoreRow): Uuid { r.chore }

  function RowCount(r: ChoreRow): int { r.count }

  function RowSeconds(r: ChoreRow): int { r.seconds }

  datatype Summary = Summary(count: int, seconds: int, byChore: seq<ChoreRow>)

  /** The grouped query, in any order of its groups. */
  ghost predicate IsByChore(rows: seq<ChoreRow>, entries: seq<Entry>) {
    && Groups(rows, RowChore, RowCount, entries, ChoreOf, OneEntry)
    && Groups(rows, RowChore, RowSeconds, entries, ChoreOf, Seconds)
  }

  /** The totals are read first; the breakdown comes from a second statement and sees the table as it is `later`. */
  ghost predicate IsSummary(r: Summary, entries: seq<Entry>, later: seq<Entry>, member: Uuid, from: real, to: real) {
    var selected := Filter(entries, InRange(member, from, to));
    && r.count == |selected| && r.seconds == SumBy(selected, Seconds)
    && IsByChore(r.byChore, Filter(later, InRange(member, from, to)))
  }

  function Any(chore: Uuid): bool { true }

  function CountedIn(member: Uuid, from: real, to: real): Entry -> int {
    (e: Entry) => if Counts(e, member, from, to) then 1 else 0
  }

  lemma TotalsOf(entries: seq<Entry>, member: Uuid, from: real, to: real)
    ensures var selected := Filter(entries, InRange(member, from, to));
      && SumBy(selected, Seconds) == SumBy(entries, SecondsIn(member, from, to))
      && |selected| == SumBy(selected, OneEntry) == SumBy(entries, CountedIn(member, from, to))
  {
    SumOfOnes(Filter(entries, InRange(member, from, to)), OneEntry);
    SumByFilter(entries, InRange(member, from, to), Seconds, SecondsIn(member, from, to));
    SumByFilter(entries, InRange(member, from, to), OneEntry, CountedIn(member, from, to));
  }

  /**
   The totals are those of the first table, and the breakdown by chore adds up to those of the second; so
   the two agree exactly when nothing that counts was recorded in between.
   */
  lemma BreakdownAddsUp(r: Summary, entries: seq<Entry>, later: seq<Entry>, member: Uuid, from: real, to: real)
    requires IsSummary(r, entries, later, member, from, to)
    ensures r.seconds == SumBy(entries, SecondsIn(member, from, to)) && r.count == SumBy(entries, CountedIn(member, from, to))
    ensures SumBy(r.byChore, RowSeconds) == SumBy(later, SecondsIn(member, from, to))
    ensures SumBy(r.byChore, RowCount) == SumBy(later, CountedIn(member, from, to))
    ensures entries == later ==> SumBy(r.byChore, RowSeconds) == r.seconds && SumBy(r.byChore, RowCount) == r.count
  {
    var selected := Filter(later, InRange(member, from, to));
    GroupedSumWhere(r.byChore, RowChore, RowSeconds, selected, ChoreOf, Seconds, Any, RowSeconds, Seconds);
    GroupedSumWhere(r.byChore, RowChore, RowCount, selected, ChoreOf, OneEntry, Any, RowCount, OneEntry);
    TotalsOf(later, member, from, to);
    TotalsOf(entries, member, from, to);
  }

  lemma StepOnlyAdds(s: State, a: Action, member: Uuid, from: real, to: real)
    ensures SumBy(Step(s, a).entries, SecondsIn(member, from, to)) >= SumBy(s.entries, SecondsIn(member, from, to))
    ensures SumBy(Step(s, a).entries, CountedIn(member, from, to)) >= SumBy(s.entries, CountedIn(member, from, to))
  {
    var after := Step(s, a).entries;
    if |after| > |s.entries| {
      assert after == s.entries + [after[|s.entries|]];
      SumByAppend(s.entries, after[|s.entries|], SecondsIn(member, from, to));
      SumByAppend(s.entries, after[|s.entries|], CountedIn(member, from, to));
    } else if a.Stop? && LatestOpen(s.entries, a.chore, a.member).Some? {
      var k := LatestOpen(s.entries, a.chore, a.member).value;
      SumByUpdate(s.entries, k, s.entries[k].(endedAt := Some(a.now)), SecondsIn(member, from, to));
      SumByUpdate(s.entries, k, s.entries[k].(endedAt := Some(a.now)), CountedIn(member, from, to));
    }
  }

  /** Whatever timer calls come between the two reads, the breakdown never falls short of the totals. */
  lemma {:induction false} BreakdownNeverFallsShort(r: Summary, s: State, actions: seq<Action>, member: Uuid, from: real, to: real)
    requires IsSummary(r, s.entries, Run(s, actions).entries, member, from, to)
    ensures SumBy(r.byChore, RowSeconds) >= r.seconds && SumBy(r.byChore, RowCount) >= r.count
  {
    BreakdownAddsUp(r, s.entries, Run(s, actions).entries, member, from, to);
    RunOnlyAdds(s, actions, member, from, to);
  }

  lemma {:induction false} RunOnlyAdds(s: State, actions: seq<Action>, member: Uuid, from: real, to: real)
    ensures SumBy(Run(s, actions).entries, SecondsIn(member, from, to)) >= SumBy(s.entries, SecondsIn(member, from, to))
    ensures SumBy(Run(s, actions).entries, CountedIn(member, from, to)) >= SumBy(s.entries, CountedIn(member, from, to))
  {
    if actions != [] {
      RunOnlyAdds(s, actions[..|actions| - 1], member, from, to);
      StepOnlyAdds(Run(s, actions[..|actions| - 1]), actions[|actions| - 1], member, from, to);
    }
  }

  /** Half-open windows tile: the totals of adjacent ranges add up to the totals of the whole range. */
  lemma AdjacentRangesAddUp(entries: seq<Entry>, member: Uuid, from: real, mid: real, to: real)
    requires from <= mid <= to
    ensures SumBy(entries, SecondsIn(member, from, to))
         == SumBy(entries, SecondsIn(member, from, mid)) + SumBy(entries, SecondsIn(member, mid, to))
    ensures SumBy(entries, CountedIn(member, from, to))
         == SumBy(entries, CountedIn(member, from, mid)) + SumBy(entries, CountedIn(member, mid, to))
  {
    SumByPlus(entries, SecondsIn(member, from, mid), SecondsIn(member, mid, to), SecondsIn(member, from, to));
    SumByPlus(entries, CountedIn(member, from, mid), CountedIn(member, mid, to), CountedIn(member, from, to));
  }

  // ---- The service ----

  class TimerService {
    var entries: seq<Entry>

    constructor ()
      ensures entries == []
    {
      entries := [];
    }

    method Start(chore: Uuid, member: Uuid, id: Uuid, now: real) returns (outcome: Outcome)
      modifies this
      ensures (entries, outcome) == StartTimer(old(entries), chore, member, id, now)
    {
      if HasOpen(entries, chore, member) {
        return AlreadyRunning;
      }
      var e := Entry(id, chore, member, now, None, Timer);
      entries := entries + [e];
      outcome := Opened(e);
    }

    method Stop(chore: Uuid, member: Uuid, now: real) returns (outcome: Outcome)
      modifies this
      ensures (entries, outcome) == StopTimer(old(entries), chore, member, now)
    {
      var found := LatestOpen(entries, chore, member);
      if found.None? {
        return NoOpenTimer;
      }
      var e := entries[found.value].(endedAt := Some(now));
      entries := entries[found.value := e];
      outcome := Closed(e);
    }

    method RecordManualEntry(chore: Uuid, member: Uuid, id: Uuid, from: real, to: real) returns (outcome: Outcome)
      modifies this
      ensures (entries, outcome) == RecordEntry(old(entries), chore, member, id, from, to)
    {
      if !(from < to) {
        return InvalidRange;
      }
      var e := Entry(id, chore, member, from, Some(to), Manual);
      entries := entries + [e];
      outcome := Recorded(e);
    }

    /** `rows` is the result of the grouped query, which finds the table as it is `later`. */
    method GetSummary(member: Uuid, from: real, to: real, rows: seq<ChoreRow>, ghost later: seq<Entry>) returns (r: Summary)
      requires IsByChore(rows, Filter(later, InRange(member, from, to)))
      ensures IsSummary(r, entries, later, member, from, to)
    {
      var selected := Filter(entries, InRange(member, from, to));
      var byChore: array<ChoreRow> := new ChoreRow[|rows|](i requires 0 <= i < |rows| => ChoreRow(0, 0, 0));
      for i := 0 to |rows|
        invariant forall k :: 0 <= k < i ==> byChore[k] == rows[k]
      {
        byChore[i] := ChoreRow(rows[i].chore, rows[i].count, rows[i].seconds);
      }
      assert byChore[..] == rows;
      r := Summary(|selected|, SumBy(selected, Seconds), byChore[..]);
    }
  }
}

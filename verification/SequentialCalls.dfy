/**
 The interleaved machines against the calls they are made of: a completion, an undo or a week closing whose
 statements nothing comes between does to the tables exactly what the whole call does.
 */
module SequentialCalls {
  import opened Common
  import opened Seqs
  import opened Ledger
  import opened Chores
  import opened WeekEnd
  import P = ChoreProtocol
  import ChoreRaces
  import B = BatchProtocol

  /** The machine's tables are those of `t`. */
  predicate Shows(s: P.State, t: Tables) {
    s.completions == t.completions && s.ledger == t.ledger
  }

  // ---- Complete ----

  lemma InsertsThrough(s: P.State, p: nat, c: Chore, price: int, date: int, id: Uuid)
    requires p < |s.calls| && s.calls[p] == P.Insert(c, price, date, id)
    requires Find(s.completions, OnDay(c.id, date)).None?
    ensures var s', row := P.DoAdvance(s, p), NewRow(c, date, price, id);
      && s'.completions == s.completions + [row] && s'.ledger == s.ledger
      && s'.calls == s.calls[p := P.Inserted(c, price, date, id)]
  {
  }

  lemma PaysThrough(s: P.State, p: nat, c: Chore, price: int, row: Completion)
    requires p < |s.calls| && s.calls[p] == P.Pay(row, c, price)
    ensures var s', refused := P.DoAdvance(s, p), Violates(s.ledger, Payment(row, price));
      && s'.completions == s.completions
      && s'.ledger == (if refused then s.ledger else s.ledger + [Payment(row, price)])
      && s'.calls == s.calls[p := if refused then P.Stopped else P.Completed(row, c, price)]
  {
  }

  lemma CompleteAtFreeSlot(t: Tables, household: Uuid, c: Chore, price: int, date: int, id: Uuid)
    requires Find(t.chores, ChoreIn(c.id, household)) == Some(c) && Price(t, c) == Some(price)
    requires Find(t.completions, OnDay(c.id, date)).None?
    ensures var (t', outcome) := Complete(t, household, c.id, date, id);
      var row := NewRow(c, date, price, id);
      var pays, refused := c.autoApprove && price > 0, Violates(t.ledger, Payment(row, price));
      && t'.completions == t.completions + [row]
      && t'.ledger == (if pays && !refused then t.ledger + [Payment(row, price)] else t.ledger)
      && outcome == if pays && refused then Failed else Done(row)
  {
  }

  /** Inserting and paying without interruption is one call of Complete, whatever it answers. */
  lemma CompleteRunsThrough(s: P.State, t: Tables, household: Uuid, c: Chore, price: int, date: int, id: Uuid)
    requires Shows(s, t) && id !in s.used
    requires Find(t.chores, ChoreIn(c.id, household)) == Some(c) && Price(t, c) == Some(price)
    ensures var n := |s.calls|;
      var s' := P.Run(s, [P.StartComplete(c, price, date, id), P.Advance(n), P.Advance(n)]);
      var (t', outcome) := Complete(t, household, c.id, date, id);
      && Shows(s', t') && |s'.calls| == n + 1
      && (s'.calls[n] == P.Completed(NewRow(c, date, price, id), c, price)
          <==> outcome == Done(NewRow(c, date, price, id)) && t'.completions != t.completions)
  {
    var n, row := |s.calls|, NewRow(c, date, price, id);
    ChoreRaces.RunOfThree(s, P.StartComplete(c, price, date, id), P.Advance(n), P.Advance(n));
    var started := P.Step(s, P.StartComplete(c, price, date, id));
    assert started.calls[n] == P.Insert(c, price, date, id);
    if Find(s.completions, OnDay(c.id, date)).None? {
      InsertsThrough(started, n, c, price, date, id);
      CompleteAtFreeSlot(t, household, c, price, date, id);
      if c.autoApprove && price > 0 {
        PaysThrough(P.DoAdvance(started, n), n, c, price, row);
      }
    }
  }

  // ---- Undo ----

  lemma RunOfFour(s: P.State, a: P.Action, b: P.Action, c: P.Action, d: P.Action)
    ensures P.Run(s, [a, b, c, d]) == P.Step(P.Step(P.Step(P.Step(s, a), b), c), d)
  {
    ChoreRaces.RunOfThree(s, a, b, c);
    assert [a, b, c, d][..3] == [a, b, c];
  }

  lemma DeletesFound(s: P.State, t: Tables, p: nat, row: Completion)
    requires p < |s.calls| && s.calls[p] == P.Delete(row) && s.completions == t.completions
    requires Find(t.completions, OnDay(row.chore, row.date)) == Some(row) && !row.closed
    ensures var s' := P.DoAdvance(s, p);
      && s'.completions == Filter(t.completions, Kept(row.chore, row.date)) && s'.ledger == s.ledger
      && s'.calls == s.calls[p := P.UndoDone(row, Some(row))]
  {
  }

  /** Reading, charging and deleting without interruption is one call of Undo. */
  lemma UndoRunsThrough(s: P.State, t: Tables, chore: Uuid, date: int)
    requires Shows(s, t)
    ensures var n := |s.calls|;
      var s' := P.Run(s, [P.StartUndo(chore, date), P.Advance(n), P.Advance(n), P.Advance(n)]);
      var (t', outcome) := Undo(t, chore, date);
      Shows(s', t') && |s'.calls| == n + 1 && (s'.calls[n].UndoDone? <==> outcome == Undone)
  {
    var n := |s.calls|;
    RunOfFour(s, P.StartUndo(chore, date), P.Advance(n), P.Advance(n), P.Advance(n));
    var started := P.Step(s, P.StartUndo(chore, date));
    assert started.calls[n] == P.Read(chore, date);
    FindSpec(t.completions, OnDay(chore, date));
    var found := Find(t.completions, OnDay(chore, date));
    if found.Some? && !found.value.closed {
      ReadsOpen(started, n, chore, date, found.value);
      var read := P.DoAdvance(started, n);
      if found.value.payout > 0 {
        Charges(read, n, found.value);
        DeletesFound(P.DoAdvance(read, n), t, n, found.value);
      } else {
        DeletesFound(read, t, n, found.value);
      }
    }
  }

  lemma ReadsOpen(s: P.State, p: nat, chore: Uuid, date: int, row: Completion)
    requires p < |s.calls| && s.calls[p] == P.Read(chore, date)
    requires Find(s.completions, OnDay(chore, date)) == Some(row) && !row.closed
    ensures P.DoAdvance(s, p) == s.(calls := s.calls[p := if row.payout > 0 then P.Reverse(row) else P.Delete(row)])
  {
  }

  lemma Charges(s: P.State, p: nat, row: Completion)
    requires p < |s.calls| && s.calls[p] == P.Reverse(row)
    ensures P.DoAdvance(s, p) == s.(calls := s.calls[p := P.Delete(row)], ledger := s.ledger + [Reversal(row)])
  {
  }

  // ---- The week-end batch ----

  function Advances(b: nat, n: nat): seq<B.Action> {
    seq(n, _ => B.Advance(b))
  }

  lemma RunOneMore(w: B.State, b: nat, n: nat)
    ensures B.Run(w, Advances(b, n + 1)) == B.Step(B.Run(w, Advances(b, n)), B.Advance(b))
  {
    assert Advances(b, n + 1)[..n] == Advances(b, n);
  }

  lemma OneMoreRow(job: B.Job, k: nat)
    requires k < |job.active|
    ensures BonusRows(job.member, job.active[..k], job.week) + B.Credits(job, job.active[k])
         == BonusRows(job.member, job.active[..k + 1], job.week)
  {
    assert job.active[..k + 1] == job.active[..k] + [job.active[k]];
    FilterAppend(job.active[..k], job.active[k], EarnsBonus(job.week));
  }

  lemma OneCredit(w: B.State, b: nat, job: B.Job, k: nat, ledger: seq<Row>)
    requires b < |w.batches| && w.batches[b] == B.Crediting(job, k) && k < |job.active|
    requires w.s.ledger == ledger + BonusRows(job.member, job.active[..k], job.week)
    ensures var after := B.Step(w, B.Advance(b));
      && after.batches == w.batches[b := B.Crediting(job, k + 1)] && after.summaries == w.summaries
      && after.s == w.s.(ledger := ledger + BonusRows(job.member, job.active[..k + 1], job.week))
  {
    OneMoreRow(job, k);
    var rows := BonusRows(job.member, job.active[..k], job.week);
    assert ledger + rows + B.Credits(job, job.active[k]) == ledger + (rows + B.Credits(job, job.active[k]));
  }

  /** After `k` credits the ledger has the bonus rows of the first `k` chores. */
  lemma {:induction false} CreditsSoFar(w: B.State, b: nat, job: B.Job, k: nat)
    requires b < |w.batches| && w.batches[b] == B.Crediting(job, 0) && k <= |job.active|
    ensures var after := B.Run(w, Advances(b, k));
      && after.batches == w.batches[b := B.Crediting(job, k)] && after.summaries == w.summaries
      && after.s == w.s.(ledger := w.s.ledger + BonusRows(job.member, job.active[..k], job.week))
  {
    if k == 0 {
      assert w.s.ledger + [] == w.s.ledger;
    } else {
      CreditsSoFar(w, b, job, k - 1);
      RunOneMore(w, b, k - 1);
      OneCredit(B.Run(w, Advances(b, k - 1)), b, job, k - 1, w.s.ledger);
    }
  }

  /** The job of a batch that has just listed a week. */
  function JobOf(t: Tables, household: Uuid, member: Uuid, from: int, to: int): B.Job {
    B.Job(household, member, from, to, Active(t, household, member), Week(t, member, from, to))
  }

  lemma ClosesWhatIsCredited(w: B.State, b: nat, t: Tables, household: Uuid, member: Uuid, from: int, to: int)
    requires var job := JobOf(t, household, member, from, to);
      b < |w.batches| && w.batches[b] == B.Crediting(job, |job.active|)
    requires w.s.completions == t.completions && w.summaries == t.summaries
    requires w.s.ledger == t.ledger + BonusRows(member, Active(t, household, member), Week(t, member, from, to))
    ensures var after, t' := B.Run(w, Advances(b, 2)), CloseWeek(t, household, member, from, to);
      && Shows(after.s, t') && after.summaries == t'.summaries
      && b < |after.batches| && after.batches[b] == B.Stored(JobOf(t, household, member, from, to))
  {
    RunOneMore(w, b, 0);
    RunOneMore(w, b, 1);
    assert B.Run(w, Advances(b, 0)) == w;
    var rows := CloseWeekShape(t, household, member, from, to);
    ClosesThenStores(w, b, JobOf(t, household, member, from, to));
  }

  lemma ClosesThenStores(w: B.State, b: nat, job: B.Job)
    requires b < |w.batches| && w.batches[b] == B.Crediting(job, |job.active|)
    ensures var after := B.Step(B.Step(w, B.Advance(b)), B.Advance(b));
      && after.s == w.s.(completions := Map(w.s.completions, Closing(job.member, job.from, job.to)))
      && after.summaries == w.summaries[(job.member, job.from)
           := SummaryOf(w.summaries, job.household, job.member, job.from, job.active, job.week)]
      && b < |after.batches| && after.batches[b] == B.Stored(job)
  {
    B.Closes(w, b, job);
  }

  function ListActions(b: nat, t: Tables, household: Uuid, member: Uuid, from: int, to: int): seq<B.Action> {
    [B.Begin(household, member, from, to, Active(t, household, member)), B.Advance(b)]
  }

  /** Listing, crediting, closing and storing without interruption is one member's week of the batch. */
  lemma BatchRunsThrough(w: B.State, t: Tables, household: Uuid, member: Uuid, from: int, to: int)
    requires Shows(w.s, t) && w.summaries == t.summaries
    ensures var b, n := |w.batches|, |Active(t, household, member)|;
      var after := B.Run(w, ListActions(b, t, household, member, from, to) + Advances(b, n) + Advances(b, 2));
      var t' := CloseWeek(t, household, member, from, to);
      && Shows(after.s, t') && after.summaries == t'.summaries
      && b < |after.batches| && after.batches[b].Stored?
  {
    var b, job := |w.batches|, JobOf(t, household, member, from, to);
    var n, list := |job.active|, ListActions(b, t, household, member, from, to);
    B.RunOfTwo(w, list[0], list[1]);
    var begun := B.Step(w, list[0]);
    var listed := B.Step(begun, list[1]);
    assert begun.batches[b] == B.Listing(household, member, from, to, job.active);
    assert listed.batches[b] == B.Crediting(job, 0) && listed.s == w.s;
    B.RunConcat(w, list, Advances(b, n));
    CreditsSoFar(listed, b, job, n);
    assert job.active[..n] == job.active;
    B.RunConcat(w, list + Advances(b, n), Advances(b, 2));
    ClosesWhatIsCredited(B.Run(listed, Advances(b, n)), b, t, household, member, from, to);
  }
}

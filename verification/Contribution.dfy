/**
 The contribution report: minutes for everybody, amounts of money only where the viewer may see the
 member's hourly rate and the rate is set.
 */
module Contribution {
  import opened Common
  import opened Seqs
  import opened WalletMath

  /** One row of the aggregate query; the rates are cents per hour. */
  datatype Row = Row(member: Uuid, minutes: int, rateMin: Option<int>, rateMax: Option<int>)

  datatype Viewer = Viewer(member: Uuid, isAdmin: bool)

  datatype Share = Share(
    member: Uuid, minutes: int, pctMinutes: real, centsMin: Option<int>, centsMax: Option<int>, pctCents: Option<real>)

  predicate CanSeeRate(v: Viewer, member: Uuid) {
    v.isAdmin || v.member == member
  }

  /** Minutes times hourly rate over sixty, truncated toward zero. */
  function CentsForMinutes(minutes: int, rate: int): int {
    Quotient(Wrap64(minutes * rate), 60)
  }

  predicate Priced(v: Viewer, r: Row) {
    CanSeeRate(v, r.member) && r.rateMin.Some? && r.rateMax.Some?
  }

  /** What a row adds to the visible total, at the middle of its rate range. */
  function Midpoint(v: Viewer): Row -> int {
    (r: Row) => if Priced(v, r) then CentsForMinutes(r.minutes, Quotient(r.rateMin.value + r.rateMax.value, 2)) else 0
  }

  function MinutesOf(r: Row): int { r.minutes }

  function ShareOf(v: Viewer, totalMinutes: int, totalMid: int): Row -> Share {
    (r: Row) =>
      Share(r.member, r.minutes,
            if totalMinutes > 0 then Percent(r.minutes, totalMinutes) else 0.0,
            if Priced(v, r) then Some(CentsForMinutes(r.minutes, r.rateMin.value)) else None,
            if Priced(v, r) then Some(CentsForMinutes(r.minutes, r.rateMax.value)) else None,
            if Priced(v, r) && totalMid > 0 then Some(Percent(Midpoint(v)(r), totalMid)) else None)
  }

  function Report(rows: seq<Row>, v: Viewer): seq<Share> {
    Map(rows, ShareOf(v, SumBy(rows, MinutesOf), SumBy(rows, Midpoint(v))))
  }

  /** Totals first, then one share per row. */
  method Contribution(rows: seq<Row>, v: Viewer) returns (out: seq<Share>)
    ensures out == Report(rows, v)
  {
    var totalMinutes, totalMid := 0, 0;
    for i := 0 to |rows|
      invariant totalMinutes == SumBy(rows[..i], MinutesOf) && totalMid == SumBy(rows[..i], Midpoint(v))
    {
      var r := rows[i];
      assert rows[..i + 1] == rows[..i] + [r];
      SumByAppend(rows[..i], r, MinutesOf);
      SumByAppend(rows[..i], r, Midpoint(v));
      totalMinutes := totalMinutes + r.minutes;
      if CanSeeRate(v, r.member) && r.rateMin.Some? && r.rateMax.Some? {
        var mid := Quotient(r.rateMin.value + r.rateMax.value, 2);
        totalMid := totalMid + CentsForMinutes(r.minutes, mid);
      }
    }
    assert rows[..|rows|] == rows;
    out := [];
    for i := 0 to |rows|
      invariant out == Map(rows[..i], ShareOf(v, totalMinutes, totalMid))
    {
      var r := rows[i];
      var share := Share(r.member, r.minutes, 0.0, None, None, None);
      if totalMinutes > 0 {
        share := share.(pctMinutes := Percent(r.minutes, totalMinutes));
      }
      if CanSeeRate(v, r.member) && r.rateMin.Some? && r.rateMax.Some? {
        share := share.(centsMin := Some(CentsForMinutes(r.minutes, r.rateMin.value)),
                        centsMax := Some(CentsForMinutes(r.minutes, r.rateMax.value)));
        if totalMid > 0 {
          var mid := Quotient(r.rateMin.value + r.rateMax.value, 2);
          share := share.(pctCents := Some(Percent(CentsForMinutes(r.minutes, mid), totalMid)));
        }
      }
      assert share == ShareOf(v, totalMinutes, totalMid)(r);
      out := out + [share];
    }
  }

  // ---- Privacy ----

  /** The same rows, except that rates of members the viewer may not see can be anything. */
  predicate LooksAlike(v: Viewer, a: Row, b: Row) {
    && a.member == b.member && a.minutes == b.minutes
    && (CanSeeRate(v, a.member) ==> a.rateMin == b.rateMin && a.rateMax == b.rateMax)
  }

  lemma {:induction false} SameTotals(a: seq<Row>, b: seq<Row>, v: Viewer)
    requires |a| == |b| && forall i :: 0 <= i < |a| ==> LooksAlike(v, a[i], b[i])
    ensures SumBy(a, MinutesOf) == SumBy(b, MinutesOf) && SumBy(a, Midpoint(v)) == SumBy(b, Midpoint(v))
  {
    if a != [] {
      assert LooksAlike(v, a[|a| - 1], b[|b| - 1]);
      SameTotals(a[..|a| - 1], b[..|b| - 1], v);
    }
  }

  /** Hidden rates have no influence on any field of the report, totals and percentages included. */
  lemma HiddenRatesDoNotShow(a: seq<Row>, b: seq<Row>, v: Viewer)
    requires |a| == |b| && forall i :: 0 <= i < |a| ==> LooksAlike(v, a[i], b[i])
    ensures Report(a, v) == Report(b, v)
  {
    SameTotals(a, b, v);
    forall i | 0 <= i < |a| ensures Report(a, v)[i] == Report(b, v)[i] {
      assert LooksAlike(v, a[i], b[i]);
    }
  }

  /** Minutes and their percentages are the same for every viewer; only visible, set rates yield cents. */
  lemma MinutesAreForEverybody(rows: seq<Row>, v: Viewer, w: Viewer, i: nat)
    requires i < |rows|
    ensures var (a, b) := (Report(rows, v)[i], Report(rows, w)[i]);
      && a.member == rows[i].member && a.minutes == rows[i].minutes
      && (a.member, a.minutes, a.pctMinutes) == (b.member, b.minutes, b.pctMinutes)
      && (SumBy(rows, MinutesOf) <= 0 ==> a.pctMinutes == 0.0)
      && (a.centsMin.Some? <==> a.centsMax.Some?)
      && (a.centsMin.Some? <==> (v.isAdmin || v.member == rows[i].member) && rows[i].rateMin.Some? && rows[i].rateMax.Some?)
      && (a.pctCents.Some? ==> a.centsMin.Some?)
  {
  }

  // ---- The range of amounts ----

  lemma SixtiethGrows(n: int, m: int)
    requires n <= m
    ensures Quotient(n, 60) <= Quotient(m, 60)
  {
  }

  lemma ProductGrows(minutes: nat, a: int, b: int)
    requires a <= b
    ensures minutes * a <= minutes * b
  {
  }

  /** While the products fit 64 bits, a higher hourly rate never yields fewer cents. */
  lemma CentsGrowWithRate(minutes: nat, a: int, b: int)
    requires a <= b && -MAX_INT64 - 1 <= minutes * a && minutes * b <= MAX_INT64
    ensures CentsForMinutes(minutes, a) <= CentsForMinutes(minutes, b)
  {
    ProductGrows(minutes, a, b);
    SixtiethGrows(minutes * a, minutes * b);
  }

  /** A visible share runs from the lower amount to the upper one, with the midpoint it is weighted by in between. */
  lemma SharesAreRanges(rows: seq<Row>, v: Viewer, i: nat)
    requires i < |rows| && Priced(v, rows[i]) && rows[i].minutes >= 0 && rows[i].rateMin.value <= rows[i].rateMax.value
    requires -MAX_INT64 - 1 <= rows[i].minutes * rows[i].rateMin.value
    requires rows[i].minutes * rows[i].rateMax.value <= MAX_INT64
    ensures var s := Report(rows, v)[i];
      s.centsMin.Some? && s.centsMax.Some? && s.centsMin.value <= Midpoint(v)(rows[i]) <= s.centsMax.value
  {
    var minutes, lo, hi := rows[i].minutes, rows[i].rateMin.value, rows[i].rateMax.value;
    var mid := Quotient(lo + hi, 2);
    ProductGrows(minutes, lo, mid);
    ProductGrows(minutes, mid, hi);
    CentsGrowWithRate(minutes, lo, mid);
    CentsGrowWithRate(minutes, mid, hi);
  }

  // ---- The amounts ----

  /** While the product fits 64 bits, an amount is the exact one, rounded toward zero by less than a cent. */
  lemma CentsAreExact(minutes: int, rate: int)
    requires -MAX_INT64 - 1 <= minutes * rate <= MAX_INT64
    ensures var exact, cents := minutes * rate, CentsForMinutes(minutes, rate);
      && (exact >= 0 ==> 0 <= exact - 60 * cents < 60)
      && (exact <= 0 ==> -60 < exact - 60 * cents <= 0)
  {
  }

  /** An hour is worth the hourly rate: both ends of a visible share of 60 minutes are the rates themselves. */
  lemma AnHourIsTheRate(rows: seq<Row>, v: Viewer, i: nat)
    requires i < |rows| && Priced(v, rows[i]) && rows[i].minutes == 60
    requires -MAX_INT64 - 1 <= 60 * rows[i].rateMin.value <= MAX_INT64 && -MAX_INT64 - 1 <= 60 * rows[i].rateMax.value <= MAX_INT64
    ensures var s := Report(rows, v)[i]; s.centsMin == rows[i].rateMin && s.centsMax == rows[i].rateMax
  {
    CentsAreExact(60, rows[i].rateMin.value);
    CentsAreExact(60, rows[i].rateMax.value);
  }

  /** Each visible share has the exact amounts at both ends of the rate range, to less than a cent. */
  lemma SharesAreExact(rows: seq<Row>, v: Viewer, i: nat)
    requires i < |rows| && Priced(v, rows[i]) && rows[i].minutes >= 0 && 0 <= rows[i].rateMin.value && 0 <= rows[i].rateMax.value
    requires rows[i].minutes * rows[i].rateMin.value <= MAX_INT64 && rows[i].minutes * rows[i].rateMax.value <= MAX_INT64
    ensures var s := Report(rows, v)[i];
      && s.centsMin.Some? && 0 <= rows[i].minutes * rows[i].rateMin.value - 60 * s.centsMin.value < 60
      && s.centsMax.Some? && 0 <= rows[i].minutes * rows[i].rateMax.value - 60 * s.centsMax.value < 60
  {
    NotNegative(rows[i].minutes, rows[i].rateMin.value);
    NotNegative(rows[i].minutes, rows[i].rateMax.value);
    CentsAreExact(rows[i].minutes, rows[i].rateMin.value);
    CentsAreExact(rows[i].minutes, rows[i].rateMax.value);
  }

  /** A visible share weighs in the total at the middle of its rates, cut off to whole cents twice. */
  lemma SharesWeighTheMiddle(rows: seq<Row>, v: Viewer, i: nat)
    requires i < |rows| && Priced(v, rows[i]) && rows[i].minutes >= 0 && 0 <= rows[i].rateMin.value && 0 <= rows[i].rateMax.value
    requires rows[i].minutes * ((rows[i].rateMin.value + rows[i].rateMax.value) / 2) <= MAX_INT64
    ensures var minutes, middle := rows[i].minutes, (rows[i].rateMin.value + rows[i].rateMax.value) / 2;
      var weight := Midpoint(v)(rows[i]);
      && 0 <= minutes * middle - 60 * weight < 60
      && (SumBy(rows, Midpoint(v)) > 0 ==>
            Report(rows, v)[i].pctCents == Some(100.0 * weight as real / SumBy(rows, Midpoint(v)) as real))
  {
    var middle := (rows[i].rateMin.value + rows[i].rateMax.value) / 2;
    NotNegative(rows[i].minutes, middle);
    CentsAreExact(rows[i].minutes, middle);
  }

  lemma NotNegative(a: int, b: int)
    requires a >= 0 && b >= 0
    ensures a * b >= 0
  {
  }

  // ---- Percentages ----

  function PctMinutes(s: Share): real { s.pctMinutes }

  function PctCents(s: Share): real {
    if s.pctCents.Some? then s.pctCents.value else 0.0
  }

  lemma {:induction false} SumRealByMap(rows: seq<Row>, g: Row -> Share, f: Share -> real, h: Row -> real)
    requires forall r :: r in rows ==> f(g(r)) == h(r)
    ensures SumReal(Map(rows, g), f) == SumReal(rows, h)
  {
    if rows != [] {
      var init := rows[..|rows| - 1];
      SumRealByMap(init, g, f, h);
      assert Map(rows, g)[..|rows| - 1] == Map(init, g);
    }
  }

  /** Percentages of minutes add up to a hundred when there are any. */
  lemma MinutesMakeAHundred(rows: seq<Row>, v: Viewer)
    requires SumBy(rows, MinutesOf) > 0
    ensures SumReal(Report(rows, v), PctMinutes) == 100.0
  {
    var total := SumBy(rows, MinutesOf);
    var pct := (r: Row) => Percent(r.minutes, total);
    SumRealByMap(rows, ShareOf(v, total, SumBy(rows, Midpoint(v))), PctMinutes, pct);
    PercentsMakeAHundred(rows, MinutesOf, pct);
  }

  /** Visible percentages of cents add up to a hundred when the visible total is positive, and are absent otherwise. */
  lemma CentsMakeAHundred(rows: seq<Row>, v: Viewer)
    ensures SumBy(rows, Midpoint(v)) > 0 ==> SumReal(Report(rows, v), PctCents) == 100.0
    ensures SumBy(rows, Midpoint(v)) <= 0 ==> forall s :: s in Report(rows, v) ==> s.pctCents.None?
  {
    var total := SumBy(rows, Midpoint(v));
    if total > 0 {
      var pct := (r: Row) => Percent(Midpoint(v)(r), total);
      SumRealByMap(rows, ShareOf(v, SumBy(rows, MinutesOf), total), PctCents, pct);
      PercentsMakeAHundred(rows, Midpoint(v), pct);
    }
  }
}

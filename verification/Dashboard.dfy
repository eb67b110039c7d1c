/** The equity dashboard: two groupings of the same logs, put together per member and per domain. */
module Dashboard {
  import opened Common
  import opened Seqs
  import opened Grouping

  datatype Task = Task(id: Uuid, domain: Uuid, name: string, estMinutes: int, owner: Option<Uuid>)

  /** A log of the household in the window, bounds included. */
  datatype Log = Log(member: Uuid, task: Uuid, minutes: nat, cognitive: bool)

  datatype Domain = Domain(id: Uuid, name: string, owner: Option<Uuid>)

  // ---- Query results ----

  datatype MemberSum = MemberSum(member: Uuid, total: int, cognitive: int, physical: int)

  datatype DomainSum = DomainSum(member: Uuid, domain: Uuid, total: int)

  datatype TaskCount = TaskCount(domain: Uuid, owner: Option<Uuid>, count: int)

  function MemberOf(l: Log): Uuid { l.member }

  function Minutes(l: Log): int { l.minutes }

  function CognitiveMinutes(l: Log): int { if l.cognitive then l.minutes else 0 }

  function PhysicalMinutes(l: Log): int { if !l.cognitive then l.minutes else 0 }

  function SumMember(r: MemberSum): Uuid { r.member }

  function SumTotal(r: MemberSum): int { r.total }

  function SumCognitive(r: MemberSum): int { r.cognitive }

  function SumPhysical(r: MemberSum): int { r.physical }

  /** SumMinutesByMember. */
  ghost predicate IsSumByMember(rows: seq<MemberSum>, logs: seq<Log>) {
    && Groups(rows, SumMember, SumTotal, logs, MemberOf, Minutes)
    && Groups(rows, SumMember, SumCognitive, logs, MemberOf, CognitiveMinutes)
    && Groups(rows, SumMember, SumPhysical, logs, MemberOf, PhysicalMinutes)
  }

  function HasTask(tasks: map<Uuid, Task>): Log -> bool {
    (l: Log) => l.task in tasks
  }

  function MemberAndDomain(tasks: map<Uuid, Task>): Log -> (Uuid, Uuid) {
    (l: Log) => (l.member, if l.task in tasks then tasks[l.task].domain else 0)
  }

  function DomainSumKey(r: DomainSum): (Uuid, Uuid) { (r.member, r.domain) }

  function DomainSumTotal(r: DomainSum): int { r.total }

  /** SumMinutesByMemberAndDomain: the join keeps the logs whose task exists. */
  ghost predicate IsSumByMemberAndDomain(rows: seq<DomainSum>, logs: seq<Log>, tasks: map<Uuid, Task>) {
    Groups(rows, DomainSumKey, DomainSumTotal, Filter(logs, HasTask(tasks)), MemberAndDomain(tasks), Minutes)
  }

  function DomainAndOwner(t: Task): (Uuid, Option<Uuid>) { (t.domain, t.owner) }

  function CountKey(r: TaskCount): (Uuid, Option<Uuid>) { (r.domain, r.owner) }

  function CountOf(r: TaskCount): int { r.count }

  function One(t: Task): int { 1 }

  /** CountTasksByDomain, over the household's active tasks. */
  ghost predicate IsCountByDomain(rows: seq<TaskCount>, active: seq<Task>) {
    Groups(rows, CountKey, CountOf, active, DomainAndOwner, One)
  }

  // ---- The response ----

  datatype MemberEquity = MemberEquity(
    member: Uuid, total: int, cognitive: int, physical: int, loadPct: real, loadStatus: string,
    domainsOwned: int, tasksOwned: int)

  datatype DomainSummary = DomainSummary(domain: Uuid, name: string, owner: Option<Uuid>, total: int, taskCount: int)

  datatype Response = Response(members: seq<MemberEquity>, domains: seq<DomainSummary>)

  function LoadStatus(pct: real): string {
    if pct >= 70.0 then "red" else if pct >= 60.0 then "yellow" else "green"
  }

  function LoadPct(total: int, household: int): real {
    if household > 0 then Percent(total, household) else 0.0
  }

  function CountOwner(r: TaskCount): Option<Uuid> { r.owner }

  function CountDomain(r: TaskCount): Option<Uuid> { Some(r.domain) }

  function DomainOwner(d: Domain): Option<Uuid> { d.owner }

  function OneDomain(d: Domain): int { 1 }

  function DomainSumDomain(r: DomainSum): Option<Uuid> { Some(r.domain) }

  function Entry(timeSums: seq<MemberSum>, taskCounts: seq<TaskCount>, domains: seq<Domain>): MemberSum -> MemberEquity {
    (r: MemberSum) =>
      var pct := LoadPct(r.total, SumBy(timeSums, SumTotal));
      MemberEquity(r.member, r.total, r.cognitive, r.physical, pct, LoadStatus(pct),
                   SumBy(domains, Restrict(DomainOwner, Some(r.member), OneDomain)),
                   SumBy(taskCounts, Restrict(CountOwner, Some(r.member), CountOf)))
  }

  function DomainEntry(domainSums: seq<DomainSum>, taskCounts: seq<TaskCount>): Domain -> DomainSummary {
    (d: Domain) => DomainSummary(d.id, d.name, d.owner,
                                 SumBy(domainSums, Restrict(DomainSumDomain, Some(d.id), DomainSumTotal)),
                                 SumBy(taskCounts, Restrict(CountDomain, Some(d.id), CountOf)))
  }

  function EntryMember(e: MemberEquity): Uuid { e.member }

  function IdKey(e: MemberEquity): real { e.member as real }

  /** One entry per row, in order of member id, and one per domain, in the order of the list. */
  ghost predicate IsDashboard(
    r: Response, timeSums: seq<MemberSum>, domainSums: seq<DomainSum>, taskCounts: seq<TaskCount>, domains: seq<Domain>)
  {
    var entry := Entry(timeSums, taskCounts, domains);
    && (forall i, j :: 0 <= i < j < |r.members| ==> r.members[i].member < r.members[j].member)
    && (forall e :: e in r.members ==> exists s :: s in timeSums && e == entry(s))
    && (forall s :: s in timeSums ==> entry(s) in r.members)
    && r.domains == Map(domains, DomainEntry(domainSums, taskCounts))
  }

  // ---- The computation ----

  function Count(counts: map<Uuid, int>, k: Uuid): int {
    if k in counts then counts[k] else 0
  }

  ghost predicate Tallies<R>(counts: map<Uuid, int>, rows: seq<R>, key: R -> Option<Uuid>, value: R -> int) {
    forall k: Uuid :: Count(counts, k) == SumBy(rows, Restrict(key, Some(k), value))
  }

  /** Adds each row to the count of its key; a row without a key is skipped. */
  method Tally<R>(rows: seq<R>, key: R -> Option<Uuid>, value: R -> int) returns (counts: map<Uuid, int>)
    ensures Tallies(counts, rows, key, value)
  {
    counts := map[];
    for i := 0 to |rows|
      invariant Tallies(counts, rows[..i], key, value)
    {
      var r := rows[i];
      ghost var before := counts;
      if key(r).Some? {
        counts := counts[key(r).value := Count(counts, key(r).value) + value(r)];
      }
      forall k: Uuid ensures Count(counts, k) == SumBy(rows[..i + 1], Restrict(key, Some(k), value)) {
        assert Count(before, k) == SumBy(rows[..i], Restrict(key, Some(k), value));
        assert rows[..i + 1] == rows[..i] + [r];
        SumByAppend(rows[..i], r, Restrict(key, Some(k), value));
      }
    }
    assert rows[..|rows|] == rows;
  }

  ghost predicate Indexes(stats: map<Uuid, MemberSum>, rows: seq<MemberSum>) {
    && (forall m :: m in stats ==> stats[m] in rows && stats[m].member == m)
    && (forall r :: r in rows ==> r.member in stats)
  }

  method Index(rows: seq<MemberSum>) returns (stats: map<Uuid, MemberSum>)
    ensures Indexes(stats, rows)
  {
    stats := map[];
    for i := 0 to |rows|
      invariant Indexes(stats, rows[..i])
    {
      assert rows[..i + 1] == rows[..i] + [rows[i]];
      stats := stats[rows[i].member := rows[i]];
    }
    assert rows[..|rows|] == rows;
  }

  function TotalAmong(members: set<Uuid>): MemberSum -> int {
    (r: MemberSum) => if r.member in members then r.total else 0
  }

  /** The household total, adding the members in whatever order the map yields them. */
  method TotalMinutes(stats: map<Uuid, MemberSum>, ghost rows: seq<MemberSum>) returns (total: int)
    requires DistinctBy(rows, SumMember) && Indexes(stats, rows)
    ensures total == SumBy(rows, SumTotal)
  {
    total := 0;
    var left := stats.Keys;
    SumByZero(rows, TotalAmong({}));
    assert stats.Keys - left == {};
    while left != {}
      invariant left <= stats.Keys
      invariant total == SumBy(rows, TotalAmong(stats.Keys - left))
    {
      var m :| m in left;
      ghost var done := stats.Keys - left;
      SumAtKey(rows, SumMember, SumTotal, stats[m]);
      SumByPlus(rows, TotalAmong(done), Restrict(SumMember, m, SumTotal), TotalAmong(done + {m}));
      assert stats.Keys - (left - {m}) == done + {m};
      total := total + stats[m].total;
      left := left - {m};
    }
    SumByEqual(rows, TotalAmong(stats.Keys - left), SumTotal);
  }

  /** One entry per member, in the map's order, then sorted by id. */
  method MemberEntries(stats: map<Uuid, MemberSum>, household: int, domainsOwned: map<Uuid, int>, tasksOwned: map<Uuid, int>)
    returns (members: seq<MemberEquity>)
    requires forall m :: m in stats ==> stats[m].member == m
    ensures forall i, j :: 0 <= i < j < |members| ==> members[i].member < members[j].member
    ensures forall e :: e in members <==>
      e.member in stats &&
      var pct := LoadPct(stats[e.member].total, household);
      e == MemberEquity(e.member, stats[e.member].total, stats[e.member].cognitive, stats[e.member].physical, pct,
                        LoadStatus(pct), Count(domainsOwned, e.member), Count(tasksOwned, e.member))
  {
    var out: seq<MemberEquity> := [];
    var left := stats.Keys;
    while left != {}
      invariant left <= stats.Keys
      invariant forall e :: e in out <==>
        e.member in stats.Keys - left &&
        var pct := LoadPct(stats[e.member].total, household);
        e == MemberEquity(e.member, stats[e.member].total, stats[e.member].cognitive, stats[e.member].physical, pct,
                          LoadStatus(pct), Count(domainsOwned, e.member), Count(tasksOwned, e.member))
      invariant DistinctBy(out, EntryMember)
    {
      var m :| m in left;
      var loadPct := LoadPct(stats[m].total, household);
      out := out + [MemberEquity(m, stats[m].total, stats[m].cognitive, stats[m].physical, loadPct,
                                 LoadStatus(loadPct), Count(domainsOwned, m), Count(tasksOwned, m))];
      left := left - {m};
    }
    members := Sort(out, IdKey);
    SortedStrictly(out, members);
  }

  lemma SortedStrictly(out: seq<MemberEquity>, members: seq<MemberEquity>)
    requires multiset(members) == multiset(out) && Ascending(members, IdKey)
    requires DistinctBy(out, EntryMember)
    ensures forall i, j :: 0 <= i < j < |members| ==> members[i].member < members[j].member
    ensures forall e :: e in members <==> e in out
  {
    assert forall e :: e in members <==> e in multiset(members);
    assert forall e :: e in out <==> e in multiset(out);
    PermutationIsDistinct(out, members, EntryMember);
    forall i, j | 0 <= i < j < |members| ensures members[i].member < members[j].member {
      assert IdKey(members[i]) <= IdKey(members[j]);
      assert EntryMember(members[i]) != EntryMember(members[j]);
    }
  }

  /** The dashboard of the given query results. */
  method GetDashboard(
    timeSums: seq<MemberSum>, domainSums: seq<DomainSum>, taskCounts: seq<TaskCount>, domains: seq<Domain>)
    returns (r: Response)
    requires DistinctBy(timeSums, SumMember)
    ensures IsDashboard(r, timeSums, domainSums, taskCounts, domains)
  {
    var stats := Index(timeSums);
    var tasksOwned := Tally(taskCounts, CountOwner, CountOf);
    var domainsOwned := Tally(domains, DomainOwner, OneDomain);
    var household := TotalMinutes(stats, timeSums);
    var members := MemberEntries(stats, household, domainsOwned, tasksOwned);
    var domainMinutes := Tally(domainSums, DomainSumDomain, DomainSumTotal);
    var domainTasks := Tally(taskCounts, CountDomain, CountOf);
    var list: seq<DomainSummary> := [];
    for i := 0 to |domains|
      invariant list == Map(domains[..i], DomainEntry(domainSums, taskCounts))
    {
      var d := domains[i];
      list := list + [DomainSummary(d.id, d.name, d.owner, Count(domainMinutes, d.id), Count(domainTasks, d.id))];
    }
    assert domains[..|domains|] == domains;
    r := Response(members, list);
    EntriesMatch(stats, timeSums, taskCounts, domains, household, domainsOwned, tasksOwned, members);
  }

  lemma EntriesMatch(
    stats: map<Uuid, MemberSum>, timeSums: seq<MemberSum>, taskCounts: seq<TaskCount>, domains: seq<Domain>,
    household: int, domainsOwned: map<Uuid, int>, tasksOwned: map<Uuid, int>, members: seq<MemberEquity>)
    requires DistinctBy(timeSums, SumMember) && Indexes(stats, timeSums)
    requires household == SumBy(timeSums, SumTotal)
    requires Tallies(tasksOwned, taskCounts, CountOwner, CountOf)
    requires Tallies(domainsOwned, domains, DomainOwner, OneDomain)
    requires forall e :: e in members <==>
      e.member in stats &&
      var pct := LoadPct(stats[e.member].total, household);
      e == MemberEquity(e.member, stats[e.member].total, stats[e.member].cognitive, stats[e.member].physical, pct,
                        LoadStatus(pct), Count(domainsOwned, e.member), Count(tasksOwned, e.member))
    ensures var entry := Entry(timeSums, taskCounts, domains);
      && (forall e :: e in members ==> exists s :: s in timeSums && e == entry(s))
      && (forall s :: s in timeSums ==> entry(s) in members)
  {
    var entry := Entry(timeSums, taskCounts, domains);
    forall e | e in members ensures exists s :: s in timeSums && e == entry(s) {
      assert stats[e.member] in timeSums && e == entry(stats[e.member]);
    }
    forall s | s in timeSums ensures entry(s) in members {
      assert SumMember(stats[s.member]) == SumMember(s);
      assert stats[s.member] == s;
      var e := entry(s);
      assert Count(domainsOwned, e.member) == SumBy(domains, Restrict(DomainOwner, Some(e.member), OneDomain));
      assert Count(tasksOwned, e.member) == SumBy(taskCounts, Restrict(CountOwner, Some(e.member), CountOf));
    }
  }
}

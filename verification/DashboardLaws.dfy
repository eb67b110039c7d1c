/** What the dashboard's numbers add up to, although members and domains come from different groupings. */
module DashboardLaws {
  import opened Common
  import opened Seqs
  import opened Grouping
  import opened Dashboard

  function EntryTotal(e: MemberEquity): int { e.total }

  function EntryCognitive(e: MemberEquity): int { e.cognitive }

  function EntryPhysical(e: MemberEquity): int { e.physical }

  function EntryPct(e: MemberEquity): real { e.loadPct }

  function SummaryTotal(d: DomainSummary): int { d.total }

  function DomainId(d: Domain): Option<Uuid> { Some(d.id) }

  // ---- Members ----

  lemma EntriesGroupLogs(
    r: Response, timeSums: seq<MemberSum>, domainSums: seq<DomainSum>, taskCounts: seq<TaskCount>, domains: seq<Domain>,
    logs: seq<Log>, value: MemberSum -> int, entryValue: MemberEquity -> int, f: Log -> int)
    requires IsDashboard(r, timeSums, domainSums, taskCounts, domains)
    requires Groups(timeSums, SumMember, value, logs, MemberOf, f)
    requires forall s :: s in timeSums ==> entryValue(Entry(timeSums, taskCounts, domains)(s)) == value(s)
    ensures Groups(r.members, EntryMember, entryValue, logs, MemberOf, f)
  {
  }

  /** Each member who logged anything has one entry, and its three columns are sums of that member's own logs. */
  lemma EntriesAreOwnLogs(
    r: Response, timeSums: seq<MemberSum>, domainSums: seq<DomainSum>, taskCounts: seq<TaskCount>, domains: seq<Domain>,
    logs: seq<Log>)
    requires IsDashboard(r, timeSums, domainSums, taskCounts, domains) && IsSumByMember(timeSums, logs)
    ensures Groups(r.members, EntryMember, EntryTotal, logs, MemberOf, Minutes)
    ensures Groups(r.members, EntryMember, EntryCognitive, logs, MemberOf, CognitiveMinutes)
    ensures Groups(r.members, EntryMember, EntryPhysical, logs, MemberOf, PhysicalMinutes)
  {
    EntriesGroupLogs(r, timeSums, domainSums, taskCounts, domains, logs, SumTotal, EntryTotal, Minutes);
    EntriesGroupLogs(r, timeSums, domainSums, taskCounts, domains, logs, SumCognitive, EntryCognitive, CognitiveMinutes);
    EntriesGroupLogs(r, timeSums, domainSums, taskCounts, domains, logs, SumPhysical, EntryPhysical, PhysicalMinutes);
  }

  function Any(member: Uuid): bool { true }

  /** The members' totals add up to every minute logged, and each splits into cognitive and physical minutes. */
  lemma MemberTotals(
    r: Response, timeSums: seq<MemberSum>, domainSums: seq<DomainSum>, taskCounts: seq<TaskCount>, domains: seq<Domain>,
    logs: seq<Log>)
    requires IsDashboard(r, timeSums, domainSums, taskCounts, domains) && IsSumByMember(timeSums, logs)
    ensures SumBy(r.members, EntryTotal) == SumBy(timeSums, SumTotal) == SumBy(logs, Minutes)
    ensures forall e :: e in r.members ==> e.total == e.cognitive + e.physical
  {
    EntriesGroupLogs(r, timeSums, domainSums, taskCounts, domains, logs, SumTotal, EntryTotal, Minutes);
    GroupedSumWhere(r.members, EntryMember, EntryTotal, logs, MemberOf, Minutes, Any, EntryTotal, Minutes);
    GroupedSumWhere(timeSums, SumMember, SumTotal, logs, MemberOf, Minutes, Any, SumTotal, Minutes);
    forall e | e in r.members ensures e.total == e.cognitive + e.physical {
      var s :| s in timeSums && e == Entry(timeSums, taskCounts, domains)(s);
      SplitMinutes(timeSums, logs, s);
    }
  }

  lemma SplitMinutes(timeSums: seq<MemberSum>, logs: seq<Log>, s: MemberSum)
    requires IsSumByMember(timeSums, logs) && s in timeSums
    ensures s.total == s.cognitive + s.physical
  {
    assert SumTotal(s) == GroupSum(logs, MemberOf, Minutes)(s.member);
    assert SumCognitive(s) == GroupSum(logs, MemberOf, CognitiveMinutes)(s.member);
    assert SumPhysical(s) == GroupSum(logs, MemberOf, PhysicalMinutes)(s.member);
    SumByPlus(logs, Restrict(MemberOf, s.member, CognitiveMinutes), Restrict(MemberOf, s.member, PhysicalMinutes),
              Restrict(MemberOf, s.member, Minutes));
  }

  /** When anything is logged the load percentages add up to a hundred. */
  lemma LoadsMakeAHundred(
    r: Response, timeSums: seq<MemberSum>, domainSums: seq<DomainSum>, taskCounts: seq<TaskCount>, domains: seq<Domain>,
    logs: seq<Log>)
    requires IsDashboard(r, timeSums, domainSums, taskCounts, domains) && IsSumByMember(timeSums, logs)
    requires SumBy(logs, Minutes) > 0
    ensures SumReal(r.members, EntryPct) == 100.0
  {
    MemberTotals(r, timeSums, domainSums, taskCounts, domains, logs);
    forall e | e in r.members ensures EntryPct(e) == Percent(EntryTotal(e), SumBy(r.members, EntryTotal)) {
      var s :| s in timeSums && e == Entry(timeSums, taskCounts, domains)(s);
    }
    PercentsMakeAHundred(r.members, EntryTotal, EntryPct);
  }

  lemma LoadsAreNotNegative(
    r: Response, timeSums: seq<MemberSum>, domainSums: seq<DomainSum>, taskCounts: seq<TaskCount>, domains: seq<Domain>,
    logs: seq<Log>, e: MemberEquity)
    requires IsDashboard(r, timeSums, domainSums, taskCounts, domains) && IsSumByMember(timeSums, logs)
    requires e in r.members
    ensures e.loadPct >= 0.0
    ensures e.loadPct > 0.0 ==> SumBy(logs, Minutes) > 0
  {
    MemberTotals(r, timeSums, domainSums, taskCounts, domains, logs);
    var s :| s in timeSums && e == Entry(timeSums, taskCounts, domains)(s);
    assert SumTotal(s) == GroupSum(logs, MemberOf, Minutes)(s.member);
    SumByNonNegative(logs, Restrict(MemberOf, s.member, Minutes));
    if SumBy(logs, Minutes) > 0 {
      PercentNotNegative(e.total, SumBy(logs, Minutes));
    }
  }

  /** At most one member is shown yellow or red: two such loads would exceed the whole. */
  lemma AtMostOneIsOverloaded(
    r: Response, timeSums: seq<MemberSum>, domainSums: seq<DomainSum>, taskCounts: seq<TaskCount>, domains: seq<Domain>,
    logs: seq<Log>, e: MemberEquity, o: MemberEquity)
    requires IsDashboard(r, timeSums, domainSums, taskCounts, domains) && IsSumByMember(timeSums, logs)
    requires e in r.members && o in r.members && e != o && e.loadStatus != "green"
    ensures o.loadStatus == "green" && o.loadPct <= 40.0
    ensures e.loadStatus == "red" ==> o.loadPct <= 30.0
  {
    StatusIsOfLoad(r, timeSums, domainSums, taskCounts, domains, e);
    StatusIsOfLoad(r, timeSums, domainSums, taskCounts, domains, o);
    forall m | m in r.members ensures EntryPct(m) >= 0.0 {
      LoadsAreNotNegative(r, timeSums, domainSums, taskCounts, domains, logs, m);
    }
    LoadsAreNotNegative(r, timeSums, domainSums, taskCounts, domains, logs, e);
    LoadsMakeAHundred(r, timeSums, domainSums, taskCounts, domains, logs);
    TwoSummands(r.members, EntryPct, e, o);
  }

  lemma StatusIsOfLoad(
    r: Response, timeSums: seq<MemberSum>, domainSums: seq<DomainSum>, taskCounts: seq<TaskCount>, domains: seq<Domain>,
    e: MemberEquity)
    requires IsDashboard(r, timeSums, domainSums, taskCounts, domains) && e in r.members
    ensures e.loadStatus == LoadStatus(e.loadPct)
  {
  }

  lemma ShareAtLeast(own: int, all: int, bound: int)
    requires all > 0
    ensures Percent(own, all) >= bound as real <==> 100 * own >= bound * all
  {
    var p := Percent(own, all);
    assert p * all as real == own as real * 100.0;
    if p >= bound as real {
      assert p * all as real >= bound as real * all as real;
    } else {
      assert p * all as real < bound as real * all as real;
    }
  }

  lemma EntryLoad(
    r: Response, timeSums: seq<MemberSum>, domainSums: seq<DomainSum>, taskCounts: seq<TaskCount>, domains: seq<Domain>,
    logs: seq<Log>, e: MemberEquity)
    requires IsDashboard(r, timeSums, domainSums, taskCounts, domains) && IsSumByMember(timeSums, logs) && e in r.members
    ensures e.total == GroupSum(logs, MemberOf, Minutes)(e.member)
    ensures e.loadPct == LoadPct(e.total, SumBy(logs, Minutes)) && e.loadStatus == LoadStatus(e.loadPct)
  {
    MemberTotals(r, timeSums, domainSums, taskCounts, domains, logs);
    EntriesAreOwnLogs(r, timeSums, domainSums, taskCounts, domains, logs);
    var s :| s in timeSums && e == Entry(timeSums, taskCounts, domains)(s);
    assert EntryTotal(e) == GroupSum(logs, MemberOf, Minutes)(EntryMember(e));
  }

  /** Red from seventy hundredths of all minutes logged, yellow from sixty, green below; green when nothing is logged. */
  lemma ColoursAreShares(
    r: Response, timeSums: seq<MemberSum>, domainSums: seq<DomainSum>, taskCounts: seq<TaskCount>, domains: seq<Domain>,
    logs: seq<Log>, e: MemberEquity)
    requires IsDashboard(r, timeSums, domainSums, taskCounts, domains) && IsSumByMember(timeSums, logs) && e in r.members
    ensures var own, all := GroupSum(logs, MemberOf, Minutes)(e.member), SumBy(logs, Minutes);
      && (e.loadStatus == "red" <==> all > 0 && 100 * own >= 70 * all)
      && (e.loadStatus == "yellow" <==> all > 0 && 60 * all <= 100 * own < 70 * all)
      && (e.loadStatus == "green" <==> all <= 0 || 100 * own < 60 * all)
      && (all <= 0 ==> e.loadPct == 0.0)
  {
    EntryLoad(r, timeSums, domainSums, taskCounts, domains, logs, e);
    if SumBy(logs, Minutes) > 0 {
      ShareAtLeast(e.total, SumBy(logs, Minutes), 70);
      ShareAtLeast(e.total, SumBy(logs, Minutes), 60);
    }
  }

  // ---- Domains ----

  /** A log counts for the domain list when its task exists and the task's domain is listed. */
  predicate Listed(l: Log, tasks: map<Uuid, Task>, ids: seq<Option<Uuid>>) {
    l.task in tasks && Some(tasks[l.task].domain) in ids
  }

  function ListedMinutes(tasks: map<Uuid, Task>, ids: seq<Option<Uuid>>): Log -> int {
    (l: Log) => if Listed(l, tasks, ids) then l.minutes else 0
  }

  function OrphanMinutes(tasks: map<Uuid, Task>, ids: seq<Option<Uuid>>): Log -> int {
    (l: Log) => if Listed(l, tasks, ids) then 0 else l.minutes
  }

  ghost predicate OrphansAreEmpty(logs: seq<Log>, tasks: map<Uuid, Task>, ids: seq<Option<Uuid>>) {
    forall l :: l in logs && !Listed(l, tasks, ids) ==> l.minutes == 0
  }

  function KeyListed(ids: seq<Option<Uuid>>): ((Uuid, Uuid)) -> bool {
    (k: (Uuid, Uuid)) => Some(k.1) in ids
  }

  lemma DomainTotals(
    r: Response, timeSums: seq<MemberSum>, domainSums: seq<DomainSum>, taskCounts: seq<TaskCount>, domains: seq<Domain>,
    logs: seq<Log>, tasks: map<Uuid, Task>)
    requires IsDashboard(r, timeSums, domainSums, taskCounts, domains)
    requires IsSumByMemberAndDomain(domainSums, logs, tasks) && DistinctBy(domains, DomainId)
    ensures SumBy(r.domains, SummaryTotal) == SumBy(logs, ListedMinutes(tasks, Map(domains, DomainId)))
  {
    var ids := Map(domains, DomainId);
    var perDomain := GroupSum(domainSums, DomainSumDomain, DomainSumTotal);
    var ofDomain := (d: Domain) => perDomain(DomainId(d));
    SumByMap(domains, DomainEntry(domainSums, taskCounts), SummaryTotal, ofDomain);
    SumByMap(domains, DomainId, perDomain, ofDomain);
    FilterMembers(logs, HasTask(tasks));
    GroupSumsAddUp(ids, domainSums, DomainSumDomain, DomainSumTotal);
    GroupedSumWhere(domainSums, DomainSumKey, DomainSumTotal, Filter(logs, HasTask(tasks)), MemberAndDomain(tasks), Minutes,
                    KeyListed(ids), RestrictTo(DomainSumDomain, ids, DomainSumTotal), ListedMinutes(tasks, ids));
    SumByFilter(logs, HasTask(tasks), ListedMinutes(tasks, ids), ListedMinutes(tasks, ids));
  }

  /**
   Double entry. The two columns come from two statements, which may find the logs as `logs` and as
   `later`: they differ by the orphan minutes and by what was logged in between. When nothing was, they
   agree if and only if no minute was logged on a task outside the household's domain list.
   */
  lemma DoubleEntry(
    r: Response, timeSums: seq<MemberSum>, domainSums: seq<DomainSum>, taskCounts: seq<TaskCount>, domains: seq<Domain>,
    logs: seq<Log>, later: seq<Log>, tasks: map<Uuid, Task>)
    requires IsDashboard(r, timeSums, domainSums, taskCounts, domains) && IsSumByMember(timeSums, logs)
    requires IsSumByMemberAndDomain(domainSums, later, tasks) && DistinctBy(domains, DomainId)
    ensures var ids := Map(domains, DomainId);
      && SumBy(r.members, EntryTotal) + (SumBy(later, Minutes) - SumBy(logs, Minutes))
         == SumBy(r.domains, SummaryTotal) + SumBy(later, OrphanMinutes(tasks, ids))
      && (logs == later ==>
            (SumBy(r.members, EntryTotal) == SumBy(r.domains, SummaryTotal) <==> OrphansAreEmpty(logs, tasks, ids)))
  {
    var ids := Map(domains, DomainId);
    MemberTotals(r, timeSums, domainSums, taskCounts, domains, logs);
    DomainTotals(r, timeSums, domainSums, taskCounts, domains, later, tasks);
    SumByPlus(later, ListedMinutes(tasks, ids), OrphanMinutes(tasks, ids), Minutes);
    OrphansWeighNothingIff(later, tasks, ids);
  }

  lemma OrphansWeighNothingIff(logs: seq<Log>, tasks: map<Uuid, Task>, ids: seq<Option<Uuid>>)
    ensures SumBy(logs, OrphanMinutes(tasks, ids)) == 0 <==> OrphansAreEmpty(logs, tasks, ids)
  {
    var orphan := OrphanMinutes(tasks, ids);
    SumByNonNegative(logs, orphan);
    if SumBy(logs, orphan) == 0 {
      forall l | l in logs && !Listed(l, tasks, ids) ensures l.minutes == 0 {
        assert 0 <= orphan(l) <= SumBy(logs, orphan);
      }
    } else if OrphansAreEmpty(logs, tasks, ids) {
      SumByZero(logs, orphan);
    }
  }

  // ---- A dashboard whose columns differ ----

  const STRAY_LOG := Log(1, 5, 30, true)
  const STRAY_TASKS := map[5 := Task(5, 7, "laundry", 30, None)]
  const STRAY_SUMS := [MemberSum(1, 30, 30, 0)]
  const STRAY_DOMAIN_SUMS := [DomainSum(1, 7, 30)]
  const LISTED := [Domain(8, "kitchen", None)]

  lemma StraySums()
    ensures IsSumByMember(STRAY_SUMS, [STRAY_LOG])
    ensures IsSumByMemberAndDomain(STRAY_DOMAIN_SUMS, [STRAY_LOG], STRAY_TASKS)
  {
    SumByOne(STRAY_LOG, Restrict(MemberOf, 1, Minutes));
    SumByOne(STRAY_LOG, Restrict(MemberOf, 1, CognitiveMinutes));
    SumByOne(STRAY_LOG, Restrict(MemberOf, 1, PhysicalMinutes));
    assert Filter([STRAY_LOG], HasTask(STRAY_TASKS)) == [STRAY_LOG] by {
      assert [STRAY_LOG][..0] == [];
    }
    SumByOne(STRAY_LOG, Restrict(MemberAndDomain(STRAY_TASKS), (1, 7), Minutes));
    assert STRAY_SUMS[0] in STRAY_SUMS && STRAY_DOMAIN_SUMS[0] in STRAY_DOMAIN_SUMS;
    assert MemberAndDomain(STRAY_TASKS)(STRAY_LOG) == (1, 7) == DomainSumKey(STRAY_DOMAIN_SUMS[0]);
  }

  /** Half an hour on a task whose domain is not in the list: the member has it, the domains do not. */
  lemma StrayMinutesShow() returns (r: Response)
    ensures IsDashboard(r, STRAY_SUMS, STRAY_DOMAIN_SUMS, [], LISTED)
    ensures SumBy(r.members, EntryTotal) == 30 && SumBy(r.domains, SummaryTotal) == 0
  {
    var domainEntry := DomainEntry(STRAY_DOMAIN_SUMS, []);
    r := Response([Entry(STRAY_SUMS, [], LISTED)(STRAY_SUMS[0])], Map(LISTED, domainEntry));
    assert r.members[0] in r.members && STRAY_SUMS[0] in STRAY_SUMS;
    StraySums();
    MemberTotals(r, STRAY_SUMS, STRAY_DOMAIN_SUMS, [], LISTED, [STRAY_LOG]);
    SumByOne(STRAY_LOG, Minutes);
    SumByOne(STRAY_DOMAIN_SUMS[0], Restrict(DomainSumDomain, Some(8), DomainSumTotal));
    assert r.domains == [domainEntry(LISTED[0])];
    SumByOne(domainEntry(LISTED[0]), SummaryTotal);
  }

  // ---- Ownership ----

  function OwnedBy(member: Uuid): Task -> bool {
    (t: Task) => t.owner == Some(member)
  }

  function InDomain(domain: Uuid): Task -> bool {
    (t: Task) => t.domain == domain
  }

  function OwnerIs(owner: Option<Uuid>): ((Uuid, Option<Uuid>)) -> bool {
    (k: (Uuid, Option<Uuid>)) => k.1 == owner
  }

  function DomainIs(domain: Uuid): ((Uuid, Option<Uuid>)) -> bool {
    (k: (Uuid, Option<Uuid>)) => k.0 == domain
  }

  function OneIf(p: Task -> bool): Task -> int {
    (t: Task) => if p(t) then 1 else 0
  }

  /** The counts shown are the numbers of active tasks a member owns and a domain holds. */
  lemma CountsAreTasks(
    r: Response, timeSums: seq<MemberSum>, domainSums: seq<DomainSum>, taskCounts: seq<TaskCount>, domains: seq<Domain>,
    active: seq<Task>)
    requires IsDashboard(r, timeSums, domainSums, taskCounts, domains) && IsCountByDomain(taskCounts, active)
    ensures forall e :: e in r.members ==> e.tasksOwned == |Filter(active, OwnedBy(e.member))|
    ensures forall d :: d in r.domains ==> d.taskCount == |Filter(active, InDomain(d.domain))|
  {
    forall e | e in r.members ensures e.tasksOwned == |Filter(active, OwnedBy(e.member))| {
      var s :| s in timeSums && e == Entry(timeSums, taskCounts, domains)(s);
      CountWhere(taskCounts, active, OwnerIs(Some(e.member)), Restrict(CountOwner, Some(e.member), CountOf), OwnedBy(e.member));
    }
    forall d | d in r.domains ensures d.taskCount == |Filter(active, InDomain(d.domain))| {
      CountWhere(taskCounts, active, DomainIs(d.domain), Restrict(CountDomain, Some(d.domain), CountOf), InDomain(d.domain));
    }
  }

  function OwnsDomain(member: Uuid): Domain -> bool {
    (d: Domain) => d.owner == Some(member)
  }

  /** Members are shown with the number of listed domains they own, and domains as they are listed. */
  lemma DomainsAreAsListed(
    r: Response, timeSums: seq<MemberSum>, domainSums: seq<DomainSum>, taskCounts: seq<TaskCount>, domains: seq<Domain>)
    requires IsDashboard(r, timeSums, domainSums, taskCounts, domains)
    ensures forall e :: e in r.members ==> e.domainsOwned == |Filter(domains, OwnsDomain(e.member))|
    ensures |r.domains| == |domains| && forall i :: 0 <= i < |domains| ==>
      r.domains[i].domain == domains[i].id && r.domains[i].name == domains[i].name && r.domains[i].owner == domains[i].owner
  {
    forall e | e in r.members ensures e.domainsOwned == |Filter(domains, OwnsDomain(e.member))| {
      var s :| s in timeSums && e == Entry(timeSums, taskCounts, domains)(s);
      forall d | d in domains
        ensures Restrict(DomainOwner, Some(e.member), OneDomain)(d) == if OwnsDomain(e.member)(d) then OneDomain(d) else 0
      {
        assert DomainOwner(d) == d.owner;
      }
      SumByFilter(domains, OwnsDomain(e.member), OneDomain, Restrict(DomainOwner, Some(e.member), OneDomain));
      SumOfOnes(Filter(domains, OwnsDomain(e.member)), OneDomain);
    }
  }

  lemma CountWhere(taskCounts: seq<TaskCount>, active: seq<Task>, p: ((Uuid, Option<Uuid>)) -> bool, g: TaskCount -> int, q: Task -> bool)
    requires IsCountByDomain(taskCounts, active)
    requires forall r :: r in taskCounts ==> g(r) == if p(CountKey(r)) then r.count else 0
    requires forall t :: t in active ==> q(t) == p(DomainAndOwner(t))
    ensures SumBy(taskCounts, g) == |Filter(active, q)|
  {
    GroupedSumWhere(taskCounts, CountKey, CountOf, active, DomainAndOwner, One, p, g, OneIf(q));
    SumByFilter(active, q, One, OneIf(q));
    SumOfOnes(Filter(active, q), One);
  }
}

/** Rebalance suggestions: the longest tasks of the member who carries more than 55 percent of the load. */
module Rebalance {
  import opened Common
  import opened Seqs
  import opened Grouping
  import opened Dashboard
  import opened DashboardLaws

  datatype Suggestion = Suggestion(from: Uuid, to: Uuid, task: Uuid, taskName: string, domainName: string, estMinutes: int)

  function NameOf(domains: seq<Domain>, id: Uuid): string {
    if domains == [] then ""
    else if domains[|domains| - 1].id == id then domains[|domains| - 1].name
    else NameOf(domains[..|domains| - 1], id)
  }

  function Suggest(from: Uuid, to: Uuid, domains: seq<Domain>): Task -> Suggestion {
    (t: Task) => Suggestion(from, to, t.id, t.name, NameOf(domains, t.domain), t.estMinutes)
  }

  ghost predicate Heaviest(e: MemberEquity, members: seq<MemberEquity>) {
    e in members && forall o :: o in members ==> o.loadPct <= e.loadPct
  }

  ghost predicate Lightest(e: MemberEquity, members: seq<MemberEquity>) {
    e in members && forall o :: o in members ==> e.loadPct <= o.loadPct
  }

  function LongestFirst(t: Task): real { -(t.estMinutes as real) }

  function HeaviestFirst(e: MemberEquity): real { -e.loadPct }

  function Two(n: nat): nat { if n < 2 then n else 2 }

  /** The first tasks of some longest-first order of what `from` owns. */
  ghost predicate TopTasks(order: seq<Task>, active: seq<Task>, from: Uuid) {
    multiset(order) == multiset(Filter(active, OwnedBy(from))) && Ascending(order, LongestFirst)
  }

  ghost predicate Picks(s: seq<Suggestion>, order: seq<Task>, from: Uuid, to: Uuid, domains: seq<Domain>) {
    s == Map(order[..Two(|order|)], Suggest(from, to, domains))
  }

  ghost predicate IsRebalance(s: seq<Suggestion>, members: seq<MemberEquity>, active: seq<Task>, domains: seq<Domain>) {
    if |members| < 2 || forall e :: e in members ==> e.loadPct <= 55.0 then s == []
    else exists most, least, order ::
      && Heaviest(most, members) && Lightest(least, members) && most.member != least.member
      && TopTasks(order, active, most.member)
      && Picks(s, order, most.member, least.member, domains)
  }

  // ---- The computation ----

  method DomainNames(domains: seq<Domain>) returns (names: map<Uuid, string>)
    ensures forall k: Uuid :: (if k in names then names[k] else "") == NameOf(domains, k)
  {
    names := map[];
    for i := 0 to |domains|
      invariant forall k: Uuid :: (if k in names then names[k] else "") == NameOf(domains[..i], k)
    {
      assert domains[..i + 1][..i] == domains[..i];
      names := names[domains[i].id := domains[i].name];
    }
    assert domains[..|domains|] == domains;
  }

  method OwnedTasks(active: seq<Task>, member: Uuid) returns (candidates: seq<Task>)
    ensures candidates == Filter(active, OwnedBy(member))
  {
    candidates := [];
    for i := 0 to |active|
      invariant candidates == Filter(active[..i], OwnedBy(member))
    {
      assert active[..i + 1] == active[..i] + [active[i]];
      FilterAppend(active[..i], active[i], OwnedBy(member));
      if active[i].owner.Some? && active[i].owner.value == member {
        candidates := candidates + [active[i]];
      }
    }
    assert active[..|active|] == active;
  }

  lemma EndsAreExtremes(members: seq<MemberEquity>, sorted: seq<MemberEquity>)
    requires |members| >= 2 && DistinctBy(members, EntryMember)
    requires multiset(sorted) == multiset(members) && Ascending(sorted, HeaviestFirst)
    ensures |sorted| == |members|
    ensures Heaviest(sorted[0], members) && Lightest(sorted[|sorted| - 1], members)
    ensures sorted[0].member != sorted[|sorted| - 1].member
  {
    assert |multiset(sorted)| == |sorted| && |multiset(members)| == |members|;
    PermutationIsDistinct(members, sorted, EntryMember);
    assert EntryMember(sorted[0]) != EntryMember(sorted[|sorted| - 1]);
    assert sorted[0] in multiset(sorted) && sorted[|sorted| - 1] in multiset(sorted);
    forall o | o in members ensures sorted[|sorted| - 1].loadPct <= o.loadPct <= sorted[0].loadPct {
      assert o in multiset(members);
      assert o in sorted;
      var i :| 0 <= i < |sorted| && sorted[i] == o;
      assert HeaviestFirst(sorted[0]) <= HeaviestFirst(sorted[i]) <= HeaviestFirst(sorted[|sorted| - 1]);
    }
  }

  method GetRebalanceSuggestions(members: seq<MemberEquity>, active: seq<Task>, domains: seq<Domain>) returns (s: seq<Suggestion>)
    requires DistinctBy(members, EntryMember)
    ensures IsRebalance(s, members, active, domains)
  {
    if |members| < 2 {
      return [];
    }
    var sorted := Sort(members, HeaviestFirst);
    EndsAreExtremes(members, sorted);
    var most, least := sorted[0], sorted[|sorted| - 1];
    if most.loadPct <= 55.0 {
      return [];
    }
    var names := DomainNames(domains);
    var candidates := OwnedTasks(active, most.member);
    var order := Sort(candidates, LongestFirst);
    s := [];
    for i := 0 to |order|
      invariant s == Map(order[..Two(i)], Suggest(most.member, least.member, domains))
    {
      if |s| >= 2 {
        break;
      }
      var c := order[i];
      s := s + [Suggestion(most.member, least.member, c.id, c.name, if c.domain in names then names[c.domain] else "", c.estMinutes)];
    }
    assert Picks(s, order, most.member, least.member, domains);
    assert TopTasks(order, active, most.member);
  }

  // ---- Optimality ----

  /** Nobody has less load than this member, who is to take over every suggested task. */
  ghost predicate ReceivesAll(s: seq<Suggestion>, light: MemberEquity, members: seq<MemberEquity>) {
    && (forall o :: o in members ==> light.loadPct <= o.loadPct)
    && (forall x :: x in s ==> x.to == light.member)
  }

  /** Loads that are percentages of one total leave at most one member above 55, and then all others below 45. */
  lemma OthersAreLight(members: seq<MemberEquity>, heavy: MemberEquity, other: MemberEquity)
    requires SumReal(members, EntryPct) == 100.0 && forall e :: e in members ==> EntryPct(e) >= 0.0
    requires heavy in members && heavy.loadPct > 55.0 && other in members && other != heavy
    ensures other.loadPct < 45.0
  {
    TwoSummands(members, EntryPct, heavy, other);
  }

  function TaskId(t: Task): Uuid { t.id }

  predicate Suggests(s: seq<Suggestion>, task: Uuid) {
    exists i :: 0 <= i < |s| && s[i].task == task
  }

  lemma PickedIsSuggested(s: seq<Suggestion>, order: seq<Task>, from: Uuid, to: Uuid, domains: seq<Domain>)
    requires Picks(s, order, from, to, domains)
    ensures forall j :: 0 <= j < |s| ==> Suggests(s, order[j].id)
  {
  }

  /** The suggestion describes the task: its own name and length, and the name its domain is listed under, if it is. */
  ghost predicate Describes(x: Suggestion, t: Task, domains: seq<Domain>) {
    && x.task == t.id && x.taskName == t.name && x.estMinutes == t.estMinutes
    && (DistinctBy(domains, DomainId) ==>
          && (forall d :: d in domains && d.id == t.domain ==> x.domainName == d.name)
          && ((forall d :: d in domains ==> d.id != t.domain) ==> x.domainName == ""))
  }

  lemma {:induction false} NameIsListed(domains: seq<Domain>, id: Uuid)
    requires DistinctBy(domains, DomainId)
    ensures forall d :: d in domains && d.id == id ==> NameOf(domains, id) == d.name
    ensures (forall d :: d in domains ==> d.id != id) ==> NameOf(domains, id) == ""
  {
    if domains != [] {
      var init, last := domains[..|domains| - 1], domains[|domains| - 1];
      assert domains == init + [last];
      NameIsListed(init, id);
      forall d | d in init ensures DomainId(d) != DomainId(last) {
        var i :| 0 <= i < |init| && init[i] == d;
        assert DomainId(domains[i]) != DomainId(domains[|domains| - 1]);
      }
    }
  }

  lemma SuggestDescribes(from: Uuid, to: Uuid, domains: seq<Domain>, t: Task)
    ensures Describes(Suggest(from, to, domains)(t), t, domains)
  {
    if DistinctBy(domains, DomainId) {
      NameIsListed(domains, t.domain);
    }
  }

  ghost predicate MovesOwnTask(x: Suggestion, active: seq<Task>, from: Uuid, domains: seq<Domain>) {
    x.from == from && exists t :: t in active && t.owner == Some(from) && Describes(x, t, domains)
  }

  lemma PickMovesOwnTask(
    s: seq<Suggestion>, order: seq<Task>, active: seq<Task>, from: Uuid, to: Uuid, domains: seq<Domain>, i: nat)
    requires TopTasks(order, active, from) && Picks(s, order, from, to, domains) && i < |s|
    ensures s[i].to == to && MovesOwnTask(s[i], active, from, domains)
  {
    FilterMembers(active, OwnedBy(from));
    assert order[i] in multiset(order);
    assert order[i] in Filter(active, OwnedBy(from));
    SuggestDescribes(from, to, domains, order[i]);
  }

  /** What is left out stands behind what is picked in the order. */
  lemma LeftOutIsShorter(
    s: seq<Suggestion>, order: seq<Task>, active: seq<Task>, from: Uuid, to: Uuid, domains: seq<Domain>, i: nat, t: Task)
    requires TopTasks(order, active, from) && Picks(s, order, from, to, domains) && i < |s|
    requires t in active && t.owner == Some(from) && !Suggests(s, t.id)
    ensures t.estMinutes <= s[i].estMinutes
  {
    FilterMembers(active, OwnedBy(from));
    PickedIsSuggested(s, order, from, to, domains);
    assert t in multiset(Filter(active, OwnedBy(from)));
    assert t in order;
    var j :| 0 <= j < |order| && order[j] == t;
    assert LongestFirst(order[i]) <= LongestFirst(order[j]);
  }

  /** However ties are broken, the suggestions are two (or all) of the longest tasks of the order's owner. */
  lemma PicksAreLongest(s: seq<Suggestion>, order: seq<Task>, active: seq<Task>, from: Uuid, to: Uuid, domains: seq<Domain>)
    requires TopTasks(order, active, from) && Picks(s, order, from, to, domains) && DistinctBy(active, TaskId)
    ensures |s| == Two(|Filter(active, OwnedBy(from))|)
    ensures |s| == 2 ==> s[0].task != s[1].task
    ensures forall x :: x in s ==> x.to == to && MovesOwnTask(x, active, from, domains)
    ensures forall x, t :: x in s && t in active && t.owner == Some(from) && !Suggests(s, t.id) ==> t.estMinutes <= x.estMinutes
  {
    var owned := Filter(active, OwnedBy(from));
    assert |multiset(order)| == |order| && |multiset(owned)| == |owned|;
    DistinctByFilter(active, OwnedBy(from), TaskId);
    PermutationIsDistinct(owned, order, TaskId);
    forall x | x in s ensures x.to == to && MovesOwnTask(x, active, from, domains) {
      var i :| 0 <= i < |s| && s[i] == x;
      PickMovesOwnTask(s, order, active, from, to, domains, i);
    }
    forall x, t | x in s && t in active && t.owner == Some(from) && !Suggests(s, t.id)
      ensures t.estMinutes <= x.estMinutes
    {
      var i :| 0 <= i < |s| && s[i] == x;
      LeftOutIsShorter(s, order, active, from, to, domains, i, t);
    }
    if |s| == 2 {
      assert TaskId(order[0]) != TaskId(order[1]);
    }
  }

  /**
   There are suggestions only for a member above 55 percent. Then every one moves a task of that member
   to a different member of least load; they are min(2, k) of the k active tasks the member owns, and no
   unsuggested one is longer than a suggested one. All other members carry less than 45 percent.
   */
  lemma RebalanceIsOptimal(
    r: Response, timeSums: seq<MemberSum>, domainSums: seq<DomainSum>, taskCounts: seq<TaskCount>, domains: seq<Domain>,
    logs: seq<Log>, active: seq<Task>, s: seq<Suggestion>, heavy: MemberEquity)
    requires IsDashboard(r, timeSums, domainSums, taskCounts, domains) && IsSumByMember(timeSums, logs)
    requires IsRebalance(s, r.members, active, domains) && DistinctBy(active, TaskId)
    requires Heaviest(heavy, r.members)
    ensures |r.members| < 2 || heavy.loadPct <= 55.0 ==> s == []
    ensures |r.members| >= 2 && heavy.loadPct > 55.0 ==>
      && |s| == Two(|Filter(active, OwnedBy(heavy.member))|)
      && (|s| == 2 ==> s[0].task != s[1].task)
      && (forall e :: e in r.members && e != heavy ==> e.loadPct < 45.0)
      && (exists light :: light in r.members && light.member != heavy.member && ReceivesAll(s, light, r.members))
      && (forall x :: x in s ==> MovesOwnTask(x, active, heavy.member, domains))
      && (forall x, t :: x in s && t in active && t.owner == Some(heavy.member) && !Suggests(s, t.id)
            ==> t.estMinutes <= x.estMinutes)
  {
    if |r.members| >= 2 && heavy.loadPct > 55.0 {
      forall e | e in r.members ensures EntryPct(e) >= 0.0 {
        LoadsAreNotNegative(r, timeSums, domainSums, taskCounts, domains, logs, e);
      }
      LoadsAreNotNegative(r, timeSums, domainSums, taskCounts, domains, logs, heavy);
      LoadsMakeAHundred(r, timeSums, domainSums, taskCounts, domains, logs);
      OptimalForLoads(s, r.members, active, domains, heavy);
    }
  }

  lemma OptimalForLoads(
    s: seq<Suggestion>, members: seq<MemberEquity>, active: seq<Task>, domains: seq<Domain>, heavy: MemberEquity)
    requires IsRebalance(s, members, active, domains) && DistinctBy(active, TaskId)
    requires SumReal(members, EntryPct) == 100.0 && forall e :: e in members ==> EntryPct(e) >= 0.0
    requires |members| >= 2 && Heaviest(heavy, members) && heavy.loadPct > 55.0
    ensures |s| == Two(|Filter(active, OwnedBy(heavy.member))|)
    ensures |s| == 2 ==> s[0].task != s[1].task
    ensures forall e :: e in members && e != heavy ==> e.loadPct < 45.0
    ensures exists light :: light in members && light.member != heavy.member && ReceivesAll(s, light, members)
    ensures forall x :: x in s ==> MovesOwnTask(x, active, heavy.member, domains)
    ensures forall x, t :: x in s && t in active && t.owner == Some(heavy.member) && !Suggests(s, t.id)
              ==> t.estMinutes <= x.estMinutes
  {
    var most, least, order :|
      && Heaviest(most, members) && Lightest(least, members) && most.member != least.member
      && TopTasks(order, active, most.member) && Picks(s, order, most.member, least.member, domains);
    forall e | e in members && e != heavy ensures e.loadPct < 45.0 {
      OthersAreLight(members, heavy, e);
    }
    assert most == heavy;
    PicksAreLongest(s, order, active, heavy.member, least.member, domains);
    assert ReceivesAll(s, least, members);
  }
}

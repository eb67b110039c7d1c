/** Validation of assigned members: a comparison of two counts stands in for set inclusion. */
module AssignedMembers {
  import opened Common
  import opened Seqs

  datatype Member = Member(id: Uuid, household: Uuid)

  datatype Result = Accepted(ids: seq<Uuid>) | Rejected

  function MemberId(m: Member): Uuid { m.id }

  /** The query keeps members of the household that were asked for. */
  function Matching(household: Uuid, ids: seq<Uuid>): Member -> bool {
    (m: Member) => m.household == household && m.id in ids
  }

  predicate Belongs(members: seq<Member>, household: Uuid, id: Uuid) {
    exists m :: m in members && m.id == id && m.household == household
  }

  /** Without duplicates, each identifier where it was first seen. */
  ghost predicate FirstSeen(r: seq<Uuid>, ids: seq<Uuid>) {
    && Distinct(r)
    && (forall x :: x in r <==> x in ids)
    && (forall i, j :: 0 <= i < j < |r| ==> SeenBefore(ids, r[i], r[j]))
  }

  /** Some occurrence of x comes before every occurrence of y. */
  ghost predicate SeenBefore(ids: seq<Uuid>, x: Uuid, y: Uuid) {
    exists p :: 0 <= p < |ids| && ids[p] == x && y !in ids[..p + 1]
  }

  lemma SeenBeforeGrows(ids: seq<Uuid>, more: Uuid, x: Uuid, y: Uuid)
    requires SeenBefore(ids, x, y)
    ensures SeenBefore(ids + [more], x, y)
  {
    var p :| 0 <= p < |ids| && ids[p] == x && y !in ids[..p + 1];
    assert (ids + [more])[..p + 1] == ids[..p + 1];
    assert (ids + [more])[p] == x;
  }

  lemma NewComesLast(ids: seq<Uuid>, r: seq<Uuid>, y: Uuid)
    requires FirstSeen(r, ids) && y !in ids
    ensures FirstSeen(r + [y], ids + [y])
  {
    var after := r + [y];
    forall i, j | 0 <= i < j < |after| ensures after[i] != after[j] && SeenBefore(ids + [y], after[i], after[j]) {
      if j < |r| {
        SeenBeforeGrows(ids, y, r[i], r[j]);
      } else {
        assert r[i] in ids;
        var p :| 0 <= p < |ids| && ids[p] == r[i];
        assert (ids + [y])[..p + 1] == ids[..p + 1] && (ids + [y])[p] == r[i];
      }
    }
  }

  lemma OldChangesNothing(ids: seq<Uuid>, r: seq<Uuid>, y: Uuid)
    requires FirstSeen(r, ids) && y in ids
    ensures FirstSeen(r, ids + [y])
  {
    forall i, j | 0 <= i < j < |r| ensures SeenBefore(ids + [y], r[i], r[j]) {
      SeenBeforeGrows(ids, y, r[i], r[j]);
    }
  }

  // ---- Counting ----

  function Same(x: Uuid): Uuid { x }

  /** The two counts agree exactly when every identifier belongs to the household. */
  lemma CountsAgreeIffAllBelong(members: seq<Member>, household: Uuid, ids: seq<Uuid>)
    requires DistinctBy(members, MemberId) && Distinct(ids)
    ensures |Filter(members, Matching(household, ids))| == |ids| <==> forall id :: id in ids ==> Belongs(members, household, id)
  {
    var rows := Filter(members, Matching(household, ids));
    FilterMembers(members, Matching(household, ids));
    DistinctByFilter(members, Matching(household, ids), MemberId);
    var found, wanted := KeySet(rows, MemberId), KeySet(ids, Same);
    KeySetSize(rows, MemberId);
    KeySetMembers(rows, MemberId);
    KeySetSize(ids, Same);
    KeySetMembers(ids, Same);
    FoundIff(members, household, ids, found, wanted);
    if |found| == |wanted| {
      SubsetOfSameSize(found, wanted);
    }
  }

  lemma FoundIff(members: seq<Member>, household: Uuid, ids: seq<Uuid>, found: set<Uuid>, wanted: set<Uuid>)
    requires forall k :: k in found <==> exists m :: m in members && Matching(household, ids)(m) && MemberId(m) == k
    requires forall k :: k in wanted <==> k in ids
    ensures found <= wanted
    ensures found == wanted <==> forall id :: id in ids ==> Belongs(members, household, id)
  {
  }

  /** Accepts exactly when every requested identifier is a member of the household, and returns them deduplicated. */
  method ValidateAssignedMembers(members: seq<Member>, household: Uuid, ids: seq<Uuid>) returns (r: Result)
    requires DistinctBy(members, MemberId)
    ensures r.Accepted? <==> forall id :: id in ids ==> Belongs(members, household, id)
    ensures r.Accepted? ==> FirstSeen(r.ids, ids)
  {
    if |ids| == 0 {
      return Accepted([]);
    }
    var seen: set<Uuid> := {};
    var deduped: seq<Uuid> := [];
    for i := 0 to |ids|
      invariant FirstSeen(deduped, ids[..i])
      invariant forall x :: x in seen <==> x in deduped
    {
      assert ids[..i + 1] == ids[..i] + [ids[i]];
      if ids[i] in seen {
        OldChangesNothing(ids[..i], deduped, ids[i]);
        continue;
      }
      NewComesLast(ids[..i], deduped, ids[i]);
      seen := seen + {ids[i]};
      deduped := deduped + [ids[i]];
    }
    assert ids[..|ids|] == ids;
    var rows := Filter(members, Matching(household, deduped));
    CountsAgreeIffAllBelong(members, household, deduped);
    if |rows| != |deduped| {
      return Rejected;
    }
    FilterMembers(members, Matching(household, deduped));
    for i := 0 to |rows| {
      assert rows[i] in rows;
      if rows[i].household != household {
        assert false; // the query has already filtered on the household
      }
    }
    r := Accepted(deduped);
  }
}

/** The opportunity controller as operations on an in-memory collection:
    recruiters post trial opportunities, everyone lists them newest first,
    recruiters list their own, and athletes apply once each. */
module Opportunities {
  import opened Common
  import opened Entities
  import Seqs
  import Sorting

  /** The collection, in insertion order. */
  type Store = seq<Opportunity>

  /** Document ids are unique. */
  predicate UniqueIds(store: Store)
  {
    forall i, j :: 0 <= i < j < |store| ==> store[i].id != store[j].id
  }

  predicate NoDuplicates(ids: seq<Id>)
  {
    forall i, j :: 0 <= i < j < |ids| ==> ids[i] != ids[j]
  }

  /** No opportunity lists an applicant twice: the invariant `apply` keeps. */
  predicate ApplicantsDistinct(store: Store)
  {
    forall k :: 0 <= k < |store| ==> NoDuplicates(store[k].applicants)
  }

  /** The request body of `createOpportunity`; a field may be missing. */
  datatype Draft = Draft(
    title: Option<string>,
    sport: Option<string>,
    role: Option<string>,
    location: Option<string>,
    date: Option<string>,
    description: Option<string>)

  /** Every field the schema marks required is present and non-empty (the
      document validator rejects a missing value and an empty string). */
  predicate Complete(d: Draft)
  {
    && TruthyStr(d.title) && TruthyStr(d.sport) && TruthyStr(d.role)
    && TruthyStr(d.location) && TruthyStr(d.date) && TruthyStr(d.description)
  }

  /** 403, 500 (the validation failure the handler reports as a server
      error), or 201 with the new document. */
  datatype CreateReply = CreateForbidden | ValidationFailed | Created(opp: Opportunity)

  /** `createOpportunity`.  `newId` and `now` are what the database assigns:
      a fresh id and the creation timestamp. */
  function Create(caller: Caller, store: Store, d: Draft, newId: Id, now: int): (out: (CreateReply, Store))
    requires forall k :: 0 <= k < |store| ==> store[k].id != newId
    ensures out.0.CreateForbidden? <==> caller.role != Role.Recruiter
    ensures out.0.ValidationFailed? <==> caller.role == Role.Recruiter && !Complete(d)
    ensures !out.0.Created? ==> out.1 == store
    ensures out.0.Created? ==> && out.1 == store + [out.0.opp]
                               && out.0.opp.id == newId && out.0.opp.createdAt == now
                               && out.0.opp.recruiterId == caller.id
                               && out.0.opp.applicants == []
                               && Some(out.0.opp.title) == d.title && Some(out.0.opp.sport) == d.sport
                               && Some(out.0.opp.role) == d.role && Some(out.0.opp.location) == d.location
                               && Some(out.0.opp.date) == d.date && Some(out.0.opp.description) == d.description
  {
    if caller.role != Role.Recruiter then (CreateForbidden, store)
    else if !Complete(d) then (ValidationFailed, store)
    else
      var opp := Opportunity(newId, caller.id, d.title.value, d.sport.value, d.role.value,
                             d.location.value, d.date.value, d.description.value, [], now);
      (Created(opp), store + [opp])
  }

  /** Creating keeps ids unique and applicant lists duplicate-free. */
  lemma CreateKeepsInvariants(caller: Caller, store: Store, d: Draft, newId: Id, now: int)
    requires forall k :: 0 <= k < |store| ==> store[k].id != newId
    requires UniqueIds(store) && ApplicantsDistinct(store)
    ensures UniqueIds(Create(caller, store, d, newId, now).1)
    ensures ApplicantsDistinct(Create(caller, store, d, newId, now).1)
  {
  }

  function CreatedAt(o: Opportunity): real
  {
    o.createdAt as real
  }

  /** `getOpportunities`: `find().sort({ createdAt: -1 })`, every
      opportunity, newest first. */
  function ListAll(store: Store): (r: seq<Opportunity>)
    ensures Sorting.SortedDesc(r, CreatedAt)
    ensures multiset(r) == multiset(store)
  {
    Sorting.SortDesc(store, CreatedAt)
  }

  datatype MineReply = MineForbidden | Mine(opps: seq<Opportunity>)

  /** `getMyOpportunities`: 403 for a caller who is not a recruiter;
      otherwise the caller's own opportunities, newest first. */
  function ListMine(caller: Caller, store: Store): (r: MineReply)
    ensures r.MineForbidden? <==> caller.role != Role.Recruiter
    ensures r.Mine? ==> Sorting.SortedDesc(r.opps, CreatedAt)
    ensures r.Mine? ==> multiset(r.opps) == multiset(Seqs.Filter(store, (o: Opportunity) => o.recruiterId == caller.id))
  {
    if caller.role != Role.Recruiter then MineForbidden
    else Mine(Sorting.SortDesc(Seqs.Filter(store, (o: Opportunity) => o.recruiterId == caller.id), CreatedAt))
  }

  /** The caller's listing holds exactly the caller's opportunities. */
  lemma MineIsExactlyMine(caller: Caller, store: Store)
    requires caller.role == Role.Recruiter
    ensures forall o :: o in ListMine(caller, store).opps ==> o in store && o.recruiterId == caller.id
    ensures forall k :: 0 <= k < |store| && store[k].recruiterId == caller.id ==> store[k] in ListMine(caller, store).opps
  {
    var p := (o: Opportunity) => o.recruiterId == caller.id;
    var mine := Seqs.Filter(store, p);
    var r := ListMine(caller, store).opps;
    forall o | o in r ensures o in store && o.recruiterId == caller.id {
      assert o in multiset(mine);
      var i :| 0 <= i < |mine| && mine[i] == o;
    }
    forall k | 0 <= k < |store| && store[k].recruiterId == caller.id ensures store[k] in r {
      assert store[k] in mine;
      assert store[k] in multiset(r);
    }
  }

  /** The position of the document with the given id (`findById`). */
  function Find(store: Store, id: Id): (r: Option<nat>)
    ensures r.None? <==> forall k :: 0 <= k < |store| ==> store[k].id != id
    ensures r.Some? ==> r.value < |store| && store[r.value].id == id
    ensures r.Some? ==> forall k :: 0 <= k < r.value ==> store[k].id != id
  {
    if store == [] then None
    else if store[0].id == id then Some(0)
    else
      var rest := Find(store[1..], id);
      assert forall k :: 1 <= k < |store| ==> store[k] == store[1..][k - 1];
      if rest.Some? then Some(rest.value + 1) else None
  }

  /** 403, 404, 400, or 200 with the updated document. */
  datatype ApplyReply = ApplyForbidden | NotFound | AlreadyApplied | Applied(opp: Opportunity)

  /** `applyForOpportunity`: only an athlete may apply, to an opportunity
      that exists, once; the caller's id is appended to its applicants. */
  function Apply(caller: Caller, store: Store, oppId: Id): (out: (ApplyReply, Store))
    ensures out.0.ApplyForbidden? <==> caller.role != Role.Athlete
    ensures out.0.NotFound? <==> caller.role == Role.Athlete && Find(store, oppId).None?
    ensures out.0.AlreadyApplied? <==>
              caller.role == Role.Athlete && Find(store, oppId).Some?
              && caller.id in store[Find(store, oppId).value].applicants
    ensures !out.0.Applied? ==> out.1 == store
    ensures out.0.Applied? ==>
              var k := Find(store, oppId).value;
              && out.0.opp == store[k].(applicants := store[k].applicants + [caller.id])
              && out.1 == store[k := out.0.opp]
  {
    if caller.role != Role.Athlete then (ApplyForbidden, store)
    else
      var found := Find(store, oppId);
      if found.None? then (NotFound, store)
      else
        var opp := store[found.value];
        if caller.id in opp.applicants then (AlreadyApplied, store)
        else
          var updated := opp.(applicants := opp.applicants + [caller.id]);
          (Applied(updated), store[found.value := updated])
  }

  /** Applying keeps every applicant list free of duplicates and the ids
      unique, and touches no other opportunity. */
  lemma ApplyKeepsInvariants(caller: Caller, store: Store, oppId: Id)
    requires UniqueIds(store) && ApplicantsDistinct(store)
    ensures var next := Apply(caller, store, oppId).1;
      && |next| == |store|
      && UniqueIds(next)
      && ApplicantsDistinct(next)
      && (forall k :: 0 <= k < |store| && store[k].id != oppId ==> next[k] == store[k])
  {
    var (reply, next) := Apply(caller, store, oppId);
    if reply.Applied? {
      var k := Find(store, oppId).value;
      var ids := store[k].applicants;
      assert caller.id !in ids;
      assert NoDuplicates(ids + [caller.id]) by {
        forall i, j | 0 <= i < j < |ids| + 1 ensures (ids + [caller.id])[i] != (ids + [caller.id])[j] {
          if j == |ids| {
            assert (ids + [caller.id])[i] == ids[i];
          }
        }
      }
      forall i | 0 <= i < |store| && store[i].id != oppId ensures next[i] == store[i] {
        assert i != k;
      }
    }
  }

  /** An athlete who applied is refused the second time, and nothing
      changes. */
  lemma ApplyTwiceRefused(caller: Caller, store: Store, oppId: Id)
    requires Apply(caller, store, oppId).0.Applied?
    ensures var next := Apply(caller, store, oppId).1;
      Apply(caller, next, oppId) == (AlreadyApplied, next)
  {
    var next := Apply(caller, store, oppId).1;
    var k := Find(store, oppId).value;
    assert next[k].id == oppId;
    assert Find(next, oppId).Some?;
    var k2 := Find(next, oppId).value;
    assert caller.id in next[k].applicants;
    assert next[k2].id == store[k2].id;
    assert k2 == k;
  }
}

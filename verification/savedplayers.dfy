/** A recruiter's saved-players list (`toggleSavePlayer`): saving an athlete
    appends its id, saving it again removes every occurrence. */
module SavedPlayers {
  import opened Entities
  import Seqs

  /** `saved.filter(id => id !== target)`: every copy of the target goes,
      every other id stays, as often as it was saved and in saved order. */
  function Remove(saved: seq<Id>, target: Id): (r: seq<Id>)
    ensures target !in r
    ensures Seqs.IsSubsequence(r, saved)
    ensures forall i :: 0 <= i < |r| ==> r[i] in saved
    ensures forall i :: 0 <= i < |saved| && saved[i] != target ==> saved[i] in r
    ensures multiset(r) <= multiset(saved)
    ensures forall i :: 0 <= i < |saved| && saved[i] != target ==> multiset(r)[saved[i]] == multiset(saved)[saved[i]]
  {
    var p := (x: Id) => x != target;
    Seqs.FilterCounts(saved, p);
    Seqs.Filter(saved, p)
  }

  /** `r` is `saved` with `target` toggled: when it was saved, every copy is
      gone and the rest keep their order; when it was not, it is appended.
      Either way every other id is kept exactly as often as before. */
  predicate Toggled(saved: seq<Id>, r: seq<Id>, target: Id)
  {
    && (target in r <==> target !in saved)
    && (target in saved ==> Seqs.IsSubsequence(r, saved))
    && (target !in saved ==> r == saved + [target])
    && (forall i :: 0 <= i < |saved| && saved[i] != target ==> multiset(r)[saved[i]] == multiset(saved)[saved[i]])
  }

  /** The list after the toggle: every occurrence removed when the id is
      saved, the id appended when it is not. */
  function Toggle(saved: seq<Id>, target: Id): (r: seq<Id>)
    ensures target in saved ==> target !in r && Seqs.IsSubsequence(r, saved)
    ensures target !in saved ==> r == saved + [target]
    ensures target in r <==> target !in saved
    ensures Toggled(saved, r, target)
  {
    if target in saved then Remove(saved, target)
    else
      assert forall i :: 0 <= i < |saved| && saved[i] != target ==>
        multiset(saved + [target])[saved[i]] == multiset(saved)[saved[i]];
      saved + [target]
  }

  /** An id other than the target keeps its membership. */
  lemma OthersUnchanged(saved: seq<Id>, target: Id, other: Id)
    requires other != target
    ensures other in Toggle(saved, target) <==> other in saved
  {
    if other in saved {
      var i :| 0 <= i < |saved| && saved[i] == other;
    }
  }

  /** Saving then unsaving an athlete that was not saved restores the exact
      list. */
  lemma {:induction false} ToggleTwiceFromAbsent(saved: seq<Id>, target: Id)
    requires target !in saved
    ensures Toggle(Toggle(saved, target), target) == saved
  {
    var p := (x: Id) => x != target;
    Seqs.FilterAppend(saved, [target], p);
    Seqs.FilterAll(saved, p);
    assert Seqs.Filter([target], p) == [];
  }

  /** Unsaving then saving again restores membership: the same ids are saved,
      with the target once, at the end. */
  lemma ToggleTwiceFromPresent(saved: seq<Id>, target: Id)
    requires target in saved
    ensures var r := Toggle(Toggle(saved, target), target);
      && r == Remove(saved, target) + [target]
      && (forall i :: 0 <= i < |saved| ==> saved[i] in r)
      && (forall i :: 0 <= i < |r| ==> r[i] in saved)
  {
    var r := Toggle(Toggle(saved, target), target);
    forall i | 0 <= i < |saved| ensures saved[i] in r {
      if saved[i] != target {
        assert saved[i] in Remove(saved, target);
      }
    }
  }

  /** The controller's reply: 404, or 200 with a message that says whether
      the athlete was removed or saved, and the new list. */
  datatype Reply = NotFound | Removed(saved: seq<Id>) | Added(saved: seq<Id>)

  /** `toggleSavePlayer`: `roles` gives the role of every user; the recruiter
      (the caller, an authenticated recruiter by the route guard) has list
      `saved`.  Returns the reply and the list stored afterwards. */
  function ToggleSavePlayer(roles: map<Id, Role>, saved: seq<Id>, athleteId: Id): (out: (Reply, seq<Id>))
    ensures out.0.NotFound? <==> athleteId !in roles || roles[athleteId] != Role.Athlete
    ensures out.0.NotFound? ==> out.1 == saved
    ensures out.0.Removed? <==> !out.0.NotFound? && athleteId in saved
    ensures !out.0.NotFound? ==> out.0.saved == out.1 && (athleteId in out.1 <==> athleteId !in saved)
    ensures !out.0.NotFound? ==> Toggled(saved, out.1, athleteId)
  {
    if athleteId !in roles || roles[athleteId] != Role.Athlete then (NotFound, saved)
    else
      var isSaved := athleteId in saved;
      var next := Toggle(saved, athleteId);
      (if isSaved then Removed(next) else Added(next), next)
  }
}

/** The recruiter's talent feed (RecruiterExplore): the region heuristic, the
    conjunctive filter over sport, role, region and free-text search, the
    live bar's top score, and the card's local copy of the saved list. */
module Discovery {
  import opened Common
  import opened Entities
  import opened Text
  import Seqs
  import SavedPlayers

  /** The lower-cased location contains the first word of the lower-cased
      region somewhere. */
  ghost predicate NamesRegion(location: Option<string>, region: string)
  {
    exists i :: OccursAt(ToLower(location.GetOr("")), FirstToken(ToLower(region)), i)
  }

  /** `regionMatch(location, region)`: no region or 'All Regions' matches
      everything; otherwise the lower-cased location must contain the first
      word of the lower-cased region. */
  function RegionMatch(location: Option<string>, region: string): (r: bool)
    ensures region == "" || region == "All Regions" ==> r
    ensures region != "" && region != "All Regions" && location.None? && FirstToken(ToLower(region)) != [] ==> !r
    ensures region != "" && region != "All Regions" ==> (r <==> NamesRegion(location, region))
  {
    if region == "" || region == "All Regions" then true
    else
      var found := Contains(ToLower(location.GetOr("")), FirstToken(ToLower(region)));
      found
  }

  /** A one-word region is found in a "city, state" location naming it, in
      any letter case. */
  lemma RegionFindsState(city: string, state: string)
    requires state != [] && ' ' !in state
    requires state != "All Regions"
    ensures RegionMatch(Some(city + ", " + state), state)
  {
    var loc := city + ", " + state;
    var low := ToLower(loc);
    var token := FirstToken(ToLower(state));
    assert ' ' !in ToLower(state) by {
      forall i | 0 <= i < |state| ensures ToLower(state)[i] != ' ' {
        assert state[i] != ' ';
      }
    }
    assert token == ToLower(state);
    var at := |city| + 2;
    forall i | 0 <= i < |state| ensures low[at + i] == token[i] {
      assert loc[at + i] == state[i];
    }
    assert OccursAt(low, token, at);
  }

  /** A one-word region that the location does not contain, in any letter
      case, is rejected: "Mumbai, Maharashtra" is not in "Kerala". */
  lemma RegionRejectsAbsent(loc: string, state: string)
    requires state != [] && ' ' !in state
    requires state != "All Regions"
    requires !ContainsIgnoreCase(loc, state)
    ensures !RegionMatch(Some(loc), state)
  {
    assert ' ' !in ToLower(state) by {
      forall i | 0 <= i < |state| ensures ToLower(state)[i] != ' ' {
        assert state[i] != ' ';
      }
    }
    assert FirstToken(ToLower(state)) == ToLower(state);
  }

  /** A location without a location field matches no real region. */
  lemma RegionNeedsLocation(region: string)
    requires region != "" && region != "All Regions"
    requires region[0] != ' '
    ensures !RegionMatch(None, region)
  {
    assert ToLower(region)[0] != ' ';
  }

  /** The heuristic reads only a region's first word: two regions that share
      it ("West India" and "West Bengal", "North India" and "North East")
      select the same athletes. */
  lemma RegionsSharingFirstWord(location: Option<string>, w: string, x: string, y: string)
    requires ' ' !in w
    requires w + " " + x != "All Regions" && w + " " + y != "All Regions"
    ensures RegionMatch(location, w + " " + x) == RegionMatch(location, w + " " + y)
  {
    FirstWordOfPhrase(w, x);
    FirstWordOfPhrase(w, y);
  }

  /** The lower-cased first word of `w + " " + x` is the lower-cased `w`. */
  lemma FirstWordOfPhrase(w: string, x: string)
    requires ' ' !in w
    ensures FirstToken(ToLower(w + " " + x)) == ToLower(w)
  {
    var s := ToLower(w + " " + x);
    var lw := ToLower(w);
    var r := FirstToken(s);
    assert s[|w|] == ' ';
    forall i | 0 <= i < |w| ensures s[i] == lw[i] && s[i] != ' ' {
      assert (w + " " + x)[i] == w[i];
    }
    assert r == s[..|w|];
  }

  /** The page's filter controls. */
  datatype Filters = Filters(sport: string, role: string, region: string, query: string)

  /** The free-text search: the lower-cased query occurs in the athlete's
      name, location, role or sport (a missing field reads as ""). */
  predicate SearchMatch(a: Athlete, q: string)
  {
    || Contains(ToLower(a.name.GetOr("")), q)
    || Contains(ToLower(a.location.GetOr("")), q)
    || Contains(ToLower(a.playerRole.GetOr("")), q)
    || Contains(ToLower(a.sport.GetOr("")), q)
  }

  /** The `filtered` predicate, test by test in the page's order. */
  function Keep(p: Post, f: Filters): bool
  {
    if p.athlete.None? then false
    else
      var a := p.athlete.value;
      if f.sport != "All" && a.sport != Some(f.sport) then false
      else if f.role != "All" && a.playerRole != Some(f.role) then false
      else if !RegionMatch(a.location, f.region) then false
      else if f.query != "" && !SearchMatch(a, ToLower(f.query)) then false
      else true
  }

  /** The five conditions a card must meet, each on its own. */
  predicate Admitted(p: Post, f: Filters)
  {
    && p.athlete.Some?
    && (f.sport == "All" || p.athlete.value.sport == Some(f.sport))
    && (f.role == "All" || p.athlete.value.playerRole == Some(f.role))
    && RegionMatch(p.athlete.value.location, f.region)
    && (f.query == "" || SearchMatch(p.athlete.value, ToLower(f.query)))
  }

  /** The cards shown: an order-preserving selection of the feed holding
      exactly the posts that meet every condition. */
  function Filtered(posts: seq<Post>, f: Filters): (r: seq<Post>)
    ensures Seqs.IsSubsequence(r, posts)
    ensures forall i :: 0 <= i < |r| ==> Admitted(r[i], f)
    ensures forall i :: 0 <= i < |posts| && Admitted(posts[i], f) ==> posts[i] in r
    ensures multiset(r) <= multiset(posts)
    ensures forall i :: 0 <= i < |posts| && Admitted(posts[i], f) ==> multiset(r)[posts[i]] == multiset(posts)[posts[i]]
  {
    var keep := (p: Post) => Keep(p, f);
    var r := Seqs.Filter(posts, keep);
    Seqs.FilterCounts(posts, keep);
    assert forall i :: 0 <= i < |posts| ==> (Keep(posts[i], f) <==> Admitted(posts[i], f));
    r
  }

  /** With every control at its default the feed is shown whole, except
      posts whose athlete is missing. */
  lemma DefaultFiltersKeepAthletes(posts: seq<Post>)
    requires forall i :: 0 <= i < |posts| ==> posts[i].athlete.Some?
    ensures Filtered(posts, Filters("All", "All", "All Regions", "")) == posts
  {
    Seqs.FilterAll(posts, (p: Post) => Keep(p, Filters("All", "All", "All Regions", "")));
  }

  /** `s > 0` on an optional meta score (an absent one compares false). */
  predicate Positive(s: Option<real>)
  {
    s.Some? && s.value > 0.0
  }

  /** The live bar's top score: the largest positive meta score in the feed,
      or absent when there is none. */
  function TopScore(posts: seq<Post>): (m: Option<real>)
    ensures m.None? <==> forall i :: 0 <= i < |posts| ==> !Positive(MetaOf(posts[i]))
    ensures m.Some? ==> m.value > 0.0 && exists i :: 0 <= i < |posts| && MetaOf(posts[i]) == m
    ensures m.Some? ==> forall i :: 0 <= i < |posts| && Positive(MetaOf(posts[i])) ==> MetaOf(posts[i]).value <= m.value
  {
    if posts == [] then None
    else
      var rest := TopScore(posts[1..]);
      var s := MetaOf(posts[0]);
      assert forall i :: 1 <= i < |posts| ==> posts[i] == posts[1..][i - 1];
      if Positive(s) && (rest.None? || rest.value < s.value) then s
      else
        assert rest.Some? ==> exists i :: 0 <= i < |posts| && MetaOf(posts[i]) == rest by {
          if rest.Some? {
            var j :| 0 <= j < |posts[1..]| && MetaOf(posts[1..][j]) == rest;
            assert MetaOf(posts[j + 1]) == rest;
          }
        }
        rest
  }

  /** The card's local copy of the saved list (`u.savedPlayers`, `[]` when
      missing) after a successful save request. */
  function LocalToggle(saved: Option<seq<Id>>, athleteId: Id): (r: seq<Id>)
    ensures athleteId in r <==> athleteId !in saved.GetOr([])
    ensures SavedPlayers.Toggled(saved.GetOr([]), r, athleteId)
  {
    SavedPlayers.Toggle(saved.GetOr([]), athleteId)
  }

  /** The card's copy is read from storage and may be stale, so it need not
      equal the server's list.  After a successful save both copies flip the
      athlete's membership: they agree on that athlete afterwards exactly
      when they agreed before, and copies that started equal end equal. */
  lemma LocalCopyAfterSave(roles: map<Id, Role>, local: Option<seq<Id>>, server: seq<Id>, athleteId: Id)
    requires athleteId in roles && roles[athleteId] == Role.Athlete
    ensures var after := SavedPlayers.ToggleSavePlayer(roles, server, athleteId).1;
      ((athleteId in LocalToggle(local, athleteId)) <==> (athleteId in after))
      <==> ((athleteId in local.GetOr([])) <==> (athleteId in server))
    ensures local == Some(server) ==>
              LocalToggle(local, athleteId) == SavedPlayers.ToggleSavePlayer(roles, server, athleteId).1
  {
  }
}

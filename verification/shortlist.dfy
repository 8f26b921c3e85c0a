/** The recruiter's AI shortlist (`generateShortlist`, up to the database
    query): the request's criteria become a query on athlete documents, the
    matches are ordered by sport score, highest first, and the first
    `numProfiles` (10 by default) are returned.  The PDF rendering that
    follows is not modelled. */
module Shortlist {
  import opened Common
  import opened Entities
  import opened Text
  import Seqs
  import Sorting

  /** A number field of the request body as JSON carries it.  The form posts
      the text of its number inputs (`Text`), together with the number
      `Number(text)` reads from it; another client may post a JSON number
      (`Number`). */
  datatype Field<N> = Text(text: string, number: N) | Number(number: N)

  /** The controller's `if (x)` test on a posted field: a string is truthy
      when it is not empty, so the text "0" is; a number when it is not
      zero. */
  predicate Given<N(==)>(f: Option<Field<N>>, zero: N)
  {
    f.Some? && (if f.value.Text? then f.value.text != "" else f.value.number != zero)
  }

  /** The request body.  Every field may be missing, and a field that is not
      `Given` switches its filter off. */
  datatype Criteria = Criteria(
    sport: Option<string>,
    minAge: Option<Field<real>>,
    maxAge: Option<Field<real>>,
    region: Option<string>,
    minSpi: Option<Field<real>>,
    numProfiles: Option<Field<nat>>)

  /** The query document the controller builds, one optional condition per
      filter (`role: 'athlete'` is always present). */
  datatype Query = Query(
    sport: Option<string>,      // `sport` equals
    location: Option<string>,   // `location` matches the pattern, ignoring case
    ageFrom: Option<real>,      // `age.$gte`
    ageTo: Option<real>,        // `age.$lte`
    spiFrom: Option<real>)      // `sportScore.$gte`

  /** The query construction, test by test. */
  function BuildQuery(c: Criteria): (q: Query)
    ensures q.sport.Some? <==> TruthyStr(c.sport) && c.sport.value != "All"
    ensures q.location.Some? <==> TruthyStr(c.region)
    ensures q.ageFrom.Some? <==> Given(c.minAge, 0.0)
    ensures q.ageTo.Some? <==> Given(c.maxAge, 0.0)
    ensures q.spiFrom.Some? <==> Given(c.minSpi, 0.0)
  {
    var anyAge := Given(c.minAge, 0.0) || Given(c.maxAge, 0.0);
    Query(
      if TruthyStr(c.sport) && c.sport.value != "All" then c.sport else None,
      if TruthyStr(c.region) then c.region else None,
      if anyAge && Given(c.minAge, 0.0) then Some(c.minAge.value.number) else None,
      if anyAge && Given(c.maxAge, 0.0) then Some(c.maxAge.value.number) else None,
      if Given(c.minSpi, 0.0) then Some(c.minSpi.value.number) else None)
  }

  /** Whether a user document satisfies the query.  A condition on a missing
      field fails; the location pattern is taken as plain text (no
      regular-expression metacharacters), so it matches as a
      case-insensitive substring. */
  predicate Satisfies(u: Profile, q: Query)
  {
    && u.role == Role.Athlete
    && (q.sport.None? || u.sport == q.sport)
    && (q.location.None? || (u.location.Some? && ContainsIgnoreCase(u.location.value, q.location.value)))
    && (q.ageFrom.None? || (u.age.Some? && u.age.value >= q.ageFrom.value))
    && (q.ageTo.None? || (u.age.Some? && u.age.value <= q.ageTo.value))
    && (q.spiFrom.None? || (u.sportScore.Some? && u.sportScore.value >= q.spiFrom.value))
  }

  /** The criteria read directly: an athlete, of the sport unless none or
      'All' is asked, in the region if one is asked, within the inclusive age
      bounds that are given, and with a sport score at or above the minimum
      if one is given. */
  predicate Matches(u: Profile, c: Criteria)
  {
    && u.role == Role.Athlete
    && (TruthyStr(c.sport) && c.sport.value != "All" ==> u.sport == c.sport)
    && (TruthyStr(c.region) ==> u.location.Some? && ContainsIgnoreCase(u.location.value, c.region.value))
    && (Given(c.minAge, 0.0) ==> u.age.Some? && c.minAge.value.number <= u.age.value)
    && (Given(c.maxAge, 0.0) ==> u.age.Some? && u.age.value <= c.maxAge.value.number)
    && (Given(c.minSpi, 0.0) ==> u.sportScore.Some? && c.minSpi.value.number <= u.sportScore.value)
  }

  /** The query the controller builds selects exactly the athletes the
      criteria describe. */
  lemma QueryMeansCriteria(u: Profile, c: Criteria)
    ensures Satisfies(u, BuildQuery(c)) <==> Matches(u, c)
  {
  }

  /** The form's minimum of "0" is a given criterion: it still excludes every
      athlete without a sport score. */
  lemma ZeroMinimumDropsUnscored(u: Profile, c: Criteria)
    requires c.minSpi == Some(Text("0", 0.0))
    requires u.sportScore.None?
    ensures !Satisfies(u, BuildQuery(c))
  {
  }

  /** `numProfiles ? Number(numProfiles) : 10`, as the database reads it:
      `limit(0)` places no limit (`None`). */
  function Limit(c: Criteria): (n: Option<nat>)
    ensures !Given(c.numProfiles, 0) ==> n == Some(10)
    ensures Given(c.numProfiles, 0) && c.numProfiles.value.number == 0 ==> n.None?
    ensures Given(c.numProfiles, 0) && c.numProfiles.value.number != 0 ==> n == Some(c.numProfiles.value.number)
    ensures n.Some? ==> n.value > 0
  {
    if !Given(c.numProfiles, 0) then Some(10)
    else if c.numProfiles.value.number == 0 then None
    else Some(c.numProfiles.value.number)
  }

  /** The matching documents in collection order. */
  function Candidates(users: seq<Profile>, c: Criteria): (r: seq<Profile>)
    ensures Seqs.IsSubsequence(r, users)
    ensures forall i :: 0 <= i < |r| ==> Matches(r[i], c)
    ensures forall i :: 0 <= i < |users| && Matches(users[i], c) ==> users[i] in r
  {
    var q := BuildQuery(c);
    var r := Seqs.Filter(users, (u: Profile) => Satisfies(u, q));
    assert forall i :: 0 <= i < |users| ==> (Satisfies(users[i], q) <==> Matches(users[i], c));
    assert forall i :: 0 <= i < |r| ==> (Satisfies(r[i], q) <==> Matches(r[i], c));
    r
  }

  predicate Scored(u: Profile)
  {
    u.sportScore.Some?
  }

  predicate Unscored(u: Profile)
  {
    u.sportScore.None?
  }

  function ScoreOf(u: Profile): real
  {
    u.sportScore.GetOr(0.0)
  }

  /** `a` may come before `b` under `.sort({ sportScore: -1 })`: a missing
      score sorts below every present one. */
  predicate RanksAtLeast(a: Profile, b: Profile)
  {
    b.sportScore.None? || (a.sportScore.Some? && a.sportScore.value >= b.sportScore.value)
  }

  predicate RankedDesc(s: seq<Profile>)
  {
    forall i, j :: 0 <= i < j < |s| ==> RanksAtLeast(s[i], s[j])
  }

  /** `.sort({ sportScore: -1 })`: the documents with a score, highest first
      and in collection order among equals, then those without one, in
      collection order.  Every document is kept, as often as it occurs. */
  function RankByScore(ms: seq<Profile>): (r: seq<Profile>)
    ensures RankedDesc(r)
    ensures multiset(r) == multiset(ms)
  {
    var scored := Seqs.Filter(ms, Scored);
    var unscored := Seqs.Filter(ms, Unscored);
    var sorted := Sorting.SortDesc(scored, ScoreOf);
    Seqs.FilterSplit(ms, Scored, Unscored);
    assert forall i :: 0 <= i < |sorted| ==> Scored(sorted[i]) by {
      forall i | 0 <= i < |sorted| ensures Scored(sorted[i]) {
        assert sorted[i] in multiset(scored);
      }
    }
    RankedParts(sorted, unscored);
    sorted + unscored
  }

  /** Scored documents in descending order followed by unscored ones are
      ranked. */
  lemma RankedParts(sorted: seq<Profile>, unscored: seq<Profile>)
    requires Sorting.SortedDesc(sorted, ScoreOf)
    requires forall i :: 0 <= i < |sorted| ==> Scored(sorted[i])
    requires forall i :: 0 <= i < |unscored| ==> Unscored(unscored[i])
    ensures RankedDesc(sorted + unscored)
  {
    var r := sorted + unscored;
    forall i, j | 0 <= i < j < |r| ensures RanksAtLeast(r[i], r[j]) {
      if j < |sorted| {
        assert ScoreOf(sorted[i]) >= ScoreOf(sorted[j]);
      } else {
        assert r[j] == unscored[j - |sorted|];
      }
    }
  }

  /** `.limit(n)`, where no limit keeps everything. */
  function Cut(s: seq<Profile>, n: Option<nat>): (r: seq<Profile>)
    ensures r <= s
    ensures |r| == if n.Some? && n.value < |s| then n.value else |s|
  {
    if n.Some? then Seqs.Take(s, n.value) else s
  }

  datatype Reply = Forbidden | Ranked(profiles: seq<Profile>)

  /** `generateShortlist` up to the query: 403 for a caller who is not a
      recruiter; otherwise the matching athletes by sport score, highest
      first, cut to the limit. */
  function GenerateShortlist(caller: Caller, users: seq<Profile>, c: Criteria): (r: Reply)
    ensures r.Forbidden? <==> caller.role != Role.Recruiter
    ensures r.Ranked? ==> RankedDesc(r.profiles)
    ensures r.Ranked? ==> multiset(r.profiles) <= multiset(Candidates(users, c))
    ensures r.Ranked? ==> |r.profiles| == var n := |Candidates(users, c)|;
                                          if Limit(c).Some? && Limit(c).value < n then Limit(c).value else n
    ensures r.Ranked? ==> forall i :: 0 <= i < |r.profiles| ==> Matches(r.profiles[i], c) && r.profiles[i] in users
  {
    if caller.role != Role.Recruiter then Forbidden
    else
      var matches := Candidates(users, c);
      var ranked := RankByScore(matches);
      var top := Cut(ranked, Limit(c));
      CutKeepsRanking(ranked, Limit(c));
      DrawnFromCandidates(top, users, c);
      Ranked(top)
  }

  /** A cut of a ranked list is ranked and takes nothing extra. */
  lemma CutKeepsRanking(ranked: seq<Profile>, n: Option<nat>)
    requires RankedDesc(ranked)
    ensures RankedDesc(Cut(ranked, n))
    ensures multiset(Cut(ranked, n)) <= multiset(ranked)
  {
    var top := Cut(ranked, n);
    assert ranked == top + ranked[|top|..];
  }

  /** Documents taken from the candidates match and come from the
      collection. */
  lemma DrawnFromCandidates(top: seq<Profile>, users: seq<Profile>, c: Criteria)
    requires multiset(top) <= multiset(Candidates(users, c))
    ensures forall i :: 0 <= i < |top| ==> Matches(top[i], c) && top[i] in users
  {
    var matches := Candidates(users, c);
    forall i | 0 <= i < |top| ensures Matches(top[i], c) && top[i] in users {
      assert top[i] in multiset(matches);
      var j :| 0 <= j < |matches| && matches[j] == top[i];
      Sorting.SubsequenceMember(matches, users, j);
    }
  }

  /** Top-k selection: a matching athlete is on the list, or the list is full
      and its last entry ranks at least as high. */
  lemma ShortlistIsTopK(caller: Caller, users: seq<Profile>, c: Criteria, u: Profile)
    requires caller.role == Role.Recruiter
    requires u in users && Matches(u, c)
    ensures var r := GenerateShortlist(caller, users, c).profiles;
      u in r || (Limit(c) == Some(|r|) && 0 < |r| && RanksAtLeast(r[|r| - 1], u))
  {
    var matches := Candidates(users, c);
    var ranked := RankByScore(matches);
    var r := Cut(ranked, Limit(c));
    assert GenerateShortlist(caller, users, c).profiles == r;
    var i :| 0 <= i < |users| && users[i] == u;
    assert u in matches;
    assert u in multiset(ranked);
    var j :| 0 <= j < |ranked| && ranked[j] == u;
    if j < |r| {
      assert r[j] == ranked[j];
    } else {
      assert r[|r| - 1] == ranked[|r| - 1];
    }
  }

  /** So a list shorter than the limit, or cut by no limit, holds every
      matching athlete. */
  lemma ShortListIsComplete(caller: Caller, users: seq<Profile>, c: Criteria)
    requires caller.role == Role.Recruiter
    requires Limit(c).None? || |GenerateShortlist(caller, users, c).profiles| < Limit(c).value
    ensures forall i :: 0 <= i < |users| && Matches(users[i], c) ==> users[i] in GenerateShortlist(caller, users, c).profiles
  {
    forall i | 0 <= i < |users| && Matches(users[i], c)
      ensures users[i] in GenerateShortlist(caller, users, c).profiles
    {
      ShortlistIsTopK(caller, users, c, users[i]);
    }
  }

  /** Three athletes scoring 900, 700 and 850, asked (as the form posts it)
      for a sport score of at least 800: the two that reach it, best
      first. */
  lemma ShortlistExample(caller: Caller, a: Profile, b: Profile, d: Profile)
    requires caller.role == Role.Recruiter
    requires a.role == Role.Athlete && b.role == Role.Athlete && d.role == Role.Athlete
    requires a.sportScore == Some(900.0) && b.sportScore == Some(850.0) && d.sportScore == Some(700.0)
    ensures GenerateShortlist(caller, [a, d, b], Criteria(None, None, None, None, Some(Text("800", 800.0)), None))
         == Ranked([a, b])
  {
    var c := Criteria(None, None, None, None, Some(Text("800", 800.0)), None);
    ExampleCandidates(a, b, d);
    assert RankByScore([a, b]) == [a, b] by {
      Seqs.FilterAll([a, b], Scored);
      Seqs.FilterCons(a, [b], Unscored);
      Seqs.FilterCons(b, [], Unscored);
      Sorting.SortedUnchanged([a, b], ScoreOf);
    }
    assert Cut([a, b], Limit(c)) == [a, b];
  }

  lemma ExampleCandidates(a: Profile, b: Profile, d: Profile)
    requires a.role == Role.Athlete && b.role == Role.Athlete && d.role == Role.Athlete
    requires a.sportScore == Some(900.0) && b.sportScore == Some(850.0) && d.sportScore == Some(700.0)
    ensures Candidates([a, d, b], Criteria(None, None, None, None, Some(Text("800", 800.0)), None)) == [a, b]
  {
    var c := Criteria(None, None, None, None, Some(Text("800", 800.0)), None);
    var q := BuildQuery(c);
    assert q == Query(None, None, None, None, Some(800.0));
    var p := (u: Profile) => Satisfies(u, q);
    assert p(a) && !p(d) && p(b);
    Seqs.FilterCons(b, [], p);
    Seqs.FilterCons(d, [b], p);
    Seqs.FilterCons(a, [d, b], p);
    assert [d] + [b] == [d, b] && [a] + [d, b] == [a, d, b];
  }
}

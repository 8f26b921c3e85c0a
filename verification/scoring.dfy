/** The profile page's live score computation (`calculateDynamicScore`): per-key
    averages of the numeric AI metrics give the sub-scores, their mean times a
    confidence multiplier gives the sport score, and a flat activity credit
    turns that into the meta score. */
module Scoring {
  import opened Common
  import opened Entities
  import opened Metrics
  import Seqs

  /** The `sums`/`counts` objects the aggregation builds, with `keys` holding
      `Object.keys(sums)` in insertion order. */
  datatype Tally = Tally(keys: seq<string>, sums: map<string, real>, counts: map<string, nat>)

  /** One step of the nested `forEach`: a numeric entry adds its value to its
      key's running sum and count; a string entry is skipped. */
  function Record(t: Tally, e: MetricEntry): Tally
  {
    if !e.1.Num? then t
    else
      var k := e.0;
      Tally(
        if k in t.sums then t.keys else t.keys + [k],
        t.sums[k := (if k in t.sums then t.sums[k] else 0.0) + e.1.value],
        t.counts[k := (if k in t.counts then t.counts[k] else 0) + 1])
  }

  /** The tally after visiting `es` from left to right. */
  function RecordAll(es: seq<MetricEntry>): Tally
  {
    if es == [] then Tally([], map[], map[]) else Record(RecordAll(es[..|es| - 1]), es[|es| - 1])
  }

  /** Every key is listed once. */
  predicate Distinct(keys: seq<string>)
  {
    forall i, j :: 0 <= i < j < |keys| ==> keys[i] != keys[j]
  }

  /** For key `k`, the tally holds the sum and the number of the numeric values
      recorded under `k` in `es`, and lists `k` exactly when there is one. */
  ghost predicate AgreesOn(t: Tally, es: seq<MetricEntry>, k: string)
  {
    && (k in t.keys <==> ValuesOf(es, k) != [])
    && (k in t.sums <==> k in t.keys)
    && (k in t.counts <==> k in t.keys)
    && (k in t.keys ==> t.sums[k] == Sum(ValuesOf(es, k)) && t.counts[k] == |ValuesOf(es, k)|)
  }

  lemma ValuesOfSnoc(es: seq<MetricEntry>, e: MetricEntry, j: string)
    ensures ValuesOf(es + [e], j) == ValuesOf(es, j) + (if e.0 == j && e.1.Num? then [e.1.value] else [])
  {
    assert (es + [e])[..|es + [e]| - 1] == es;
  }

  /** The accumulation computes the sum and count of every key. */
  lemma {:induction false} RecordAllAgrees(es: seq<MetricEntry>, k: string)
    ensures AgreesOn(RecordAll(es), es, k)
  {
    if es != [] {
      var init, e := es[..|es| - 1], es[|es| - 1];
      RecordAllAgrees(init, k);
      assert init + [e] == es;
      ValuesOfSnoc(init, e, k);
      var t := RecordAll(init);
      if e.1.Num? && e.0 == k {
        SumAppend(ValuesOf(init, k), e.1.value);
        if k !in t.keys {
          assert ValuesOf(init, k) == [];
          assert Record(t, e).sums[k] == e.1.value;
        } else {
          assert Record(t, e).sums[k] == t.sums[k] + e.1.value;
        }
      } else {
        assert ValuesOf(es, k) == ValuesOf(init, k);
      }
    }
  }

  /** `Object.keys(sums)` lists each key once. */
  lemma {:induction false} RecordAllDistinct(es: seq<MetricEntry>)
    ensures Distinct(RecordAll(es).keys)
  {
    if es != [] {
      var init, e := es[..|es| - 1], es[|es| - 1];
      RecordAllDistinct(init);
      RecordAllAgrees(init, e.0);
      var t := RecordAll(init);
      if e.1.Num? && e.0 !in t.sums {
        var keys := t.keys + [e.0];
        forall i, j | 0 <= i < j < |keys| ensures keys[i] != keys[j] {
          if j == |t.keys| {
            assert keys[i] == t.keys[i];
          }
        }
      }
    }
  }

  /** A key's average on the 0-1000 display scale: `(sums[k] / counts[k]) * 100`.
      A tally built by `RecordAll` has a positive count for every listed key
      (`TallyAverage`); the fallback value is never used for one. */
  function KeyAverage(t: Tally, k: string): real
  {
    if k in t.sums && k in t.counts && t.counts[k] > 0 then (t.sums[k] / (t.counts[k] as real)) * 100.0 else 0.0
  }

  /** `subScores`: each key, in order, with its rounded average. */
  function SubScores(t: Tally): seq<(string, real)>
  {
    seq(|t.keys|, i requires 0 <= i < |t.keys| => (t.keys[i], Round(KeyAverage(t, t.keys[i])) as real))
  }

  /** The key averages in key order. */
  function KeyAverages(t: Tally): seq<real>
  {
    seq(|t.keys|, i requires 0 <= i < |t.keys| => KeyAverage(t, t.keys[i]))
  }

  /** `rawSportScore`: `totalAvg / count`, or 0 when no key was seen. */
  function RawSportScore(t: Tally): real
  {
    var count := |t.keys|;
    if count > 0 then Sum(KeyAverages(t)) / (count as real) else 0.0
  }

  /** The confidence multiplier, keyed on the total number of posts. */
  function Multiplier(postCount: nat): (m: real)
    ensures postCount <= 1 ==> m == 0.8
    ensures postCount == 2 ==> m == 0.9
    ensures postCount >= 3 ==> m == 1.0
  {
    var m := 0.8;
    var m := if postCount == 2 then 0.9 else m;
    if postCount >= 3 then 1.0 else m
  }

  /** The activity credit: 50, plus 50 from three posts on, plus 100. */
  function Activity(postCount: nat): (a: int)
    ensures a == 150 || a == 200
    ensures a == 200 <==> postCount >= 3
  {
    var a := 50;
    var a := if postCount >= 3 then a + 50 else a;
    a + 100
  }

  /** The meta score: half the sport score plus the activity credit,
      rounded. */
  function MetaFor(sport: int, postCount: nat): int
  {
    Round(sport as real * 0.5 + Activity(postCount) as real)
  }

  /** Scores saved on the user record, under `scoutScore` or at top level. */
  datatype StoredScore = StoredScore(
    metaScore: Option<real>,
    sportScore: Option<real>,
    subScores: Option<seq<(string, real)>>)

  datatype StoredUser = StoredUser(
    metaScore: Option<real>,
    sportScore: Option<real>,
    subScores: Option<seq<(string, real)>>,
    scoutScore: Option<StoredScore>)

  /** The result: meta score, sport score, and sub-scores by key. */
  datatype DynamicScore = DynamicScore(meta: real, sport: real, subs: seq<(string, real)>)

  function Stored(user: Option<StoredUser>): Option<StoredScore>
  {
    if user.Some? then user.value.scoutScore else None
  }

  /** The scores shown when there are no posts: the stored values, with
      `user?.x || user?.scoutScore?.x || 0` (or `{}` for the sub-scores). */
  function Fallback(user: Option<StoredUser>): (r: DynamicScore)
    ensures user == None ==> r == DynamicScore(0.0, 0.0, [])
    ensures user.Some? && TruthyNum(user.value.metaScore) ==> r.meta == user.value.metaScore.value
    ensures user.Some? && TruthyNum(user.value.sportScore) ==> r.sport == user.value.sportScore.value
    ensures user.Some? && user.value.subScores.Some? ==> r.subs == user.value.subScores.value
  {
    var top := if user.Some? then user.value else StoredUser(None, None, None, None);
    var nested := Stored(user).GetOr(StoredScore(None, None, None));
    DynamicScore(
      OrZero(top.metaScore, nested.metaScore),
      OrZero(top.sportScore, nested.sportScore),
      if top.subScores.Some? then top.subScores.value else nested.subScores.GetOr([]))
  }

  /** When the top-level value is falsy the nested `scoutScore` one is used,
      and when neither is truthy the score is 0. */
  lemma FallbackUsesNested(u: StoredUser)
    ensures !TruthyNum(u.metaScore) && u.scoutScore.Some? && TruthyNum(u.scoutScore.value.metaScore) ==>
              Fallback(Some(u)).meta == u.scoutScore.value.metaScore.value
    ensures !TruthyNum(u.sportScore) && u.scoutScore.Some? && TruthyNum(u.scoutScore.value.sportScore) ==>
              Fallback(Some(u)).sport == u.scoutScore.value.sportScore.value
    ensures !TruthyNum(u.metaScore) && (u.scoutScore.None? || !TruthyNum(u.scoutScore.value.metaScore)) ==>
              Fallback(Some(u)).meta == 0.0
    ensures !TruthyNum(u.sportScore) && (u.scoutScore.None? || !TruthyNum(u.scoutScore.value.sportScore)) ==>
              Fallback(Some(u)).sport == 0.0
    ensures u.subScores.None? ==>
              Fallback(Some(u)).subs == (if u.scoutScore.Some? then u.scoutScore.value.subScores.GetOr([]) else [])
  {
  }

  /** The tally over the analysed posts' metrics. */
  function AnalysedTally(posts: seq<Post>): Tally
  {
    RecordAll(AllEntries(Seqs.Filter(posts, IsAnalysed)))
  }

  /** `Math.round(rawSportScore * multiplier)`: the sport score, scaled down
      for a profile with fewer than three posts. */
  function Confident(raw: real, postCount: nat): (s: int)
    ensures raw == 0.0 ==> s == 0
    ensures 0.0 <= raw <= 1000.0 ==> 0 <= s <= 1000
  {
    var x := raw * Multiplier(postCount);
    assert 0.0 <= raw <= 1000.0 ==> 0.0 <= x <= 1000.0 by {
      if 0.0 <= raw <= 1000.0 {
        ScaleBounds(raw, Multiplier(postCount), 1000.0);
      }
    }
    assert 0.0 <= x <= 1000.0 ==> 0 <= Round(x) <= 1000 by {
      if 0.0 <= x <= 1000.0 {
        RoundBounds(x, 0, 1000);
      }
    }
    Round(x)
  }

  /** `calculateDynamicScore(posts, user)`. */
  function CalculateDynamicScore(posts: seq<Post>, user: Option<StoredUser>): (r: DynamicScore)
    ensures posts == [] ==> r == Fallback(user)
    ensures posts != [] ==> r.sport == r.sport.Floor as real
    ensures posts != [] ==> r.meta == MetaFor(r.sport.Floor, |posts|) as real
  {
    if posts == [] then Fallback(user)
    else
      var activity := Activity(|posts|);
      var analysed := Seqs.Filter(posts, IsAnalysed);
      var t := AnalysedTally(posts);
      var sport: int := if |analysed| > 0 then Confident(RawSportScore(t), |posts|) else 0;
      var subs := if |analysed| > 0 then SubScores(t) else [];
      var meta := Round(sport as real * 0.5 + activity as real);
      DynamicScore(meta as real, sport as real, subs)
  }

  /* ---------------------------------------------------------------------
     Properties of the score computation, against per-key reference values
     computed directly from the posts' metrics. */

  /** Unanalysed posts carry no entries, so dropping them changes nothing. */
  lemma {:induction false} AnalysedEntries(posts: seq<Post>)
    ensures AllEntries(Seqs.Filter(posts, IsAnalysed)) == AllEntries(posts)
  {
    if posts != [] {
      var f := Seqs.Filter(posts, IsAnalysed);
      var rest := Seqs.Filter(posts[1..], IsAnalysed);
      assert AllEntries(rest) == AllEntries(posts[1..]) by {
        AnalysedEntries(posts[1..]);
      }
      assert AllEntries(posts) == posts[0].aiMetrics + AllEntries(posts[1..]);
      if IsAnalysed(posts[0]) {
        assert f == [posts[0]] + rest;
        assert f[0] == posts[0] && f[1..] == rest;
      } else {
        assert f == rest;
        assert posts[0].aiMetrics == [];
      }
    }
  }

  /** Whether or not any post is analysed, the score is computed from the
      tally of all the posts' metrics: with no analysed post that tally is
      empty and yields what the `else` branch yields. */
  lemma ScoreFromTally(posts: seq<Post>, user: Option<StoredUser>)
    requires posts != []
    ensures var r := CalculateDynamicScore(posts, user);
      && AnalysedTally(posts) == RecordAll(AllEntries(posts))
      && r.subs == SubScores(AnalysedTally(posts))
      && r.sport == Confident(RawSportScore(AnalysedTally(posts)), |posts|) as real
  {
    var t := AnalysedTally(posts);
    assert t == RecordAll(AllEntries(posts)) by {
      AnalysedEntries(posts);
    }
    if |Seqs.Filter(posts, IsAnalysed)| == 0 {
      assert t.keys == [] by {
        assert Seqs.Filter(posts, IsAnalysed) == [];
      }
      assert SubScores(t) == [] && Confident(RawSportScore(t), |posts|) == 0;
    }
  }

  /** No numeric metric anywhere in the posts. */
  predicate NoNumericMetrics(posts: seq<Post>)
  {
    forall i, j :: 0 <= i < |posts| && 0 <= j < |posts[i].aiMetrics| ==> !posts[i].aiMetrics[j].1.Num?
  }

  lemma {:induction false} NoNumericMetricsNoValues(posts: seq<Post>, k: string)
    requires NoNumericMetrics(posts)
    ensures !HasNumericKey(AllEntries(posts), k)
  {
    if posts != [] {
      assert NoNumericMetrics(posts[1..]) by {
        forall i, j | 0 <= i < |posts[1..]| && 0 <= j < |posts[1..][i].aiMetrics|
          ensures !posts[1..][i].aiMetrics[j].1.Num?
        {
          assert posts[1..][i] == posts[i + 1];
        }
      }
      NoNumericMetricsNoValues(posts[1..], k);
    }
  }

  lemma NoMetricsNoKeys(posts: seq<Post>)
    requires NoNumericMetrics(posts)
    ensures RecordAll(AllEntries(posts)).keys == []
  {
    var es := AllEntries(posts);
    var t := RecordAll(es);
    if t.keys != [] {
      var k := t.keys[0];
      RecordAllAgrees(es, k);
      ValuesOfNonEmpty(es, k);
      NoNumericMetricsNoValues(posts, k);
      assert false;
    }
  }

  /** With posts but no numeric metric (none analysed, or only string traits),
      the sport score is 0, there are no sub-scores, and the meta score is the
      activity credit alone. */
  lemma NoMetricsBaseline(posts: seq<Post>, user: Option<StoredUser>)
    requires posts != []
    requires NoNumericMetrics(posts)
    ensures CalculateDynamicScore(posts, user).sport == 0.0
    ensures CalculateDynamicScore(posts, user).subs == []
    ensures CalculateDynamicScore(posts, user).meta == Activity(|posts|) as real
  {
    var t := RecordAll(AllEntries(posts));
    var r := CalculateDynamicScore(posts, user);
    ScoreFromTally(posts, user);
    assert t.keys == [] by {
      NoMetricsNoKeys(posts);
    }
    assert r.subs == [] by {
      assert |SubScores(t)| == 0;
    }
    assert r.sport == 0.0 by {
      assert RawSportScore(t) == 0.0;
    }
    assert r.meta == Activity(|posts|) as real by {
      assert r.meta == MetaFor(0, |posts|) as real;
    }
  }

  /** The reference mean of key `k` on the 0-1000 scale, straight from the posts. */
  function ReferenceAverage(posts: seq<Post>, k: string): real
  {
    100.0 * Mean(ValuesOf(AllEntries(posts), k))
  }

  /** A listed key's average is 100 times the mean of its values. */
  lemma TallyAverage(es: seq<MetricEntry>, k: string)
    requires k in RecordAll(es).keys
    ensures KeyAverage(RecordAll(es), k) == 100.0 * Mean(ValuesOf(es, k))
  {
    RecordAllAgrees(es, k);
  }

  /** The sub-scores of a tally, against the entries it was built from. */
  lemma TallySubScores(es: seq<MetricEntry>)
    ensures var subs := SubScores(RecordAll(es));
      && (forall i :: 0 <= i < |subs| ==> subs[i].1 == Round(100.0 * Mean(ValuesOf(es, subs[i].0))) as real)
      && (forall i, j :: 0 <= i < j < |subs| ==> subs[i].0 != subs[j].0)
      && (forall i :: 0 <= i < |subs| ==> HasNumericKey(es, subs[i].0))
      && (forall k :: HasNumericKey(es, k) ==> exists i :: 0 <= i < |subs| && subs[i].0 == k)
  {
    var t := RecordAll(es);
    var subs := SubScores(t);
    RecordAllDistinct(es);
    forall i | 0 <= i < |subs|
      ensures subs[i].1 == Round(100.0 * Mean(ValuesOf(es, subs[i].0))) as real
      ensures HasNumericKey(es, subs[i].0)
    {
      TallyAverage(es, t.keys[i]);
      RecordAllAgrees(es, t.keys[i]);
      ValuesOfNonEmpty(es, t.keys[i]);
    }
    forall k | HasNumericKey(es, k) ensures exists i :: 0 <= i < |subs| && subs[i].0 == k {
      RecordAllAgrees(es, k);
      ValuesOfNonEmpty(es, k);
      var i :| 0 <= i < |t.keys| && t.keys[i] == k;
      assert subs[i].0 == k;
    }
  }

  /** Every sub-score is `round(100 * mean)` of its key's numeric values across
      the posts; each key with a numeric value appears exactly once, and no
      other key appears. */
  lemma SubScoresAreKeyMeans(posts: seq<Post>, user: Option<StoredUser>)
    requires posts != []
    ensures var subs := CalculateDynamicScore(posts, user).subs;
      && (forall i :: 0 <= i < |subs| ==> subs[i].1 == Round(ReferenceAverage(posts, subs[i].0)) as real)
      && (forall i, j :: 0 <= i < j < |subs| ==> subs[i].0 != subs[j].0)
      && (forall i :: 0 <= i < |subs| ==> HasNumericKey(AllEntries(posts), subs[i].0))
      && (forall k :: HasNumericKey(AllEntries(posts), k) ==> exists i :: 0 <= i < |subs| && subs[i].0 == k)
  {
    var es := AllEntries(posts);
    ScoreFromTally(posts, user);
    TallySubScores(es);
    var subs := CalculateDynamicScore(posts, user).subs;
    assert subs == SubScores(RecordAll(es));
    assert forall i :: 0 <= i < |subs| ==> ReferenceAverage(posts, subs[i].0) == 100.0 * Mean(ValuesOf(es, subs[i].0));
  }

  /** The sport score is the rounded product of the confidence multiplier and
      the equal-weight mean of the per-key reference averages. */
  lemma SportScoreIsMeanOfKeyAverages(posts: seq<Post>, user: Option<StoredUser>)
    requires posts != []
    ensures var r := CalculateDynamicScore(posts, user);
      r.sport == Round(Mean(seq(|r.subs|, i requires 0 <= i < |r.subs| => ReferenceAverage(posts, r.subs[i].0)))
                       * Multiplier(|posts|)) as real
  {
    var es := AllEntries(posts);
    var t := RecordAll(es);
    var r := CalculateDynamicScore(posts, user);
    assert r.subs == SubScores(t) && r.sport == Confident(RawSportScore(t), |posts|) as real by {
      ScoreFromTally(posts, user);
    }
    var refs := seq(|r.subs|, i requires 0 <= i < |r.subs| => ReferenceAverage(posts, r.subs[i].0));
    assert Mean(refs) == RawSportScore(t) by {
      KeyAveragesAreReferences(posts, refs);
    }
  }

  /** The tally's per-key averages, in key order, are the reference averages. */
  lemma KeyAveragesAreReferences(posts: seq<Post>, refs: seq<real>)
    requires var t := RecordAll(AllEntries(posts));
      && |refs| == |t.keys|
      && forall i :: 0 <= i < |refs| ==> refs[i] == ReferenceAverage(posts, t.keys[i])
    ensures refs == KeyAverages(RecordAll(AllEntries(posts)))
  {
    var es := AllEntries(posts);
    var t := RecordAll(es);
    forall i | 0 <= i < |refs| ensures refs[i] == KeyAverages(t)[i] {
      TallyAverage(es, t.keys[i]);
    }
  }

  lemma KeyAveragesOnScale(es: seq<MetricEntry>)
    requires OnScale(es)
    ensures AllBetween(KeyAverages(RecordAll(es)), 0.0, 1000.0)
  {
    var t := RecordAll(es);
    forall i | 0 <= i < |t.keys| ensures 0.0 <= KeyAverages(t)[i] <= 1000.0 {
      var k := t.keys[i];
      RecordAllAgrees(es, k);
      ValuesOfOnScale(es, k);
      MeanBounds(ValuesOf(es, k), 0.0, 10.0);
      TallyAverage(es, k);
    }
  }

  /** On the 0-10 scale, a tally's sub-scores lie in [0, 1000]. */
  lemma SubScoresOnScale(es: seq<MetricEntry>)
    requires OnScale(es)
    ensures forall i :: 0 <= i < |SubScores(RecordAll(es))| ==> 0.0 <= SubScores(RecordAll(es))[i].1 <= 1000.0
  {
    KeyAveragesOnScale(es);
    var t := RecordAll(es);
    var avgs := KeyAverages(t);
    forall i | 0 <= i < |SubScores(t)| ensures 0.0 <= SubScores(t)[i].1 <= 1000.0 {
      assert avgs[i] == KeyAverage(t, t.keys[i]);
      RoundBounds(avgs[i], 0, 1000);
    }
  }

  /** On the 0-10 scale, the raw sport score lies in [0, 1000]. */
  lemma RawSportOnScale(es: seq<MetricEntry>)
    requires OnScale(es)
    ensures 0.0 <= RawSportScore(RecordAll(es)) <= 1000.0
  {
    KeyAveragesOnScale(es);
    var t := RecordAll(es);
    var avgs := KeyAverages(t);
    if avgs != [] {
      MeanBounds(avgs, 0.0, 1000.0);
      assert RawSportScore(t) == Mean(avgs);
    }
  }

  /** With every metric value on the 0-10 scale, every sub-score and the sport
      score lie in [0, 1000] and the meta score in [150, 700]. */
  lemma ScoresOnScale(posts: seq<Post>, user: Option<StoredUser>)
    requires posts != []
    requires PostsOnScale(posts)
    ensures var r := CalculateDynamicScore(posts, user);
      && (forall i :: 0 <= i < |r.subs| ==> 0.0 <= r.subs[i].1 <= 1000.0)
      && 0.0 <= r.sport <= 1000.0
      && 150.0 <= r.meta <= 700.0
  {
    var es := AllEntries(posts);
    var t := RecordAll(es);
    var r := CalculateDynamicScore(posts, user);
    ScoreFromTally(posts, user);
    assert r.subs == SubScores(t);
    AllEntriesOnScale(posts);
    SubScoresOnScale(es);
    RawSportOnScale(es);
    var sport := Confident(RawSportScore(t), |posts|);
    assert r.sport == sport as real;
    MetaBounds(sport, |posts|);
    assert r.meta == MetaFor(sport, |posts|) as real;
  }

  /** A sport score in [0, 1000] gives a meta score in [150, 700]. */
  lemma MetaBounds(sport: int, postCount: nat)
    requires 0 <= sport <= 1000
    ensures 150 <= MetaFor(sport, postCount) <= 700
  {
    RoundBounds(sport as real * 0.5 + Activity(postCount) as real, 150, 700);
  }

  /** For a fixed number of posts the meta score never decreases as the
      sport score grows. */
  lemma MetaMonotone(s1: int, s2: int, postCount: nat)
    requires s1 <= s2
    ensures MetaFor(s1, postCount) <= MetaFor(s2, postCount)
  {
    RoundMonotone(s1 as real * 0.5 + Activity(postCount) as real, s2 as real * 0.5 + Activity(postCount) as real);
  }
}

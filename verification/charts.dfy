/** The profile page's display helpers: the performance chart built from the
    latest analysed posts, the skill radar built from stored sub-scores, and
    the 0-100 score colour. */
module Charts {
  import opened Common
  import opened Entities
  import opened Metrics
  import opened Text
  import Seqs
  import Sorting

  /* ---------------------------------------------------------------------
     Performance chart (`buildChartData`). */

  /** One chart point: the position `n` of its `#n` label, the session score,
      the post's timestamp and the metrics spread into the point. */
  datatype ChartPoint = ChartPoint(position: nat, score: int, date: int, metrics: seq<MetricEntry>)

  /** A session's score on the 0-100 scale: `Math.round(mean * 10)` of the
      post's numeric metrics, or 0 when it has none. */
  function SessionScore(es: seq<MetricEntry>): (s: int)
    ensures (forall i :: 0 <= i < |es| ==> !es[i].1.Num?) ==> s == 0
    ensures NumericValues(es) != [] ==>
              s == Round(10.0 * Sum(NumericValues(es)) / (|NumericValues(es)| as real))
  {
    var vals := NumericValues(es);
    if |vals| > 0 then
      assert Mean(vals) * 10.0 == 10.0 * Sum(vals) / (|vals| as real) by {
        var n := |vals| as real;
        assert Sum(vals) / n * 10.0 == (10.0 * Sum(vals)) / n;
      }
      Round(Mean(vals) * 10.0)
    else 0
  }

  /** On the 0-10 metric scale a session score lies in [0, 100]. */
  lemma SessionScoreOnScale(es: seq<MetricEntry>)
    requires OnScale(es)
    ensures 0 <= SessionScore(es) <= 100
  {
    var vals := NumericValues(es);
    if |vals| > 0 {
      NumericValuesOnScale(es);
      MeanBounds(vals, 0.0, 10.0);
      RoundBounds(Mean(vals) * 10.0, 0, 100);
    }
  }

  /** The analysed posts, in feed order. */
  function Analysed(posts: seq<Post>): seq<Post>
  {
    Seqs.Filter(posts, IsAnalysed)
  }

  /** `buildChartData(posts)`: the first twelve analysed posts, oldest first,
      numbered from 1. */
  function BuildChartData(posts: seq<Post>): (r: seq<ChartPoint>)
    ensures |r| <= 12
    ensures |r| == if |Analysed(posts)| < 12 then |Analysed(posts)| else 12
    ensures forall i :: 0 <= i < |r| ==> r[i].position == i + 1 && r[i].metrics != []
  {
    var recent := Seqs.Reverse(Seqs.Take(Analysed(posts), 12));
    seq(|recent|, i requires 0 <= i < |recent| =>
      ChartPoint(i + 1, SessionScore(recent[i].aiMetrics), recent[i].createdAt, recent[i].aiMetrics))
  }

  /** Point `i` of the chart is the analysed post `|r| - 1 - i` places from
      the front of the list: the chart reads the twelve newest analysed posts
      right to left. */
  lemma ChartPointsAreAnalysedPosts(posts: seq<Post>)
    ensures var r := BuildChartData(posts);
      forall i :: 0 <= i < |r| ==>
        var p := Analysed(posts)[|r| - 1 - i];
        && r[i].date == p.createdAt
        && r[i].metrics == p.aiMetrics
        && r[i].score == SessionScore(p.aiMetrics)
  {
    var a := Analysed(posts);
    var t := Seqs.Take(a, 12);
    var rev := Seqs.Reverse(t);
    var r := BuildChartData(posts);
    forall i | 0 <= i < |r|
      ensures r[i].date == a[|r| - 1 - i].createdAt
      ensures r[i].metrics == a[|r| - 1 - i].aiMetrics
      ensures r[i].score == SessionScore(a[|r| - 1 - i].aiMetrics)
    {
      assert r[i].date == rev[i].createdAt && r[i].metrics == rev[i].aiMetrics;
      assert rev[i] == t[|t| - 1 - i];
      assert t[|t| - 1 - i] == a[|t| - 1 - i];
    }
  }

  /** Given posts newest first (as the feed endpoint returns them), the chart
      runs oldest to newest. */
  lemma ChartIsChronological(posts: seq<Post>)
    requires Sorting.SortedDesc(posts, (p: Post) => p.createdAt as real)
    ensures var r := BuildChartData(posts);
      forall i, j :: 0 <= i < j < |r| ==> r[i].date <= r[j].date
  {
    var a := Analysed(posts);
    Sorting.SubsequenceSorted(a, posts, (p: Post) => p.createdAt as real);
    ChartPointsAreAnalysedPosts(posts);
    var r := BuildChartData(posts);
    forall i, j | 0 <= i < j < |r| ensures r[i].date <= r[j].date {
      assert a[|r| - 1 - j].createdAt as real >= a[|r| - 1 - i].createdAt as real;
    }
  }

  /** With metrics on the 0-10 scale, every chart score lies in [0, 100]. */
  lemma ChartScoresOnScale(posts: seq<Post>)
    requires PostsOnScale(posts)
    ensures var r := BuildChartData(posts);
      forall i :: 0 <= i < |r| ==> 0 <= r[i].score <= 100
  {
    var a := Analysed(posts);
    var r := BuildChartData(posts);
    ChartPointsAreAnalysedPosts(posts);
    forall i | 0 <= i < |r| ensures 0 <= r[i].score <= 100 {
      var p := a[|r| - 1 - i];
      assert p in posts;
      var k :| 0 <= k < |posts| && posts[k] == p;
      SessionScoreOnScale(p.aiMetrics);
    }
  }

  /** The value a metric key has in the post's metrics object, if any (keys
      are unique, so at most one entry has it). */
  function Lookup(es: seq<MetricEntry>, k: string): (m: Option<Metric>)
    ensures m.None? <==> forall i :: 0 <= i < |es| ==> es[i].0 != k
    ensures m.Some? ==> exists i :: 0 <= i < |es| && es[i] == (k, m.value)
  {
    if es == [] then None
    else
      var rest := Lookup(es[1..], k);
      assert forall i :: 1 <= i < |es| ==> es[i] == es[1..][i - 1];
      if rest.Some? then
        assert exists i :: 0 <= i < |es| && es[i] == (k, rest.value) by {
          var j :| 0 <= j < |es[1..]| && es[1..][j] == (k, rest.value);
          assert es[j + 1] == (k, rest.value);
        }
        rest
      else if es[0].0 == k then Some(es[0].1)
      else None
  }

  /** The `score` field of a chart point as the page builds it:
      `{ name, score: avg, date, ...metrics }` spreads the metrics last, so a
      metric stored under the key "score" replaces the session score. */
  function ShownScoreAsWritten(es: seq<MetricEntry>): (m: Metric)
    ensures Lookup(es, "score").None? ==> m == Num(SessionScore(es) as real)
    ensures Lookup(es, "score").Some? ==> m == Lookup(es, "score").value
  {
    var own := Lookup(es, "score");
    if own.Some? then own.value else Num(SessionScore(es) as real)
  }

  /** A clip whose only metric is `score: 9` has session score 90, but its
      chart point shows 9. */
  lemma ShownScoreShadowed()
    ensures SessionScore([("score", Num(9.0))]) == 90
    ensures ShownScoreAsWritten([("score", Num(9.0))]) == Num(9.0)
  {
    var es: seq<MetricEntry> := [("score", Num(9.0))];
    assert NumericValues(es) == [9.0] by {
      assert |NumericValues(es)| <= 1;
    }
    assert Mean([9.0]) == 9.0 by {
      assert [9.0][..0] == [];
    }
  }

  /** `scoreColor` for a 0-100 session score. */
  function SessionColour(s: real): (c: Colour)
    ensures c == Green <==> s >= 75.0
    ensures c == Amber <==> 50.0 <= s < 75.0
    ensures c == Red <==> s < 50.0
  {
    if s >= 75.0 then Green else if s >= 50.0 then Amber else Red
  }

  /* ---------------------------------------------------------------------
     Skill radar (`buildRadarData`). */

  const CricketKeys: seq<string> := ["footwork_score", "timing_score", "shot_selection", "run_up_balance",
                                     "release_point_score", "line_and_length_rating"]
  const FootballKeys: seq<string> := ["ball_control", "agility_score", "passing_accuracy"]
  const BadmintonKeys: seq<string> := ["court_coverage", "smash_power", "reflex_speed"]

  /** The radar's key list: Cricket and Football have their own, every other
      sport (or none) uses Badminton's. */
  function RadarKeys(sport: Option<string>): seq<string>
  {
    if sport == Some("Cricket") then CricketKeys
    else if sport == Some("Football") then FootballKeys
    else BadmintonKeys
  }

  predicate IsInteger(v: real)
  {
    v == v.Floor as real
  }

  /** A radar point: the label and the 0-100 value. */
  datatype RadarPoint = RadarPoint(subject: string, value: int)

  /** A sub-score on the radar's 0-100 scale: values above 100 are read as
      0-1000 and divided by 10, non-integers in (0, 10] are read as 0-10 and
      multiplied by 10, anything else is taken as is; the rounded result is
      capped at 100. */
  function RadarValue(v: real): (r: int)
    ensures r <= 100
    ensures 0.0 <= v <= 1000.0 ==> 0 <= r
    ensures v > 100.0 ==> r == (if v >= 1005.0 then 100 else Round(v / 10.0))
    ensures 0.0 < v <= 10.0 && !IsInteger(v) ==> r == Round(v * 10.0)
    ensures v <= 100.0 && !(0.0 < v <= 10.0 && !IsInteger(v)) ==> r == Round(v)
    ensures IsInteger(v) && v <= 100.0 ==> r == v.Floor
  {
    var normalised :=
      if v > 100.0 then v / 10.0
      else if v <= 10.0 && v > 0.0 && !IsInteger(v) then v * 10.0
      else v;
    var rounded := Round(normalised);
    if rounded < 100 then rounded else 100
  }

  /** The scale guess is not monotone: a stored 100 is drawn at 100 but a
      stored 101 at 10. */
  lemma RadarScaleJump()
    ensures RadarValue(100.0) == 100 && RadarValue(101.0) == 10
  {
    assert IsInteger(100.0);
    assert Round(101.0 / 10.0) == 10;
  }

  /** The radar label of a key: underscores become spaces and every word is
      capitalised. */
  function Subject(k: string): string
  {
    CapitalizeWords(UnderscoresToSpaces(k))
  }

  function Point(e: (string, real)): RadarPoint
  {
    RadarPoint(Subject(e.0), RadarValue(e.1))
  }

  /** The test `Object.keys(sub).filter(k => keys.includes(k))` applies to a
      stored sub-score. */
  function Listed(keys: seq<string>): ((string, real)) -> bool
  {
    (e: (string, real)) => e.0 in keys
  }

  /** The points for the stored sub-scores whose key is in `keys`, in stored
      order. */
  function PointsFor(sub: seq<(string, real)>, keys: seq<string>): (r: seq<RadarPoint>)
    ensures |r| <= |sub|
    ensures forall i :: 0 <= i < |r| ==> r[i].value <= 100
  {
    var available := Seqs.Filter(sub, Listed(keys));
    seq(|available|, i requires 0 <= i < |available| => Point(available[i]))
  }

  /** `buildRadarData(scoutScore, sport)`, given `scoutScore?.subScores`: one
      point per stored sub-score whose key is on the sport's list, in stored
      order, and no points at all when none is. */
  function BuildRadarData(subScores: Option<seq<(string, real)>>, sport: Option<string>): (r: seq<RadarPoint>)
    ensures |r| <= |subScores.GetOr([])|
    ensures forall i :: 0 <= i < |r| ==> r[i].value <= 100
  {
    var points := PointsFor(subScores.GetOr([]), RadarKeys(sport));
    if |points| == 0 then [] else points
  }

  /** Every point comes from a listed sub-score. */
  lemma PointsAreListed(sub: seq<(string, real)>, keys: seq<string>)
    ensures var r := PointsFor(sub, keys);
      forall i :: 0 <= i < |r| ==> exists j :: 0 <= j < |sub| && sub[j].0 in keys && r[i] == Point(sub[j])
  {
    var available := Seqs.Filter(sub, Listed(keys));
    var r := PointsFor(sub, keys);
    forall i | 0 <= i < |r| ensures exists j :: 0 <= j < |sub| && sub[j].0 in keys && r[i] == Point(sub[j]) {
      assert r[i] == Point(available[i]);
      assert available[i] in sub;
      var j :| 0 <= j < |sub| && sub[j] == available[i];
    }
  }

  /** Every listed sub-score has its point. */
  lemma ListedHavePoints(sub: seq<(string, real)>, keys: seq<string>)
    ensures var r := PointsFor(sub, keys);
      forall j :: 0 <= j < |sub| && sub[j].0 in keys ==> exists i :: 0 <= i < |r| && r[i] == Point(sub[j])
  {
    var available := Seqs.Filter(sub, Listed(keys));
    var r := PointsFor(sub, keys);
    forall j | 0 <= j < |sub| && sub[j].0 in keys ensures exists i :: 0 <= i < |r| && r[i] == Point(sub[j]) {
      assert sub[j] in available;
      var i :| 0 <= i < |available| && available[i] == sub[j];
      assert r[i] == Point(sub[j]);
    }
  }

  /** Point `i` is drawn from the `i`-th listed sub-score: the points follow
      the stored order, one per listed sub-score (the order and number of
      copies kept are those `Seqs.Filter` and `Seqs.FilterCounts` state). */
  lemma RadarFollowsStoredOrder(sub: seq<(string, real)>, sport: Option<string>)
    ensures |BuildRadarData(Some(sub), sport)| == |Seqs.Filter(sub, Listed(RadarKeys(sport)))|
    ensures forall i :: 0 <= i < |BuildRadarData(Some(sub), sport)| ==>
              BuildRadarData(Some(sub), sport)[i] == Point(Seqs.Filter(sub, Listed(RadarKeys(sport)))[i])
  {
    var keys := RadarKeys(sport);
    assert BuildRadarData(Some(sub), sport) == PointsFor(sub, keys);
  }

  /** The radar holds a point for every listed sub-score and for nothing else;
      it is empty exactly when no stored key is on the sport's list. */
  lemma RadarPointsAreListed(sub: seq<(string, real)>, sport: Option<string>)
    ensures forall i :: 0 <= i < |BuildRadarData(Some(sub), sport)| ==>
              exists j :: 0 <= j < |sub| && sub[j].0 in RadarKeys(sport) && BuildRadarData(Some(sub), sport)[i] == Point(sub[j])
    ensures forall j :: 0 <= j < |sub| && sub[j].0 in RadarKeys(sport) ==>
              exists i :: 0 <= i < |BuildRadarData(Some(sub), sport)| && BuildRadarData(Some(sub), sport)[i] == Point(sub[j])
    ensures BuildRadarData(Some(sub), sport) == [] <==> forall j :: 0 <= j < |sub| ==> sub[j].0 !in RadarKeys(sport)
  {
    var keys := RadarKeys(sport);
    assert BuildRadarData(Some(sub), sport) == PointsFor(sub, keys);
    PointsAreListed(sub, keys);
    ListedHavePoints(sub, keys);
  }

  /** With stored sub-scores on the backend's 0-1000 scale, every radar value
      lies in [0, 100]. */
  lemma RadarOnScale(subScores: Option<seq<(string, real)>>, sport: Option<string>)
    requires forall j :: 0 <= j < |subScores.GetOr([])| ==> 0.0 <= subScores.GetOr([])[j].1 <= 1000.0
    ensures var r := BuildRadarData(subScores, sport);
      forall i :: 0 <= i < |r| ==> 0 <= r[i].value <= 100
  {
    var r := BuildRadarData(subScores, sport);
    var sub := subScores.GetOr([]);
    PointsAreListed(sub, RadarKeys(sport));
    forall i | 0 <= i < |r| ensures 0 <= r[i].value {
      var j :| 0 <= j < |sub| && sub[j].0 in RadarKeys(sport) && r[i] == Point(sub[j]);
    }
  }
}

/** The one-line commentary each feed card shows (`generateNarrative`): a
    priority list of candidate sentences about the athlete's meta score, the
    clip's top metric, the athlete's role and the scout summary, of which the
    first that applies is shown.  The sentences are JSX; the model records
    which branch fired and what it shows. */
module Narrative {
  import opened Common
  import opened Entities
  import opened Text
  import Seqs
  import Sorting

  datatype Narrative =
    | Processing                                // "Performance data is being processed."
    | Summary(summary: string)                  // the summary, when no metric is numeric
    | ElitePerformer(meta: real, sport: string) // meta score and `sport || 'their sport'`
    | Exceptional(metric: string, value: real)  // top metric's label and value
    | Scouted(role: string)
    | Quoted(quote: string)
    | MetricCount(count: nat)                   // the number of numeric metrics

  /** The numeric metric entries of a clip, in key order. */
  function NumericEntries(es: seq<MetricEntry>): (r: seq<MetricEntry>)
    ensures |r| <= |es|
    ensures forall i :: 0 <= i < |r| ==> r[i].1.Num?
  {
    Seqs.Filter(es, (e: MetricEntry) => e.1.Num?)
  }

  /** A metric entry's number, for numeric entries. */
  function Value(e: MetricEntry): real
  {
    if e.1.Num? then e.1.value else 0.0
  }

  /** The head of the numeric keys sorted by value, highest first. */
  function TopMetric(es: seq<MetricEntry>): (top: MetricEntry)
    requires NumericEntries(es) != []
    ensures top.1.Num?
  {
    var sorted := Sorting.SortDesc(NumericEntries(es), Value);
    assert sorted[0] in multiset(sorted);
    sorted[0]
  }

  /** The top metric is a numeric entry whose value no numeric entry exceeds,
      and of the entries with that value it is the first in key order: the
      sort is stable. */
  lemma TopMetricIsEarliestMaximum(es: seq<MetricEntry>)
    requires NumericEntries(es) != []
    ensures var nums, top := NumericEntries(es), TopMetric(es);
      && (forall i :: 0 <= i < |nums| ==> Value(nums[i]) <= Value(top))
      && (exists i :: 0 <= i < |nums| && nums[i] == top && forall j :: 0 <= j < i ==> Value(nums[j]) < Value(top))
  {
    Sorting.HeadIsFirstMaximum(NumericEntries(es), Value);
  }


  /** Every numeric entry of the clip is among `NumericEntries`, so the top
      metric's value bounds every number the clip holds. */
  lemma TopMetricBoundsClip(es: seq<MetricEntry>)
    requires NumericEntries(es) != []
    ensures forall i :: 0 <= i < |es| && es[i].1.Num? ==> es[i].1.value <= Value(TopMetric(es))
  {
    TopMetricIsEarliestMaximum(es);
    var nums := NumericEntries(es);
    forall i | 0 <= i < |es| && es[i].1.Num? ensures es[i].1.value <= Value(TopMetric(es)) {
      assert es[i] in nums;
      var j :| 0 <= j < |nums| && nums[j] == es[i];
    }
  }

  /** The top key as a label: underscores become spaces, the first "score"
      or "rating" (any case) is dropped, and surrounding white space is
      trimmed. */
  function MetricLabel(key: string): string
  {
    Trim(RemoveScoreWord(UnderscoresToSpaces(key)))
  }

  /** `sport || 'their sport'`. */
  function SportName(sport: Option<string>): string
  {
    if TruthyStr(sport) then sport.value else "their sport"
  }

  /** The narrative when no metric is numeric: `post.scoutSummary || …`. */
  function Unanalysed(p: Post): (n: Narrative)
    ensures TruthyStr(p.scoutSummary) ==> n == Summary(p.scoutSummary.value)
    ensures !TruthyStr(p.scoutSummary) ==> n == Processing
  {
    if TruthyStr(p.scoutSummary) then Summary(p.scoutSummary.value) else Processing
  }

  /** The five candidates in priority order, each present when its guard
      holds; the metric count is always present.  `eliteGuard` is the page's
      test on the meta score. */
  function Candidates(p: Post, eliteGuard: bool): (opts: seq<Option<Narrative>>)
    requires NumericEntries(p.aiMetrics) != []
    requires eliteGuard ==> MetaOf(p).Some?
    ensures |opts| == 5 && opts[4].Some?
  {
    var top := TopMetric(p.aiMetrics);
    [ if eliteGuard then Some(ElitePerformer(MetaOf(p).value, SportName(SportOf(p)))) else None,
      if Value(top) >= 8.5 then Some(Exceptional(MetricLabel(top.0), Value(top))) else None,
      if TruthyStr(RoleOf(p)) then Some(Scouted(RoleOf(p).value)) else None,
      if TruthyStr(p.scoutSummary) then Some(Quoted(p.scoutSummary.value)) else None,
      Some(MetricCount(|NumericEntries(p.aiMetrics)|)) ]
  }

  /** The candidates that are present, in order: `filter(Boolean)`. */
  function Present(opts: seq<Option<Narrative>>): (r: seq<Option<Narrative>>)
    ensures forall i :: 0 <= i < |r| ==> r[i].Some?
  {
    Seqs.Filter(opts, (o: Option<Narrative>) => o.Some?)
  }

  /** The recruiter page's guard `meta >= 700` (an absent score compares false). */
  predicate RecruiterElite(p: Post)
  {
    MetaOf(p).Some? && MetaOf(p).value >= 700.0
  }

  /** The explore page's guard `meta && meta >= 700`. */
  predicate ExploreElite(p: Post)
  {
    TruthyNum(MetaOf(p)) && MetaOf(p).value >= 700.0
  }

  /** `generateNarrative(post)` on the recruiter page:
      `narrativeOptions.filter(Boolean)[0]`. */
  function GenerateNarrative(p: Post): (n: Narrative)
    ensures NumericEntries(p.aiMetrics) == [] ==> n == Unanalysed(p)
    ensures NumericEntries(p.aiMetrics) != [] ==> !n.Processing? && !n.Summary?
  {
    if NumericEntries(p.aiMetrics) == [] then Unanalysed(p)
    else
      var opts := Candidates(p, RecruiterElite(p));
      var present := Present(opts);
      assert opts[4] in present;
      present[0].value
  }

  /** `generateNarrative(post)` on the explore page: the first present
      candidate, else the last one, which is absent only if no candidate is
      present. */
  function ExploreNarrative(p: Post): (n: Option<Narrative>)
    ensures NumericEntries(p.aiMetrics) == [] ==> n == Some(Unanalysed(p))
  {
    if NumericEntries(p.aiMetrics) == [] then Some(Unanalysed(p))
    else
      var present := Present(Candidates(p, ExploreElite(p)));
      var first := if |present| > 0 then present[0] else None;
      var last := if |present| > 0 then present[|present| - 1] else None;
      if first.Some? then first else last
  }

  /** The priority order written as a chain of tests: the first branch whose
      guard holds wins. */
  function ByPriority(p: Post): Narrative
    requires NumericEntries(p.aiMetrics) != []
  {
    var top := TopMetric(p.aiMetrics);
    if RecruiterElite(p) then ElitePerformer(MetaOf(p).value, SportName(SportOf(p)))
    else if Value(top) >= 8.5 then Exceptional(MetricLabel(top.0), Value(top))
    else if TruthyStr(RoleOf(p)) then Scouted(RoleOf(p).value)
    else if TruthyStr(p.scoutSummary) then Quoted(p.scoutSummary.value)
    else MetricCount(|NumericEntries(p.aiMetrics)|)
  }

  lemma FilterSomeCons(o: Option<Narrative>, rest: seq<Option<Narrative>>)
    ensures Present([o] + rest) == (if o.Some? then [o] else []) + Present(rest)
  {
    Seqs.FilterCons(o, rest, (o: Option<Narrative>) => o.Some?);
  }

  /** The first present candidate of a list is the first `Some` in it. */
  lemma {:induction false} FirstPresent(opts: seq<Option<Narrative>>, i: nat)
    requires i < |opts| && opts[i].Some?
    requires forall j :: 0 <= j < i ==> opts[j].None?
    ensures Present(opts) != [] && Present(opts)[0] == opts[i]
  {
    FilterSomeCons(opts[0], opts[1..]);
    assert opts == [opts[0]] + opts[1..];
    if i > 0 {
      FirstPresent(opts[1..], i - 1);
    }
  }

  /** Filtering and taking the first is the same as the chain of tests: the
      first candidate whose guard holds is shown, and exactly one is. */
  lemma NarrativeIsFirstMatch(p: Post)
    requires NumericEntries(p.aiMetrics) != []
    ensures GenerateNarrative(p) == ByPriority(p)
  {
    var opts := Candidates(p, RecruiterElite(p));
    var i := if opts[0].Some? then 0 else if opts[1].Some? then 1 else if opts[2].Some? then 2
             else if opts[3].Some? then 3 else 4;
    FirstPresent(opts, i);
  }

  /** The two pages' guards agree, and the explore page's fallback never
      fires: both pages show the same branch, and always one. */
  lemma PagesAgree(p: Post)
    ensures ExploreNarrative(p) == Some(GenerateNarrative(p))
  {
    if NumericEntries(p.aiMetrics) != [] {
      assert RecruiterElite(p) == ExploreElite(p);
      var opts := Candidates(p, RecruiterElite(p));
      assert opts[4] in Present(opts);
    }
  }

  /** A clip of an athlete with meta score 750 opens with the elite line,
      whatever its metrics. */
  lemma EliteExample(p: Post)
    requires p.athlete.Some? && p.athlete.value.metaScore == Some(750.0)
    requires NumericEntries(p.aiMetrics) != []
    ensures GenerateNarrative(p).ElitePerformer? && GenerateNarrative(p).meta == 750.0
  {
    NarrativeIsFirstMatch(p);
  }
}

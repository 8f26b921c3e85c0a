/** The score badges the two explore pages draw: the five-tier label, the
    three-band score colour, and the metric bar.  Both pages define the same
    helpers; they are modelled once. */
module Tiers {
  import opened Common

  datatype Tier = Unranked | Elite | Pro | Developing | Rising | Beginner

  /** The least score of each ranked tier; `Beginner` has none. */
  function Floor(t: Tier): Option<real>
  {
    match t
    case Elite => Some(800.0)
    case Pro => Some(700.0)
    case Developing => Some(500.0)
    case Rising => Some(400.0)
    case _ => None
  }

  /** Tiers from best to worst; `Unranked` last. */
  function Rank(t: Tier): nat
  {
    match t
    case Elite => 0
    case Pro => 1
    case Developing => 2
    case Rising => 3
    case Beginner => 4
    case Unranked => 5
  }

  /** `getScoreTier(s)`: an absent or zero score is unranked; otherwise the
      best tier whose floor the score reaches, and `Beginner` below 400
      (negative scores included). */
  function ScoreTier(s: Option<real>): (t: Tier)
    ensures t == Unranked <==> !TruthyNum(s)
    ensures t != Unranked && Floor(t).Some? ==> s.value >= Floor(t).value
    ensures t != Unranked ==> forall u :: Rank(u) < Rank(t) && Floor(u).Some? ==> s.value < Floor(u).value
  {
    if !TruthyNum(s) then Unranked
    else if s.value >= 800.0 then Elite
    else if s.value >= 700.0 then Pro
    else if s.value >= 500.0 then Developing
    else if s.value >= 400.0 then Rising
    else Beginner
  }

  /** A higher non-zero score never gets a worse tier. */
  lemma TierMonotone(a: real, b: real)
    requires a != 0.0 && b != 0.0
    requires a <= b
    ensures Rank(ScoreTier(Some(b))) <= Rank(ScoreTier(Some(a)))
  {
  }

  /** The exact boundaries: absent and 0 are unranked, 799 is Pro, 800 is
      Elite, 400 is Rising, 399 and -1 are Beginner. */
  lemma TierBoundaries()
    ensures ScoreTier(None) == Unranked && ScoreTier(Some(0.0)) == Unranked
    ensures ScoreTier(Some(799.0)) == Pro && ScoreTier(Some(800.0)) == Elite
    ensures ScoreTier(Some(400.0)) == Rising && ScoreTier(Some(399.0)) == Beginner
    ensures ScoreTier(Some(-1.0)) == Beginner
  {
  }

  /** `getScoreColor(s)`: grey when absent or zero, green from 700, amber
      from 400, red below. */
  function ScoreColour(s: Option<real>): (c: Colour)
    ensures c == Grey <==> !TruthyNum(s)
    ensures c == Green <==> TruthyNum(s) && s.value >= 700.0
    ensures c == Amber <==> TruthyNum(s) && 400.0 <= s.value < 700.0
    ensures c == Red <==> TruthyNum(s) && s.value < 400.0
  {
    if !TruthyNum(s) then Grey
    else if s.value >= 700.0 then Green
    else if s.value >= 400.0 then Amber
    else Red
  }

  /** The colour a tier's badge is drawn in. */
  function TierColour(t: Tier): Colour
  {
    match t
    case Unranked => Grey
    case Elite => Green
    case Pro => Green
    case Developing => Amber
    case Rising => Amber
    case Beginner => Red
  }

  /** The colour bands are unions of tiers: the colour is a function of the
      tier. */
  lemma ColourFollowsTier(s: Option<real>)
    ensures ScoreColour(s) == TierColour(ScoreTier(s))
  {
  }

  /** `MetricBar`'s fill: `Math.min(Math.round((v / 10) * 100), 100)` percent. */
  function BarPercent(v: real): (p: int)
    ensures p <= 100
    ensures 0.0 <= v ==> 0 <= p
    ensures Round(v * 10.0) < 100 ==> p == Round(v * 10.0)
    ensures Round(v * 10.0) >= 100 ==> p == 100
  {
    var r := Round((v / 10.0) * 100.0);
    if r < 100 then r else 100
  }

  /** The fill never shrinks as the value grows. */
  lemma BarPercentMonotone(a: real, b: real)
    requires a <= b
    ensures BarPercent(a) <= BarPercent(b)
  {
    RoundMonotone((a / 10.0) * 100.0, (b / 10.0) * 100.0);
  }

  /** The bar's colour: green from 80 percent, amber from 60, red below. */
  function BarColour(pct: int): (c: Colour)
    ensures c != Grey
    ensures c == Green <==> pct >= 80
    ensures c == Amber <==> 60 <= pct < 80
    ensures c == Red <==> pct < 60
  {
    if pct >= 80 then Green else if pct >= 60 then Amber else Red
  }

  /** In metric units the bar turns green exactly from 7.95 and amber from
      5.95, because of the rounding. */
  lemma BarColourThresholds(v: real)
    ensures BarColour(BarPercent(v)) == Green <==> v >= 7.95
    ensures BarColour(BarPercent(v)) == Amber <==> 5.95 <= v < 7.95
  {
  }
}

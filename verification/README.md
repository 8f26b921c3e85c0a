# Scoutrix scoring and discovery, modelled in Dafny

Scoutrix is a sports-scouting web application. Athletes upload clips that an
AI rates, and recruiters browse, filter, shortlist and save athletes and post
trial opportunities. This project models the application's computational core
as pure functions over immutable datatypes, and proves properties of them:

- **Score aggregation** on the profile page (`calculateDynamicScore`).
  - Per-key averages of the numeric AI metrics give the sub-scores.
  - Their mean, times a confidence multiplier, gives the sport score.
  - An activity credit is added to give the meta score.
  - The chart and radar helpers put values on a 0-100 display scale.
- **Badges** on both explore pages: the five-tier label, the three-band
  colour, the metric bar, and the narrative line that picks the first
  candidate sentence that applies.
- **Discovery.**
  - The recruiter feed's region heuristic and its conjunctive filter.
  - The live bar's top score.
  - The explore feed's tagged merge of videos and opportunities, stably
    sorted newest first, with its error classification, sport filter and
    "New" badge.
- **Backend controllers.**
  - The recruiter shortlist: criteria posted as text, the query, sort by
    sport score (a missing score sorts last), limit.
  - Saved-players toggle.
  - Opportunity create, list and apply, over an in-memory collection.
- **The opportunity form**: its sport/role consistency invariant.

JavaScript numbers are Dafny `real`s. `Math.round(x)` is `(x + 0.5).Floor`.
JavaScript falsiness is modelled explicitly:
- an absent or zero number is falsy (`Common.TruthyNum`);
- an absent or empty string is falsy (`Common.TruthyStr`).

Database ids are an abstract type with equality. A database query is a filter
(`Seqs.Filter`), its `sort({ f: -1 })` is the stable descending sort
`Sorting.SortDesc`, and its `limit(n)` is `Seqs.Take`. JSX output is modelled
as a datatype naming the branch that fired and the values it shows.

Module layout:

| module | file | models |
|---|---|---|
| `Common` | common.dfy | Option, rounding, falsiness, sums and means |
| `Text` | text.dfy | lower-casing, `includes`, `split(' ')[0]`, `trim`, the label rewrites |
| `Seqs` | seqs.dfy | `filter`, `slice`, `reverse` |
| `Sorting` | sorting.dfy | the stable descending sort |
| `Entities` | entities.dfy | athletes, posts, profiles, opportunities, callers |
| `Metrics` | metrics.dfy | reading a post's `aiMetrics` |
| `Scoring` | scoring.dfy | `calculateDynamicScore` |
| `Charts` | charts.dfy | `buildChartData`, `buildRadarData`, `scoreColor` |
| `Tiers` | tiers.dfy | `getScoreTier`, `getScoreColor`, `MetricBar` |
| `Narrative` | narrative.dfy | `generateNarrative` on both pages |
| `Discovery` | discovery.dfy | `regionMatch`, `filtered`, `LiveBar`, the local saved list |
| `Feed` | feed.dfy | `fetchFeed`, `filteredPosts`, `isRecent` |
| `SavedPlayers` | savedplayers.dfy | `toggleSavePlayer` |
| `Shortlist` | shortlist.dfy | `generateShortlist` up to the ranked, limited list |
| `Opportunities` | opportunities.dfy | the opportunity controller |
| `PostForm` | postform.dfy | the opportunity form's `ROLES` rule |

The two explore pages define identical `getScoreTier`, `getScoreColor` and
`MetricBar` helpers; they are modelled once. Each row below cites the
recruiter page's copy; the explore page's copy is
frontend/src/pages/ExplorePage.jsx lines 22-36 and 79-81.

## Model

| member | source | states |
|---|---|---|
| Common.Round | frontend/src/pages/ProfilePage.jsx:118 | `Math.round` gives the integer r with r - 0.5 <= x < r + 0.5, so halves round up |
| Common.OrZero | frontend/src/pages/ProfilePage.jsx:77-78 | `a \|\| b \|\| 0` on optional numbers: a if truthy, else b if truthy, else 0 |
| Common.MeanBounds | frontend/src/pages/ProfilePage.jsx:107 | the mean of a non-empty list of values in [lo, hi] lies in [lo, hi] |
| Text.ToLower | frontend/src/pages/RecruiterExplore.jsx:104 | `toLowerCase` keeps the length and lowers each letter in place |
| Text.Contains | frontend/src/pages/RecruiterExplore.jsx:104 | `s.includes(t)` holds exactly when t occurs in s at some index |
| Text.FirstToken | frontend/src/pages/RecruiterExplore.jsx:104 | `split(' ')[0]` is the longest prefix without a space; it ends at the first space or at the end |
| Text.RemoveScoreWord | frontend/src/pages/RecruiterExplore.jsx:43 | `replace(/score\|rating/i, '')` leaves the string unchanged exactly when neither word occurs in any letter case; otherwise it cuts out exactly the first match (the word at the first index where either matches) and keeps everything before and after it |
| Text.LeftmostScoreWord | frontend/src/pages/RecruiterExplore.jsx:43 | the position that replace removes at is the leftmost match of the pattern |
| Text.LeftmostIsFirst | frontend/src/pages/RecruiterExplore.jsx:43 | the first match is unique: any index where the pattern matches with no match before it is the leftmost one |
| Text.Trim | frontend/src/pages/RecruiterExplore.jsx:43 | `trim` leaves no white space at either end and removes only white space: the result is a contiguous part of the input, and everything before and after it is white space |
| Text.UnderscoresToSpaces | frontend/src/pages/RecruiterExplore.jsx:43 | `replace(/_/g, ' ')` keeps the length, turns each underscore into a space and keeps every other character (a character map, stated position by position) |
| Text.CapitalizeWords | frontend/src/pages/ProfilePage.jsx:66 | `replace(/\b\w/g, toUpperCase)` keeps the length and upper-cases exactly the word characters that start a word (a character map, stated position by position) |
| Seqs.Filter | frontend/src/pages/RecruiterExplore.jsx:336 | `filter` returns an order-preserving subsequence in which every element passes and every passing value of the input occurs |
| Seqs.FilterCounts | frontend/src/pages/RecruiterExplore.jsx:336 | `filter` keeps every copy of a passing value and no copy of any other value: each value occurs in the result as often as in the input if it passes, else never |
| Seqs.FilterSplit | backend/src/controllers/recruit.controller.js:34 | filtering by a test and by its negation splits a sequence: together the two results hold each element exactly as often as the input |
| Seqs.FilterAppend | frontend/src/pages/ExplorePage.jsx:347-350 | filtering a concatenation is concatenating the filtered parts |
| Seqs.Take | frontend/src/pages/ProfilePage.jsx:31 | `slice(0, n)` is the prefix of length min(n, length) |
| Seqs.Reverse | frontend/src/pages/ProfilePage.jsx:31 | `reverse` puts element i at position length - 1 - i |
| Sorting.SortDesc | frontend/src/pages/ExplorePage.jsx:352 | the comparator sort `key(b) - key(a)` gives a descending permutation that keeps each equal-key group in input order |
| Sorting.StableSortUnique | frontend/src/pages/ExplorePage.jsx:352 | two descending sequences that agree on every equal-key group are equal, so every stable sort gives the same result |
| Sorting.SubsequenceSorted | frontend/src/pages/ExplorePage.jsx:369-375 | filtering a descending sequence keeps it descending |
| Metrics.NumericValues | frontend/src/pages/ProfilePage.jsx:34 | `Object.values(m).filter(isNumber)` has at most one value per entry and is empty exactly when no metric is numeric |
| Metrics.NumericValuesAppend | frontend/src/pages/ProfilePage.jsx:34 | the numeric values of two runs of entries are those of the first, then those of the second |
| Metrics.NumericValuesSingle | frontend/src/pages/ProfilePage.jsx:34 | one entry contributes its value when it is a number and nothing when it is text; with the previous row this fixes every value and its order |
| Metrics.ValuesOfNonEmpty | frontend/src/pages/ProfilePage.jsx:97-102 | a key gets at least one value exactly when some post stores a number under it |
| Scoring.RecordAllAgrees | frontend/src/pages/ProfilePage.jsx:97-104 | after the nested `forEach`, `sums[k]` and `counts[k]` are the sum and number of k's numeric values; a key is listed exactly when it has one (for keys that are not `Object.prototype` property names) |
| Scoring.RecordAllDistinct | frontend/src/pages/ProfilePage.jsx:106 | `Object.keys(sums)` lists each key once |
| Scoring.Activity | frontend/src/pages/ProfilePage.jsx:83-85 | the activity credit is 150 or 200, and it is 200 exactly from 3 posts on |
| Scoring.Multiplier | frontend/src/pages/ProfilePage.jsx:114-116 | the multiplier is 0.8 for one post, 0.9 for two, 1.0 from three, on the total post count |
| Scoring.Fallback | frontend/src/pages/ProfilePage.jsx:75-81 | with no posts: a truthy top-level stored score is shown as stored, stored top-level sub-scores likewise; no user gives 0, 0 and no sub-scores |
| Scoring.FallbackUsesNested | frontend/src/pages/ProfilePage.jsx:77-79 | a falsy top-level score gives way to a truthy nested `scoutScore` one, and to 0 when that is falsy or absent; missing top-level sub-scores give the nested ones or none |
| Scoring.CalculateDynamicScore | frontend/src/pages/ProfilePage.jsx:74-123 | no posts gives the fallback; otherwise the sport score is an integer and meta = round(sport * 0.5 + activity) |
| Scoring.AnalysedEntries | frontend/src/pages/ProfilePage.jsx:87 | dropping posts with empty `aiMetrics` drops no metric entry |
| Scoring.ScoreFromTally | frontend/src/pages/ProfilePage.jsx:87-119 | with or without analysed posts, sub-scores and sport score come from the tally of all posts' metrics and the total-post multiplier |
| Scoring.NoMetricsBaseline | frontend/src/pages/ProfilePage.jsx:87-121 | with posts but no numeric metric (none analysed, or string traits only) the sport score is 0, there are no sub-scores, and meta equals the activity credit |
| Scoring.TallyAverage | frontend/src/pages/ProfilePage.jsx:106-107 | a listed key's average is 100 times the mean of its numeric values |
| Scoring.SubScoresAreKeyMeans | frontend/src/pages/ProfilePage.jsx:97-111 | each sub-score is round(100 * mean) of its key's numeric values over all posts; each numeric key appears exactly once, and no other key appears |
| Scoring.SportScoreIsMeanOfKeyAverages | frontend/src/pages/ProfilePage.jsx:106-118 | sport = round(mean of the unrounded per-key averages * multiplier), each key weighted equally |
| Scoring.ScoresOnScale | frontend/src/pages/ProfilePage.jsx:97-121 | with every metric in [0, 10]: sub-scores and sport score lie in [0, 1000], meta in [150, 700] |
| Scoring.MetaBounds | frontend/src/pages/ProfilePage.jsx:121 | a sport score in [0, 1000] gives a meta score in [150, 700] |
| Scoring.MetaMonotone | frontend/src/pages/ProfilePage.jsx:121 | for a fixed post count, meta never decreases as sport grows |
| Charts.SessionScore | frontend/src/pages/ProfilePage.jsx:34-35 | a clip with numeric metrics scores round(10 × sum / count) of its numeric values; a clip with none scores 0 |
| Charts.SessionScoreOnScale | frontend/src/pages/ProfilePage.jsx:35 | round(10 * mean) of values in [0, 10] lies in [0, 100] |
| Charts.BuildChartData | frontend/src/pages/ProfilePage.jsx:29-43 | at most 12 points, as many as there are analysed posts up to 12, labelled 1, 2, … in order, each with non-empty metrics |
| Charts.ChartPointsAreAnalysedPosts | frontend/src/pages/ProfilePage.jsx:30-41 | point i is the analysed post |r| - 1 - i from the front, with that post's date, metrics and session score |
| Charts.ChartIsChronological | frontend/src/pages/ProfilePage.jsx:31 | for a newest-first post list, chart dates never decrease left to right |
| Charts.ChartScoresOnScale | frontend/src/pages/ProfilePage.jsx:35 | with metrics in [0, 10] every chart score lies in [0, 100] |
| Charts.ShownScoreAsWritten | frontend/src/pages/ProfilePage.jsx:36-41 | the point's `score` as built: a metric stored under "score" replaces the session score |
| Charts.ShownScoreShadowed | frontend/src/pages/ProfilePage.jsx:36-41 | a clip whose only metric is `score: 9` has session score 90 but shows 9 |
| Charts.Lookup | frontend/src/pages/ProfilePage.jsx:36-41 | the value the spread copies onto a point under a key: absent exactly when no metric has that key, otherwise a stored entry under it |
| Charts.SessionColour | frontend/src/pages/ProfilePage.jsx:22 | green exactly from 75, amber exactly in [50, 75), red exactly below 50 |
| Charts.RadarValue | frontend/src/pages/ProfilePage.jsx:56-68 | every value is at most 100; above 100 it is round(v / 10), capped at 100 from 1005; a non-integer in (0, 10] gives round(10v); any other value up to 100 gives round(v), so an integer is kept; [0, 1000] gives non-negative values |
| Charts.RadarScaleJump | frontend/src/pages/ProfilePage.jsx:60-64 | the scale guess is not monotone: 100 is drawn at 100, 101 at 10 |
| Charts.BuildRadarData | frontend/src/pages/ProfilePage.jsx:46-71 | no more points than stored sub-scores, every value at most 100 |
| Charts.RadarFollowsStoredOrder | frontend/src/pages/ProfilePage.jsx:53-70 | point i is drawn from the i-th stored sub-score whose key is on the sport's list, so there is one point per such sub-score, in stored order |
| Charts.RadarPointsAreListed | frontend/src/pages/ProfilePage.jsx:51-55 | every point comes from a stored sub-score whose key is on the sport's list, every such sub-score has a point, and the radar is empty exactly when no key is on the list |
| Charts.RadarOnScale | frontend/src/pages/ProfilePage.jsx:59-68 | sub-scores in [0, 1000] give radar values in [0, 100] |
| Tiers.ScoreTier | frontend/src/pages/RecruiterExplore.jsx:24-31 | unranked exactly for an absent or zero score; otherwise the best tier whose floor (800, 700, 500, 400) the score reaches, Beginner below |
| Tiers.TierMonotone | frontend/src/pages/RecruiterExplore.jsx:24-31 | a higher non-zero score never gets a worse tier |
| Tiers.TierBoundaries | frontend/src/pages/RecruiterExplore.jsx:24-31 | absent and 0 are Unranked; 799 is Pro, 800 Elite, 400 Rising, 399 and -1 Beginner |
| Tiers.ScoreColour | frontend/src/pages/RecruiterExplore.jsx:17-22 | grey exactly when absent or zero; then green exactly from 700, amber exactly in [400, 700), red below 400 |
| Tiers.ColourFollowsTier | frontend/src/pages/RecruiterExplore.jsx:17-31 | the colour is a function of the tier: each colour band is a union of tiers |
| Tiers.BarPercent | frontend/src/pages/RecruiterExplore.jsx:109 | `min(round(v / 10 * 100), 100)` is round(10v) whenever that is below 100 and exactly 100 otherwise, so it is at most 100 and non-negative for v >= 0 |
| Tiers.BarPercentMonotone | frontend/src/pages/RecruiterExplore.jsx:109 | the fill never shrinks as the value grows |
| Tiers.BarColour | frontend/src/pages/RecruiterExplore.jsx:110 | green exactly from 80 percent, amber exactly in [60, 80), red exactly below 60 |
| Tiers.BarColourThresholds | frontend/src/pages/RecruiterExplore.jsx:109-110 | in metric units the bar is green exactly from 7.95 and amber exactly in [5.95, 7.95) |
| Narrative.TopMetric | frontend/src/pages/RecruiterExplore.jsx:41 | the highest entry picked by the sort is a numeric metric |
| Narrative.TopMetricIsEarliestMaximum | frontend/src/pages/RecruiterExplore.jsx:39-42 | the top metric's value is at least every numeric value, and it is the first numeric key with that value |
| Narrative.TopMetricBoundsClip | frontend/src/pages/RecruiterExplore.jsx:41-42 | the top value bounds every number the clip stores |
| Narrative.Unanalysed | frontend/src/pages/RecruiterExplore.jsx:40 | with no numeric metric: the summary if it is non-empty, else the "being processed" line |
| Narrative.GenerateNarrative | frontend/src/pages/RecruiterExplore.jsx:33-85 | the no-metric case gives the summary or processing line; otherwise one of the five metric branches |
| Narrative.NarrativeIsFirstMatch | frontend/src/pages/RecruiterExplore.jsx:51-84 | filter-then-first equals the if-chain: meta >= 700, then top >= 8.5, then role, then summary, then the metric count |
| Narrative.ExploreNarrative | frontend/src/pages/ExplorePage.jsx:42-74 | the explore page's version; with no numeric metric it gives the same summary or processing line |
| Narrative.PagesAgree | frontend/src/pages/ExplorePage.jsx:57-73 | the explore page's `meta && meta >= 700` guard equals the recruiter page's; its fallback never fires; it always shows the same branch |
| Narrative.EliteExample | frontend/src/pages/RecruiterExplore.jsx:52-57 | an athlete with meta 750 gets the elite line whatever the metrics |
| Discovery.RegionMatch | frontend/src/pages/RecruiterExplore.jsx:102-105 | no region or 'All Regions' matches everything; any other region matches exactly when the lower-cased location contains the lower-cased region's first word somewhere, so a missing location never matches a region whose first word is non-empty |
| Discovery.RegionRejectsAbsent | frontend/src/pages/RecruiterExplore.jsx:102-105 | a one-word region the location does not contain in any letter case is rejected ("Kerala" against "Mumbai, Maharashtra") |
| Discovery.RegionFindsState | frontend/src/pages/RecruiterExplore.jsx:104 | a one-word region matches any "city, state" location naming it, in any case (so "Mumbai, Maharashtra" matches "Maharashtra") |
| Discovery.RegionNeedsLocation | frontend/src/pages/RecruiterExplore.jsx:103-104 | a region starting with a letter does not match a missing location |
| Discovery.RegionsSharingFirstWord | frontend/src/pages/RecruiterExplore.jsx:104 | only the first word counts: "West India" and "West Bengal" select the same athletes |
| Discovery.Filtered | frontend/src/pages/RecruiterExplore.jsx:335-352 | the cards are an order-preserving subsequence: each kept post meets all five conditions, and every post meeting them is kept as often as it occurs in the feed |
| Discovery.DefaultFiltersKeepAthletes | frontend/src/pages/RecruiterExplore.jsx:336-350 | with every control at its default, every post with an athlete is shown, in order |
| Discovery.TopScore | frontend/src/pages/RecruiterExplore.jsx:284-285 | null exactly when no positive meta score exists; otherwise a positive meta score from the feed that no other exceeds |
| Discovery.LocalToggle | frontend/src/pages/RecruiterExplore.jsx:151-157 | the local copy (empty when missing) holds the athlete exactly when it did not before; an unsaved athlete is appended, a saved one loses every copy with the rest kept in order, and every other id keeps its count |
| Discovery.LocalCopyAfterSave | frontend/src/pages/RecruiterExplore.jsx:144-157 | the stored copy may be stale: after a successful save it agrees with the server's list on the athlete exactly when it did before, and a copy that equalled the server's list still equals it |
| Feed.Merge | frontend/src/pages/ExplorePage.jsx:347-350 | every video tagged, in order, then every opportunity tagged; the length is the sum |
| Feed.TagVideos | frontend/src/pages/ExplorePage.jsx:348 | each video tagged as a video, in order (a map, stated position by position) |
| Feed.TagListings | frontend/src/pages/ExplorePage.jsx:349 | each opportunity tagged as a listing, in order (a map, stated position by position) |
| Feed.Compose | frontend/src/pages/ExplorePage.jsx:352 | the feed is a newest-first permutation of the merged entries |
| Feed.ComposeHoldsEverything | frontend/src/pages/ExplorePage.jsx:347-352 | every video and opportunity is in the feed, and nothing else is |
| Feed.TiesKeepVideosFirst | frontend/src/pages/ExplorePage.jsx:352 | entries with equal timestamps appear as the videos in server order, then the opportunities in server order |
| Feed.ComposeIsDetermined | frontend/src/pages/ExplorePage.jsx:352 | any newest-first order that keeps each timestamp's entries in merged order is the feed |
| Feed.TieExample | frontend/src/pages/ExplorePage.jsx:347-352 | a video and an opportunity at the same instant, and an older video, come out video, opportunity, old video |
| Feed.FetchFeed | frontend/src/pages/ExplorePage.jsx:332-367 | a feed is set exactly when both responses are ok, and then it is the composed feed; a network failure on the videos is "cannot reach" |
| Feed.AuthTakesPrecedence | frontend/src/pages/ExplorePage.jsx:340-341 | a 401 from either request is the auth error even if the other failed |
| Feed.ErrorsAreDistinguished | frontend/src/pages/ExplorePage.jsx:340-361 | auth error exactly on a 401; server error exactly on another non-ok status; "cannot reach" exactly on a network failure |
| Feed.SportFilter | frontend/src/pages/ExplorePage.jsx:369-375 | 'All' is the identity; otherwise an order-preserving subsequence keeping exactly opportunities with that `sport` and videos whose athlete has it |
| Feed.FilteredFeedStaysSorted | frontend/src/pages/ExplorePage.jsx:369-375 | the filtered feed is still newest first |
| Feed.IsRecent | frontend/src/pages/ExplorePage.jsx:268 | "New" exactly when the opportunity is less than 86 400 000 ms (24 hours) old |
| SavedPlayers.Remove | backend/src/controllers/user.controller.js:29-31 | every copy of the target is removed; every other id stays, as often as it was saved and in saved order |
| SavedPlayers.Toggle | backend/src/controllers/user.controller.js:25-35 | a saved id is removed everywhere, the rest kept in order; an unsaved one is appended at the end; every other id keeps its count |
| SavedPlayers.OthersUnchanged | backend/src/controllers/user.controller.js:25-35 | ids other than the target keep their membership |
| SavedPlayers.ToggleTwiceFromAbsent | backend/src/controllers/user.controller.js:25-35 | saving then unsaving restores the exact list |
| SavedPlayers.ToggleTwiceFromPresent | backend/src/controllers/user.controller.js:25-35 | unsaving then saving restores membership, with the target once, at the end |
| SavedPlayers.ToggleSavePlayer | backend/src/controllers/user.controller.js:10-49 | 404 with the list unchanged exactly when the target is missing or not an athlete; otherwise the message reflects prior membership and the stored list is the toggled list: the athlete flipped, every other saved id kept as often as before |
| Shortlist.BuildQuery | backend/src/controllers/recruit.controller.js:15-29 | each condition is present exactly when its field is truthy as posted (a non-empty string, so "0", or a non-zero number; sport also not 'All') |
| Shortlist.QueryMeansCriteria | backend/src/controllers/recruit.controller.js:15-29 | a document satisfies the built query exactly when it is an athlete meeting every given criterion: inclusive age bounds, a sport score at or above the given minimum, case-insensitive region |
| Shortlist.ZeroMinimumDropsUnscored | backend/src/controllers/recruit.controller.js:27-29 | a posted minimum of "0" is truthy, so it still excludes an athlete without a sport score |
| Shortlist.Limit | backend/src/controllers/recruit.controller.js:32 | 10 when `numProfiles` is not truthy; no limit when it reads as 0 (the text "0"); otherwise its number, which is positive |
| Shortlist.Candidates | backend/src/controllers/recruit.controller.js:33 | the matching documents, in collection order, all of them |
| Shortlist.RankByScore | backend/src/controllers/recruit.controller.js:34 | `sort({ sportScore: -1 })` ranks every document at least as high as each later one, a missing score sorting last, and keeps every document exactly as often |
| Shortlist.Cut | backend/src/controllers/recruit.controller.js:35 | `limit(n)` is the prefix of length min(n, length); no limit keeps everything |
| Shortlist.GenerateShortlist | backend/src/controllers/recruit.controller.js:8-36 | 403 exactly for a non-recruiter; otherwise distinct matching documents of the collection (a sub-multiset of the matches), ranked by sport score with missing scores last, exactly min(limit, matches) of them |
| Shortlist.ShortlistIsTopK | backend/src/controllers/recruit.controller.js:33-35 | a matching athlete left out means the list is full and its last entry ranks at least as high |
| Shortlist.ShortListIsComplete | backend/src/controllers/recruit.controller.js:33-35 | a list shorter than the limit, or under no limit, holds every matching athlete |
| Shortlist.ShortlistExample | backend/src/controllers/recruit.controller.js:27-35 | athletes at 900, 700, 850 with the posted minimum "800" give [900, 850] |
| Opportunities.Create | backend/src/controllers/opportunity.controller.js:5-28 | 403 for a non-recruiter and a validation failure for a missing or empty field, both leaving the store unchanged; otherwise the new document has the assigned id and timestamp, the caller, the six fields and no applicants, and is appended |
| Opportunities.CreateKeepsInvariants | backend/src/controllers/opportunity.controller.js:13-21 | creating keeps ids unique and applicant lists duplicate-free |
| Opportunities.ListAll | backend/src/controllers/opportunity.controller.js:32-42 | every opportunity, newest first |
| Opportunities.ListMine | backend/src/controllers/opportunity.controller.js:46-61 | 403 exactly for a non-recruiter; otherwise the caller's opportunities, newest first |
| Opportunities.MineIsExactlyMine | backend/src/controllers/opportunity.controller.js:52-54 | the listing holds every opportunity of the caller and nothing else |
| Opportunities.Find | backend/src/controllers/opportunity.controller.js:71 | `findById` finds the first document with the id, or none when no document has it |
| Opportunities.Apply | backend/src/controllers/opportunity.controller.js:65-89 | 403 for a non-athlete, 404 for an unknown id, 400 when already applied, each leaving the store unchanged; otherwise the caller is appended to that opportunity's applicants |
| Opportunities.ApplyKeepsInvariants | backend/src/controllers/opportunity.controller.js:76-82 | applying keeps applicant lists duplicate-free and ids unique, and leaves other opportunities untouched |
| Opportunities.ApplyTwiceRefused | backend/src/controllers/opportunity.controller.js:77-79 | a second application by the same athlete is refused with 400 and changes nothing |
| PostForm.RolesCoverSports | frontend/src/pages/RecruiterPost.jsx:6-11 | the role table has a non-empty entry for exactly the three offered sports |
| PostForm.Set | frontend/src/pages/RecruiterPost.jsx:28 | `{ ...prev, [name]: value }` changes the named field and no other |
| PostForm.HandleChange | frontend/src/pages/RecruiterPost.jsx:25-33 | a non-sport change sets that field only; a sport change also resets the role to the sport's first role, and fails exactly for a sport missing from the table |
| PostForm.InitialConsistent | frontend/src/pages/RecruiterPost.jsx:14-21 | the initial form (Cricket, Batsman) has a role its sport lists |
| PostForm.ChangeKeepsConsistent | frontend/src/pages/RecruiterPost.jsx:25-33 | every change the selects and inputs can send keeps the role one its sport lists, and never fails |
| PostForm.SportChangeKeepsText | frontend/src/pages/RecruiterPost.jsx:28-30 | a sport change keeps title, location, date and description |
| PostForm.AfterSubmit | frontend/src/pages/RecruiterPost.jsx:47-53 | a successful post resets the form to its initial values; a failed one leaves it |
| PostForm.SubmitKeepsConsistent | frontend/src/pages/RecruiterPost.jsx:53 | the form stays consistent after a submit, whatever the outcome |

## Left out

- fetch, `localStorage`, React state and effects, and JSX rendering. These
  are I/O and presentation. Responses become parameters: `Feed.Response`, the
  `succeeded` flag of `PostForm.AfterSubmit`, and the saved list of
  `Discovery.LocalToggle`.
- `Date.now()`, and the database's generated ids and timestamps, are
  parameters (`now`, `newId`).
- The `timeAgo` helpers print elapsed time. They depend on the clock and only
  format text.
- The live bar's `topSport` tally is left out; only its `topScore` is modelled.
- The shortlist's PDF rendering (pdfkit), e-mail invites and populated
  listings are foreign-library or database I/O.
- Authentication, and the route files' role guards. A guarded controller
  takes an authenticated caller of the guarded role as given.
- IEEE-754 effects. Numbers are exact reals, so sums do not accumulate
  rounding error.
- Case mapping covers ASCII letters only. Non-ASCII letters are left as they
  are; JavaScript would lower-case them.
- Object key order. Metric entries and sub-scores are sequences in property
  order and are assumed to have distinct keys. JavaScript lists integer-like
  keys first; that reordering is not modelled.
- Mongo query details beyond filter, sort and limit.
  - A negative or fractional `numProfiles` is passed through to `limit`; the
    model reads `numProfiles` as a natural number (`limit(0)`, no limit, is
    modelled).
  - A posted criterion is a numeral or empty, as the form's number inputs
    submit; a text that `Number` reads as `NaN` is not modelled.
  - The region is used as a regular expression; the model treats it as plain
    text, so a region containing metacharacters is out of scope.
  - Documents with equal sort keys are assumed to come back in collection
    order, the way a stable sort would return them.
- Metric keys that name `Object.prototype` properties. `sums[k] || 0`
  reads inherited members, so a key such as `constructor`, `toString` or
  `valueOf` turns that sub-score and the sport score into `NaN`, and a
  `__proto__` key is dropped. The model assumes no metric key is such a
  name.
- Failures of the JSON parse in `fetchFeed`, and the 500 replies for database
  errors, other than the validation failure on create.
- Charts.BuildChartData: a chart point keeps its metrics apart from its
  `name`, `score` and `date`; the page spreads the metrics over them (see
  Findings).
- Charts.BuildRadarData: its own contract states only the bounds; which
  points appear, how many and in what order is stated by
  `Charts.RadarFollowsStoredOrder` and `Charts.RadarPointsAreListed`.
- Seqs.Filter: its own contract states order and membership; the number of
  copies kept is stated by `Seqs.FilterCounts`, so that proofs that filter
  stay small.
- Narrative.GenerateNarrative: records the branch and the values each
  sentence shows, not the sentence wording, which differs between the pages.
- PostForm.HandleChange: the `TypeError` thrown for a sport missing from the
  table is modelled as no next form.

## Findings

| source | as written | input that shows it | evidently intended | confidence | as-written member | corrected member |
|---|---|---|---|---|---|---|
| frontend/src/pages/ProfilePage.jsx:36-41 | the chart point is `{ name, score: avg, date, ...metrics }`; the spread comes last, so a metric key `score`, `name` or `date` overwrites the computed field | a clip whose only metric is `score: 9`: session score 90, plotted at 9 | the plotted score is the session score; the metrics are only added for the tooltip | not executed; medium | Charts.ShownScoreAsWritten, Charts.ShownScoreShadowed | Charts.ChartPointsAreAnalysedPosts |

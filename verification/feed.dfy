/** The explore page's combined feed (`fetchFeed`, `filteredPosts`): video
    posts and recruiters' opportunities tagged, concatenated and stably sorted
    newest first; the two-status error classification of the responses; the
    sport filter; and the "New" badge test on opportunities. */
module Feed {
  import opened Common
  import opened Entities
  import Seqs
  import Sorting

  /** A feed entry: `{ ...v, feedType: 'video' }` or
      `{ ...o, feedType: 'opportunity' }`. */
  datatype FeedItem = Video(post: Post) | Listing(opp: Opportunity)

  /** `new Date(x.createdAt)` as the sort compares it, in milliseconds. */
  function CreatedAt(x: FeedItem): real
  {
    match x
    case Video(p) => p.createdAt as real
    case Listing(o) => o.createdAt as real
  }

  function TagVideos(videos: seq<Post>): (r: seq<FeedItem>)
    ensures |r| == |videos|
    ensures forall i :: 0 <= i < |r| ==> r[i] == Video(videos[i])
  {
    seq(|videos|, i requires 0 <= i < |videos| => Video(videos[i]))
  }

  function TagListings(opps: seq<Opportunity>): (r: seq<FeedItem>)
    ensures |r| == |opps|
    ensures forall i :: 0 <= i < |r| ==> r[i] == Listing(opps[i])
  {
    seq(|opps|, i requires 0 <= i < |opps| => Listing(opps[i]))
  }

  /** `combined` before sorting: every video, tagged, then every opportunity,
      tagged. */
  function Merge(videos: seq<Post>, opps: seq<Opportunity>): (r: seq<FeedItem>)
    ensures |r| == |videos| + |opps|
    ensures forall i :: 0 <= i < |videos| ==> r[i] == Video(videos[i])
    ensures forall j :: 0 <= j < |opps| ==> r[|videos| + j] == Listing(opps[j])
  {
    TagVideos(videos) + TagListings(opps)
  }

  /** The merged entries sorted by creation time, newest first, with the
      page's stable comparator sort. */
  function Compose(videos: seq<Post>, opps: seq<Opportunity>): (r: seq<FeedItem>)
    ensures |r| == |videos| + |opps|
    ensures multiset(r) == multiset(Merge(videos, opps))
    ensures Sorting.SortedDesc(r, CreatedAt)
  {
    Sorting.SortDesc(Merge(videos, opps), CreatedAt)
  }

  /** Every video and every opportunity appears in the feed, and the feed
      holds nothing else. */
  lemma ComposeHoldsEverything(videos: seq<Post>, opps: seq<Opportunity>)
    ensures forall i :: 0 <= i < |videos| ==> Video(videos[i]) in Compose(videos, opps)
    ensures forall j :: 0 <= j < |opps| ==> Listing(opps[j]) in Compose(videos, opps)
    ensures forall x :: x in Compose(videos, opps) ==>
              (x.Video? && x.post in videos) || (x.Listing? && x.opp in opps)
  {
    var m := Merge(videos, opps);
    var r := Compose(videos, opps);
    forall i | 0 <= i < |videos| ensures Video(videos[i]) in r {
      assert m[i] in multiset(m);
    }
    forall j | 0 <= j < |opps| ensures Listing(opps[j]) in r {
      assert m[|videos| + j] in multiset(m);
    }
    forall x | x in r ensures (x.Video? && x.post in videos) || (x.Listing? && x.opp in opps) {
      assert x in multiset(m);
      var k :| 0 <= k < |m| && m[k] == x;
      if k < |videos| {
        assert x == Video(videos[k]);
      } else {
        assert x == Listing(opps[k - |videos|]);
      }
    }
  }

  /** Stability: the entries sharing a timestamp keep the order of
      `combined`, so on a tie the videos come first, in the order the server
      sent them, and then the opportunities, in theirs. */
  lemma {:induction false} TiesKeepVideosFirst(videos: seq<Post>, opps: seq<Opportunity>, t: real)
    ensures Sorting.WithKey(Compose(videos, opps), CreatedAt, t)
         == Sorting.WithKey(TagVideos(videos), CreatedAt, t) + Sorting.WithKey(TagListings(opps), CreatedAt, t)
  {
    Sorting.WithKeyAppend(TagVideos(videos), TagListings(opps), CreatedAt, t);
  }

  /** The sort has exactly one possible outcome: any newest-first
      arrangement that keeps every timestamp's entries in their merged order
      is the composed feed. */
  lemma ComposeIsDetermined(videos: seq<Post>, opps: seq<Opportunity>, feed: seq<FeedItem>)
    requires Sorting.SortedDesc(feed, CreatedAt)
    requires forall t :: Sorting.WithKey(feed, CreatedAt, t) == Sorting.WithKey(Merge(videos, opps), CreatedAt, t)
    ensures feed == Compose(videos, opps)
  {
    Sorting.StableSortUnique(feed, Compose(videos, opps), CreatedAt);
  }

  /** A video and an opportunity posted at the same instant, and an older
      video: the tie goes to the video, the old video comes last. */
  lemma TieExample(v1: Post, v2: Post, o: Opportunity)
    requires v1.createdAt == 5000 && v2.createdAt == 1000 && o.createdAt == 5000
    ensures Compose([v1, v2], [o]) == [Video(v1), Listing(o), Video(v2)]
  {
    var m := Merge([v1, v2], [o]);
    var expected := [Video(v1), Listing(o), Video(v2)];
    assert m == [Video(v1), Video(v2), Listing(o)];
    assert Sorting.SortedDesc(expected, CreatedAt);
    forall t ensures Sorting.WithKey(expected, CreatedAt, t) == Sorting.WithKey(m, CreatedAt, t) {
      var a, b, c := Video(v1), Listing(o), Video(v2);
      Sorting.WithKeyCons(c, [], CreatedAt, t);
      Sorting.WithKeyCons(b, [c], CreatedAt, t);
      Sorting.WithKeyCons(a, [b, c], CreatedAt, t);
      Sorting.WithKeyCons(b, [], CreatedAt, t);
      Sorting.WithKeyCons(c, [b], CreatedAt, t);
      Sorting.WithKeyCons(a, [c, b], CreatedAt, t);
      assert [b] + [c] == [b, c] && [a] + [b, c] == expected;
      assert [c] + [b] == [c, b] && [a] + [c, b] == m;
      assert [c] + [] == [c] && [b] + [] == [b];
    }
    ComposeIsDetermined([v1, v2], [o], expected);
  }

  /** What the page does with one `fetch`: a thrown network error, or a
      response with its status and parsed body. */
  datatype Response<T> = NetworkError | Response(status: int, body: T)

  /** `res.ok`: a status in 200-299. */
  predicate Ok<T>(r: Response<T>)
  {
    r.Response? && 200 <= r.status <= 299
  }

  /** The page after `fetchFeed`: the feed, or the error it shows. */
  datatype Outcome =
    | Loaded(feed: seq<FeedItem>)
    | AuthExpired     // '__auth__': the session-expired panel
    | ServerFailure   // 'Server error — please try again.'
    | Unreachable     // a TypeError: 'Cannot reach the server. …'

  /** `fetchFeed`: the videos are fetched first; a network failure on either
      request is unreachable (the second request is not made after the first
      fails, which changes nothing here); then a 401 from either is the auth
      error, then any other non-ok status is the server error. */
  function FetchFeed(vids: Response<seq<Post>>, opps: Response<seq<Opportunity>>): (o: Outcome)
    ensures vids.NetworkError? ==> o == Unreachable
    ensures o.Loaded? <==> Ok(vids) && Ok(opps)
    ensures o.Loaded? ==> o.feed == Compose(vids.body, opps.body)
  {
    if vids.NetworkError? || opps.NetworkError? then Unreachable
    else if vids.status == 401 || opps.status == 401 then AuthExpired
    else if !Ok(vids) || !Ok(opps) then ServerFailure
    else Loaded(Compose(vids.body, opps.body))
  }

  /** A 401 on either request wins over a server error on the other: the
      page asks for a new login rather than a retry. */
  lemma AuthTakesPrecedence(vids: Response<seq<Post>>, opps: Response<seq<Opportunity>>)
    requires vids.Response? && opps.Response?
    requires vids.status == 401 || opps.status == 401
    ensures FetchFeed(vids, opps) == AuthExpired
  {
  }

  /** The three failures are told apart by their cause: the auth error comes
      only from a 401, the server error only from a non-401 failure status. */
  lemma ErrorsAreDistinguished(vids: Response<seq<Post>>, opps: Response<seq<Opportunity>>)
    ensures FetchFeed(vids, opps) == AuthExpired <==>
              vids.Response? && opps.Response? && (vids.status == 401 || opps.status == 401)
    ensures FetchFeed(vids, opps) == ServerFailure <==>
              vids.Response? && opps.Response? && vids.status != 401 && opps.status != 401
              && (!Ok(vids) || !Ok(opps))
    ensures FetchFeed(vids, opps) == Unreachable <==> vids.NetworkError? || opps.NetworkError?
  {
  }

  /** Whether an entry belongs to a sport: an opportunity by its `sport`, a
      video by its athlete's (`p.athleteId?.sport`; a missing athlete or
      sport never equals the chosen one). */
  predicate OfSport(x: FeedItem, sport: string)
  {
    match x
    case Listing(o) => o.sport == sport
    case Video(p) => SportOf(p) == Some(sport)
  }

  /** `filteredPosts`: the whole feed for 'All', otherwise the entries of
      the chosen sport in feed order. */
  function SportFilter(feed: seq<FeedItem>, sport: string): (r: seq<FeedItem>)
    ensures sport == "All" ==> r == feed
    ensures Seqs.IsSubsequence(r, feed)
    ensures sport != "All" ==> forall i :: 0 <= i < |r| ==> OfSport(r[i], sport)
    ensures sport != "All" ==> forall i :: 0 <= i < |feed| && OfSport(feed[i], sport) ==> feed[i] in r
  {
    if sport == "All" then
      Seqs.FilterAll(feed, (x: FeedItem) => true);
      assert Seqs.IsSubsequence(Seqs.Filter(feed, (x: FeedItem) => true), feed);
      feed
    else Seqs.Filter(feed, (x: FeedItem) => OfSport(x, sport))
  }

  /** Filtering the composed feed keeps it newest first. */
  lemma FilteredFeedStaysSorted(videos: seq<Post>, opps: seq<Opportunity>, sport: string)
    ensures Sorting.SortedDesc(SportFilter(Compose(videos, opps), sport), CreatedAt)
  {
    var feed := Compose(videos, opps);
    Sorting.SubsequenceSorted(SportFilter(feed, sport), feed, CreatedAt);
  }

  /** An opportunity card's "New" badge: fewer than 24 hours have passed
      since creation, measured in milliseconds. */
  function IsRecent(now: int, createdAt: int): (r: bool)
    ensures r <==> now - createdAt < 86_400_000
  {
    ((now - createdAt) as real) / 1000.0 / 3600.0 < 24.0
  }
}

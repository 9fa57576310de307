/**
 * The channel dashboard: totals over the caller's own videos, likes and
 * subscribers, and the listing of the caller's videos.
 */
module DashboardController {
  import opened Wrappers
  import opened Text
  import opened ObjectIds
  import opened Paging
  import opened Http
  import opened Db
  import VideoController

  /** The ids of the videos `owner` uploaded. */
  function OwnedVideos(s: Store, owner: Id): (ids: set<Id>)
    ensures forall id :: id in ids <==> id in s.videos && s.videos[id].owner == owner
  {
    set id | id in s.videos && s.videos[id].owner == owner
  }

  /** `video.views || 0`: a missing count (or an unknown video) counts as 0. */
  function ViewCount(s: Store, id: Id): int {
    if id in s.videos then s.videos[id].views.GetOr(0) else 0
  }

  ghost function Pick(ids: set<Id>): (id: Id)
    requires ids != {}
    ensures id in ids
  {
    var id :| id in ids; id
  }

  /** The total view count of a set of videos, independent of any order. */
  ghost function TotalViews(s: Store, ids: set<Id>): int
    decreases ids
  {
    if ids == {} then 0 else ViewCount(s, Pick(ids)) + TotalViews(s, ids - {Pick(ids)})
  }

  /** Any member can be taken out first: the total does not depend on the order of summation. */
  lemma {:induction false} TotalViewsRemove(s: Store, ids: set<Id>, y: Id)
    requires y in ids
    ensures TotalViews(s, ids) == ViewCount(s, y) + TotalViews(s, ids - {y})
    decreases ids
  {
    var x := Pick(ids);
    if x != y {
      TotalViewsRemove(s, ids - {x}, y);
      TotalViewsRemove(s, ids - {y}, x);
      assert ids - {x} - {y} == ids - {y} - {x};
    }
  }

  /** Two stores that agree on the view counts of a set of videos agree on its total. */
  lemma {:induction false} TotalViewsAgree(s: Store, t: Store, ids: set<Id>)
    requires forall id :: id in ids ==> ViewCount(s, id) == ViewCount(t, id)
    ensures TotalViews(s, ids) == TotalViews(t, ids)
    decreases ids
  {
    if ids != {} {
      TotalViewsAgree(s, t, ids - {Pick(ids)});
    }
  }

  /** The four totals `getChannelStats` answers with. */
  datatype ChannelStats = ChannelStats(totalVideos: nat, totalViews: int, totalLikes: nat, totalSubscribers: nat)

  /** The likes, by anyone, on the given videos. */
  function LikesOn(s: Store, ids: set<Id>): (ls: set<Like>)
    ensures forall l :: l in ls <==> l in s.likes && l.target.OnVideo? && l.target.video in ids
  {
    set l | l in s.likes && l.target.OnVideo? && l.target.video in ids
  }

  /** The subscriptions to a channel. */
  function SubscribersOf(s: Store, channel: Id): (ps: set<Subscription>)
    ensures forall p :: p in ps <==> p in s.subscriptions && p.channel == channel
  {
    set p | p in s.subscriptions && p.channel == channel
  }

  /**
   * `getChannelStats`. `found` is what the store answers to "the caller's
   * videos": each of them exactly once, in whatever order it keeps them. The
   * view total is summed over that list, a missing count as 0, and equals the
   * order-free total of the caller's videos.
   */
  method GetChannelStats(s: Store, caller: Id, found: seq<Id>) returns (r: Reply<ChannelStats>)
    requires forall i :: 0 <= i < |found| ==> found[i] in s.videos && s.videos[found[i]].owner == caller
    requires forall id :: id in s.videos && s.videos[id].owner == caller ==> id in found
    requires NoDuplicates(found)
    ensures r.store == s && r.result.Ok? && r.result.value.status == 200
    ensures r.result.value.message == "Channel stats fetched successfully"
    ensures r.result.value.data.totalViews == TotalViews(s, OwnedVideos(s, caller))
    ensures r.result.value.data.totalVideos == |OwnedVideos(s, caller)|
    ensures r.result.value.data.totalLikes == |LikesOn(s, OwnedVideos(s, caller))|
    ensures r.result.value.data.totalSubscribers == |SubscribersOf(s, caller)|
  {
    var owned := OwnedVideos(s, caller);
    var views := SumViews(s, found);
    ListedAll(s, caller, found);
    r := Answer(s, 200, ChannelStats(|owned|, views, |LikesOn(s, owned)|, |SubscribersOf(s, caller)|),
                "Channel stats fetched successfully");
  }

  /**
   * `videos.reduce((acc, video) => acc + (video.views || 0), 0)`: the views of
   * a list without repeats, summed in list order, are the order-free total of
   * the ids it holds.
   */
  method SumViews(s: Store, found: seq<Id>) returns (views: int)
    requires NoDuplicates(found)
    ensures views == TotalViews(s, Listed(found, |found|))
  {
    views := 0;
    var i := 0;
    while i < |found|
      invariant 0 <= i <= |found|
      invariant views == TotalViews(s, Listed(found, i))
    {
      TotalViewsStep(s, found, i);
      views := views + ViewCount(s, found[i]);
      i := i + 1;
    }
  }

  /** The ids among the first `i` entries of a list. */
  function Listed(xs: seq<Id>, i: nat): set<Id>
    requires i <= |xs|
  {
    set k | 0 <= k < i :: xs[k]
  }

  /** Adding the next entry's views gives the total over one more entry. */
  lemma TotalViewsStep(s: Store, xs: seq<Id>, i: nat)
    requires i < |xs| && NoDuplicates(xs)
    ensures TotalViews(s, Listed(xs, i + 1)) == TotalViews(s, Listed(xs, i)) + ViewCount(s, xs[i])
  {
    ListedStep(xs, i);
    TotalViewsRemove(s, Listed(xs, i + 1), xs[i]);
  }

  /** One more entry of a list without repeats adds exactly one new id. */
  lemma ListedStep(xs: seq<Id>, i: nat)
    requires i < |xs| && NoDuplicates(xs)
    ensures xs[i] in Listed(xs, i + 1) && xs[i] !in Listed(xs, i)
    ensures Listed(xs, i + 1) - {xs[i]} == Listed(xs, i)
  {
    assert xs[i] == xs[i];
  }

  /** A list naming exactly the caller's videos lists all of them. */
  lemma ListedAll(s: Store, caller: Id, found: seq<Id>)
    requires forall i :: 0 <= i < |found| ==> found[i] in s.videos && s.videos[found[i]].owner == caller
    requires forall id :: id in s.videos && s.videos[id].owner == caller ==> id in found
    ensures Listed(found, |found|) == OwnedVideos(s, caller)
  {
    forall id | id in OwnedVideos(s, caller) ensures id in Listed(found, |found|) {
      var k :| 0 <= k < |found| && found[k] == id;
    }
  }

  /** The store after one more view of video `id`. */
  function Bump(s: Store, id: Id): (t: Store)
    requires id in s.videos
    ensures t.videos.Keys == s.videos.Keys
    ensures ViewCount(t, id) == ViewCount(s, id) + 1
    ensures forall k :: k in s.videos && k != id ==> t.videos[k] == s.videos[k]
    ensures t.videos[id].owner == s.videos[id].owner
  {
    s.(videos := s.videos[id := s.videos[id].(views := Some(s.videos[id].views.GetOr(0) + 1))])
  }

  /** One more view of one of the owner's videos raises the owner's total by exactly one. */
  lemma BumpRaisesTotal(s: Store, owner: Id, id: Id)
    requires id in s.videos && s.videos[id].owner == owner
    ensures TotalViews(Bump(s, id), OwnedVideos(Bump(s, id), owner)) == TotalViews(s, OwnedVideos(s, owner)) + 1
  {
    var t := Bump(s, id);
    var owned := OwnedVideos(s, owner);
    assert OwnedVideos(t, owner) == owned;
    TotalViewsRemove(s, owned, id);
    TotalViewsRemove(t, owned, id);
    TotalViewsAgree(s, t, owned - {id});
  }

  /** So a successful `incrementVideoView` raises its owner's dashboard total by one. */
  lemma ViewRaisesChannelTotal(s: Store, caller: Id, videoId: string)
    requires VideoController.IncrementVideoView(s, videoId).result.Ok?
    requires s.videos[Cast(videoId)].owner == caller
    ensures var t := VideoController.IncrementVideoView(s, videoId).store;
            TotalViews(t, OwnedVideos(t, caller)) == TotalViews(s, OwnedVideos(s, caller)) + 1
  {
    BumpRaisesTotal(s, caller, Cast(videoId));
  }

  /** `getChannelVideos`'s inputs: the trimmed search, when non-blank, and the normalised paging. */
  datatype ChannelListing = ChannelListing(search: Option<string>, page: PageQuery)

  /**
   * `getChannelVideos`: the search applies only when the query is non-blank
   * and then uses the trimmed query; page, limit and sort are normalised.
   */
  function GetChannelVideos(page: Option<string>, limit: Option<string>, query: Option<string>,
                            sortBy: Option<string>, sortType: Option<string>): (l: ChannelListing)
    ensures WellFormed(l.page) && l.page == Normalize(page, limit, sortBy, sortType)
    ensures l.search.Some? <==> query.Some? && !IsBlank(query.value)
    ensures l.search.Some? ==> l.search.value == Trim(query.value) && l.search.value != []
  {
    if query.Some? && !IsBlank(query.value) then ChannelListing(Some(Trim(query.value)), Normalize(page, limit, sortBy, sortType))
    else ChannelListing(None, Normalize(page, limit, sortBy, sortType))
  }

  /**
   * The videos the listing can return, for a case-insensitive pattern matcher
   * `matches(pattern, text)`: only the caller's own, published or not,
   * filtered by title or description when there is a search.
   */
  function ChannelCandidates(s: Store, caller: Id, l: ChannelListing, matches: (string, string) -> bool): (ids: set<Id>)
    ensures ids <= OwnedVideos(s, caller)
    ensures l.search.None? ==> ids == OwnedVideos(s, caller)
    ensures forall id :: id in ids && l.search.Some? ==>
      matches(l.search.value, s.videos[id].title) || matches(l.search.value, s.videos[id].description)
    ensures l.search.Some? ==> forall id :: id in OwnedVideos(s, caller) ==>
      (id in ids <==> matches(l.search.value, s.videos[id].title) || matches(l.search.value, s.videos[id].description))
  {
    set id | id in s.videos && s.videos[id].owner == caller
             && (l.search.None? || matches(l.search.value, s.videos[id].title) || matches(l.search.value, s.videos[id].description))
  }

  /**
   * For the same search, the channel listing holds exactly the caller's
   * videos of the public listing, plus the caller's unpublished ones that
   * match: publishing is the only thing that separates the two.
   */
  lemma ChannelListingExtendsPublicListing(s: Store, caller: Id, q: Option<string>, page: PageQuery, matches: (string, string) -> bool)
    ensures forall id :: id in ChannelCandidates(s, caller, ChannelListing(q, page), matches) && s.videos[id].isPublished <==>
                         id in VideoController.Candidates(s, VideoController.VideoListing(q, page), matches) && s.videos[id].owner == caller
  {
  }

  /**
   * The listing `getChannelVideos` selects: all the caller's videos for an
   * absent or blank query, and otherwise those whose title or description
   * matches the trimmed query.
   */
  lemma ChannelVideosListing(s: Store, caller: Id, page: Option<string>, limit: Option<string>, query: Option<string>,
                             sortBy: Option<string>, sortType: Option<string>, matches: (string, string) -> bool)
    ensures var ids := ChannelCandidates(s, caller, GetChannelVideos(page, limit, query, sortBy, sortType), matches);
            forall id :: id in ids <==>
              && id in OwnedVideos(s, caller)
              && (query.None? || IsBlank(query.value)
                  || matches(Trim(query.value), s.videos[id].title) || matches(Trim(query.value), s.videos[id].description))
  {
  }
}

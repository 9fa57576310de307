/**
 * The like handlers. A like is a (liker, target) pair and the store keeps a
 * set of them, so each toggle either removes the caller's pair for that
 * target or adds it.
 */
module LikeController {
  import opened Wrappers
  import opened ObjectIds
  import opened Paging
  import opened Http
  import opened Db

  /** What one toggle did to the like set, as reported in `{ status }`. */
  datatype Toggled = Liked | Unliked

  function StatusText(t: Toggled): (s: string)
    ensures s == "Liked" || s == "Unliked"
    ensures t.Liked? <==> s == "Liked"
  {
    match t
    case Liked => "Liked"
    case Unliked => "Unliked"
  }

  /**
   * Flip one pair: it is removed when present and added when absent, and no
   * other pair comes or goes.
   */
  function Toggle(likes: set<Like>, l: Like): (r: (set<Like>, Toggled))
    ensures l in r.0 <==> l !in likes
    ensures r.1 == Liked <==> l !in likes
    ensures forall m :: m != l ==> (m in r.0 <==> m in likes)
  {
    if l in likes then (likes - {l}, Unliked) else (likes + {l}, Liked)
  }

  /** Toggling the same pair twice gives the like set back. */
  lemma ToggleTwice(likes: set<Like>, l: Like)
    ensures Toggle(Toggle(likes, l).0, l).0 == likes
    ensures Toggle(Toggle(likes, l).0, l).1 != Toggle(likes, l).1
  {
    var once := Toggle(likes, l).0;
    var twice := Toggle(once, l).0;
    forall m ensures m in twice <==> m in likes {
      if m == l {
      } else {
        assert m in twice <==> m in once;
      }
    }
  }

  /** Apply the toggle to the store and answer `{ status }` with 200. */
  function ToggleReply(s: Store, l: Like): (r: Reply<Doc>)
    ensures r.result.Ok? && r.result.value.status == 200
    ensures r.store == s.(likes := Toggle(s.likes, l).0)
    ensures r.result.value.data == map["status" := Str(StatusText(Toggle(s.likes, l).1))]
    ensures r.result.value.message == StatusText(Toggle(s.likes, l).1) + " successfully"
  {
    var (likes, t) := Toggle(s.likes, l);
    Answer(s.(likes := likes), 200, map["status" := Str(StatusText(t))], StatusText(t) + " successfully")
  }

  /**
   * `toggleVideoLike`: a well-formed id (400), an existing video (404), a
   * published video (400), then the caller's like of it flips.
   */
  function ToggleVideoLike(s: Store, caller: Id, videoId: string): (r: Reply<Doc>)
    ensures r.result.Err? ==> r.store == s
    ensures !IsValidObjectId(videoId) ==> RejectedWith(r, 400, "Id is not valid")
    ensures IsValidObjectId(videoId) && Cast(videoId) !in s.videos ==> RejectedWith(r, 404, "Video not found")
    ensures (IsValidObjectId(videoId) && Cast(videoId) in s.videos && !s.videos[Cast(videoId)].isPublished) ==>
      RejectedWith(r, 400, "Video is not published")
    ensures r.result.Ok? <==> IsValidObjectId(videoId) && Cast(videoId) in s.videos && s.videos[Cast(videoId)].isPublished
    ensures r.result.Ok? ==> r == ToggleReply(s, Like(caller, OnVideo(Cast(videoId))))
  {
    match FindIn(s.videos, videoId, "Id is not valid", "Video not found")
    case Err(e) => Reply(Err(e), s)
    case Ok(id) =>
      if !s.videos[id].isPublished then Reject(s, 400, "Video is not published")
      else ToggleReply(s, Like(caller, OnVideo(id)))
  }

  /** `toggleCommentLike`: a well-formed id (400), an existing comment (404), then the like flips. */
  function ToggleCommentLike(s: Store, caller: Id, commentId: string): (r: Reply<Doc>)
    ensures r.result.Err? ==> r.store == s
    ensures !IsValidObjectId(commentId) ==> RejectedWith(r, 400, "Id is not valid")
    ensures IsValidObjectId(commentId) && Cast(commentId) !in s.comments ==> RejectedWith(r, 404, "Comment not found")
    ensures r.result.Ok? <==> IsValidObjectId(commentId) && Cast(commentId) in s.comments
    ensures r.result.Ok? ==> r == ToggleReply(s, Like(caller, OnComment(Cast(commentId))))
  {
    match FindIn(s.comments, commentId, "Id is not valid", "Comment not found")
    case Err(e) => Reply(Err(e), s)
    case Ok(id) => ToggleReply(s, Like(caller, OnComment(id)))
  }

  /** `toggleTweetLike`: a well-formed id (400), an existing tweet (404), then the like flips. */
  function ToggleTweetLike(s: Store, caller: Id, tweetId: string): (r: Reply<Doc>)
    ensures r.result.Err? ==> r.store == s
    ensures !IsValidObjectId(tweetId) ==> RejectedWith(r, 400, "Id is not valid")
    ensures IsValidObjectId(tweetId) && Cast(tweetId) !in s.tweets ==> RejectedWith(r, 404, "Tweet not found")
    ensures r.result.Ok? <==> IsValidObjectId(tweetId) && Cast(tweetId) in s.tweets
    ensures r.result.Ok? ==> r == ToggleReply(s, Like(caller, OnTweet(Cast(tweetId))))
  {
    match FindIn(s.tweets, tweetId, "Id is not valid", "Tweet not found")
    case Err(e) => Reply(Err(e), s)
    case Ok(id) => ToggleReply(s, Like(caller, OnTweet(id)))
  }

  /**
   * Liking a video and toggling again gives the store back, and only the
   * caller's pair for that video ever changes.
   */
  lemma VideoLikeTwiceRestores(s: Store, caller: Id, videoId: string)
    requires ToggleVideoLike(s, caller, videoId).result.Ok?
    ensures var once := ToggleVideoLike(s, caller, videoId);
            && (forall m :: m != Like(caller, OnVideo(Cast(videoId))) ==> (m in once.store.likes <==> m in s.likes))
            && ToggleVideoLike(once.store, caller, videoId).result.Ok?
            && ToggleVideoLike(once.store, caller, videoId).store == s
  {
    ToggleTwice(s.likes, Like(caller, OnVideo(Cast(videoId))));
  }

  /** The comment toggle is its own inverse as well. */
  lemma CommentLikeTwiceRestores(s: Store, caller: Id, commentId: string)
    requires ToggleCommentLike(s, caller, commentId).result.Ok?
    ensures var once := ToggleCommentLike(s, caller, commentId).store;
            ToggleCommentLike(once, caller, commentId).store == s
  {
    ToggleTwice(s.likes, Like(caller, OnComment(Cast(commentId))));
  }

  /** And so is the tweet toggle. */
  lemma TweetLikeTwiceRestores(s: Store, caller: Id, tweetId: string)
    requires ToggleTweetLike(s, caller, tweetId).result.Ok?
    ensures var once := ToggleTweetLike(s, caller, tweetId).store;
            ToggleTweetLike(once, caller, tweetId).store == s
  {
    ToggleTwice(s.likes, Like(caller, OnTweet(Cast(tweetId))));
  }

  /** The normalised paging of the liked-video listing and the videos on it. */
  datatype LikedPage = LikedPage(page: int, limit: int, sortOrder: int, videos: set<Id>)

  /**
   * `getLikedVideos`: page and limit parsed with their defaults and a floor
   * of 1, the sort order 1 only for a literal 1; the listing holds the
   * videos the caller likes that still exist and are published.
   */
  function GetLikedVideos(s: Store, caller: Id, page: Option<string>, limit: Option<string>, sortType: Option<string>): (r: Reply<LikedPage>)
    ensures r.store == s && r.result.Ok?
    ensures var l := r.result.value.data;
            && l.page >= 1 && l.limit >= 1 && (l.sortOrder == 1 || l.sortOrder == -1)
            && (l.sortOrder == 1 <==> sortType.Some? && ParseInt(sortType.value) == Some(1))
            && l.page == PageNumber(page) && l.limit == LimitNumber(limit)
            && forall v :: v in l.videos <==> Like(caller, OnVideo(v)) in s.likes && v in s.videos && s.videos[v].isPublished
  {
    var liked := set l | l in s.likes && l.likedBy == caller && l.target.OnVideo?
                           && l.target.video in s.videos && s.videos[l.target.video].isPublished :: l.target.video;
    Answer(s, 200, LikedPage(PageNumber(page), LimitNumber(limit), SortOrder(sortType), liked), "liked videos fetched successfully")
  }

  /**
   * Liking a published video puts it in the caller's liked-video listing, and
   * a second toggle takes it out again.
   */
  lemma LikeShowsInLikedVideos(s: Store, caller: Id, videoId: string,
                               page: Option<string>, limit: Option<string>, sortType: Option<string>)
    requires ToggleVideoLike(s, caller, videoId).result.Ok?
    requires Like(caller, OnVideo(Cast(videoId))) !in s.likes
    ensures var once := ToggleVideoLike(s, caller, videoId).store;
            && Cast(videoId) in GetLikedVideos(once, caller, page, limit, sortType).result.value.data.videos
            && Cast(videoId) !in GetLikedVideos(ToggleVideoLike(once, caller, videoId).store, caller, page, limit, sortType).result.value.data.videos
  {
  }
}

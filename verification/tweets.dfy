/**
 * The tweet handlers. A tweet has content and an owner; only the content can
 * change, and only the owner may change or delete it. Unlike comments, an
 * update checks ownership before it looks at the content.
 */
module TweetController {
  import opened Wrappers
  import opened Text
  import opened ObjectIds
  import opened Paging
  import opened Http
  import opened Db

  /**
   * `createTweet`: non-blank content (400), stored trimmed with the caller as
   * owner.
   */
  function CreateTweet(s: Store, caller: Id, newId: Id, content: Value): (r: Reply<(Id, Tweet)>)
    ensures r.result.Err? ==> r.store == s
    ensures TrimOptional(content, "content") == Ok([]) ==> RejectedWith(r, 400, "Content is required")
    ensures r.result.Ok? <==> FilledIn(content) && newId !in s.tweets
    ensures r.result.Ok? ==>
      var t := Tweet(Trim(content.s), caller);
      && r.store == s.(tweets := s.tweets[newId := t])
      && r.result.value.data == (newId, t)
  {
    match TrimOptional(content, "content")
    case Err(e) => Reply(Err(e), s)
    case Ok(text) =>
      if text == [] then Reject(s, 400, "Content is required")
      else if newId in s.tweets then Throw(s, "E11000 duplicate key error collection: tweets index: _id_")
      else
        var t := Tweet(text, caller);
        Answer(s.(tweets := s.tweets[newId := t]), 200, (newId, t), "Tweet created successfully")
  }

  /** The normalised paging of a user's tweets and the tweets on it. */
  datatype TweetPage = TweetPage(query: PageQuery, tweets: set<Id>)

  /**
   * `getUserTweets`: a well-formed id (400) of an existing user (404); the
   * listing holds that user's tweets. Anyone may list anyone's tweets.
   */
  function GetUserTweets(s: Store, userId: string, page: Option<string>, limit: Option<string>,
                         sortBy: Option<string>, sortType: Option<string>): (r: Reply<TweetPage>)
    ensures r.store == s
    ensures !IsValidObjectId(userId) ==> RejectedWith(r, 400, "Id is not valid")
    ensures IsValidObjectId(userId) && FindUser(s.users, Cast(userId)).None? ==> RejectedWith(r, 404, "User does not exist")
    ensures r.result.Ok? <==> IsValidObjectId(userId) && FindUser(s.users, Cast(userId)).Some?
    ensures r.result.Ok? ==>
      var l := r.result.value.data;
      && WellFormed(l.query) && l.query == Normalize(page, limit, sortBy, sortType)
      && forall t :: t in l.tweets <==> t in s.tweets && s.tweets[t].owner == Cast(userId)
  {
    if !IsValidObjectId(userId) then Reject(s, 400, "Id is not valid")
    else if FindUser(s.users, Cast(userId)).None? then Reject(s, 404, "User does not exist")
    else
      var owned := set t | t in s.tweets && s.tweets[t].owner == Cast(userId);
      Answer(s, 200, TweetPage(Normalize(page, limit, sortBy, sortType), owned), "Tweets fetched successfully")
  }

  /**
   * `updateTweet`: a well-formed id (400), an existing tweet (404) the caller
   * owns (403), then non-blank content (400). Only the content changes, to
   * its trimmed value.
   */
  function UpdateTweet(s: Store, caller: Id, tweetId: string, content: Value): (r: Reply<(Id, Tweet)>)
    ensures r.result.Err? ==> r.store == s
    ensures FindOwned(s.tweets, (t: Tweet) => t.owner, caller, tweetId, "Tweet not found").Err? ==>
      r.result == Err(FindOwned(s.tweets, (t: Tweet) => t.owner, caller, tweetId, "Tweet not found").error)
    ensures (IsValidObjectId(tweetId) && Cast(tweetId) in s.tweets && IsOwner(caller, s.tweets[Cast(tweetId)].owner)
             && TrimOptional(content, "content") == Ok([])) ==>
      RejectedWith(r, 400, "Content is required")
    ensures r.result.Ok? <==> IsValidObjectId(tweetId) && Cast(tweetId) in s.tweets
                              && IsOwner(caller, s.tweets[Cast(tweetId)].owner) && FilledIn(content)
    ensures r.result.Ok? ==>
      var id := Cast(tweetId);
      var t := Tweet(Trim(content.s), s.tweets[id].owner);
      && r.store == s.(tweets := s.tweets[id := t])
      && r.result.value.data == (id, t) && r.result.value.message == "Tweet updated successfully"
  {
    match FindOwned(s.tweets, (t: Tweet) => t.owner, caller, tweetId, "Tweet not found")
    case Err(e) => Reply(Err(e), s)
    case Ok(id) =>
      match TrimOptional(content, "content")
      case Err(e) => Reply(Err(e), s)
      case Ok(text) =>
        if text == [] then Reject(s, 400, "Content is required")
        else
          var t := s.tweets[id].(content := text);
          Answer(s.(tweets := s.tweets[id := t]), 200, (id, t), "Tweet updated successfully")
  }

  /** Ownership is checked before content: a stranger sending blank content gets 403, not 400. */
  lemma UpdateTweetChecksOwnerFirst(s: Store, caller: Id, tweetId: string, content: Value)
    requires IsValidObjectId(tweetId) && Cast(tweetId) in s.tweets && !IsOwner(caller, s.tweets[Cast(tweetId)].owner)
    ensures RejectedWith(UpdateTweet(s, caller, tweetId, content), 403, "You dont have access to this")
  {
  }

  /** `deleteTweet`: the owner guards, then the tweet goes and nothing else does. */
  function DeleteTweet(s: Store, caller: Id, tweetId: string): (r: Reply<Doc>)
    ensures r.result.Err? ==> r.store == s
    ensures !IsValidObjectId(tweetId) ==> RejectedWith(r, 400, "Id is not valid")
    ensures IsValidObjectId(tweetId) && Cast(tweetId) !in s.tweets ==> RejectedWith(r, 404, "Tweet not found")
    ensures (IsValidObjectId(tweetId) && Cast(tweetId) in s.tweets && !IsOwner(caller, s.tweets[Cast(tweetId)].owner)) ==>
      RejectedWith(r, 403, "You dont have access to this")
    ensures r.result.Ok? <==> IsValidObjectId(tweetId) && Cast(tweetId) in s.tweets && IsOwner(caller, s.tweets[Cast(tweetId)].owner)
    ensures r.result.Ok? ==> r.store == s.(tweets := s.tweets - {Cast(tweetId)})
                             && r.result.value.data == map["deleted" := Bool(true)]
  {
    match FindOwned(s.tweets, (t: Tweet) => t.owner, caller, tweetId, "Tweet not found")
    case Err(e) => Reply(Err(e), s)
    case Ok(id) => Answer(s.(tweets := s.tweets - {id}), 200, map["deleted" := Bool(true)], "Tweet deleted successfully")
  }

  /** Updating a tweet twice with the same content is the same as updating it once. */
  lemma UpdateTweetIdempotent(s: Store, caller: Id, tweetId: string, content: Value)
    requires UpdateTweet(s, caller, tweetId, content).result.Ok?
    ensures var once := UpdateTweet(s, caller, tweetId, content).store;
            UpdateTweet(once, caller, tweetId, content).store == once
  {
    var id := Cast(tweetId);
    var once := UpdateTweet(s, caller, tweetId, content).store;
    assert once.tweets[id := Tweet(Trim(content.s), once.tweets[id].owner)] == once.tweets;
  }

  /** Deleting a tweet just created, by its author, gives the store back. */
  lemma DeleteUndoesCreate(s: Store, caller: Id, newId: Id, content: Value)
    requires CreateTweet(s, caller, newId, content).result.Ok?
    ensures var created := CreateTweet(s, caller, newId, content).store;
            DeleteTweet(created, caller, newId).result.Ok? && DeleteTweet(created, caller, newId).store == s
  {
    DeleteJustCreated(s, newId, Tweet(Trim(content.s), caller));
  }

  lemma DeleteJustCreated(s: Store, newId: Id, t: Tweet)
    requires newId !in s.tweets
    ensures var created := s.(tweets := s.tweets[newId := t]);
            DeleteTweet(created, t.owner, newId).result.Ok? && DeleteTweet(created, t.owner, newId).store == s
  {
    CastRoundTrip(newId);
    assert s.tweets[newId := t] - {newId} == s.tweets;
  }

  /** A tweet just created by a stored user appears in that user's tweet listing. */
  lemma CreatedTweetIsListed(s: Store, caller: Id, newId: Id, content: Value,
                             page: Option<string>, limit: Option<string>, sortBy: Option<string>, sortType: Option<string>)
    requires CreateTweet(s, caller, newId, content).result.Ok?
    requires FindUser(s.users, caller).Some?
    ensures var t := CreateTweet(s, caller, newId, content).store;
            && GetUserTweets(t, caller, page, limit, sortBy, sortType).result.Ok?
            && newId in GetUserTweets(t, caller, page, limit, sortBy, sortType).result.value.data.tweets
  {
    CastRoundTrip(caller);
  }
}

/**
 * The comment handlers. A comment belongs to one video and one owner; only
 * its content can change, and only its owner may change or delete it.
 */
module CommentController {
  import opened Wrappers
  import opened Text
  import opened ObjectIds
  import opened Paging
  import opened Http
  import opened Db

  /** The normalised paging of a comment listing and the comments on it. */
  datatype CommentPage = CommentPage(page: int, limit: int, sortOrder: int, comments: set<Id>)

  /**
   * `getVideoComments`: a well-formed id (400) of an existing video (404);
   * the listing holds that video's comments, with page and limit at least 1.
   */
  function GetVideoComments(s: Store, videoId: string, page: Option<string>, limit: Option<string>, sortType: Option<string>): (r: Reply<CommentPage>)
    ensures r.store == s
    ensures !IsValidObjectId(videoId) ==> RejectedWith(r, 400, "Id is not valid")
    ensures IsValidObjectId(videoId) && Cast(videoId) !in s.videos ==> RejectedWith(r, 404, "video does not exist")
    ensures r.result.Ok? <==> IsValidObjectId(videoId) && Cast(videoId) in s.videos
    ensures r.result.Ok? ==>
      var l := r.result.value.data;
      && l.page >= 1 && l.limit >= 1 && (l.sortOrder == 1 || l.sortOrder == -1)
      && l.page == PageNumber(page) && l.limit == LimitNumber(limit) && l.sortOrder == SortOrder(sortType)
      && forall c :: c in l.comments <==> c in s.comments && s.comments[c].video == Cast(videoId)
  {
    match FindIn(s.videos, videoId, "Id is not valid", "video does not exist")
    case Err(e) => Reply(Err(e), s)
    case Ok(id) =>
      var on := set c | c in s.comments && s.comments[c].video == id;
      Answer(s, 200, CommentPage(PageNumber(page), LimitNumber(limit), SortOrder(sortType), on), "Comments fetched successfully")
  }

  /**
   * `addComment`: a well-formed id (400) of an existing video (404), then
   * non-blank content (400). The comment stores the trimmed content, the
   * video and the caller as owner.
   */
  function AddComment(s: Store, caller: Id, newId: Id, videoId: string, content: Value): (r: Reply<(Id, Comment)>)
    ensures r.result.Err? ==> r.store == s
    ensures !IsValidObjectId(videoId) ==> RejectedWith(r, 400, "Id is not valid")
    ensures IsValidObjectId(videoId) && Cast(videoId) !in s.videos ==> RejectedWith(r, 404, "video does not exist")
    ensures IsValidObjectId(videoId) && Cast(videoId) in s.videos && TrimOptional(content, "content") == Ok([]) ==>
      RejectedWith(r, 400, "Content is required")
    ensures r.result.Ok? <==> IsValidObjectId(videoId) && Cast(videoId) in s.videos && FilledIn(content) && newId !in s.comments
    ensures r.result.Ok? ==>
      var c := Comment(Trim(content.s), Cast(videoId), caller);
      && r.store == s.(comments := s.comments[newId := c])
      && r.result.value.data == (newId, c)
  {
    match FindIn(s.videos, videoId, "Id is not valid", "video does not exist")
    case Err(e) => Reply(Err(e), s)
    case Ok(video) =>
      match TrimOptional(content, "content")
      case Err(e) => Reply(Err(e), s)
      case Ok(text) =>
        if text == [] then Reject(s, 400, "Content is required")
        else if newId in s.comments then Throw(s, "E11000 duplicate key error collection: comments index: _id_")
        else
          var c := Comment(text, video, caller);
          Answer(s.(comments := s.comments[newId := c]), 200, (newId, c), "Comment posted successfully")
  }

  /**
   * `updateComment`: a well-formed id (400), non-blank content (400, before
   * the lookup), an existing comment (404) the caller owns (403). Only the
   * content changes, to its trimmed value.
   */
  function UpdateComment(s: Store, caller: Id, commentId: string, content: Value): (r: Reply<(Id, Comment)>)
    ensures r.result.Err? ==> r.store == s
    ensures !IsValidObjectId(commentId) ==> RejectedWith(r, 400, "Id is not valid")
    ensures IsValidObjectId(commentId) && TrimOptional(content, "content") == Ok([]) ==> RejectedWith(r, 400, "Content is required")
    ensures IsValidObjectId(commentId) && FilledIn(content) ==>
      (FindOwned(s.comments, (c: Comment) => c.owner, caller, commentId, "Comment not found").Err? ==>
         r.result == Err(FindOwned(s.comments, (c: Comment) => c.owner, caller, commentId, "Comment not found").error))
    ensures r.result.Ok? <==> FilledIn(content) && IsValidObjectId(commentId) && Cast(commentId) in s.comments
                              && IsOwner(caller, s.comments[Cast(commentId)].owner)
    ensures r.result.Ok? ==>
      var id := Cast(commentId);
      var c := s.comments[id].(content := Trim(content.s));
      && r.store == s.(comments := s.comments[id := c])
      && r.result.value.data == (id, c) && r.result.value.message == "Comment updated successfully"
      && c.video == s.comments[id].video && c.owner == s.comments[id].owner
  {
    if !IsValidObjectId(commentId) then Reject(s, 400, "Id is not valid")
    else match TrimOptional(content, "content")
      case Err(e) => Reply(Err(e), s)
      case Ok(text) =>
        if text == [] then Reject(s, 400, "Content is required")
        else match FindOwned(s.comments, (c: Comment) => c.owner, caller, commentId, "Comment not found")
          case Err(e) => Reply(Err(e), s)
          case Ok(id) =>
            var c := s.comments[id].(content := text);
            Answer(s.(comments := s.comments[id := c]), 200, (id, c), "Comment updated successfully")
  }

  /** `deleteComment`: the owner guards, then the comment goes and nothing else does. */
  function DeleteComment(s: Store, caller: Id, commentId: string): (r: Reply<Doc>)
    ensures r.result.Err? ==> r.store == s
    ensures !IsValidObjectId(commentId) ==> RejectedWith(r, 400, "Id is not valid")
    ensures IsValidObjectId(commentId) && Cast(commentId) !in s.comments ==> RejectedWith(r, 404, "Comment not found")
    ensures (IsValidObjectId(commentId) && Cast(commentId) in s.comments && !IsOwner(caller, s.comments[Cast(commentId)].owner)) ==>
      RejectedWith(r, 403, "You dont have access to this")
    ensures r.result.Ok? <==> IsValidObjectId(commentId) && Cast(commentId) in s.comments && IsOwner(caller, s.comments[Cast(commentId)].owner)
    ensures r.result.Ok? ==> r.store == s.(comments := s.comments - {Cast(commentId)})
                             && r.result.value.data == map["deleted" := Bool(true)]
  {
    match FindOwned(s.comments, (c: Comment) => c.owner, caller, commentId, "Comment not found")
    case Err(e) => Reply(Err(e), s)
    case Ok(id) => Answer(s.(comments := s.comments - {id}), 200, map["deleted" := Bool(true)], "Comment deleted successfully")
  }

  /** Deleting a comment just posted, by its author, gives the store back. */
  lemma DeleteUndoesAdd(s: Store, caller: Id, newId: Id, videoId: string, content: Value)
    requires AddComment(s, caller, newId, videoId, content).result.Ok?
    ensures var added := AddComment(s, caller, newId, videoId, content).store;
            DeleteComment(added, caller, newId).result.Ok? && DeleteComment(added, caller, newId).store == s
  {
    DeleteJustAdded(s, newId, Comment(Trim(content.s), Cast(videoId), caller));
  }

  lemma DeleteJustAdded(s: Store, newId: Id, c: Comment)
    requires newId !in s.comments
    ensures var added := s.(comments := s.comments[newId := c]);
            DeleteComment(added, c.owner, newId).result.Ok? && DeleteComment(added, c.owner, newId).store == s
  {
    CastRoundTrip(newId);
    assert s.comments[newId := c] - {newId} == s.comments;
  }

  /** A comment just posted appears in the listing of its video's comments. */
  lemma AddedCommentIsListed(s: Store, caller: Id, newId: Id, videoId: string, content: Value,
                             page: Option<string>, limit: Option<string>, sortType: Option<string>)
    requires AddComment(s, caller, newId, videoId, content).result.Ok?
    ensures var t := AddComment(s, caller, newId, videoId, content).store;
            && GetVideoComments(t, videoId, page, limit, sortType).result.Ok?
            && newId in GetVideoComments(t, videoId, page, limit, sortType).result.value.data.comments
  {
  }

  /** Sending the same comment update twice leaves the store as the first update left it. */
  lemma UpdateCommentIdempotent(s: Store, caller: Id, commentId: string, content: Value)
    requires UpdateComment(s, caller, commentId, content).result.Ok?
    ensures var once := UpdateComment(s, caller, commentId, content).store;
            && UpdateComment(once, caller, commentId, content).result.Ok?
            && UpdateComment(once, caller, commentId, content).store == once
  {
    var id := Cast(commentId);
    var once := UpdateComment(s, caller, commentId, content).store;
    assert once.comments[id := once.comments[id].(content := Trim(content.s))] == once.comments;
  }
}

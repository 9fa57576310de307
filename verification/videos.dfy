/**
 * The video handlers: publishing with uploads, reading, partial update,
 * deletion with blob clean-up, the publish toggle and the view counter, and
 * the listing's query normalisation. The owner check is `IsOwner`; the caller
 * is the id the authentication gate attached.
 */
module VideoController {
  import opened Wrappers
  import opened Text
  import opened ObjectIds
  import opened Paging
  import opened Http
  import opened Db
  import opened Cloudinary

  /** `video.toObject()`; `views` only when the document has the field. */
  function VideoDoc(id: Id, v: Video): (d: Doc)
    ensures d.Keys == {"_id", "videoFile", "thumbnail", "title", "description", "duration", "isPublished", "owner"}
                      + (if v.views.Some? then {"views"} else {})
    ensures d["_id"] == Str(id) && d["isPublished"] == Bool(v.isPublished) && d["owner"] == Str(v.owner)
    ensures d["title"] == Str(v.title) && d["description"] == Str(v.description)
    ensures d["videoFile"] == Str(v.videoFile) && d["thumbnail"] == Str(v.thumbnail)
    ensures d["duration"] == Num(v.duration)
    ensures v.views.Some? ==> d["views"] == Num(v.views.value)
  {
    var base := map[
      "_id" := Str(id), "videoFile" := Str(v.videoFile), "thumbnail" := Str(v.thumbnail),
      "title" := Str(v.title), "description" := Str(v.description), "duration" := Num(v.duration),
      "isPublished" := Bool(v.isPublished), "owner" := Str(v.owner)];
    match v.views
    case None => base
    case Some(n) => base["views" := Num(n)]
  }

  /** `sanitizePrivateVideo`: the object without the two file URLs. */
  function SanitizePrivateVideo(d: Doc): (r: Doc)
    ensures r.Keys == d.Keys - {"videoFile", "thumbnail"}
    ensures forall k :: k in r ==> r[k] == d[k]
  {
    Omit(d, {"videoFile", "thumbnail"})
  }

  /** Sanitising twice is sanitising once, and a sanitised video keeps every other field. */
  lemma SanitizeIdempotent(id: Id, v: Video)
    ensures SanitizePrivateVideo(SanitizePrivateVideo(VideoDoc(id, v))) == SanitizePrivateVideo(VideoDoc(id, v))
    ensures SanitizePrivateVideo(VideoDoc(id, v)).Keys
            == {"_id", "title", "description", "duration", "isPublished", "owner"} + (if v.views.Some? then {"views"} else {})
  {
    SanitizedKeys(v.views.Some?);
  }

  /** What the publish and update handlers send back: everything for a published video, no file URLs otherwise. */
  function Shown(id: Id, v: Video): (d: Doc)
    ensures "videoFile" in d <==> v.isPublished
    ensures "thumbnail" in d <==> v.isPublished
    ensures "_id" in d && "title" in d && d["_id"] == Str(id) && d["title"] == Str(v.title)
    ensures v.isPublished ==> d["videoFile"] == Str(v.videoFile) && d["thumbnail"] == Str(v.thumbnail)
    ensures forall k :: k in d ==> k in VideoDoc(id, v) && d[k] == VideoDoc(id, v)[k]
  {
    SanitizedKeys(v.views.Some?);
    if v.isPublished then VideoDoc(id, v) else SanitizePrivateVideo(VideoDoc(id, v))
  }

  lemma SanitizedKeys(withViews: bool)
    ensures ({"_id", "videoFile", "thumbnail", "title", "description", "duration", "isPublished", "owner"}
             + (if withViews then {"views"} else {})) - {"videoFile", "thumbnail"}
            == {"_id", "title", "description", "duration", "isPublished", "owner"} + (if withViews then {"views"} else {})
  {
  }

  /** `isPublished`: false only for the boolean `false` or the string "false"; absent means published. */
  function PublishFlag(raw: Value): (b: bool)
    ensures !b <==> raw == Bool(false) || raw == Str("false")
  {
    !(raw == Bool(false) || raw == Str("false"))
  }

  /** Other spellings of "no" still publish. */
  lemma PublishFlagLiteral()
    ensures PublishFlag(Undefined) && PublishFlag(Str("False")) && PublishFlag(Num(0)) && PublishFlag(Str(""))
    ensures !PublishFlag(Bool(false)) && !PublishFlag(Str("false"))
  {
  }

  /** `videoFile.duration || 0`. */
  function DurationOf(u: Upload): (d: int)
    ensures u.duration.None? ==> d == 0
    ensures u.duration.Some? ==> d == u.duration.value
  {
    u.duration.GetOr(0)
  }

  /**
   * `publishAVideo`. Checks in order: a non-blank title (400), a non-blank
   * description (400), both files sent (400), both uploads succeeded (500).
   * A title or description that is neither a string nor absent makes `trim`
   * throw. The stored title and description are the raw strings.
   */
  function PublishAVideo(cloud: Cloud, s: Store, caller: Id, newId: Id,
                         title: Value, description: Value, isPublished: Value,
                         videoPath: Option<string>, thumbnailPath: Option<string>): (r: Reply<Doc>)
    ensures r.result.Err? ==> r.store == s
    ensures TrimOptional(title, "title") == Ok([]) ==> RejectedWith(r, 400, "Title and description are required")
    ensures FilledIn(title) && TrimOptional(description, "description") == Ok([]) ==>
      RejectedWith(r, 400, "Title and description are required")
    ensures FilledIn(title) && FilledIn(description) && (videoPath.None? || thumbnailPath.None?) ==>
      RejectedWith(r, 400, "Video and thumbnail are required")
    ensures r.result.Ok? <==> FilledIn(title) && FilledIn(description) && videoPath.Some? && thumbnailPath.Some?
                              && CreateVideo(cloud, s, caller, newId, title.s, description.s, PublishFlag(isPublished),
                                             videoPath.value, thumbnailPath.value).result.Ok?
    ensures r.result.Ok? ==> r == CreateVideo(cloud, s, caller, newId, title.s, description.s, PublishFlag(isPublished),
                                              videoPath.value, thumbnailPath.value)
  {
    match TrimOptional(title, "title")
    case Err(e) => Reply(Err(e), s)
    case Ok(t) =>
      if t == [] then Reject(s, 400, "Title and description are required")
      else match TrimOptional(description, "description")
        case Err(e) => Reply(Err(e), s)
        case Ok(d) =>
          if d == [] then Reject(s, 400, "Title and description are required")
          else if videoPath.None? || thumbnailPath.None? then Reject(s, 400, "Video and thumbnail are required")
          else CreateVideo(cloud, s, caller, newId, title.s, description.s, PublishFlag(isPublished),
                           videoPath.value, thumbnailPath.value)
  }

  /**
   * The second half of `publishAVideo`: both uploads must succeed (500
   * otherwise), then the document is created, owned by the caller and with
   * the raw title and description.
   */
  function CreateVideo(cloud: Cloud, s: Store, caller: Id, newId: Id, title: string, description: string,
                       isPublished: bool, videoPath: string, thumbnailPath: string): (r: Reply<Doc>)
    ensures r.result.Err? ==> r.store == s
    ensures UploadOnCloudinary(cloud, Some(videoPath)).None? ==> RejectedWith(r, 500, "Error while uploading video")
    ensures UploadOnCloudinary(cloud, Some(videoPath)).Some? && UploadOnCloudinary(cloud, Some(thumbnailPath)).None? ==>
      RejectedWith(r, 500, "Error while uploading thumbnail")
    ensures r.result.Ok? <==> UploadOnCloudinary(cloud, Some(videoPath)).Some? && UploadOnCloudinary(cloud, Some(thumbnailPath)).Some?
                              && newId !in s.videos
    ensures r.result.Ok? ==>
      && r.result.value.status == 201
      && newId in r.store.videos
      && r.store == s.(videos := s.videos[newId := r.store.videos[newId]])
      && var v := r.store.videos[newId];
      && v.owner == caller && v.isPublished == isPublished
      && v.title == title && v.description == description && v.views.None?
      && v.videoFile == UploadOnCloudinary(cloud, Some(videoPath)).value.secureUrl
      && v.thumbnail == UploadOnCloudinary(cloud, Some(thumbnailPath)).value.secureUrl
      && v.duration == DurationOf(UploadOnCloudinary(cloud, Some(videoPath)).value)
      && r.result.value.data == Shown(newId, v)
  {
    var file := UploadOnCloudinary(cloud, Some(videoPath));
    var thumb := UploadOnCloudinary(cloud, Some(thumbnailPath));
    if file.None? then Reject(s, 500, "Error while uploading video")
    else if thumb.None? then Reject(s, 500, "Error while uploading thumbnail")
    else if newId in s.videos then Throw(s, "E11000 duplicate key error collection: videos index: _id_")
    else
      var v := Video(file.value.secureUrl, thumb.value.secureUrl, title, description,
                     DurationOf(file.value), None, isPublished, caller);
      Answer(s.(videos := s.videos[newId := v]), 201, Shown(newId, v), "Video Uploaded Successfully")
  }

  /**
   * `getVideoById`: 400 for a malformed id, 404 for a missing video, 403 for
   * an unpublished one, whoever asks, including its owner.
   */
  function GetVideoById(s: Store, videoId: string): (r: Reply<Doc>)
    ensures r.store == s
    ensures !IsValidObjectId(videoId) ==> RejectedWith(r, 400, "Video Id is missing")
    ensures IsValidObjectId(videoId) && Cast(videoId) !in s.videos ==> RejectedWith(r, 404, "Video not found")
    ensures IsValidObjectId(videoId) && Cast(videoId) in s.videos && !s.videos[Cast(videoId)].isPublished ==>
      RejectedWith(r, 403, "Video is not published")
    ensures r.result.Ok? <==> IsValidObjectId(videoId) && Cast(videoId) in s.videos && s.videos[Cast(videoId)].isPublished
    ensures r.result.Ok? ==> r.result.value.data == VideoDoc(Cast(videoId), s.videos[Cast(videoId)])
  {
    match FindIn(s.videos, videoId, "Video Id is missing", "Video not found")
    case Err(e) => Reply(Err(e), s)
    case Ok(id) =>
      if !s.videos[id].isPublished then Reject(s, 403, "Video is not published")
      else Answer(s, 200, VideoDoc(id, s.videos[id]), "Video fetched successfully")
  }

  /**
   * A video just created is served back by `getVideoById` exactly when it
   * was published, with the same document the publish reply carried.
   */
  lemma CreatedVideoServedIffPublished(cloud: Cloud, s: Store, caller: Id, newId: Id, title: string, description: string,
                                       isPublished: bool, videoPath: string, thumbnailPath: string)
    requires CreateVideo(cloud, s, caller, newId, title, description, isPublished, videoPath, thumbnailPath).result.Ok?
    ensures var r := CreateVideo(cloud, s, caller, newId, title, description, isPublished, videoPath, thumbnailPath);
            && (GetVideoById(r.store, newId).result.Ok? <==> isPublished)
            && (isPublished ==> GetVideoById(r.store, newId).result.value.data == r.result.value.data)
            && (!isPublished ==> RejectedWith(GetVideoById(r.store, newId), 403, "Video is not published"))
  {
    CastRoundTrip(newId);
  }

  /**
   * The guards of the owner-only video handlers: a well-formed id (400), an
   * existing video (404), the caller owns it (403).
   */
  function OwnedVideo(s: Store, caller: Id, videoId: string, forbidden: string): (r: Result<Id, Failure>)
    ensures !IsValidObjectId(videoId) ==> r == Err(Error(400, "Invalid video ID"))
    ensures IsValidObjectId(videoId) && Cast(videoId) !in s.videos ==> r == Err(Error(404, "Video not found"))
    ensures IsValidObjectId(videoId) && Cast(videoId) in s.videos && !IsOwner(caller, s.videos[Cast(videoId)].owner) ==>
      r == Err(Error(403, forbidden))
    ensures r.Ok? <==> IsValidObjectId(videoId) && Cast(videoId) in s.videos && IsOwner(caller, s.videos[Cast(videoId)].owner)
    ensures r.Ok? ==> r.value == Cast(videoId)
  {
    match FindIn(s.videos, videoId, "Invalid video ID", "Video not found")
    case Err(e) => Err(e)
    case Ok(id) => if !IsOwner(caller, s.videos[id].owner) then Err(Error(403, forbidden)) else Ok(id)
  }

  /** The title or description after an update: replaced by the raw value only when it trims to something. */
  function UpdatedText(current: string, given: Value): (t: string)
    ensures FilledIn(given) ==> t == given.s
    ensures !FilledIn(given) ==> t == current
  {
    if FilledIn(given) then given.s else current
  }

  /**
   * `updateVideo`. Checks in order: a well-formed id (400), some update data
   * by plain truthiness (400), the video exists (404), the caller owns it
   * (403). Title and description are replaced only when non-blank, by the
   * untrimmed value. A new thumbnail must upload with a URL and the old one
   * must be destroyed (500 otherwise). Nothing else about the video changes.
   */
  function UpdateVideo(cloud: Cloud, s: Store, caller: Id, videoId: string,
                       title: Value, description: Value, filePath: Option<string>): (r: Reply<Doc>)
    ensures r.result.Err? ==> r.store == s
    ensures !IsValidObjectId(videoId) ==> RejectedWith(r, 400, "Invalid video ID")
    ensures IsValidObjectId(videoId) && !Truthy(title) && !Truthy(description) && !Present(filePath) ==>
      RejectedWith(r, 400, "No update data provided")
    ensures IsValidObjectId(videoId) && (Truthy(title) || Truthy(description) || Present(filePath)) ==>
      && (Cast(videoId) !in s.videos ==> RejectedWith(r, 404, "Video not found"))
      && (Cast(videoId) in s.videos && !IsOwner(caller, s.videos[Cast(videoId)].owner) ==>
            RejectedWith(r, 403, "You do not have access to update this video"))
    ensures r.result.Ok? ==>
      && Trimmable(title) && Trimmable(description)
      && IsValidObjectId(videoId) && Cast(videoId) in s.videos && IsOwner(caller, s.videos[Cast(videoId)].owner)
      && var id := Cast(videoId);
      && var before := s.videos[id];
      && id in r.store.videos
      && r.store == s.(videos := s.videos[id := r.store.videos[id]])
      && var after := r.store.videos[id];
      && after.title == UpdatedText(before.title, title)
      && after.description == UpdatedText(before.description, description)
      && (!Present(filePath) ==> after.thumbnail == before.thumbnail)
      && (Present(filePath) ==> UploadOnCloudinary(cloud, filePath).Some?
                                && after.thumbnail == UploadOnCloudinary(cloud, filePath).value.secureUrl != [])
      && after.(title := before.title, description := before.description, thumbnail := before.thumbnail) == before
      && r.result.value.data == Shown(id, after)
    ensures OwnedVideo(s, caller, videoId, "You do not have access to update this video").Ok?
            && (Truthy(title) || Truthy(description) || Present(filePath)) ==>
      && (!Trimmable(title) ==> r.result == Err(Thrown("title?.trim is not a function")))
      && (Trimmable(title) && !Trimmable(description) ==> r.result == Err(Thrown("description?.trim is not a function")))
    ensures r.result.Ok? <==>
      && OwnedVideo(s, caller, videoId, "You do not have access to update this video").Ok?
      && (Truthy(title) || Truthy(description) || Present(filePath))
      && Trimmable(title) && Trimmable(description)
      && (!Present(filePath)
          || (UploadOnCloudinary(cloud, filePath).Some? && UploadOnCloudinary(cloud, filePath).value.secureUrl != []
              && (s.videos[Cast(videoId)].thumbnail != [] ==>
                    DeleteFromCloudinary(cloud, s.videos[Cast(videoId)].thumbnail, "image") == Some("ok"))))
  {
    if !IsValidObjectId(videoId) then Reject(s, 400, "Invalid video ID")
    else if !Truthy(title) && !Truthy(description) && !Present(filePath) then Reject(s, 400, "No update data provided")
    else match OwnedVideo(s, caller, videoId, "You do not have access to update this video")
      case Err(e) => Reply(Err(e), s)
      case Ok(id) =>
        if !Trimmable(title) then Throw(s, "title?.trim is not a function")
        else if !Trimmable(description) then Throw(s, "description?.trim is not a function")
        else EditVideo(cloud, s, id, title, description, filePath)
  }

  /** The video with its title and description edited and nothing else. */
  function Edited(before: Video, title: Value, description: Value): (v: Video)
    ensures v.title == UpdatedText(before.title, title)
    ensures v.description == UpdatedText(before.description, description)
    ensures v.thumbnail == before.thumbnail
    ensures v.(title := before.title, description := before.description) == before
  {
    before.(title := UpdatedText(before.title, title), description := UpdatedText(before.description, description))
  }

  /**
   * The part of `updateVideo` after the guards: the text fields are edited
   * and, when a file came, the thumbnail is replaced on the blob service.
   */
  function EditVideo(cloud: Cloud, s: Store, id: Id, title: Value, description: Value, filePath: Option<string>): (r: Reply<Doc>)
    requires id in s.videos
    ensures r.result.Err? ==> r.store == s
    ensures r.result.Ok? <==>
      !Present(filePath)
      || (UploadOnCloudinary(cloud, filePath).Some? && UploadOnCloudinary(cloud, filePath).value.secureUrl != []
          && (s.videos[id].thumbnail != [] ==> DeleteFromCloudinary(cloud, s.videos[id].thumbnail, "image") == Some("ok")))
    ensures r.result.Ok? ==>
      && var before := s.videos[id];
      && id in r.store.videos
      && r.store == s.(videos := s.videos[id := r.store.videos[id]])
      && var after := r.store.videos[id];
      && after.title == UpdatedText(before.title, title)
      && after.description == UpdatedText(before.description, description)
      && (!Present(filePath) ==> after.thumbnail == before.thumbnail)
      && (Present(filePath) ==> UploadOnCloudinary(cloud, filePath).Some?
                                && after.thumbnail == UploadOnCloudinary(cloud, filePath).value.secureUrl != [])
      && after.(title := before.title, description := before.description, thumbnail := before.thumbnail) == before
      && r.result.value.data == Shown(id, after)
  {
    var before := s.videos[id];
    var edited := Edited(before, title, description);
    if !Present(filePath) then
      Answer(s.(videos := s.videos[id := edited]), 200, Shown(id, edited), "Video Updated successfully")
    else
      var thumb := UploadOnCloudinary(cloud, filePath);
      if thumb.None? || thumb.value.secureUrl == [] then Reject(s, 500, "Error while uplaoding thumbnail")
      else if before.thumbnail != [] && DeleteFromCloudinary(cloud, before.thumbnail, "image") != Some("ok") then
        Reject(s, 500, "Error while deleting old thumbnail")
      else
        var after := edited.(thumbnail := thumb.value.secureUrl);
        Answer(s.(videos := s.videos[id := after]), 200, Shown(id, after), "Video Updated successfully")
  }

  /** Sending the same text update twice, with no file, leaves the store as the first update left it. */
  lemma UpdateVideoIdempotent(cloud: Cloud, s: Store, caller: Id, videoId: string, title: Value, description: Value)
    requires UpdateVideo(cloud, s, caller, videoId, title, description, None).result.Ok?
    ensures var once := UpdateVideo(cloud, s, caller, videoId, title, description, None).store;
            && UpdateVideo(cloud, once, caller, videoId, title, description, None).result.Ok?
            && UpdateVideo(cloud, once, caller, videoId, title, description, None).store == once
  {
    UpdateAlreadyApplied(cloud, UpdateVideo(cloud, s, caller, videoId, title, description, None).store,
                         caller, videoId, title, description);
  }

  /** A text update whose values the video already holds succeeds and changes nothing. */
  lemma UpdateAlreadyApplied(cloud: Cloud, t: Store, caller: Id, videoId: string, title: Value, description: Value)
    requires OwnedVideo(t, caller, videoId, "You do not have access to update this video").Ok?
    requires (Truthy(title) || Truthy(description)) && Trimmable(title) && Trimmable(description)
    requires UpdatedText(t.videos[Cast(videoId)].title, title) == t.videos[Cast(videoId)].title
    requires UpdatedText(t.videos[Cast(videoId)].description, description) == t.videos[Cast(videoId)].description
    ensures UpdateVideo(cloud, t, caller, videoId, title, description, None).result.Ok?
    ensures UpdateVideo(cloud, t, caller, videoId, title, description, None).store == t
  {
    var id := Cast(videoId);
    assert Edited(t.videos[id], title, description) == t.videos[id];
    assert t.videos[id := t.videos[id]] == t.videos;
  }


  /**
   * `deleteVideo`: after the owner guards, the video file and the thumbnail
   * are destroyed on the blob service (each must answer "ok", else 500), then
   * the document goes. Likes, comments and playlist entries that point at it
   * are left in place.
   */
  function DeleteVideo(cloud: Cloud, s: Store, caller: Id, videoId: string): (r: Reply<()>)
    ensures r.result.Err? ==> r.store == s
    ensures OwnedVideo(s, caller, videoId, "You do not have access to delete this video").Err? ==>
      r.result == Err(OwnedVideo(s, caller, videoId, "You do not have access to delete this video").error)
    ensures r.result.Ok? ==>
      && OwnedVideo(s, caller, videoId, "You do not have access to delete this video").Ok?
      && r.store == s.(videos := s.videos - {Cast(videoId)})
      && var v := s.videos[Cast(videoId)];
      && (v.videoFile != [] ==> DeleteFromCloudinary(cloud, v.videoFile, "video") == Some("ok"))
      && (v.thumbnail != [] ==> DeleteFromCloudinary(cloud, v.thumbnail, "image") == Some("ok"))
    ensures OwnedVideo(s, caller, videoId, "You do not have access to delete this video").Ok? ==>
      && var v := s.videos[Cast(videoId)];
      && var fileGone := v.videoFile == [] || DeleteFromCloudinary(cloud, v.videoFile, "video") == Some("ok");
      && var thumbGone := v.thumbnail == [] || DeleteFromCloudinary(cloud, v.thumbnail, "image") == Some("ok");
      && (!fileGone ==> RejectedWith(r, 500, "Error while deleting video file"))
      && (fileGone && !thumbGone ==> RejectedWith(r, 500, "Error while deleting thumbnail"))
      && (fileGone && thumbGone ==> r.result.Ok?)
  {
    match OwnedVideo(s, caller, videoId, "You do not have access to delete this video")
    case Err(e) => Reply(Err(e), s)
    case Ok(id) =>
      var v := s.videos[id];
      if v.videoFile != [] && DeleteFromCloudinary(cloud, v.videoFile, "video") != Some("ok") then
        Reject(s, 500, "Error while deleting video file")
      else if v.thumbnail != [] && DeleteFromCloudinary(cloud, v.thumbnail, "image") != Some("ok") then
        Reject(s, 500, "Error while deleting thumbnail")
      else Answer(s.(videos := s.videos - {id}), 200, (), "Video deleted successfully")
  }

  /**
   * Deleting a video just created, by its uploader, gives the store back,
   * provided the blob service destroys both files.
   */
  lemma DeleteUndoesCreateVideo(cloud: Cloud, s: Store, caller: Id, newId: Id, title: string, description: string,
                                isPublished: bool, videoPath: string, thumbnailPath: string)
    requires CreateVideo(cloud, s, caller, newId, title, description, isPublished, videoPath, thumbnailPath).result.Ok?
    requires var v := CreateVideo(cloud, s, caller, newId, title, description, isPublished, videoPath, thumbnailPath).store.videos[newId];
             && (v.videoFile != [] ==> DeleteFromCloudinary(cloud, v.videoFile, "video") == Some("ok"))
             && (v.thumbnail != [] ==> DeleteFromCloudinary(cloud, v.thumbnail, "image") == Some("ok"))
    ensures var once := CreateVideo(cloud, s, caller, newId, title, description, isPublished, videoPath, thumbnailPath).store;
            && DeleteVideo(cloud, once, caller, newId).result.Ok?
            && DeleteVideo(cloud, once, caller, newId).store == s
  {
    var once := CreateVideo(cloud, s, caller, newId, title, description, isPublished, videoPath, thumbnailPath).store;
    DeleteJustCreated(cloud, s, newId, once.videos[newId]);
  }

  lemma DeleteJustCreated(cloud: Cloud, s: Store, newId: Id, v: Video)
    requires newId !in s.videos
    requires v.videoFile != [] ==> DeleteFromCloudinary(cloud, v.videoFile, "video") == Some("ok")
    requires v.thumbnail != [] ==> DeleteFromCloudinary(cloud, v.thumbnail, "image") == Some("ok")
    ensures var t := s.(videos := s.videos[newId := v]);
            DeleteVideo(cloud, t, v.owner, newId).result.Ok? && DeleteVideo(cloud, t, v.owner, newId).store == s
  {
    CastRoundTrip(newId);
    assert s.videos[newId := v] - {newId} == s.videos;
  }

  /** `togglePublishStatus`: the owner flips `isPublished` and is told which way it went. */
  function TogglePublishStatus(s: Store, caller: Id, videoId: string): (r: Reply<Doc>)
    ensures r.result.Err? ==> r.store == s
    ensures OwnedVideo(s, caller, videoId, "You do not have access to change publish status this video").Err? ==>
      r.result == Err(OwnedVideo(s, caller, videoId, "You do not have access to change publish status this video").error)
    ensures r.result.Ok? ==>
      && OwnedVideo(s, caller, videoId, "You do not have access to change publish status this video").Ok?
      && var id := Cast(videoId);
      && var now := !s.videos[id].isPublished;
      && r.store == s.(videos := s.videos[id := s.videos[id].(isPublished := now)])
      && r.result.value.data == map["isPublished" := Bool(now)]
      && r.result.value.message == "video has been " + (if now then "published" else "unpublished") + " successfully"
    ensures r.result.Ok? <==> OwnedVideo(s, caller, videoId, "You do not have access to change publish status this video").Ok?
  {
    match OwnedVideo(s, caller, videoId, "You do not have access to change publish status this video")
    case Err(e) => Reply(Err(e), s)
    case Ok(id) =>
      var now := !s.videos[id].isPublished;
      Answer(s.(videos := s.videos[id := s.videos[id].(isPublished := now)]), 200,
             map["isPublished" := Bool(now)],
             "video has been " + (if now then "published" else "unpublished") + " successfully")
  }

  /** Toggling twice succeeds again and restores the store. */
  lemma ToggleTwiceRestores(s: Store, caller: Id, videoId: string)
    requires TogglePublishStatus(s, caller, videoId).result.Ok?
    ensures TogglePublishStatus(TogglePublishStatus(s, caller, videoId).store, caller, videoId).result.Ok?
    ensures TogglePublishStatus(TogglePublishStatus(s, caller, videoId).store, caller, videoId).store == s
  {
    var id := Cast(videoId);
    var once := TogglePublishStatus(s, caller, videoId).store;
    assert once.videos[id].owner == s.videos[id].owner;
    assert once.videos[id := once.videos[id].(isPublished := s.videos[id].isPublished)] == s.videos;
  }

  /**
   * `incrementVideoView`: 400, 404, then 403 for an unpublished video;
   * otherwise `$inc` adds one to the view count, a missing count counting as 0.
   */
  function IncrementVideoView(s: Store, videoId: string): (r: Reply<Doc>)
    ensures r.result.Err? ==> r.store == s
    ensures FindIn(s.videos, videoId, "Invalid video ID", "Video not found").Err? ==>
      r.result == Err(FindIn(s.videos, videoId, "Invalid video ID", "Video not found").error)
    ensures IsValidObjectId(videoId) && Cast(videoId) in s.videos && !s.videos[Cast(videoId)].isPublished ==>
      RejectedWith(r, 403, "Video is not published")
    ensures r.result.Ok? <==> IsValidObjectId(videoId) && Cast(videoId) in s.videos && s.videos[Cast(videoId)].isPublished
    ensures r.result.Ok? ==>
      var id := Cast(videoId);
      var views := s.videos[id].views.GetOr(0) + 1;
      && r.store == s.(videos := s.videos[id := s.videos[id].(views := Some(views))])
      && r.result.value.data == map["views" := Num(views)]
  {
    match FindIn(s.videos, videoId, "Invalid video ID", "Video not found")
    case Err(e) => Reply(Err(e), s)
    case Ok(id) =>
      var v := s.videos[id];
      if !v.isPublished then Reject(s, 403, "Video is not published")
      else
        var views := v.views.GetOr(0) + 1;
        Answer(s.(videos := s.videos[id := v.(views := Some(views))]), 200, map["views" := Num(views)], "Video view count incremented")
  }

  /** Two views of a published video add exactly two to its count. */
  lemma IncrementTwice(s: Store, videoId: string)
    requires IncrementVideoView(s, videoId).result.Ok?
    ensures var twice := IncrementVideoView(IncrementVideoView(s, videoId).store, videoId);
            && twice.result.Ok?
            && twice.store.videos[Cast(videoId)].views == Some(s.videos[Cast(videoId)].views.GetOr(0) + 2)
  {
  }

  /** The listing request `getAllVideos` builds: published videos, an optional search, a page. */
  datatype VideoListing = VideoListing(search: Option<string>, page: PageQuery)

  /**
   * `getAllVideos`'s inputs: the search pattern is the raw query string and
   * only applies when it is non-blank; page, limit and sort are normalised.
   */
  function GetAllVideos(page: Option<string>, limit: Option<string>, query: Option<string>,
                        sortBy: Option<string>, sortType: Option<string>): (l: VideoListing)
    ensures WellFormed(l.page)
    ensures l.search.Some? <==> query.Some? && !IsBlank(query.value)
    ensures l.search.Some? ==> l.search.value == query.value
    ensures l.page == Normalize(page, limit, sortBy, sortType)
  {
    VideoListing(if query.Some? && !IsBlank(query.value) then query else None, Normalize(page, limit, sortBy, sortType))
  }

  /**
   * The videos a listing can return, for a case-insensitive pattern matcher
   * `matches(pattern, text)`: published ones, filtered by title or
   * description when there is a search.
   */
  function Candidates(s: Store, l: VideoListing, matches: (string, string) -> bool): (ids: set<Id>)
    ensures forall id :: id in ids ==> id in s.videos && s.videos[id].isPublished
    ensures l.search.None? ==> ids == set id | id in s.videos && s.videos[id].isPublished
    ensures l.search.Some? ==> forall id :: id in ids <==>
      id in s.videos && s.videos[id].isPublished
      && (matches(l.search.value, s.videos[id].title) || matches(l.search.value, s.videos[id].description))
  {
    set id | id in s.videos && s.videos[id].isPublished
             && (l.search.None? || matches(l.search.value, s.videos[id].title) || matches(l.search.value, s.videos[id].description))
  }

  /**
   * With no search, a publish toggle moves the video into the listing or out
   * of it, and leaves every other video where it was.
   */
  lemma ToggleMovesVideoInListing(s: Store, caller: Id, videoId: string, l: VideoListing, matches: (string, string) -> bool)
    requires TogglePublishStatus(s, caller, videoId).result.Ok? && l.search.None?
    ensures var t := TogglePublishStatus(s, caller, videoId).store;
            && (Cast(videoId) in Candidates(t, l, matches) <==> Cast(videoId) !in Candidates(s, l, matches))
            && forall id :: id != Cast(videoId) ==> (id in Candidates(t, l, matches) <==> id in Candidates(s, l, matches))
  {
  }

  /** A search only narrows the listing: every match is a video the unfiltered listing holds. */
  lemma SearchNarrowsListing(s: Store, q: string, page: PageQuery, matches: (string, string) -> bool)
    ensures Candidates(s, VideoListing(Some(q), page), matches) <= Candidates(s, VideoListing(None, page), matches)
  {
  }

  /**
   * The listing `getAllVideos` selects: every published video for an absent
   * or blank query, and otherwise the published videos whose title or
   * description matches the raw query.
   */
  lemma AllVideosListing(s: Store, page: Option<string>, limit: Option<string>, query: Option<string>,
                         sortBy: Option<string>, sortType: Option<string>, matches: (string, string) -> bool)
    ensures var ids := Candidates(s, GetAllVideos(page, limit, query, sortBy, sortType), matches);
            forall id :: id in ids <==>
              && id in s.videos && s.videos[id].isPublished
              && (query.None? || IsBlank(query.value)
                  || matches(query.value, s.videos[id].title) || matches(query.value, s.videos[id].description))
  {
  }
}

/**
 * The playlist handlers. A playlist's videos are a sequence of ids, newest
 * first. The duplicate check of `addVideoToPlaylist` and the lookup of
 * `removeVideoFromPlaylist` compare the raw path parameter with the stored
 * ids' lower-case hex text; `AddVideoToPlaylist` keeps that comparison and
 * `AddVideoToPlaylistFixed` compares the cast id instead.
 */
module PlaylistController {
  import opened Wrappers
  import opened Text
  import opened ObjectIds
  import opened Http
  import opened Db

  /** `videos.some(vid => vid.toString() === raw)`: a plain string comparison. */
  predicate RawContains(xs: seq<Id>, raw: string) {
    exists k :: 0 <= k < |xs| && xs[k] == raw
  }

  /** `videos.findIndex(vid => vid.toString() === raw)`, with `None` for -1. */
  function RawIndex(xs: seq<Id>, raw: string): (r: Option<nat>)
    ensures r.None? <==> !RawContains(xs, raw)
    ensures r.Some? ==> r.value < |xs| && xs[r.value] == raw
    ensures r.Some? ==> forall k :: 0 <= k < r.value ==> xs[k] != raw
  {
    if xs == [] then None
    else if xs[0] == raw then Some(0)
    else match RawIndex(xs[1..], raw)
      case None => None
      case Some(k) => Some(k + 1)
  }

  /** `splice(i, 1)`: the element at `i` goes, the others keep their order. */
  function RemoveAt(xs: seq<Id>, i: nat): (r: seq<Id>)
    requires i < |xs|
    ensures |r| == |xs| - 1
    ensures forall k :: 0 <= k < i ==> r[k] == xs[k]
    ensures forall k :: i <= k < |r| ==> r[k] == xs[k + 1]
  {
    xs[..i] + xs[i + 1..]
  }

  /**
   * The guards of the owner-only playlist handlers: a well-formed id (400),
   * an existing playlist (404), the caller owns it (403).
   */
  function OwnedPlaylist(s: Store, caller: Id, playlistId: string): (r: Result<Id, Failure>)
    ensures !IsValidObjectId(playlistId) ==> r == Err(Error(400, "Id is not valid"))
    ensures IsValidObjectId(playlistId) && Cast(playlistId) !in s.playlists ==> r == Err(Error(404, "Playlist not found"))
    ensures (IsValidObjectId(playlistId) && Cast(playlistId) in s.playlists
             && !IsOwner(caller, s.playlists[Cast(playlistId)].owner)) ==> r == Err(Error(403, "You dont have access to this"))
    ensures r.Ok? <==> IsValidObjectId(playlistId) && Cast(playlistId) in s.playlists
                       && IsOwner(caller, s.playlists[Cast(playlistId)].owner)
    ensures r.Ok? ==> r.value == Cast(playlistId)
  {
    FindOwned(s.playlists, (p: Playlist) => p.owner, caller, playlistId, "Playlist not found")
  }

  /**
   * `createPlaylist`: name and description must trim to something (400);
   * both are stored trimmed, with no videos and the caller as owner.
   */
  function CreatePlaylist(s: Store, caller: Id, newId: Id, name: Value, description: Value): (r: Reply<(Id, Playlist)>)
    ensures r.result.Err? ==> r.store == s
    ensures TrimOptional(name, "name") == Ok([]) ==> RejectedWith(r, 400, "Name and description is required")
    ensures FilledIn(name) && TrimOptional(description, "description") == Ok([]) ==>
      RejectedWith(r, 400, "Name and description is required")
    ensures r.result.Ok? <==> FilledIn(name) && FilledIn(description) && newId !in s.playlists
    ensures r.result.Ok? ==>
      var p := Playlist(Trim(name.s), Trim(description.s), [], caller);
      && r.store == s.(playlists := s.playlists[newId := p])
      && r.result.value.data == (newId, p)
  {
    match TrimOptional(name, "name")
    case Err(e) => Reply(Err(e), s)
    case Ok(n) =>
      if n == [] then Reject(s, 400, "Name and description is required")
      else match TrimOptional(description, "description")
        case Err(e) => Reply(Err(e), s)
        case Ok(d) =>
          if d == [] then Reject(s, 400, "Name and description is required")
          else if newId in s.playlists then Throw(s, "E11000 duplicate key error collection: playlists index: _id_")
          else
            var p := Playlist(n, d, [], caller);
            Answer(s.(playlists := s.playlists[newId := p]), 200, (newId, p), "Playlist created successfully")
  }

  /** The published videos of a list that still exist: what the `$lookup` joins in. */
  function VisibleVideos(s: Store, xs: seq<Id>): (vs: set<Id>)
    ensures forall v :: v in vs <==> v in xs && v in s.videos && s.videos[v].isPublished
  {
    set v | v in xs && v in s.videos && s.videos[v].isPublished
  }

  /**
   * `getUserPlaylists`: a well-formed id (400), and the caller's own id in
   * exactly its canonical spelling (403, a raw string comparison). The answer
   * maps each of the caller's playlists to its number of visible videos.
   */
  function GetUserPlaylists(s: Store, caller: Id, userId: string): (r: Reply<map<Id, nat>>)
    ensures r.store == s
    ensures !IsValidObjectId(userId) ==> RejectedWith(r, 400, "Id is not valid")
    ensures IsValidObjectId(userId) && userId != caller ==> RejectedWith(r, 403, "You dont have access to this")
    ensures r.result.Ok? <==> userId == caller
    ensures r.result.Ok? ==>
      && (forall id :: id in r.result.value.data <==> id in s.playlists && s.playlists[id].owner == caller)
      && forall id :: id in r.result.value.data ==> r.result.value.data[id] == |VisibleVideos(s, s.playlists[id].videos)|
  {
    if !IsValidObjectId(userId) then Reject(s, 400, "Id is not valid")
    else if caller != userId then Reject(s, 403, "You dont have access to this")
    else
      var counts := map id | id in s.playlists && s.playlists[id].owner == caller :: |VisibleVideos(s, s.playlists[id].videos)|;
      Answer(s, 200, counts, "Playlists fetched successfully")
  }

  /** The upper-case spelling of the caller's own id is refused, although it names the same user. */
  lemma OwnIdOtherSpellingRefused(s: Store, caller: Id, userId: string)
    requires IsValidObjectId(userId) && !IsCanonical(userId) && Cast(userId) == caller
    ensures RejectedWith(GetUserPlaylists(s, caller, userId), 403, "You dont have access to this")
  {
  }

  /** A playlist as `getPlaylistById` shows it: its fields and the set of its visible videos. */
  datatype PlaylistView = PlaylistView(id: Id, name: string, description: string, owner: Id, videos: set<Id>)

  /** `getPlaylistById`: 400, 404, 403 for anyone but the owner; only published, existing videos are shown. */
  function GetPlaylistById(s: Store, caller: Id, playlistId: string): (r: Reply<PlaylistView>)
    ensures r.store == s
    ensures !IsValidObjectId(playlistId) ==> RejectedWith(r, 400, "Id is not valid")
    ensures IsValidObjectId(playlistId) && Cast(playlistId) !in s.playlists ==> RejectedWith(r, 404, "playlist not found")
    ensures (IsValidObjectId(playlistId) && Cast(playlistId) in s.playlists
             && !IsOwner(caller, s.playlists[Cast(playlistId)].owner)) ==> RejectedWith(r, 403, "You dont have access to this")
    ensures r.result.Ok? <==> IsValidObjectId(playlistId) && Cast(playlistId) in s.playlists
                              && IsOwner(caller, s.playlists[Cast(playlistId)].owner)
    ensures r.result.Ok? ==>
      var p := s.playlists[Cast(playlistId)];
      var view := r.result.value.data;
      && view.id == Cast(playlistId) && view.name == p.name && view.owner == caller
      && view.description == p.description
      && forall v :: v in view.videos <==> v in p.videos && v in s.videos && s.videos[v].isPublished
  {
    match FindIn(s.playlists, playlistId, "Id is not valid", "playlist not found")
    case Err(e) => Reply(Err(e), s)
    case Ok(id) =>
      var p := s.playlists[id];
      if !IsOwner(caller, p.owner) then Reject(s, 403, "You dont have access to this")
      else Answer(s, 200, PlaylistView(id, p.name, p.description, p.owner, VisibleVideos(s, p.videos)), "Playlist fetched successfully")
  }

  /**
   * `addVideoToPlaylist` as written. Checks in order: both ids well-formed
   * (400), the playlist exists (404) and is the caller's (403), the raw video
   * id is not already listed (400), the video exists (404). The cast id is
   * then put in front.
   */
  function AddVideoToPlaylist(s: Store, caller: Id, playlistId: string, videoId: string): (r: Reply<(Id, Playlist)>)
    ensures r.result.Err? ==> r.store == s
    ensures !IsValidObjectId(playlistId) || !IsValidObjectId(videoId) ==> RejectedWith(r, 400, "Id is not valid")
    ensures IsValidObjectId(videoId) && OwnedPlaylist(s, caller, playlistId).Err? ==>
      r.result == Err(OwnedPlaylist(s, caller, playlistId).error)
    ensures IsValidObjectId(videoId) && OwnedPlaylist(s, caller, playlistId).Ok?
            && RawContains(s.playlists[Cast(playlistId)].videos, videoId) ==>
      RejectedWith(r, 400, "Video is already present in the playlist")
    ensures r.result.Ok? <==>
      && IsValidObjectId(videoId) && OwnedPlaylist(s, caller, playlistId).Ok?
      && !RawContains(s.playlists[Cast(playlistId)].videos, videoId) && Cast(videoId) in s.videos
    ensures r.result.Ok? ==>
      var id := Cast(playlistId);
      var p := s.playlists[id].(videos := [Cast(videoId)] + s.playlists[id].videos);
      && r.store == s.(playlists := s.playlists[id := p])
      && r.result.value.data == (id, p)
  {
    if !IsValidObjectId(playlistId) || !IsValidObjectId(videoId) then Reject(s, 400, "Id is not valid")
    else match OwnedPlaylist(s, caller, playlistId)
      case Err(e) => Reply(Err(e), s)
      case Ok(id) =>
        var p := s.playlists[id];
        if RawContains(p.videos, videoId) then Reject(s, 400, "Video is already present in the playlist")
        else if Cast(videoId) !in s.videos then Reject(s, 404, "Video not found")
        else
          var q := p.(videos := [Cast(videoId)] + p.videos);
          Answer(s.(playlists := s.playlists[id := q]), 200, (id, q), "Video added successfully")
  }

  /**
   * The duplicate check as written lets a listed video in again when its id
   * is spelt with upper-case hex digits: the add succeeds and the list then
   * holds that video twice.
   */
  lemma AddVideoAdmitsDuplicate(s: Store, caller: Id, playlistId: string, videoId: string)
    requires IsValidObjectId(videoId) && !IsCanonical(videoId)
    requires OwnedPlaylist(s, caller, playlistId).Ok?
    requires Cast(videoId) in s.playlists[Cast(playlistId)].videos && Cast(videoId) in s.videos
    ensures AddVideoToPlaylist(s, caller, playlistId, videoId).result.Ok?
    ensures !NoDuplicates(AddVideoToPlaylist(s, caller, playlistId, videoId).store.playlists[Cast(playlistId)].videos)
  {
    var xs := s.playlists[Cast(playlistId)].videos;
    assert !RawContains(xs, videoId);
    var k :| 0 <= k < |xs| && xs[k] == Cast(videoId);
    var ys := [Cast(videoId)] + xs;
    assert ys[0] == ys[k + 1];
  }

  /** An input the lemma above applies to: an id written in upper case. */
  lemma UpperCaseIdIsNotCanonical()
    ensures IsValidObjectId("AAAAAAAAAAAAAAAAAAAAAAAA") && !IsCanonical("AAAAAAAAAAAAAAAAAAAAAAAA")
  {
    var raw := "AAAAAAAAAAAAAAAAAAAAAAAA";
    assert !IsLowerHexDigit(raw[0]);
  }

  /** `addVideoToPlaylist` with the duplicate check on the cast id. */
  function AddVideoToPlaylistFixed(s: Store, caller: Id, playlistId: string, videoId: string): (r: Reply<(Id, Playlist)>)
    ensures r.result.Err? ==> r.store == s
    ensures !IsValidObjectId(playlistId) || !IsValidObjectId(videoId) ==> RejectedWith(r, 400, "Id is not valid")
    ensures IsValidObjectId(videoId) && OwnedPlaylist(s, caller, playlistId).Ok?
            && Cast(videoId) in s.playlists[Cast(playlistId)].videos ==>
      RejectedWith(r, 400, "Video is already present in the playlist")
    ensures r.result.Ok? <==>
      && IsValidObjectId(videoId) && OwnedPlaylist(s, caller, playlistId).Ok?
      && Cast(videoId) !in s.playlists[Cast(playlistId)].videos && Cast(videoId) in s.videos
    ensures r.result.Ok? ==>
      var id := Cast(playlistId);
      var p := s.playlists[id].(videos := [Cast(videoId)] + s.playlists[id].videos);
      && r.store == s.(playlists := s.playlists[id := p])
      && r.result.value.data == (id, p) && r.result.value.message == "Video added successfully"
  {
    if !IsValidObjectId(playlistId) || !IsValidObjectId(videoId) then Reject(s, 400, "Id is not valid")
    else match OwnedPlaylist(s, caller, playlistId)
      case Err(e) => Reply(Err(e), s)
      case Ok(id) =>
        var p := s.playlists[id];
        if Cast(videoId) in p.videos then Reject(s, 400, "Video is already present in the playlist")
        else if Cast(videoId) !in s.videos then Reject(s, 404, "Video not found")
        else
          var q := p.(videos := [Cast(videoId)] + p.videos);
          Answer(s.(playlists := s.playlists[id := q]), 200, (id, q), "Video added successfully")
  }

  /** With the fix, adding keeps every playlist free of duplicates, however the id is spelt. */
  lemma AddFixedKeepsNoDuplicates(s: Store, caller: Id, playlistId: string, videoId: string)
    requires forall id :: id in s.playlists ==> NoDuplicates(s.playlists[id].videos)
    ensures var r := AddVideoToPlaylistFixed(s, caller, playlistId, videoId);
            forall id :: id in r.store.playlists ==> NoDuplicates(r.store.playlists[id].videos)
  {
    var r := AddVideoToPlaylistFixed(s, caller, playlistId, videoId);
    if r.result.Ok? {
      var id := Cast(playlistId);
      var xs := s.playlists[id].videos;
      var ys := [Cast(videoId)] + xs;
      forall i, j | 0 <= i < j < |ys| ensures ys[i] != ys[j] {
        if i == 0 {
          assert ys[j] == xs[j - 1];
        } else {
          assert ys[i] == xs[i - 1] && ys[j] == xs[j - 1];
        }
      }
    }
  }

  /**
   * `removeVideoFromPlaylist`: after the ids and the owner guards, the first
   * entry equal to the raw video id is removed; none is a 404.
   */
  function RemoveVideoFromPlaylist(s: Store, caller: Id, playlistId: string, videoId: string): (r: Reply<(Id, Playlist)>)
    ensures r.result.Err? ==> r.store == s
    ensures !IsValidObjectId(playlistId) || !IsValidObjectId(videoId) ==> RejectedWith(r, 400, "Id is not valid")
    ensures IsValidObjectId(videoId) && OwnedPlaylist(s, caller, playlistId).Err? ==>
      r.result == Err(OwnedPlaylist(s, caller, playlistId).error)
    ensures IsValidObjectId(videoId) && OwnedPlaylist(s, caller, playlistId).Ok?
            && !RawContains(s.playlists[Cast(playlistId)].videos, videoId) ==>
      RejectedWith(r, 404, "Video is not present in the playlist")
    ensures r.result.Ok? <==> IsValidObjectId(videoId) && OwnedPlaylist(s, caller, playlistId).Ok?
                              && RawContains(s.playlists[Cast(playlistId)].videos, videoId)
    ensures r.result.Ok? ==>
      var id := Cast(playlistId);
      var xs := s.playlists[id].videos;
      var i := RawIndex(xs, videoId).value;
      var p := s.playlists[id].(videos := RemoveAt(xs, i));
      && r.store == s.(playlists := s.playlists[id := p])
      && r.result.value.data == (id, p) && r.result.value.message == "Video removed successfully"
  {
    if !IsValidObjectId(playlistId) || !IsValidObjectId(videoId) then Reject(s, 400, "Id is not valid")
    else match OwnedPlaylist(s, caller, playlistId)
      case Err(e) => Reply(Err(e), s)
      case Ok(id) =>
        var p := s.playlists[id];
        match RawIndex(p.videos, videoId)
        case None => Reject(s, 404, "Video is not present in the playlist")
        case Some(i) =>
          var q := p.(videos := RemoveAt(p.videos, i));
          Answer(s.(playlists := s.playlists[id := q]), 200, (id, q), "Video removed successfully")
  }

  /** Removing what was just added, by the same canonical id, gives the playlist back. */
  lemma RemoveUndoesAdd(s: Store, caller: Id, playlistId: string, videoId: Id)
    requires AddVideoToPlaylistFixed(s, caller, playlistId, videoId).result.Ok?
    ensures var added := AddVideoToPlaylistFixed(s, caller, playlistId, videoId).store;
            RemoveVideoFromPlaylist(added, caller, playlistId, videoId).result.Ok?
            && RemoveVideoFromPlaylist(added, caller, playlistId, videoId).store == s
  {
    CastRoundTrip(videoId);
    var id := Cast(playlistId);
    var added := AddVideoToPlaylistFixed(s, caller, playlistId, videoId).store;
    var ys := added.playlists[id].videos;
    assert ys[0] == videoId;
    assert RawIndex(ys, videoId) == Some(0);
    assert RemoveAt(ys, 0) == s.playlists[id].videos;
    assert s.playlists[id := s.playlists[id].(videos := RemoveAt(ys, 0))] == s.playlists;
  }

  /**
   * `updatePlaylist`: a well-formed id (400), a non-blank name or description
   * (400, checked before the lookup), then 404 and 403. Each non-blank field
   * is overwritten with its trimmed value; the list of videos is untouched.
   */
  function UpdatePlaylist(s: Store, caller: Id, playlistId: string, name: Value, description: Value): (r: Reply<(Id, Playlist)>)
    ensures r.result.Err? ==> r.store == s
    ensures !IsValidObjectId(playlistId) ==> RejectedWith(r, 400, "Id is not valid")
    ensures IsValidObjectId(playlistId) && TrimOptional(name, "name") == Ok([])
            && TrimOptional(description, "description") == Ok([]) ==>
      RejectedWith(r, 400, "Name or description is required")
    ensures IsValidObjectId(playlistId) && (FilledIn(name) || FilledIn(description)) && Trimmable(name) ==>
      && (OwnedPlaylist(s, caller, playlistId).Err? ==> r.result == Err(OwnedPlaylist(s, caller, playlistId).error))
    ensures r.result.Ok? ==>
      && (FilledIn(name) || FilledIn(description)) && Trimmable(name) && Trimmable(description)
      && OwnedPlaylist(s, caller, playlistId).Ok?
      && var id := Cast(playlistId);
      && var before := s.playlists[id];
      && var after := before.(name := if FilledIn(name) then Trim(name.s) else before.name,
                              description := if FilledIn(description) then Trim(description.s) else before.description);
      && r.store == s.(playlists := s.playlists[id := after])
      && r.result.value.data == (id, after) && r.result.value.message == "Playlist updated successfully"
      && after.videos == before.videos && after.owner == before.owner
    ensures r.result.Ok? <==>
      && IsValidObjectId(playlistId) && (FilledIn(name) || FilledIn(description))
      && Trimmable(name) && Trimmable(description) && OwnedPlaylist(s, caller, playlistId).Ok?
  {
    if !IsValidObjectId(playlistId) then Reject(s, 400, "Id is not valid")
    else match TrimOptional(name, "name")
      case Err(e) => Reply(Err(e), s)
      case Ok(n) =>
        if n == [] && TrimOptional(description, "description").Err? then Reply(Err(TrimOptional(description, "description").error), s)
        else if n == [] && TrimOptional(description, "description") == Ok([]) then Reject(s, 400, "Name or description is required")
        else match OwnedPlaylist(s, caller, playlistId)
          case Err(e) => Reply(Err(e), s)
          case Ok(id) =>
            match TrimOptional(description, "description")
            case Err(e) => Reply(Err(e), s)
            case Ok(d) =>
              var before := s.playlists[id];
              var after := before.(name := if n != [] then n else before.name,
                                   description := if d != [] then d else before.description);
              Answer(s.(playlists := s.playlists[id := after]), 200, (id, after), "Playlist updated successfully")
  }

  /** `deletePlaylist`: the owner guards, then the playlist goes and nothing else does. */
  function DeletePlaylist(s: Store, caller: Id, playlistId: string): (r: Reply<Doc>)
    ensures r.result.Err? ==> r.store == s
    ensures OwnedPlaylist(s, caller, playlistId).Err? ==> r.result == Err(OwnedPlaylist(s, caller, playlistId).error)
    ensures r.result.Ok? <==> OwnedPlaylist(s, caller, playlistId).Ok?
    ensures r.result.Ok? ==> r.store == s.(playlists := s.playlists - {Cast(playlistId)})
                             && r.result.value.data == map["deleted" := Bool(true)]
  {
    match OwnedPlaylist(s, caller, playlistId)
    case Err(e) => Reply(Err(e), s)
    case Ok(id) => Answer(s.(playlists := s.playlists - {id}), 200, map["deleted" := Bool(true)], "playlist deleted successfully")
  }

  /**
   * A playlist just created is the caller's, shows its trimmed name and no
   * videos, and is counted among the caller's playlists with zero videos.
   */
  lemma CreatedPlaylistIsEmpty(s: Store, caller: Id, newId: Id, name: Value, description: Value)
    requires CreatePlaylist(s, caller, newId, name, description).result.Ok?
    ensures var t := CreatePlaylist(s, caller, newId, name, description).store;
            && GetPlaylistById(t, caller, newId).result.Ok?
            && GetPlaylistById(t, caller, newId).result.value.data == PlaylistView(newId, Trim(name.s), Trim(description.s), caller, {})
            && GetUserPlaylists(t, caller, caller).result.Ok?
            && newId in GetUserPlaylists(t, caller, caller).result.value.data
            && GetUserPlaylists(t, caller, caller).result.value.data[newId] == 0
  {
    CastRoundTrip(newId);
    CastRoundTrip(caller);
    var t := CreatePlaylist(s, caller, newId, name, description).store;
    assert VisibleVideos(t, []) == {};
  }

  /** Deleting a playlist just created, by its owner, gives the store back. */
  lemma DeleteUndoesCreatePlaylist(s: Store, caller: Id, newId: Id, name: Value, description: Value)
    requires CreatePlaylist(s, caller, newId, name, description).result.Ok?
    ensures var t := CreatePlaylist(s, caller, newId, name, description).store;
            && DeletePlaylist(t, caller, newId).result.Ok?
            && DeletePlaylist(t, caller, newId).store == s
  {
    DeleteJustCreated(s, newId, Playlist(Trim(name.s), Trim(description.s), [], caller));
  }

  lemma DeleteJustCreated(s: Store, newId: Id, p: Playlist)
    requires newId !in s.playlists
    ensures var t := s.(playlists := s.playlists[newId := p]);
            DeletePlaylist(t, p.owner, newId).result.Ok? && DeletePlaylist(t, p.owner, newId).store == s
  {
    CastRoundTrip(newId);
    assert s.playlists[newId := p] - {newId} == s.playlists;
  }

  /** Sending the same playlist update twice leaves the store as the first update left it. */
  lemma UpdatePlaylistIdempotent(s: Store, caller: Id, playlistId: string, name: Value, description: Value)
    requires UpdatePlaylist(s, caller, playlistId, name, description).result.Ok?
    ensures var once := UpdatePlaylist(s, caller, playlistId, name, description).store;
            && UpdatePlaylist(once, caller, playlistId, name, description).result.Ok?
            && UpdatePlaylist(once, caller, playlistId, name, description).store == once
  {
    UpdateAlreadyApplied(UpdatePlaylist(s, caller, playlistId, name, description).store, caller, playlistId, name, description);
  }

  /** An update whose fields the playlist already holds succeeds and changes nothing. */
  lemma UpdateAlreadyApplied(t: Store, caller: Id, playlistId: string, name: Value, description: Value)
    requires IsValidObjectId(playlistId) && (FilledIn(name) || FilledIn(description)) && Trimmable(name) && Trimmable(description)
    requires Cast(playlistId) in t.playlists && t.playlists[Cast(playlistId)].owner == caller
    requires FilledIn(name) ==> t.playlists[Cast(playlistId)].name == Trim(name.s)
    requires FilledIn(description) ==> t.playlists[Cast(playlistId)].description == Trim(description.s)
    ensures UpdatePlaylist(t, caller, playlistId, name, description).result.Ok?
    ensures UpdatePlaylist(t, caller, playlistId, name, description).store == t
  {
    var id := Cast(playlistId);
    assert OwnedPlaylist(t, caller, playlistId).Ok?;
    var p := t.playlists[id];
    var after := p.(name := if FilledIn(name) then Trim(name.s) else p.name,
                    description := if FilledIn(description) then Trim(description.s) else p.description);
    assert after == p;
    assert t.playlists[id := after] == t.playlists;
  }
}

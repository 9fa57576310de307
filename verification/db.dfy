/**
 * The document store the handlers read and write, as plain values: one record
 * type per collection, the users collection in natural (insertion) order, the
 * other collections keyed by id, and likes and subscriptions as sets of pairs.
 * A handler is a function from a store to a `Reply`: either a response and the
 * store after its single write, or the failure it throws and the store it
 * leaves behind.
 */
module Db {
  import opened Wrappers
  import opened ObjectIds
  import opened Http

  datatype User = User(
    id: Id,
    username: string,
    email: string,
    fullName: string,
    avatar: string,
    coverImage: string,
    password: string,
    refreshToken: Option<string>)

  /** `views` is `None` when the document has no views field. */
  datatype Video = Video(
    videoFile: string,
    thumbnail: string,
    title: string,
    description: string,
    duration: int,
    views: Option<int>,
    isPublished: bool,
    owner: Id)

  datatype Playlist = Playlist(name: string, description: string, videos: seq<Id>, owner: Id)

  datatype Comment = Comment(content: string, video: Id, owner: Id)

  datatype Tweet = Tweet(content: string, owner: Id)

  /** What a like document points at: exactly one of `video`, `comment` or `tweet`. */
  datatype Target = OnVideo(video: Id) | OnComment(comment: Id) | OnTweet(tweet: Id)

  datatype Like = Like(likedBy: Id, target: Target)

  datatype Subscription = Subscription(subscriber: Id, channel: Id)

  datatype Store = Store(
    users: seq<User>,
    videos: map<Id, Video>,
    playlists: map<Id, Playlist>,
    comments: map<Id, Comment>,
    tweets: map<Id, Tweet>,
    likes: set<Like>,
    subscriptions: set<Subscription>)

  /** The outcome of one request: the result and the store afterwards. */
  datatype Reply<+T> = Reply(result: Result<Response<T>, Failure>, store: Store)

  /** `throw new ApiError(status, message)` before any write. */
  function Reject<T>(s: Store, status: int, message: string): Reply<T> {
    Reply(Err(Error(status, message)), s)
  }

  /** A non-`ApiError` exception before any write. */
  function Throw<T>(s: Store, message: string): Reply<T> {
    Reply(Err(Thrown(message)), s)
  }

  function Answer<T>(s: Store, status: int, data: T, message: string): Reply<T> {
    Reply(Ok(Response(status, data, message)), s)
  }

  /** The request failed with an `ApiError` of this status. */
  predicate Rejected<T>(r: Reply<T>, status: int) {
    r.result.Err? && r.result.error.ApiError? && r.result.error.statusCode == status
  }

  /** The message of a failed request's `ApiError`. */
  predicate RejectedWith<T>(r: Reply<T>, status: int, message: string) {
    Rejected(r, status) && r.result.error.message == message
  }

  /** The index of the first user satisfying `p`: `findOne` in natural order. */
  function FirstUser(users: seq<User>, p: User -> bool): (r: Option<nat>)
    ensures r.Some? ==> r.value < |users| && p(users[r.value])
    ensures r.Some? ==> forall j :: 0 <= j < r.value ==> !p(users[j])
    ensures r.None? ==> forall j :: 0 <= j < |users| ==> !p(users[j])
  {
    if users == [] then None
    else if p(users[0]) then Some(0)
    else match FirstUser(users[1..], p)
      case None => None
      case Some(k) => Some(k + 1)
  }

  /** `User.findById(id)`. */
  function FindUser(users: seq<User>, id: Id): (r: Option<nat>)
    ensures r.Some? ==> r.value < |users| && users[r.value].id == id
    ensures r.None? <==> forall j :: 0 <= j < |users| ==> users[j].id != id
  {
    FirstUser(users, (u: User) => u.id == id)
  }

  /** The `_id` unique index of the users collection. */
  predicate UniqueIds(users: seq<User>) {
    forall i, j :: 0 <= i < j < |users| ==> users[i].id != users[j].id
  }

  lemma FindUserUnique(users: seq<User>, i: nat)
    requires UniqueIds(users) && i < |users|
    ensures FindUser(users, users[i].id) == Some(i)
  {
  }

  /**
   * The guard pair every id-taking handler starts with: `isValidObjectId(raw)`
   * or a 400, then `findById` or a 404.
   */
  function FindIn<T>(m: map<Id, T>, raw: string, invalid: string, missing: string): (r: Result<Id, Failure>)
    ensures !IsValidObjectId(raw) ==> r == Err(Error(400, invalid))
    ensures IsValidObjectId(raw) && Cast(raw) !in m ==> r == Err(Error(404, missing))
    ensures r.Ok? <==> IsValidObjectId(raw) && Cast(raw) in m
    ensures r.Ok? ==> r.value == Cast(raw) && r.value in m
  {
    if !IsValidObjectId(raw) then Err(Error(400, invalid))
    else if Cast(raw) !in m then Err(Error(404, missing))
    else Ok(Cast(raw))
  }

  /** No id occurs twice. */
  predicate NoDuplicates(xs: seq<Id>) {
    forall i, j :: 0 <= i < j < |xs| ==> xs[i] != xs[j]
  }

  /**
   * The guards every owner-only handler runs: a well-formed id (400), an
   * existing document (404 with `missing`), and the caller owns it (403).
   */
  function FindOwned<T>(m: map<Id, T>, ownerOf: T -> Id, caller: Id, raw: string, missing: string): (r: Result<Id, Failure>)
    ensures !IsValidObjectId(raw) ==> r == Err(Error(400, "Id is not valid"))
    ensures IsValidObjectId(raw) && Cast(raw) !in m ==> r == Err(Error(404, missing))
    ensures (IsValidObjectId(raw) && Cast(raw) in m && !IsOwner(caller, ownerOf(m[Cast(raw)]))) ==>
      r == Err(Error(403, "You dont have access to this"))
    ensures r.Ok? <==> IsValidObjectId(raw) && Cast(raw) in m && IsOwner(caller, ownerOf(m[Cast(raw)]))
    ensures r.Ok? ==> r.value == Cast(raw)
  {
    match FindIn(m, raw, "Id is not valid", missing)
    case Err(e) => Err(e)
    case Ok(id) => if !IsOwner(caller, ownerOf(m[id])) then Err(Error(403, "You dont have access to this")) else Ok(id)
  }
}

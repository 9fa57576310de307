# Watchly backend — a Dafny model of its request logic

Watchly is an Express/Mongoose video-sharing backend: users register and log
in, upload videos, and keep playlists, comments, tweets, likes and
subscriptions. This project models the decision logic of its controllers,
middlewares, user model and Cloudinary helper over an abstract in-memory store.

Every handler becomes a pure function from the store and the request
parameters to a `Reply`. A `Reply` pairs the outcome with the store
afterwards. The outcome is a response (status, data, message) or a `Failure`.
A `Failure` is either the `ApiError` the handler throws or another exception:
a `TypeError`, a Mongoose cast error, a `jsonwebtoken` error or a duplicate-key
error. The contracts give:

- the order of the guards and the status and message each one produces;
- the exact store update on success;
- that a failure leaves the store untouched;
- the laws relating operations: toggles are their own inverses, deleting
  undoes creating, a created or liked item shows up in its listing, repeated
  updates change nothing more, login stores the refresh token it returns,
  and a registered user can log in.

Modules follow the source layout:

| module | file | models |
|---|---|---|
| `Wrappers` | wrappers.dfy | `Option`, `Result` |
| `Text` | text.dfy | `trim`, `toLowerCase`, `indexOf`, `replace` with a string pattern |
| `ObjectIds` | ids.dfy | `isValidObjectId`, casting a raw id, the ownership test |
| `Http` | http.dfy | request values, truthiness, `v?.trim()`, `ApiError` |
| `Paging` | paging.dfy | `parseInt(s, 10)`, page/limit/sort normalisation |
| `Cloudinary` | cloudinary.dfy | `getPublicIdFromUrl`, the null guards of upload and delete |
| `UploadFilter` | multer.dfy | the MIME filter and the size limit |
| `ErrorMiddleware` | errors.dfy | `errorHandler` |
| `Db` | db.dfy | the store, `findById`, `findOne`, the shared guards |
| `UserModel` | usermodel.dfy | schema setters, the pre-save hash, token claims, projections |
| `UserController` | users.dfy | register, login, logout, token issue |
| `Auth` | auth.dfy | `verifyJWT` and `optionalJWT` |
| `VideoController`, `PlaylistController`, `LikeController`, `SubscriptionController`, `CommentController`, `TweetController`, `DashboardController` | videos.dfy, playlists.dfy, likes.dfy, subscriptions.dfy, comments.dfy, tweets.dfy, dashboard.dfy | the resource handlers |

Modelling choices:

- bcrypt, `jwt.sign` and `jwt.verify` are fields of an `Env` value passed in
  as parameters. Their laws are predicates that lemmas assume as hypotheses:
  - `BcryptSound`: a password matches its own hash;
  - `JwtSound`: a token verifies to the claims it was signed with;
  - `SignsJws` and `StrictVerify`: tokens are compact JWS strings, and verify
    rejects anything else.
- The Cloudinary service is a `Cloud` value, also passed in.
- Users are a sequence, because `findOne` returns the first match in natural
  order. Videos, playlists, comments and tweets are maps from id to document.
  Likes and subscriptions are sets of pairs.
- Ids are 24-character lower-case hex strings. Path parameters are raw
  strings. `isValidObjectId` accepts 24 hex digits of either case, and a cast
  lower-cases them.
- Comparisons that the code makes on raw strings are modelled as raw string
  comparisons. These include `toString() === videoId` and
  `req.user._id.toString() !== userId`.
- Mongoose applies the `lowercase` and `trim` setters to query values as well
  as stored values. The register and login lookups therefore compare
  normalised keys.
- New document ids are parameters (`newId`). A clash with an existing id is
  the store's duplicate-key error.
- Mongoose drops a key whose value is `undefined` from a filter or an update.
  An equality clause with an `undefined` value therefore matches every
  document, and `$set` of an `undefined` value sets nothing.
- Where the code evidently misbehaves, the member named after the handler
  keeps the code's behaviour, and a member ending in `Fixed` models the
  evident intent. Findings lists each such pair.

Some behaviours of the code worth knowing:

- A `jwt.verify` failure in `verifyJWT` is not an `ApiError`, so the error
  middleware answers it with 500, not 401.
- Refresh tokens are issued and cleared, but no handler exchanges one for a
  new access token.
- Login answers 400 when neither email nor username is given.
- An `Authorization: Bearer <token>` header never opens the mandatory gate.
  See Findings.

## Model

| member | source | states |
|---|---|---|
| Text.Trim | src/controllers/playlist.controller.js:12-18 | `trim` returns an infix of the input: everything removed at either end is white space, and the result neither starts nor ends with white space |
| Text.TrimStart | src/controllers/playlist.controller.js:17 | the leading white space is dropped: the result is a suffix starting with a non-space, and the dropped prefix is all white space |
| Text.TrimEnd | src/controllers/playlist.controller.js:17 | the trailing white space is dropped: the result is a prefix ending with a non-space, and the dropped suffix is all white space |
| Text.BlankIffAllSpace | src/controllers/comment.controller.js:113 | `!s.trim()` holds exactly when every character of `s` is white space |
| Text.TrimIdempotent | src/controllers/playlist.controller.js:298-303 | trimming an already trimmed value changes nothing |
| Text.TrimPadded | src/middlewares/optionalAuth.middleware.js:7 | trimming a string whose ends are not white space, after white-space padding in front, gives that string back |
| Text.ToLower | src/controllers/user.controller.js:69 | `toLowerCase` keeps the length and lower-cases each character in place |
| Text.ToLowerIdempotent | src/controllers/user.controller.js:69 | lower-casing twice is lower-casing once |
| Text.TrimLowerCommute | src/models/user.model.js:11-12 | the `lowercase` and `trim` setters commute |
| Text.IndexOf | src/utils/cloudinary.js:11 | the first occurrence of a pattern, and `None` exactly when there is no occurrence |
| Text.ReplaceFirst | src/middlewares/auth.middleware.js:8 | `replace` with a string pattern returns a string without the pattern unchanged |
| Text.ReplaceFirstAtStart | src/middlewares/auth.middleware.js:8 | a pattern at the very start is the occurrence `replace` removes |
| ObjectIds.Cast | src/controllers/playlist.controller.js:162-166 | a cast id has the same hex digits up to case, and equals the raw string exactly when that was already lower case |
| ObjectIds.CastRoundTrip | src/controllers/playlist.controller.js:176-177 | a stored id's string form is a valid id that casts back to itself |
| ObjectIds.CastSameDocument | src/controllers/video.controller.js:169-173 | two raw ids name the same document exactly when they agree up to letter case |
| Http.TrimOptional | src/controllers/tweet.controller.js:11 | `v?.trim()` succeeds exactly for absent, null or string values; a string gives its trim; the result is non-empty exactly when the value is filled in |
| Http.Omit | src/controllers/video.controller.js:9-12 | `delete` removes exactly the named keys and keeps every other entry |
| Http.Error | src/middlewares/error.middleware.js:5-14 | `new ApiError(status, message)` carries that status and message, is not a success, has `data: null`, and has no `error` list for the middleware to pass on |
| Paging.LeadingDigits | src/controllers/video.controller.js:81 | the longest prefix made of decimal digits |
| Paging.Decimal | src/controllers/video.controller.js:81-82 | the decimal rendering of a natural number is a non-empty run of digits with that value |
| Paging.ParseIntDigits | src/controllers/video.controller.js:20 | `parseInt(s, 10)` skips leading white space, honours one sign, and reads the leading digits, ignoring what follows them; the digits are read exactly, without double rounding |
| Paging.DecimalParses | src/controllers/video.controller.js:81-82 | `parseInt` inverts the decimal rendering, read exactly (the code agrees up to 2^53) |
| Paging.PageNumber | src/controllers/video.controller.js:81 | the page is at least 1; a parsed value of at least 1 is kept, and anything else gives 1 |
| Paging.LimitNumber | src/controllers/video.controller.js:82 | the limit is at least 1; a parsed value of at least 1 is kept; absent, NaN or 0 give 10; a negative value gives 1 |
| Paging.SortOrder | src/controllers/video.controller.js:20 | the order is 1 or -1, and it is 1 exactly when `sortType` parses to 1 |
| Paging.SortField | src/controllers/video.controller.js:19 | `sortBy` when it is non-empty, and "createdAt" when it is absent or empty |
| Paging.Normalize | src/controllers/like.controller.js:137-140 | the normalised paging always has page ≥ 1, limit ≥ 1, an order of ±1 and a sort field |
| Paging.PageNumberDecimal | src/controllers/comment.controller.js:25 | a page number written in decimal comes back unchanged (the code agrees up to 2^53) |
| Paging.LimitNumberDecimal | src/controllers/comment.controller.js:26 | a limit written in decimal comes back unchanged (the code agrees up to 2^53) |
| Paging.SortOrderDecimal | src/controllers/comment.controller.js:13 | a decimal `sortType` sorts ascending exactly when it is 1, and any negative one sorts descending |
| Paging.NegativeParses | src/controllers/video.controller.js:82 | a minus sign before digits parses to the negated value |
| Paging.NormalizeRoundTrip | src/controllers/tweet.controller.js:41-42 | page, limit, sort field and order written in decimal are normalised to themselves (page and limit as the code has them up to 2^53) |
| Cloudinary.UploadSegment | src/utils/cloudinary.js:11 | `split("/upload/")[1]` is undefined exactly when there is no "/upload/", and otherwise contains no further "/upload/" |
| Cloudinary.StripVersion | src/utils/cloudinary.js:12 | at most one leading `v<digits>/` is removed, and only when present |
| Cloudinary.VersionPrefixUnique | src/utils/cloudinary.js:12 | a version prefix, when present, has exactly one length |
| Cloudinary.StripExtension | src/utils/cloudinary.js:13 | a final `.ext` without "/" or "." is removed; a name without one is unchanged |
| Cloudinary.PublicIdFromUrl | src/utils/cloudinary.js:10-15 | the extraction fails exactly for a URL without "/upload/" |
| Cloudinary.PublicIdRoundTrip | src/utils/cloudinary.js:10-15 | a delivery URL built from a public id gives that id back, keeping its folders and dropping one version prefix and the extension |
| Cloudinary.StripExtensionOf | src/utils/cloudinary.js:13 | a public id followed by a dot and an extension loses exactly the extension |
| Cloudinary.StripVersionOf | src/utils/cloudinary.js:12 | a version prefix in front of a body is removed, and a body without one is unchanged |
| Cloudinary.UploadOnCloudinary | src/utils/cloudinary.js:18-42 | a missing or empty path gives null; any other path gives the service's answer |
| Cloudinary.DeleteFromCloudinary | src/utils/cloudinary.js:44-59 | an empty URL or one without "/upload/" gives null; otherwise the service's answer for the extracted id |
| UploadFilter.VideoAndThumbnailFilter | src/middlewares/multer.middleware.js:22-34 | a file passes exactly when it is a thumbnail with one of the four image types or a video file with one of the three video types; anything else is a 400 naming the field |
| UploadFilter.FilterSeparatesFields | src/middlewares/multer.middleware.js:26-33 | only the two declared fields pass, never with each other's types |
| UploadFilter.CheckFileSize | src/middlewares/multer.middleware.js:40-42 | a file passes exactly when it is at most 100·1024·1024 bytes |
| ErrorMiddleware.ErrorHandler | src/middlewares/error.middleware.js:3-25 | an `ApiError` keeps its status, message, `success` and `data`, and its `errors` key is the error's `error` property, absent when that is undefined; anything else is a 500 with `errors: []`, `success: false`, `data: null` and the error's message or "Internal Server Error" |
| ErrorMiddleware.ApiErrorRoundTrip | src/middlewares/error.middleware.js:5-15 | every property of an `ApiError` that the middleware reads can be read back from its response body |
| ErrorMiddleware.RejectionStatus | src/middlewares/error.middleware.js:5-15 | a handler's `ApiError(status, message)` reaches the client with that status and message, as a failure, and with no `errors` key |
| ErrorMiddleware.OnlyApiErrorsChooseStatus | src/middlewares/error.middleware.js:17-24 | any status other than 500 comes from an `ApiError` |
| Db.FirstUser | src/controllers/user.controller.js:39-41 | `findOne` returns the first document satisfying the filter, and none exactly when no document does |
| Db.FindUser | src/middlewares/auth.middleware.js:16 | `findById` finds a user with that id, and none exactly when no user has it |
| Db.FindUserUnique | src/controllers/user.controller.js:9 | with unique ids, `findById` of a user's id finds that very user |
| Db.FindIn | src/controllers/video.controller.js:357-365 | 400 for a malformed id, then 404 for a missing document; success exactly for a stored, well-formed id |
| Db.FindOwned | src/controllers/comment.controller.js:177-189 | 400, then 404, then 403 when the caller is not the owner; success exactly for the owner of a stored document |
| UserModel.NormalizeKey | src/models/user.model.js:7-21 | a stored username or email is the trimmed lower-case input: no white space at either end and no upper-case letter |
| UserModel.NormalizeKeyIdempotent | src/models/user.model.js:11-12 | a normalised key is its own normal form |
| UserModel.ApplySetters | src/models/user.model.js:7-27 | username and email are lower-cased and trimmed, fullName trimmed, and nothing else changes |
| UserModel.PreSave | src/models/user.model.js:55-60 | the pre-save hook hashes the password only when it was modified, and changes nothing else |
| UserModel.PreSaveKeepsHash | src/models/user.model.js:56 | a save that keeps the password keeps the stored hash |
| UserModel.CreatedPasswordVerifies | src/models/user.model.js:64-66 | the password given at creation verifies against the stored hash |
| UserModel.AccessClaims | src/models/user.model.js:68-81 | access-token claims are exactly `_id`, `email`, `username`, `fullName`, with the user's values |
| UserModel.RefreshClaims | src/models/user.model.js:83-93 | refresh-token claims are exactly `_id` |
| UserModel.AccessTokenOpens | src/models/user.model.js:68-81 | an access token verifies under the access secret to the user's identity claims |
| UserModel.RefreshTokenOpens | src/models/user.model.js:83-93 | a refresh token verifies under the refresh secret to the user's id alone |
| UserModel.UserDoc | src/controllers/user.controller.js:109 | `toObject()` has every stored field with the user's value, and `refreshToken` only when set |
| UserModel.PublicUser | src/controllers/user.controller.js:72-74 | the projection clients see has no `password` and no `refreshToken`, and has the six public fields with the user's values |
| UserModel.PublicUserIgnoresSecrets | src/controllers/user.controller.js:109-111 | the public projection does not depend on the password or the refresh token |
| UserController.IssueTokens | src/controllers/user.controller.js:8-17 | both tokens are signed for the stored user; the refresh token is saved on that user; no other record changes; a missing user throws |
| UserController.RegisterUser | src/controllers/user.controller.js:19-84 | 400 unless all four fields are non-blank strings, 409 when the normalised username or email is taken, 400 without an avatar file, 400 when its upload fails; on success the new user is appended and its public projection returned with 201, carrying the uploaded avatar URL, the cover URL or "" and the trimmed full name |
| UserController.CreateUser | src/controllers/user.controller.js:54-70 | after the form checks: a failed avatar upload is a 400; otherwise the user is stored with the avatar URL and the cover URL or "" |
| UserController.NewUser | src/controllers/user.controller.js:63-70 | the created document has normalised username and email, trimmed fullName, the hashed password and no refresh token |
| UserController.NormalizeLowered | src/controllers/user.controller.js:69 | the explicit `toLowerCase()` before the setters changes nothing |
| UserController.RegisterKeepsKeysUnique | src/controllers/user.controller.js:39-45 | registration keeps ids, usernames and emails unique |
| UserController.AppendKeepsKeysUnique | src/controllers/user.controller.js:63-70 | appending a user whose keys clash with no stored user keeps the keys unique |
| UserController.LoginUser | src/controllers/user.controller.js:86-131 | as written: 400 without email and username, 404 when the lookup finds nobody, 401 on a wrong password, success exactly when the password verifies against the found user; a login by email alone checks the first stored user's password; failures leave the store alone |
| UserController.LoginWith | src/controllers/user.controller.js:88-105 | the checks after the lookup: 404 for no user, 401 exactly on a wrong password, and token issue for the found user on success |
| UserController.LoginUserFixed | src/controllers/user.controller.js:86-131 | the same checks with the intended lookup: 404 exactly when no user has a key that was sent, 401 exactly when that user's password does not verify |
| UserController.LookupIdentity | src/controllers/user.controller.js:93-95 | as written: the first user matching a clause, where the clause of a key that was not sent matches anyone, so a lookup by one key alone finds the first stored user |
| UserController.LookupIdentityFixed | src/controllers/user.controller.js:93-95 | the first user whose normalised username or email equals a key that was sent, and none exactly when no user matches |
| UserController.EmailOnlyLoginChecksFirstUser | src/controllers/user.controller.js:93-101 | with two users, the second logging in with its own email and password is refused with 401 as written and admitted by the intended lookup |
| UserController.Authenticate | src/controllers/user.controller.js:101-130 | 401 exactly on a wrong password; on success both tokens are set as secure http-only cookies, the user comes back without secrets, and only that user's refresh token changes |
| UserController.LoginStoresReturnedToken | src/controllers/user.controller.js:107-126 | after login the matched user's stored refresh token is the one returned, no other record changes, and the returned user is that record's public projection |
| UserController.AuthenticateStoresToken | src/controllers/user.controller.js:13-14 | the token issue writes the returned refresh token onto the authenticated user and nowhere else |
| UserController.RegisteredUserCanLogIn | src/controllers/user.controller.js:63-105 | with the intended lookup, a freshly registered user can log in with the email and password it registered with |
| UserController.LoginAfterAppend | src/controllers/user.controller.js:93-105 | with the intended lookup, a user appended after every user with another email can log in by email |
| UserController.AppendedUserCanLogIn | src/controllers/user.controller.js:93-101 | that appended user is the one the intended lookup finds, and its password verifies |
| UserController.FirstMatchUnique | src/controllers/user.controller.js:93-95 | the intended lookup has at most one answer |
| UserController.LogoutUser | src/controllers/user.controller.js:134-158 | as written: logout always answers 200 and clears both cookies, and the store is unchanged, because `$set` of `undefined` sets nothing |
| UserController.LogoutUserFixed | src/controllers/user.controller.js:134-158 | logout as intended: 200 with both cookies cleared, the caller's refresh token removed, and nothing else changed |
| UserController.LogoutLeavesRefreshToken | src/controllers/user.controller.js:138-140 | a logged-in caller's refresh token survives the logout as written and is gone after the intended one |
| UserController.LogoutIdempotent | src/controllers/user.controller.js:134-158 | the intended logout twice gives the same store and the same response as once |
| UserController.LogoutClearsToken | src/controllers/user.controller.js:138-140 | after the intended logout no record with the caller's id keeps a refresh token |
| Auth.ExtractAccessToken | src/middlewares/auth.middleware.js:8 | a non-empty cookie wins; without one, no header gives no token, and a header gives its value with the first "Bearer" removed, so one without "Bearer" is taken as it is |
| Auth.ResolveUser | src/middlewares/auth.middleware.js:14-20 | a token that does not verify throws; a verified id naming no user is 401 "Invalid Access Token"; success exactly when the claims name a stored user, giving its public projection |
| Auth.VerifyJwt | src/middlewares/auth.middleware.js:7-24 | no token is 401 "Unauthorized request"; otherwise the outcome of verifying and resolving the token |
| Auth.ExtractOptionalToken | src/middlewares/optionalAuth.middleware.js:7 | the same extraction, except that a token taken from the header is trimmed |
| Auth.OptionalJwt | src/middlewares/optionalAuth.middleware.js:6-25 | the gate never fails: it gives a user exactly when a token is present, verifies and names a stored user |
| Auth.CookieTakesPrecedence | src/middlewares/auth.middleware.js:8 | a non-empty cookie decides the token whatever the header says, in both gates |
| Auth.OptionalAgreesWithMandatory | src/middlewares/optionalAuth.middleware.js:7-24 | when both gates extract the same token, the optional gate's user is the mandatory gate's success |
| Auth.AccessTokenOpensGate | src/middlewares/auth.middleware.js:14-22 | a user's own access token, sent as the cookie, opens the gate to that user |
| Auth.LoginSessionOpensGate | src/controllers/user.controller.js:118-126 | the access token login returns opens the gate on the store after login, to the user login returned |
| Auth.AuthenticateOpensGate | src/controllers/user.controller.js:107-126 | the same, from the authenticated user's index |
| Auth.TokenOpensGate | src/middlewares/auth.middleware.js:14-22 | a freshly generated access token opens the gate to its user |
| Auth.BearerHeaderKeepsLeadingSpace | src/middlewares/auth.middleware.js:8 | for `Bearer <t>` the mandatory gate extracts `" " + t`; the optional gate extracts its trim |
| Auth.JwsTrimmed | src/middlewares/optionalAuth.middleware.js:7 | trimming a space-padded JWS string gives the string back |
| Auth.BearerHeaderFailsGate | src/middlewares/auth.middleware.js:8-14 | a user's valid token sent as `Bearer <token>` makes the mandatory gate throw, while the optional gate resolves the user |
| Auth.VerifyJwtFixed | src/middlewares/auth.middleware.js:8-20 | the mandatory gate with a trimmed header: no token is 401, and it succeeds exactly where the optional gate finds a user |
| Auth.FixedGateAdmitsBearer | src/middlewares/auth.middleware.js:8-22 | with the fix, a user's token sent as `Bearer <token>` opens the mandatory gate to that user |
| VideoController.VideoDoc | src/controllers/video.controller.js:9 | `toObject()` of a video has each stored field with the video's value, with `views` only when present |
| VideoController.SanitizePrivateVideo | src/controllers/video.controller.js:8-13 | removes exactly `videoFile` and `thumbnail` and keeps every other field |
| VideoController.SanitizeIdempotent | src/controllers/video.controller.js:8-13 | sanitising twice is sanitising once, and the sanitised video keeps every other field |
| VideoController.Shown | src/controllers/video.controller.js:152 | the file URLs are shown exactly for a published video, with the stored URLs; every shown field has the stored value |
| VideoController.PublishFlag | src/controllers/video.controller.js:112-113 | a video is unpublished exactly for the boolean `false` or the string "false" |
| VideoController.PublishFlagLiteral | src/controllers/video.controller.js:113 | absent, "False", 0 and "" all publish |
| VideoController.DurationOf | src/controllers/video.controller.js:142 | the upload's duration when there is one, and 0 when it is missing |
| VideoController.PublishAVideo | src/controllers/video.controller.js:109-164 | 400 for a blank title or description, 400 without both files; success exactly when all are given and both uploads succeed; failures leave the store alone |
| VideoController.CreateVideo | src/controllers/video.controller.js:123-152 | 500 when either upload fails; otherwise the caller's video is stored with the raw title and description and the publish flag, and shown per its flag |
| VideoController.CreatedVideoServedIffPublished | src/controllers/video.controller.js:137-197 | a video just created is served by `getVideoById` exactly when it was published, with the document the publish reply carried, and is 403 otherwise |
| VideoController.DeleteUndoesCreateVideo | src/controllers/video.controller.js:272-315 | deleting a video just created, by its uploader, gives the store back when both files are destroyed |
| VideoController.DeleteJustCreated | src/controllers/video.controller.js:272-315 | the owner can delete a freshly stored video whose files are destroyed, and that restores the store |
| VideoController.GetVideoById | src/controllers/video.controller.js:166-197 | 400 malformed id, 404 missing, 403 unpublished even for its owner; success exactly for a stored published video |
| VideoController.OwnedVideo | src/controllers/video.controller.js:275-287 | 400, then 404, then 403 for a non-owner; success exactly for the owner of a stored video |
| VideoController.UpdatedText | src/controllers/video.controller.js:223-229 | a field is replaced by the raw value exactly when that trims to something |
| VideoController.UpdateVideo | src/controllers/video.controller.js:199-270 | 400 malformed id, 400 when no field or file is truthy, then 404 and 403, then a throw for a non-string title or description; success exactly when these pass and any new thumbnail uploads and the old one is destroyed; then only title, description and thumbnail change, each by the update rules |
| VideoController.Edited | src/controllers/video.controller.js:223-229 | the edit touches title and description only |
| VideoController.EditVideo | src/controllers/video.controller.js:223-259 | succeeds exactly without a file, or when the new thumbnail uploads with a URL and any old one is destroyed; then only the edited fields change |
| VideoController.UpdateVideoIdempotent | src/controllers/video.controller.js:223-229 | the same text update twice, with no file, changes nothing more than once |
| VideoController.UpdateAlreadyApplied | src/controllers/video.controller.js:199-259 | a text update, with no file, whose values the owner's video already holds succeeds and changes nothing |
| VideoController.DeleteVideo | src/controllers/video.controller.js:272-315 | the 400, 404 and 403 of the owner guard are passed on; then 500 when the video file or the thumbnail is not destroyed; success exactly when the owner's stored files are both destroyed, and then exactly that video is gone |
| VideoController.TogglePublishStatus | src/controllers/video.controller.js:317-352 | success exactly for the owner of a stored video; the toggle negates `isPublished`, changes nothing else, and reports which way it went |
| VideoController.ToggleTwiceRestores | src/controllers/video.controller.js:334-337 | toggling twice succeeds and restores the store |
| VideoController.IncrementVideoView | src/controllers/video.controller.js:354-385 | 400, 404, then 403 for an unpublished video; success exactly for a published one, adding 1 to its views with a missing count as 0 |
| VideoController.IncrementTwice | src/controllers/video.controller.js:371-375 | two views add exactly two |
| VideoController.GetAllVideos | src/controllers/video.controller.js:16-24 | the search applies exactly when the query is non-blank and uses the raw query; paging is normalised |
| VideoController.AllVideosListing | src/controllers/video.controller.js:16-35 | the videos `getAllVideos` selects are every published video for an absent or blank query, and otherwise the published ones whose title or description matches the raw query |
| VideoController.Candidates | src/controllers/video.controller.js:22-35 | without a search the listing is every published video; with one it is exactly the published videos whose title or description matches |
| VideoController.SearchNarrowsListing | src/controllers/video.controller.js:24-35 | a search only narrows the listing of published videos |
| VideoController.ToggleMovesVideoInListing | src/controllers/video.controller.js:317-337 | a publish toggle moves the video into or out of the unfiltered listing and leaves every other video where it was |
| PlaylistController.RawIndex | src/controllers/playlist.controller.js:223-225 | `findIndex` by raw string is the first equal entry, and none exactly when no entry equals the raw id |
| PlaylistController.RemoveAt | src/controllers/playlist.controller.js:231 | `splice(i, 1)` drops entry `i` and keeps the order of the others |
| PlaylistController.OwnedPlaylist | src/controllers/playlist.controller.js:249-261 | 400, then 404, then 403 for a non-owner; success exactly for the owner |
| PlaylistController.CreatePlaylist | src/controllers/playlist.controller.js:9-31 | 400 unless name and description trim to something; the new playlist holds both trimmed, no videos and the caller as owner |
| PlaylistController.VisibleVideos | src/controllers/playlist.controller.js:49-60 | the videos a playlist shows are those listed, stored and published |
| PlaylistController.GetUserPlaylists | src/controllers/playlist.controller.js:33-84 | 400 for a malformed id, 403 unless it is the caller's id spelt exactly; the answer maps each of the caller's playlists to its visible-video count |
| PlaylistController.OwnIdOtherSpellingRefused | src/controllers/playlist.controller.js:40-42 | the caller's own id in upper case is refused with 403 |
| PlaylistController.GetPlaylistById | src/controllers/playlist.controller.js:86-157 | 400, 404 "playlist not found", 403 for others; the view has the playlist's name, description and owner, and shows exactly the listed published videos |
| PlaylistController.AddVideoToPlaylist | src/controllers/playlist.controller.js:159-204 | 400 ids, owner guards, 400 when the raw id is listed, 404 missing video; on success the cast id is put in front and nothing else changes |
| PlaylistController.AddVideoAdmitsDuplicate | src/controllers/playlist.controller.js:176-191 | a listed video whose id is spelt in upper case is added again, leaving the list with a duplicate |
| PlaylistController.UpperCaseIdIsNotCanonical | src/controllers/playlist.controller.js:162 | an all-upper-case id passes the validity check but is not canonical |
| PlaylistController.AddVideoToPlaylistFixed | src/controllers/playlist.controller.js:159-204 | the same handler with the duplicate check on the cast id; the reply is the saved playlist |
| PlaylistController.AddFixedKeepsNoDuplicates | src/controllers/playlist.controller.js:176-191 | with the fix, adding keeps every playlist free of duplicates |
| PlaylistController.RemoveVideoFromPlaylist | src/controllers/playlist.controller.js:206-244 | 400 ids, owner guards, 404 when the raw id is not listed; on success only the first matching entry goes, and the reply is the saved playlist |
| PlaylistController.RemoveUndoesAdd | src/controllers/playlist.controller.js:191-231 | removing a video just added (with the corrected duplicate check), by the same id, gives the store back |
| PlaylistController.UpdatePlaylist | src/controllers/playlist.controller.js:276-318 | 400 id, 400 when both fields are blank (before the lookup), then 404 and 403; success exactly when a field is filled in, both can be trimmed and the caller owns the playlist; non-blank fields are stored trimmed, the videos stay, and the reply is the saved playlist |
| PlaylistController.DeletePlaylist | src/controllers/playlist.controller.js:246-274 | the owner guard's errors are passed on; success exactly for the owner, and then exactly that playlist goes |
| PlaylistController.CreatedPlaylistIsEmpty | src/controllers/playlist.controller.js:16-157 | a playlist just created shows its trimmed name and no videos to its owner, and is counted among the owner's playlists with zero videos |
| PlaylistController.DeleteUndoesCreatePlaylist | src/controllers/playlist.controller.js:246-274 | deleting a playlist just created, by its owner, gives the store back |
| PlaylistController.DeleteJustCreated | src/controllers/playlist.controller.js:246-274 | the owner can delete a freshly stored playlist, and that restores the store |
| PlaylistController.UpdatePlaylistIdempotent | src/controllers/playlist.controller.js:276-318 | the same playlist update twice changes nothing more than once |
| PlaylistController.UpdateAlreadyApplied | src/controllers/playlist.controller.js:276-318 | an update whose trimmed fields the owner's playlist already holds succeeds and changes nothing |
| LikeController.StatusText | src/controllers/like.controller.js:29-39 | the status is "Liked" exactly when a like was added, else "Unliked" |
| LikeController.Toggle | src/controllers/like.controller.js:24-40 | the pair is removed when present and added when absent; no other pair changes |
| LikeController.ToggleTwice | src/controllers/like.controller.js:24-40 | toggling twice gives the likes back and reports the opposite status |
| LikeController.ToggleReply | src/controllers/like.controller.js:43-50 | the reply is 200 with `{ status }` and "<status> successfully" |
| LikeController.ToggleVideoLike | src/controllers/like.controller.js:10-52 | 400, 404, 400 "Video is not published"; success exactly for a published video, flipping the caller's like |
| LikeController.ToggleCommentLike | src/controllers/like.controller.js:54-92 | 400, 404; success exactly for a stored comment, flipping the caller's like |
| LikeController.ToggleTweetLike | src/controllers/like.controller.js:94-132 | 400, 404; success exactly for a stored tweet, flipping the caller's like |
| LikeController.VideoLikeTwiceRestores | src/controllers/like.controller.js:24-40 | a second toggle gives the store back, and only the caller's pair for that video ever changes |
| LikeController.CommentLikeTwiceRestores | src/controllers/like.controller.js:64-80 | a second comment-like toggle gives the store back |
| LikeController.TweetLikeTwiceRestores | src/controllers/like.controller.js:104-120 | a second tweet-like toggle gives the store back |
| LikeController.GetLikedVideos | src/controllers/like.controller.js:135-239 | page, limit ≥ 1 and order ±1 as parsed; the listing is exactly the caller's liked videos that exist and are published |
| LikeController.LikeShowsInLikedVideos | src/controllers/like.controller.js:24-40 | liking a published video puts it in the caller's liked-video listing, and a second toggle takes it out |
| SubscriptionController.Flip | src/controllers/subscription.controller.js:20-41 | the pair is removed when present and added when absent; no other pair changes |
| SubscriptionController.FlipTwice | src/controllers/subscription.controller.js:20-41 | flipping twice gives the subscriptions back |
| SubscriptionController.FlipReply | src/controllers/subscription.controller.js:27-50 | the reply is "Subscribed" or "Unsubscribed" as the pair was absent or present, with the matching message |
| SubscriptionController.ToggleSubscription | src/controllers/subscription.controller.js:9-55 | 400 for a malformed id; every well-formed id flips the caller's subscription, whether or not the channel exists |
| SubscriptionController.ToggleSubscriptionTwice | src/controllers/subscription.controller.js:20-41 | two toggles give the store back |
| SubscriptionController.SelfSubscriptionAdmitted | src/controllers/subscription.controller.js:16-18 | a caller who sends their own id is subscribed to themselves |
| SubscriptionController.ToggleSubscriptionFixed | src/controllers/subscription.controller.js:12-41 | the handler with the self-subscription guard comparing ids: 400 for one's own channel |
| SubscriptionController.FixedToggleKeepsNoSelfSubscriptions | src/controllers/subscription.controller.js:16-18 | with the fix, no toggle creates a self-subscription |
| SubscriptionController.ListFor | src/controllers/subscription.controller.js:64-79 | 400, 404 for an unknown user, 403 unless the caller's id spelt exactly; success gives the normalised paging |
| SubscriptionController.GetUserChannelSubscribers | src/controllers/subscription.controller.js:57-139 | as written: 400 "Id is not valid", 404 "Channel does not exist", 403 for another user's id; success exactly for the caller's own existing channel, with normalised paging and no subscribers listed, since the uncast `$match` matches nothing |
| SubscriptionController.GetUserChannelSubscribersFixed | src/controllers/subscription.controller.js:57-139 | with the match cast to an ObjectId: the same 400, 404 and 403; the listing is exactly the users subscribed to the channel, with normalised paging |
| SubscriptionController.SubscriptionMissingFromListings | src/controllers/subscription.controller.js:91-95 | a subscription the toggle just stored is missing from both listings as written and present in both intended ones |
| SubscriptionController.SubscribeShowsInListings | src/controllers/subscription.controller.js:36-39 | after a toggle that subscribes, the intended listings show the channel among the caller's subscriptions and the caller among the channel's subscribers |
| SubscriptionController.GetSubscribedChannels | src/controllers/subscription.controller.js:141-223 | as written: 400 "Id is not valid", 404 "User does not exist", 403 for another user's id; success exactly for the caller's own id, with normalised paging and no channels listed |
| SubscriptionController.GetSubscribedChannelsFixed | src/controllers/subscription.controller.js:141-223 | with the match cast to an ObjectId: the same 400, 404 and 403; the listing is exactly the channels the caller subscribes to, with normalised paging |
| CommentController.GetVideoComments | src/controllers/comment.controller.js:8-97 | 400, 404; the listing is exactly that video's comments with page, limit ≥ 1 and order ±1 |
| CommentController.AddComment | src/controllers/comment.controller.js:99-134 | 400 id, 404 video, then 400 blank content; the comment stores trimmed content, the video and the caller |
| CommentController.AddedCommentIsListed | src/controllers/comment.controller.js:36-41 | a comment just posted is in the listing of its video's comments |
| CommentController.UpdateComment | src/controllers/comment.controller.js:136-172 | 400 id, 400 blank content before the lookup, then 404 and 403; only the content changes, trimmed, and the reply is the updated comment |
| CommentController.UpdateCommentIdempotent | src/controllers/comment.controller.js:136-172 | the same comment update twice changes nothing more than once |
| CommentController.DeleteComment | src/controllers/comment.controller.js:174-202 | 400, 404, 403 for a non-owner; on success exactly that comment goes and `{ deleted: true }` is returned |
| CommentController.DeleteUndoesAdd | src/controllers/comment.controller.js:117-191 | deleting a just-posted comment, by its author, gives the store back |
| CommentController.DeleteJustAdded | src/controllers/comment.controller.js:181-191 | the author can delete a freshly stored comment, and that restores the store |
| TweetController.CreateTweet | src/controllers/tweet.controller.js:8-35 | 400 for blank content; the tweet stores the trimmed content and the caller |
| TweetController.GetUserTweets | src/controllers/tweet.controller.js:37-124 | 400, 404 "User does not exist"; the listing is exactly that user's tweets with normalised paging |
| TweetController.CreatedTweetIsListed | src/controllers/tweet.controller.js:15-70 | a tweet just created by a stored user is in that user's tweet listing |
| TweetController.UpdateTweet | src/controllers/tweet.controller.js:126-160 | owner guards first, then 400 blank content; only the content changes, trimmed, and the reply is the updated tweet |
| TweetController.UpdateTweetChecksOwnerFirst | src/controllers/tweet.controller.js:140-146 | a stranger sending blank content gets 403, not 400 |
| TweetController.DeleteTweet | src/controllers/tweet.controller.js:162-190 | 400 "Id is not valid", 404 "Tweet not found", 403 for a non-owner; success exactly for the owner, and then exactly that tweet goes |
| TweetController.UpdateTweetIdempotent | src/controllers/tweet.controller.js:148-149 | the same update twice is the same as once |
| TweetController.DeleteUndoesCreate | src/controllers/tweet.controller.js:15-179 | deleting a just-created tweet, by its author, gives the store back |
| TweetController.DeleteJustCreated | src/controllers/tweet.controller.js:169-179 | the author can delete a freshly stored tweet, and that restores the store |
| DashboardController.OwnedVideos | src/controllers/dashboard.controller.js:12-14 | exactly the videos the owner uploaded |
| DashboardController.TotalViewsRemove | src/controllers/dashboard.controller.js:15 | the view total of a set is any one member's count plus the total of the rest, so the order of summation does not matter |
| DashboardController.TotalViewsAgree | src/controllers/dashboard.controller.js:15 | stores that agree on the counts agree on the total |
| DashboardController.LikesOn | src/controllers/dashboard.controller.js:17-18 | exactly the likes on the given videos |
| DashboardController.SubscribersOf | src/controllers/dashboard.controller.js:20 | exactly the subscriptions to the channel |
| DashboardController.GetChannelStats | src/controllers/dashboard.controller.js:8-37 | the four totals: the caller's video count, their summed views with a missing count as 0, the likes on their videos, their subscribers |
| DashboardController.SumViews | src/controllers/dashboard.controller.js:15 | the list-order fold of views equals the order-free total of the listed videos |
| DashboardController.ListedAll | src/controllers/dashboard.controller.js:14 | a list naming exactly the caller's videos covers all of them |
| DashboardController.Bump | src/controllers/video.controller.js:371-375 | one more view of one video and no other change |
| DashboardController.BumpRaisesTotal | src/controllers/dashboard.controller.js:14-15 | one more view raises the owner's total by exactly one |
| DashboardController.ViewRaisesChannelTotal | src/controllers/video.controller.js:371-375 | a successful view increment raises its owner's dashboard total by one |
| DashboardController.GetChannelVideos | src/controllers/dashboard.controller.js:39-59 | the search applies exactly when the query is non-blank and then uses the trimmed query; paging is normalised |
| DashboardController.ChannelVideosListing | src/controllers/dashboard.controller.js:39-59 | the videos `getChannelVideos` selects are all the caller's videos for an absent or blank query, and otherwise the caller's videos whose title or description matches the trimmed query |
| DashboardController.ChannelCandidates | src/controllers/dashboard.controller.js:47-59 | without a search the listing is all the caller's videos; with one it is exactly the caller's videos whose title or description matches |
| DashboardController.ChannelListingExtendsPublicListing | src/controllers/dashboard.controller.js:47-59 | for the same search, the published part of the channel listing is exactly the caller's part of the public listing |

## Left out

- Aggregation results: `$lookup` joins, `$project` shapes, `$sort` by an arbitrary field, and the slicing that `aggregatePaginate` does are not modelled. Listings are modelled as the set of matching ids plus the normalised page, limit and sort options.
- VideoController.GetAllVideos and DashboardController.GetChannelVideos: only the request they build is modelled. The regex search (`$regex` with `$options: "i"`) is a matcher passed as a parameter to `Candidates` and `ChannelCandidates`.
- SubscriptionController.GetUserChannelSubscribers and SubscriptionController.GetSubscribedChannels: the subscription schema is not part of this model. Its `subscriber` and `channel` fields are taken to be ObjectIds, as every reference field of the visible tweet schema is. Under that reading, the uncast `$match` matches nothing and the listings are empty (see Findings). The joined user documents are left out.
- Populate: `populate("owner", ...)` and the owner sub-documents in replies are left out. Replies carry the stored document or its id.
- Cloudinary and the file system: the network calls are the `Cloud` parameter, and the `fs` unlink of the temporary file is left out.
- bcrypt and JWT internals: hashing cost, signatures and expiry clocks are the `Env` parameter. Expiry is folded into `verify` failing.
- multer disk storage, the `./public/temp` destination and the `Date.now()` file names are left out, because they are time-dependent I/O.
- Express wiring: src/app.js, src/index.js, the route files, `asyncHandler` and the schema-only tweet model are not part of this model. `ApiError.js` and `ApiResponse.js` are not part of this model either.
- Http.Error: `new ApiError(status, message)` is taken to set `statusCode` and `message`, `success: false` and `data: null`, and to leave `error` undefined. The response therefore has no `errors` key. The constructor itself is not part of this model.
- Auth.ResolveUser: a `jwt.verify` failure is modelled as a non-`ApiError`, which the error middleware answers with 500, but the library's exact error name and message are not modelled.
- The register read-after-write check (the 500 when `findById` returns nothing right after `create`) cannot happen in the model, because the store is not concurrent.
- UserController.LoginUser: email and username are modelled as optional strings. A non-string identifier in the body is not modelled.
- ObjectIds.Cast: the 12-byte form that `isValidObjectId` also accepts is not modelled, only the 24-hex-digit strings path parameters carry.
- Text.ToLower: lower-cases ASCII letters only. Unicode case mapping is not modelled.
- Concurrency: the find-then-create and find-then-delete sequences of the toggles, and concurrent logins, are not atomic in the code. The model treats each request as atomic.
- Timestamps (`createdAt`, `updatedAt`) and the listing order by creation time are left out.
- `deleteOne` results: the deleted flag is always `true` in the model, because the document was just found.
- The user `watchHistory` field is never read or written by the modelled code and is left out.
- UserController.LogoutUser: the Mongoose version is not visible. The model takes a version from 6 on, which drops `undefined` from an update, so `$set: { refreshToken: undefined }` changes nothing. The promise that logout clears the refresh token is kept only by UserController.LogoutUserFixed.
- UserController.LogoutUserFixed: `findByIdAndUpdate` on an id that no record has changes nothing and still answers 200, as in the code. The caller's existence, guaranteed by the gate, is not required.
- UserController.LookupIdentity: the model follows Mongoose's rule that a filter key with an `undefined` value is dropped. UserController.RegisteredUserCanLogIn, UserController.LoginAfterAppend and UserController.AppendedUserCanLogIn hold only for the intended lookup, UserController.LookupIdentityFixed.
- VideoController.DurationOf: the duration Cloudinary reports is a number of seconds that can have a fraction. The model keeps it as an integer.
- VideoController.CreateVideo: a new video's `views` is modelled as absent, because the video schema, with any default it sets, is not part of this model. Title and description are stored as sent, so no `trim` setter on that schema is assumed.
- VideoController.UpdatedText: the raw title or description is stored, so no `trim` setter on the video schema is assumed.
- Paging.ParseIntDigits: query parameters are taken to be strings. The arrays and objects a query string parser can also produce are not modelled. The digits are read as an exact integer. `parseInt` returns a double, so a value above 2^53 is rounded to the nearest double and a very long digit run gives `Infinity`; neither is modelled.
- Paging.DecimalParses: the exact inversion holds for every `n` in the model, but in the code only for `n` up to 2^53. Above that, `parseInt` gives back the nearest double, for example 9007199254740992 for "9007199254740993".
- Paging.PageNumberDecimal: for a page above 2^53 the code computes the nearest double, not the page written. The model returns the page written.
- Paging.LimitNumberDecimal: for a limit above 2^53 the code computes the nearest double, not the limit written. The model returns the limit written.
- Paging.NormalizeRoundTrip: page and limit come back unchanged in the code only up to 2^53, for the reason given under Paging.DecimalParses. The sort field and sort order round-trip for every input.
- The store keeps users in a sequence rather than a map, so that `findOne` can return the first match. The id, username and email indexes are the `UniqueKeys` predicate.

## Findings

| source | as written | input that shows it | evidently intended | confidence | as-written member | corrected member |
|---|---|---|---|---|---|---|
| src/middlewares/auth.middleware.js:8 | the header value after removing "Bearer" keeps the space before the token, so `jwt.verify` gets `" <token>"` and throws | `Authorization: Bearer <valid access token>`, no cookie | the mandatory gate accepts the standard header, as the optional gate does by trimming | high, not executed | Auth.BearerHeaderFailsGate | Auth.FixedGateAdmitsBearer |
| src/controllers/playlist.controller.js:176-191 | the duplicate check compares the raw `videoId` text with lower-case ids, but the cast id is what gets stored | adding a listed video again as `AAAAAAAAAAAAAAAAAAAAAAAA` when `aaaaaaaaaaaaaaaaaaaaaaaa` is already in the playlist | a video is listed at most once | medium, not executed | PlaylistController.AddVideoAdmitsDuplicate | PlaylistController.AddFixedKeepsNoDuplicates |
| src/controllers/user.controller.js:93-95 | the filter is `{ $or: [{ username }, { email }] }` whatever was sent; Mongoose drops the `undefined` key, leaving `{}`, which matches every user | two users; the second logs in with only its email and its own password | the lookup finds the user with the given email | medium, not executed | UserController.EmailOnlyLoginChecksFirstUser | UserController.RegisteredUserCanLogIn |
| src/controllers/user.controller.js:138-140 | `$set: { refreshToken: undefined }` is an empty update in Mongoose 6 and later, so the refresh token survives logout | a logged-in user calls logout | logout removes the stored refresh token (`$unset`) | medium, not executed | UserController.LogoutLeavesRefreshToken | UserController.LogoutClearsToken |
| src/controllers/subscription.controller.js:93 | `$match: { channel: channelId }`, and `$match: { subscriber: subscriberId }` at line 177, compare the raw string with a stored ObjectId; an aggregate does not cast, so nothing matches | a channel with one subscriber lists its subscribers | the match casts with `new mongoose.Types.ObjectId`, as the comment, tweet and playlist listings do | medium, not executed | SubscriptionController.SubscriptionMissingFromListings | SubscriptionController.SubscribeShowsInListings |
| src/controllers/subscription.controller.js:16 | `channelId === req.user._id` compares a string with an ObjectId, so it is never true and the guard never fires | a caller toggling the subscription to their own id | "You can not subscribe to yourself" is answered with 400 | high, not executed | SubscriptionController.SelfSubscriptionAdmitted | SubscriptionController.FixedToggleKeepsNoSelfSubscriptions |

/**
 * The session handlers: registration, login with token issue, and logout.
 * File uploads go through `Cloudinary`; the new document's id is a parameter
 * (the driver generates it).
 */
module UserController {
  import opened Wrappers
  import opened Text
  import opened ObjectIds
  import opened Http
  import opened Db
  import opened UserModel
  import opened Cloudinary

  datatype Tokens = Tokens(accessToken: string, refreshToken: string)

  /** A JSON body together with the cookies the response sets or clears. */
  datatype Session<+T> = Session(body: T, cookies: seq<Cookie>)

  datatype LoginBody = LoginBody(user: Doc, accessToken: string, refreshToken: string)

  /** The cookie options both handlers use: `httpOnly` and `secure`. */
  const SessionCookies: seq<Cookie> := [ClearCookie("accessToken", true, true), ClearCookie("refreshToken", true, true)]

  /** `s'` differs from `s` at most in the user at index `i`. */
  predicate OnlyUserChanged(s: Store, s': Store, i: nat) {
    && i < |s.users| && |s'.users| == |s.users|
    && (forall j :: 0 <= j < |s.users| && j != i ==> s'.users[j] == s.users[j])
    && s'.(users := s.users) == s
  }

  /** No two users share an id, a username or an email: the schema's unique indexes. */
  predicate UniqueKeys(users: seq<User>) {
    forall i, j :: 0 <= i < j < |users| ==>
      users[i].id != users[j].id && users[i].username != users[j].username && users[i].email != users[j].email
  }

  /**
   * `generateAccessAndRefreshTokens(userId)`: both tokens are signed for the
   * stored user, and the refresh token is saved on that user. The save does
   * not modify the password, so the hook leaves the stored hash alone. A
   * missing user makes the first method call throw.
   */
  function IssueTokens(env: Env, s: Store, id: Id): (r: Result<(Tokens, Store), Failure>)
    ensures r.Err? <==> FindUser(s.users, id).None?
    ensures r.Ok? ==>
      var i := FindUser(s.users, id).value;
      && OnlyUserChanged(s, r.value.1, i)
      && r.value.1.users[i] == s.users[i].(refreshToken := Some(r.value.0.refreshToken))
      && r.value.0 == Tokens(GenerateAccessToken(env, s.users[i]), GenerateRefreshToken(env, s.users[i]))
  {
    match FindUser(s.users, id)
    case None => Err(Thrown("Cannot read properties of null (reading 'generateAccessToken')"))
    case Some(i) =>
      var u := s.users[i];
      var t := Tokens(GenerateAccessToken(env, u), GenerateRefreshToken(env, u));
      var next := u.(refreshToken := Some(t.refreshToken));
      PreSaveKeepsHash(env, u, next);
      Ok((t, s.(users := s.users[i := PreSave(env, Some(u), next)])))
  }

  /** An equality filter on a key field: the query value goes through the field's setters. */
  predicate KeyMatches(stored: string, query: Option<string>) {
    query.Some? && stored == NormalizeKey(query.value)
  }

  /** `{ $or: [{ username }, { email }] }` with a clause only for a key that was sent: an absent value matches nothing. */
  predicate SameIdentity(u: User, username: Option<string>, email: Option<string>) {
    KeyMatches(u.username, username) || KeyMatches(u.email, email)
  }

  /**
   * An equality clause as Mongoose sends it: a key whose value is
   * `undefined` is dropped, which leaves `{}`, and `{}` matches every document.
   */
  predicate ClauseMatches(stored: string, query: Option<string>) {
    query.None? || stored == NormalizeKey(query.value)
  }

  /** `{ $or: [{ username }, { email }] }` as written, with `undefined` values dropped from the clauses. */
  predicate SentIdentity(u: User, username: Option<string>, email: Option<string>) {
    ClauseMatches(u.username, username) || ClauseMatches(u.email, email)
  }

  /** `i` is the user `findOne` returns for the identity filter. */
  predicate FirstMatch(users: seq<User>, i: nat, username: Option<string>, email: Option<string>) {
    && i < |users| && SameIdentity(users[i], username, email)
    && forall j :: 0 <= j < i ==> !SameIdentity(users[j], username, email)
  }

  predicate IdentityTaken(users: seq<User>, username: string, email: string) {
    exists j :: 0 <= j < |users| && SameIdentity(users[j], Some(username), Some(email))
  }

  predicate IdUsed(users: seq<User>, id: Id) {
    exists j :: 0 <= j < |users| && users[j].id == id
  }

  /** `coverImage?.url || ""`. */
  function CoverUrl(cover: Option<Upload>): string {
    if cover.Some? then cover.value.url else ""
  }

  /**
   * `registerUser`. Checks in order: all four fields are non-blank strings
   * (400), no stored user has the normalised username or email (409), an
   * avatar file was sent (400), its upload succeeded (400). The new document
   * gets the given id; a clash on `_id` is the store's duplicate-key error.
   * The reply is 201 with the stored user minus its secrets.
   */
  function RegisterUser(env: Env, cloud: Cloud, s: Store, newId: Id,
                        fullName: Value, username: Value, email: Value, password: Value,
                        avatarPath: Option<string>, coverImagePath: Option<string>): (r: Reply<Doc>)
    ensures !(FilledIn(fullName) && FilledIn(username) && FilledIn(email) && FilledIn(password)) ==>
      RejectedWith(r, 400, "All fields are required")
    ensures FilledIn(fullName) && FilledIn(username) && FilledIn(email) && FilledIn(password)
            && IdentityTaken(s.users, username.s, email.s) ==>
      RejectedWith(r, 409, "User with same email or username already exists")
    ensures r.result.Ok? <==>
      && FilledIn(fullName) && FilledIn(username) && FilledIn(email) && FilledIn(password)
      && !IdentityTaken(s.users, username.s, email.s)
      && Present(avatarPath) && UploadOnCloudinary(cloud, avatarPath).Some?
      && !IdUsed(s.users, newId)
    ensures r.result.Err? ==> r.store == s
    ensures r.result.Ok? ==>
      var u := NewUser(env, newId, fullName.s, username.s, email.s, password.s,
                       UploadOnCloudinary(cloud, avatarPath).value.url, CoverUrl(UploadOnCloudinary(cloud, coverImagePath)));
      && r.result.value.status == 201
      && r.store == s.(users := s.users + [u])
      && r.result.value.data == PublicUser(u)
    ensures r.result.Ok? ==>
      && r.result.value.data["avatar"] == Str(UploadOnCloudinary(cloud, avatarPath).value.url)
      && r.result.value.data["coverImage"] == Str(CoverUrl(UploadOnCloudinary(cloud, coverImagePath)))
      && r.result.value.data["fullName"] == Str(Trim(fullName.s))
  {
    if !(FilledIn(fullName) && FilledIn(username) && FilledIn(email) && FilledIn(password)) then
      Reject(s, 400, "All fields are required")
    else if FirstUser(s.users, (u: User) => SameIdentity(u, Some(username.s), Some(email.s))).Some? then
      Reject(s, 409, "User with same email or username already exists")
    else if !Present(avatarPath) then
      Reject(s, 400, "Avatar file is required")
    else
      CreateUser(env, cloud, s, newId, fullName.s, username.s, email.s, password.s, avatarPath, coverImagePath)
  }

  /**
   * Registration once the form has passed its checks: both files are
   * uploaded, a missing avatar URL is refused, and the new user is stored.
   */
  function CreateUser(env: Env, cloud: Cloud, s: Store, newId: Id,
                      fullName: string, username: string, email: string, password: string,
                      avatarPath: Option<string>, coverImagePath: Option<string>): (r: Reply<Doc>)
    ensures UploadOnCloudinary(cloud, avatarPath).None? ==> RejectedWith(r, 400, "Avatar file is required on clodinary")
    ensures r.result.Ok? <==> UploadOnCloudinary(cloud, avatarPath).Some? && !IdUsed(s.users, newId)
    ensures r.result.Err? ==> r.store == s
    ensures r.result.Ok? ==>
      var u := NewUser(env, newId, fullName, username, email, password,
                       UploadOnCloudinary(cloud, avatarPath).value.url, CoverUrl(UploadOnCloudinary(cloud, coverImagePath)));
      && r.result.value.status == 201
      && r.store == s.(users := s.users + [u])
      && r.result.value.data == PublicUser(u)
  {
    var avatar := UploadOnCloudinary(cloud, avatarPath);
    var cover := UploadOnCloudinary(cloud, coverImagePath);
    if avatar.None? then
      Reject(s, 400, "Avatar file is required on clodinary")
    else if FindUser(s.users, newId).Some? then
      Throw(s, "E11000 duplicate key error collection: users index: _id_")
    else
      var u := NewUser(env, newId, fullName, username, email, password, avatar.value.url, CoverUrl(cover));
      Answer(s.(users := s.users + [u]), 201, PublicUser(u), "User registered Successfully")
  }

  /**
   * The document `User.create` stores: the explicit lower-casing of the
   * username, then the schema setters, then the pre-save hash.
   */
  function NewUser(env: Env, id: Id, fullName: string, username: string, email: string, password: string,
                   avatarUrl: string, coverUrl: string): (u: User)
    ensures u.id == id
    ensures u.username == NormalizeKey(username) && u.email == NormalizeKey(email)
    ensures u.fullName == Trim(fullName)
    ensures u.password == env.hash(password) && u.refreshToken.None?
    ensures u.avatar == avatarUrl && u.coverImage == coverUrl
  {
    NormalizeLowered(username);
    PreSave(env, None, ApplySetters(User(id, ToLower(username), email, fullName, avatarUrl, coverUrl, password, None)))
  }

  /** The explicit `toLowerCase()` before the setters changes nothing. */
  lemma NormalizeLowered(s: string)
    ensures NormalizeKey(ToLower(s)) == NormalizeKey(s)
  {
    ToLowerIdempotent(s);
  }

  /** Registration keeps the unique indexes satisfied: the 409 check covers both keys. */
  lemma RegisterKeepsKeysUnique(env: Env, cloud: Cloud, s: Store, newId: Id,
                                fullName: Value, username: Value, email: Value, password: Value,
                                avatarPath: Option<string>, coverImagePath: Option<string>)
    requires UniqueKeys(s.users)
    ensures UniqueKeys(RegisterUser(env, cloud, s, newId, fullName, username, email, password, avatarPath, coverImagePath).store.users)
  {
    var r := RegisterUser(env, cloud, s, newId, fullName, username, email, password, avatarPath, coverImagePath);
    if r.result.Ok? {
      var n := |s.users|;
      var u := r.store.users[n];
      forall j | 0 <= j < n
        ensures s.users[j].id != u.id && s.users[j].username != u.username && s.users[j].email != u.email
      {
        assert !SameIdentity(s.users[j], Some(username.s), Some(email.s));
      }
      AppendKeepsKeysUnique(s.users, u);
    }
  }

  lemma AppendKeepsKeysUnique(users: seq<User>, u: User)
    requires UniqueKeys(users)
    requires forall j :: 0 <= j < |users| ==>
      users[j].id != u.id && users[j].username != u.username && users[j].email != u.email
    ensures UniqueKeys(users + [u])
  {
  }

  /**
   * The common tail of `loginUser`: the 400 check on the identity, then
   * the lookup's answer `found`, which is 404 when empty and otherwise the
   * user the password is checked against.
   */
  function LoginWith(env: Env, s: Store, email: Option<string>, username: Option<string>, password: Option<string>,
                     found: Option<nat>): (r: Reply<Session<LoginBody>>)
    requires found.Some? ==> found.value < |s.users|
    ensures !Present(email) && !Present(username) ==> RejectedWith(r, 400, "username or email is required")
    ensures (Present(email) || Present(username)) && found.None? ==> RejectedWith(r, 404, "User does not exist")
    ensures Rejected(r, 401) <==>
      && (Present(email) || Present(username)) && found.Some?
      && password.Some? && !env.compare(password.value, s.users[found.value].password)
    ensures r.result.Ok? <==>
      && (Present(email) || Present(username)) && found.Some?
      && password.Some? && env.compare(password.value, s.users[found.value].password)
    ensures r.result.Err? ==> r.store == s
    ensures r.result.Ok? ==> r == Authenticate(env, s, found.value, password)
  {
    if !Present(email) && !Present(username) then
      Reject(s, 400, "username or email is required")
    else
      match found
      case None => Reject(s, 404, "User does not exist")
      case Some(i) => Authenticate(env, s, i, password)
  }

  /**
   * `loginUser` as written. Checks in order: an email or a username was
   * given (400), some user matches the identity filter (404), the password
   * verifies against the first match's hash (401). A missing password makes
   * bcrypt throw. On success the tokens are issued and the user is returned
   * without its secrets, with both tokens also set as cookies. Because the
   * filter drops an `undefined` key, a login that sends only an email (or
   * only a username) checks the password of the first user in the
   * collection, whoever that is.
   */
  function LoginUser(env: Env, s: Store, email: Option<string>, username: Option<string>, password: Option<string>)
    : (r: Reply<Session<LoginBody>>)
    ensures !Present(email) && !Present(username) ==> RejectedWith(r, 400, "username or email is required")
    ensures (Present(email) || Present(username)) && LookupIdentity(s.users, username, email).None? ==>
      RejectedWith(r, 404, "User does not exist")
    ensures Rejected(r, 401) <==>
      && (Present(email) || Present(username)) && LookupIdentity(s.users, username, email).Some?
      && password.Some? && !env.compare(password.value, s.users[LookupIdentity(s.users, username, email).value].password)
    ensures r.result.Ok? <==>
      && (Present(email) || Present(username)) && LookupIdentity(s.users, username, email).Some?
      && password.Some? && env.compare(password.value, s.users[LookupIdentity(s.users, username, email).value].password)
    ensures Present(email) && username.None? && |s.users| > 0 ==>
      (r.result.Ok? <==> password.Some? && env.compare(password.value, s.users[0].password))
    ensures r.result.Err? ==> r.store == s
    ensures r.result.Ok? ==> r == Authenticate(env, s, LookupIdentity(s.users, username, email).value, password)
  {
    LoginWith(env, s, email, username, password, LookupIdentity(s.users, username, email))
  }

  /**
   * `User.findOne({ $or: [{ username }, { email }] })` as written: the first
   * user matching a clause, where the clause of an absent key matches anyone.
   */
  function LookupIdentity(users: seq<User>, username: Option<string>, email: Option<string>): (r: Option<nat>)
    ensures r.Some? ==> r.value < |users| && SentIdentity(users[r.value], username, email)
    ensures r.Some? ==> forall j :: 0 <= j < r.value ==> !SentIdentity(users[j], username, email)
    ensures r.None? <==> forall j :: 0 <= j < |users| ==> !SentIdentity(users[j], username, email)
    ensures username.None? || email.None? ==> r == (if |users| > 0 then Some(0) else None)
  {
    FirstUser(users, (u: User) => SentIdentity(u, username, email))
  }

  /**
   * `loginUser` as intended: the same checks, with the identity filter
   * holding a clause only for the keys that were sent.
   */
  function LoginUserFixed(env: Env, s: Store, email: Option<string>, username: Option<string>, password: Option<string>)
    : (r: Reply<Session<LoginBody>>)
    ensures !Present(email) && !Present(username) ==> RejectedWith(r, 400, "username or email is required")
    ensures (Present(email) || Present(username)) && LookupIdentityFixed(s.users, username, email).None? ==>
      RejectedWith(r, 404, "User does not exist")
    ensures Rejected(r, 401) <==>
      && (Present(email) || Present(username)) && LookupIdentityFixed(s.users, username, email).Some?
      && password.Some? && !env.compare(password.value, s.users[LookupIdentityFixed(s.users, username, email).value].password)
    ensures r.result.Ok? <==>
      && (Present(email) || Present(username)) && LookupIdentityFixed(s.users, username, email).Some?
      && password.Some? && env.compare(password.value, s.users[LookupIdentityFixed(s.users, username, email).value].password)
    ensures r.result.Err? ==> r.store == s
    ensures r.result.Ok? ==> r == Authenticate(env, s, LookupIdentityFixed(s.users, username, email).value, password)
  {
    LoginWith(env, s, email, username, password, LookupIdentityFixed(s.users, username, email))
  }

  /** The identity lookup as intended: the first user whose username or email equals a key that was sent. */
  function LookupIdentityFixed(users: seq<User>, username: Option<string>, email: Option<string>): (r: Option<nat>)
    ensures r.Some? ==> FirstMatch(users, r.value, username, email)
    ensures r.None? <==> forall j :: 0 <= j < |users| ==> !SameIdentity(users[j], username, email)
  {
    FirstUser(users, (u: User) => SameIdentity(u, username, email))
  }

  /**
   * The as-written lookup lets an email-only login check the wrong user: with
   * two users, the second logging in by its own email and password is refused
   * with 401 because the password is compared with the first user's hash,
   * while the intended lookup lets it in.
   */
  lemma EmailOnlyLoginChecksFirstUser(env: Env, s: Store, email: string, password: string)
    requires BcryptSound(env) && email != [] && |s.users| == 2
    requires s.users[1].email == NormalizeKey(email) && s.users[1].password == env.hash(password)
    requires !SameIdentity(s.users[0], None, Some(email)) && !env.compare(password, s.users[0].password)
    ensures Rejected(LoginUser(env, s, Some(email), None, Some(password)), 401)
    ensures LoginUserFixed(env, s, Some(email), None, Some(password)).result.Ok?
  {
    assert SameIdentity(s.users[1], None, Some(email));
    var i := LookupIdentityFixed(s.users, None, Some(email)).value;
    assert i == 1;
  }

  /**
   * The part of `loginUser` after the lookup found the user at index `i`:
   * the password check, the token issue and the response.
   */
  function Authenticate(env: Env, s: Store, i: nat, password: Option<string>): (r: Reply<Session<LoginBody>>)
    requires i < |s.users|
    ensures Rejected(r, 401) <==> password.Some? && !env.compare(password.value, s.users[i].password)
    ensures r.result.Ok? <==> password.Some? && env.compare(password.value, s.users[i].password)
    ensures r.result.Err? ==> r.store == s
    ensures r.result.Ok? ==>
      var body := r.result.value.data.body;
      var k := FindUser(s.users, s.users[i].id).value;
      && r.result.value.status == 200
      && r.result.value.data.cookies == [SetCookie("accessToken", body.accessToken, true, true),
                                         SetCookie("refreshToken", body.refreshToken, true, true)]
      && k < |s.users| && s.users[k].id == s.users[i].id
      && body.user == PublicUser(s.users[i])
      && body.accessToken == GenerateAccessToken(env, s.users[k])
      && OnlyUserChanged(s, r.store, k)
      && r.store.users[k] == s.users[k].(refreshToken := Some(body.refreshToken))
  {
    var u := s.users[i];
    if password.None? then
      Throw(s, "data and hash arguments required")
    else if !IsPasswordCorrect(env, u, password.value) then
      Reject(s, 401, "Invalid User Credentials")
    else
      var issued := IssueTokens(env, s, u.id);
      var t := issued.value.0;
      var cookies := [SetCookie("accessToken", t.accessToken, true, true),
                      SetCookie("refreshToken", t.refreshToken, true, true)];
      Reply(Ok(Response(200, Session(LoginBody(PublicUser(u), t.accessToken, t.refreshToken), cookies),
                        "User logged in Successfully")), issued.value.1)
  }

  /**
   * With the id index intact, login writes the refresh token it returns onto
   * the very user it matched, and onto no other record.
   */
  lemma LoginStoresReturnedToken(env: Env, s: Store, email: Option<string>, username: Option<string>, password: Option<string>)
    requires UniqueIds(s.users)
    requires LoginUser(env, s, email, username, password).result.Ok?
    ensures LookupIdentity(s.users, username, email).Some?
    ensures var r := LoginUser(env, s, email, username, password);
            var i := LookupIdentity(s.users, username, email).value;
            && OnlyUserChanged(s, r.store, i)
            && r.store.users[i].refreshToken == Some(r.result.value.data.body.refreshToken)
            && r.result.value.data.body.user == PublicUser(r.store.users[i])
  {
    var i := LookupIdentity(s.users, username, email).value;
    AuthenticateStoresToken(env, s, i, password);
  }

  lemma AuthenticateStoresToken(env: Env, s: Store, i: nat, password: Option<string>)
    requires UniqueIds(s.users) && i < |s.users|
    requires Authenticate(env, s, i, password).result.Ok?
    ensures var r := Authenticate(env, s, i, password);
            && OnlyUserChanged(s, r.store, i)
            && r.store.users[i].refreshToken == Some(r.result.value.data.body.refreshToken)
            && r.result.value.data.body.user == PublicUser(r.store.users[i])
  {
    var r := Authenticate(env, s, i, password);
    var body := r.result.value.data.body;
    FindUserUnique(s.users, i);
    PublicUserIgnoresSecrets(s.users[i], s.users[i].password, Some(body.refreshToken));
  }

  /**
   * Under the intended lookup, a freshly registered user can log in with the
   * email and password it registered with, provided bcrypt is sound.
   */
  lemma RegisteredUserCanLogIn(env: Env, cloud: Cloud, s: Store, newId: Id,
                               fullName: Value, username: Value, email: Value, password: Value,
                               avatarPath: Option<string>, coverImagePath: Option<string>)
    requires BcryptSound(env)
    requires RegisterUser(env, cloud, s, newId, fullName, username, email, password, avatarPath, coverImagePath).result.Ok?
    ensures email.Str? && password.Str?
    ensures LoginUserFixed(env, RegisterUser(env, cloud, s, newId, fullName, username, email, password, avatarPath, coverImagePath).store,
                      Some(email.s), None, Some(password.s)).result.Ok?
  {
    var r := RegisterUser(env, cloud, s, newId, fullName, username, email, password, avatarPath, coverImagePath);
    var u := NewUser(env, newId, fullName.s, username.s, email.s, password.s,
                     UploadOnCloudinary(cloud, avatarPath).value.url, CoverUrl(UploadOnCloudinary(cloud, coverImagePath)));
    BlankIffAllSpace(email.s);
    forall j | 0 <= j < |s.users| ensures !SameIdentity(s.users[j], None, Some(email.s)) {
      assert !SameIdentity(s.users[j], Some(username.s), Some(email.s));
    }
    LoginAfterAppend(env, s, u, email.s, password.s);
  }

  /** A user appended after every user with other emails can log in by email with its password. */
  lemma LoginAfterAppend(env: Env, s: Store, u: User, email: string, password: string)
    requires BcryptSound(env) && email != []
    requires u.email == NormalizeKey(email) && u.password == env.hash(password)
    requires forall j :: 0 <= j < |s.users| ==> !SameIdentity(s.users[j], None, Some(email))
    ensures LoginUserFixed(env, s.(users := s.users + [u]), Some(email), None, Some(password)).result.Ok?
  {
    AppendedUserCanLogIn(env, s.users, u, email, password);
  }

  /** A user appended after every user with other emails is the one a login by email finds. */
  lemma AppendedUserCanLogIn(env: Env, users: seq<User>, u: User, email: string, password: string)
    requires BcryptSound(env)
    requires u.email == NormalizeKey(email) && u.password == env.hash(password)
    requires forall j :: 0 <= j < |users| ==> !SameIdentity(users[j], None, Some(email))
    ensures LookupIdentityFixed(users + [u], None, Some(email)) == Some(|users|)
    ensures env.compare(password, (users + [u])[|users|].password)
  {
    var all := users + [u];
    assert SameIdentity(all[|users|], None, Some(email));
    forall j | 0 <= j < |users| ensures !SameIdentity(all[j], None, Some(email)) {
      assert all[j] == users[j];
    }
    FirstMatchUnique(all, |users|, LookupIdentityFixed(all, None, Some(email)).value, None, Some(email));
  }

  lemma FirstMatchUnique(users: seq<User>, i: nat, i': nat, username: Option<string>, email: Option<string>)
    requires FirstMatch(users, i, username, email) && FirstMatch(users, i', username, email)
    ensures i == i'
  {
  }

  /**
   * `logoutUser` as written: the update is `$set: { refreshToken: undefined }`.
   * Mongoose 6 and later drop keys whose value is `undefined` from an update,
   * so the update is empty and no record changes. Both cookies are cleared
   * and the reply is the same whoever the caller is.
   */
  function LogoutUser(s: Store, caller: Id): (r: Reply<Session<Doc>>)
    ensures r.result == Ok(Response(200, Session(map[], SessionCookies), "User logged Out"))
    ensures r.store == s
  {
    Answer(s, 200, Session(map[], SessionCookies), "User logged Out")
  }

  /**
   * The stored refresh token survives logout as written: a caller who had one
   * still has it afterwards, while the corrected update removes it.
   */
  lemma LogoutLeavesRefreshToken(s: Store, caller: Id, token: string)
    requires UniqueIds(s.users)
    requires exists j :: 0 <= j < |s.users| && s.users[j].id == caller && s.users[j].refreshToken == Some(token)
    ensures exists j :: 0 <= j < |s.users| && s.users[j].id == caller
                        && LogoutUser(s, caller).store.users[j].refreshToken == Some(token)
                        && LogoutUserFixed(s, caller).store.users[j].refreshToken.None?
  {
    var j :| 0 <= j < |s.users| && s.users[j].id == caller && s.users[j].refreshToken == Some(token);
    FindUserUnique(s.users, j);
  }

  /**
   * `logoutUser` as evidently intended, with `$unset: { refreshToken: 1 }`:
   * the caller's refresh token is removed, whether or not one was stored, and
   * no other record changes. The update does not run the save hook.
   */
  function LogoutUserFixed(s: Store, caller: Id): (r: Reply<Session<Doc>>)
    ensures r.result == Ok(Response(200, Session(map[], SessionCookies), "User logged Out"))
    ensures |r.store.users| == |s.users| && r.store.(users := s.users) == s
    ensures forall j :: 0 <= j < |s.users| ==>
      r.store.users[j] == if FindUser(s.users, caller) == Some(j) then s.users[j].(refreshToken := None) else s.users[j]
  {
    var users := match FindUser(s.users, caller)
      case None => s.users
      case Some(i) => s.users[i := s.users[i].(refreshToken := None)];
    Answer(s.(users := users), 200, Session(map[], SessionCookies), "User logged Out")
  }

  /** Logging out twice gives the same store and the same response as logging out once. */
  lemma LogoutIdempotent(s: Store, caller: Id)
    ensures LogoutUserFixed(LogoutUserFixed(s, caller).store, caller) == LogoutUserFixed(s, caller)
  {
    var once := LogoutUserFixed(s, caller).store;
    assert forall j :: 0 <= j < |s.users| ==> once.users[j].id == s.users[j].id;
    assert FindUser(once.users, caller) == FindUser(s.users, caller);
    var twice := LogoutUserFixed(once, caller).store;
    assert twice.users == once.users;
  }

  /** After the corrected logout no record with the caller's id keeps a refresh token, given unique ids. */
  lemma LogoutClearsToken(s: Store, caller: Id)
    requires UniqueIds(s.users)
    ensures forall j :: 0 <= j < |s.users| && s.users[j].id == caller ==> LogoutUserFixed(s, caller).store.users[j].refreshToken.None?
  {
    forall j | 0 <= j < |s.users| && s.users[j].id == caller
      ensures LogoutUserFixed(s, caller).store.users[j].refreshToken.None?
    {
      FindUserUnique(s.users, j);
    }
  }
}

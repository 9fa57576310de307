/**
 * The two authentication gates. Both take the token from the `accessToken`
 * cookie when it is set, otherwise from the `Authorization` header with its
 * first "Bearer" removed; the optional gate also trims that header value.
 * The mandatory gate either attaches the user or fails the request; the
 * optional gate never fails and attaches a user only when everything checks
 * out. A gate's success value is `req.user`: the stored user without its
 * secrets.
 */
module Auth {
  import opened Wrappers
  import opened Text
  import opened ObjectIds
  import opened Http
  import opened Db
  import opened UserModel
  import opened UserController

  /**
   * `req.cookies?.accessToken || req.header("Authorization")?.replace("Bearer", "")`,
   * with the empty string standing for every falsy outcome.
   */
  function ExtractAccessToken(cookie: Option<string>, header: Option<string>): (t: string)
    ensures Present(cookie) ==> t == cookie.value
    ensures !Present(cookie) && header.None? ==> t == []
    ensures !Present(cookie) && header.Some? && !Contains(header.value, "Bearer") ==> t == header.value
    ensures !Present(cookie) && header.Some? ==> t == ReplaceFirst(header.value, "Bearer", "")
  {
    if Present(cookie) then cookie.value
    else match header
      case None => []
      case Some(h) => ReplaceFirst(h, "Bearer", "")
  }

  /** The claims of a verified token name a stored user: `User.findById(decoded._id)`. */
  function ResolveUser(env: Env, s: Store, token: string): (r: Result<Doc, Failure>)
    ensures env.verify(token, env.accessSecret).None? ==> r.Err? && r.error.Thrown?
    ensures r.Ok? <==>
      && env.verify(token, env.accessSecret).Some?
      && "_id" in env.verify(token, env.accessSecret).value
      && IsValidObjectId(env.verify(token, env.accessSecret).value["_id"])
      && FindUser(s.users, Cast(env.verify(token, env.accessSecret).value["_id"])).Some?
    ensures (env.verify(token, env.accessSecret).Some? && "_id" in env.verify(token, env.accessSecret).value
             && IsValidObjectId(env.verify(token, env.accessSecret).value["_id"])
             && FindUser(s.users, Cast(env.verify(token, env.accessSecret).value["_id"])).None?) ==>
      r == Err(Error(401, "Invalid Access Token"))
    ensures r.Ok? ==> exists i :: 0 <= i < |s.users| && r.value == PublicUser(s.users[i])
                                  && s.users[i].id == Cast(env.verify(token, env.accessSecret).value["_id"])
  {
    match env.verify(token, env.accessSecret)
    case None => Err(Thrown("invalid token"))
    case Some(claims) =>
      if "_id" !in claims then Err(Error(401, "Invalid Access Token"))
      else if !IsValidObjectId(claims["_id"]) then
        Err(Thrown("Cast to ObjectId failed for value " + claims["_id"] + " at path _id for model User"))
      else match FindUser(s.users, Cast(claims["_id"]))
        case None => Err(Error(401, "Invalid Access Token"))
        case Some(i) => Ok(PublicUser(s.users[i]))
  }

  /**
   * `verifyJWT`: no token at all is 401 "Unauthorized request"; a token that
   * does not verify fails with the library's error; a token whose user is
   * gone is 401 "Invalid Access Token".
   */
  function VerifyJwt(env: Env, s: Store, cookie: Option<string>, header: Option<string>): (r: Result<Doc, Failure>)
    ensures ExtractAccessToken(cookie, header) == [] ==> r == Err(Error(401, "Unauthorized request"))
    ensures ExtractAccessToken(cookie, header) != [] ==> r == ResolveUser(env, s, ExtractAccessToken(cookie, header))
  {
    var token := ExtractAccessToken(cookie, header);
    if token == [] then Err(Error(401, "Unauthorized request")) else ResolveUser(env, s, token)
  }

  /** `optionalJWT`'s extraction: the same sources, with the header value trimmed. */
  function ExtractOptionalToken(cookie: Option<string>, header: Option<string>): (t: string)
    ensures t == if Present(cookie) then ExtractAccessToken(cookie, header) else Trim(ExtractAccessToken(cookie, header))
  {
    if Present(cookie) then cookie.value
    else match header
      case None => []
      case Some(h) => Trim(ReplaceFirst(h, "Bearer", ""))
  }

  /**
   * `optionalJWT`: the user when a token is present, verifies and names a
   * stored user; no user otherwise. Every failure is swallowed.
   */
  function OptionalJwt(env: Env, s: Store, cookie: Option<string>, header: Option<string>): (u: Option<Doc>)
    ensures ExtractOptionalToken(cookie, header) == [] ==> u.None?
    ensures u.Some? <==> ExtractOptionalToken(cookie, header) != [] && ResolveUser(env, s, ExtractOptionalToken(cookie, header)).Ok?
    ensures u.Some? ==> u.value == ResolveUser(env, s, ExtractOptionalToken(cookie, header)).value
  {
    var token := ExtractOptionalToken(cookie, header);
    if token == [] then None else ResolveUser(env, s, token).ToOption()
  }

  /** The cookie, when set, decides the token whatever the header says. */
  lemma CookieTakesPrecedence(cookie: string, header: Option<string>, header': Option<string>)
    requires cookie != []
    ensures ExtractAccessToken(Some(cookie), header) == ExtractAccessToken(Some(cookie), header') == cookie
    ensures ExtractOptionalToken(Some(cookie), header) == cookie
  {
  }

  /**
   * Wherever the two extractions agree, the optional gate attaches exactly
   * the user the mandatory gate would, and nothing where it would fail.
   */
  lemma OptionalAgreesWithMandatory(env: Env, s: Store, cookie: Option<string>, header: Option<string>)
    requires ExtractOptionalToken(cookie, header) == ExtractAccessToken(cookie, header)
    ensures OptionalJwt(env, s, cookie, header) == VerifyJwt(env, s, cookie, header).ToOption()
  {
  }

  /** The user's own access token, sent as the cookie, opens the mandatory gate to that user. */
  lemma AccessTokenOpensGate(env: Env, s: Store, i: nat)
    requires JwtSound(env) && UniqueIds(s.users) && i < |s.users|
    requires GenerateAccessToken(env, s.users[i]) != []
    ensures VerifyJwt(env, s, Some(GenerateAccessToken(env, s.users[i])), None) == Ok(PublicUser(s.users[i]))
  {
    AccessTokenOpens(env, s.users[i]);
    CastRoundTrip(s.users[i].id);
    FindUserUnique(s.users, i);
  }

  /**
   * The session a successful login hands out works: the returned access
   * token, sent back as the cookie, opens the gate to the returned user.
   */
  lemma LoginSessionOpensGate(env: Env, s: Store, email: Option<string>, username: Option<string>, password: Option<string>)
    requires JwtSound(env) && UniqueIds(s.users)
    requires LoginUser(env, s, email, username, password).result.Ok?
    requires LoginUser(env, s, email, username, password).result.value.data.body.accessToken != []
    ensures var r := LoginUser(env, s, email, username, password);
            VerifyJwt(env, r.store, Some(r.result.value.data.body.accessToken), None) == Ok(r.result.value.data.body.user)
  {
    var i := LookupIdentity(s.users, username, email).value;
    AuthenticateOpensGate(env, s, i, password);
  }

  lemma AuthenticateOpensGate(env: Env, s: Store, i: nat, password: Option<string>)
    requires JwtSound(env) && UniqueIds(s.users) && i < |s.users|
    requires Authenticate(env, s, i, password).result.Ok?
    requires Authenticate(env, s, i, password).result.value.data.body.accessToken != []
    ensures var r := Authenticate(env, s, i, password);
            VerifyJwt(env, r.store, Some(r.result.value.data.body.accessToken), None) == Ok(r.result.value.data.body.user)
  {
    var r := Authenticate(env, s, i, password);
    FindUserUnique(s.users, i);
    var u := s.users[i];
    var u' := r.store.users[i];
    assert u' == u.(refreshToken := Some(r.result.value.data.body.refreshToken));
    assert AccessClaims(u') == AccessClaims(u);
    assert UniqueIds(r.store.users) by {
      assert forall j :: 0 <= j < |s.users| ==> r.store.users[j].id == s.users[j].id;
    }
    PublicUserIgnoresSecrets(u, u'.password, u'.refreshToken);
    TokenOpensGate(env, r.store, i, r.result.value.data.body.accessToken);
  }

  /** A user's freshly generated access token opens the gate to that user. */
  lemma TokenOpensGate(env: Env, t: Store, i: nat, token: string)
    requires JwtSound(env) && UniqueIds(t.users) && i < |t.users|
    requires token == GenerateAccessToken(env, t.users[i]) && token != []
    ensures VerifyJwt(env, t, Some(token), None) == Ok(PublicUser(t.users[i]))
  {
    AccessTokenOpens(env, t.users[i]);
    CastRoundTrip(t.users[i].id);
    FindUserUnique(t.users, i);
  }

  /** A character of a JWS compact serialisation: base64url or the separating dot. */
  predicate IsJwsChar(c: char) {
    ('A' <= c <= 'Z') || ('a' <= c <= 'z') || ('0' <= c <= '9') || c == '-' || c == '_' || c == '.'
  }

  predicate JwsShaped(t: string) {
    t != [] && forall k :: 0 <= k < |t| ==> IsJwsChar(t[k])
  }

  /** `jwt.sign` produces compact JWS strings. */
  ghost predicate SignsJws(env: Env) {
    forall c, secret, expiry :: JwsShaped(env.sign(c, secret, expiry))
  }

  /** `jwt.verify` throws "invalid token" on anything that is not a compact JWS string. */
  ghost predicate StrictVerify(env: Env) {
    forall t, secret :: !JwsShaped(t) ==> env.verify(t, secret).None?
  }

  /**
   * The mandatory gate strips "Bearer" but not the space after it, so the
   * conventional header `Bearer <token>` yields the token with a leading space.
   */
  lemma BearerHeaderKeepsLeadingSpace(t: string)
    ensures ExtractAccessToken(None, Some("Bearer " + t)) == " " + t
    ensures ExtractOptionalToken(None, Some("Bearer " + t)) == Trim(" " + t)
  {
    assert "Bearer " + t == "Bearer" + (" " + t);
    ReplaceFirstAtStart("Bearer", " " + t, "");
  }

  lemma JwsTrimmed(t: string)
    requires JwsShaped(t)
    ensures Trim(" " + t) == t
  {
    TrimPadded(" ", t);
  }

  /**
   * As written, a user's valid access token sent as `Bearer <token>` never
   * opens the mandatory gate (the padded string is not a JWS), while the very
   * same request opens the optional gate to that user.
   */
  lemma BearerHeaderFailsGate(env: Env, s: Store, i: nat)
    requires JwtSound(env) && SignsJws(env) && StrictVerify(env)
    requires UniqueIds(s.users) && i < |s.users|
    ensures var header := Some("Bearer " + GenerateAccessToken(env, s.users[i]));
            && VerifyJwt(env, s, None, header).Err?
            && VerifyJwt(env, s, None, header).error.Thrown?
            && OptionalJwt(env, s, None, header) == Some(PublicUser(s.users[i]))
  {
    var token := GenerateAccessToken(env, s.users[i]);
    BearerHeaderKeepsLeadingSpace(token);
    assert !JwsShaped(" " + token) by {
      assert (" " + token)[0] == ' ';
    }
    JwsTrimmed(token);
    AccessTokenOpens(env, s.users[i]);
    CastRoundTrip(s.users[i].id);
    FindUserUnique(s.users, i);
  }

  /** The mandatory gate with the header value trimmed, as the optional gate already does. */
  function VerifyJwtFixed(env: Env, s: Store, cookie: Option<string>, header: Option<string>): (r: Result<Doc, Failure>)
    ensures ExtractOptionalToken(cookie, header) == [] ==> r == Err(Error(401, "Unauthorized request"))
    ensures r.ToOption() == OptionalJwt(env, s, cookie, header)
  {
    var token := ExtractOptionalToken(cookie, header);
    if token == [] then Err(Error(401, "Unauthorized request")) else ResolveUser(env, s, token)
  }

  /** With the fix, a user's own token in a `Bearer <token>` header opens the mandatory gate. */
  lemma FixedGateAdmitsBearer(env: Env, s: Store, i: nat)
    requires JwtSound(env) && SignsJws(env)
    requires UniqueIds(s.users) && i < |s.users|
    ensures VerifyJwtFixed(env, s, None, Some("Bearer " + GenerateAccessToken(env, s.users[i]))) == Ok(PublicUser(s.users[i]))
  {
    var token := GenerateAccessToken(env, s.users[i]);
    BearerHeaderKeepsLeadingSpace(token);
    JwsTrimmed(token);
    AccessTokenOpens(env, s.users[i]);
    CastRoundTrip(s.users[i].id);
    FindUserUnique(s.users, i);
  }
}

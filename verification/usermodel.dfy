/**
 * The user schema's behaviour: the `lowercase`/`trim` setters on the key
 * fields, the pre-save password hash, password checking, the claim sets of
 * the two token kinds, and the projection that hides the secrets. bcrypt and
 * jsonwebtoken are opaque functions in `Env`; what the backend relies on them
 * for is stated as the predicates `BcryptSound` and `JwtSound`.
 */
module UserModel {
  import opened Wrappers
  import opened Text
  import opened ObjectIds
  import opened Http
  import opened Db

  /** A JWT payload: claim name to string value. */
  type Claims = map<string, string>

  /**
   * The process environment and the two crypto libraries: `hash` is
   * `bcrypt.hash(p, 10)`, `compare` is `bcrypt.compare`, `sign(claims, secret,
   * expiry)` is `jwt.sign`, and `verify(token, secret)` is `jwt.verify`, with
   * `None` for the error it throws.
   */
  datatype Env = Env(
    hash: string -> string,
    compare: (string, string) -> bool,
    sign: (Claims, string, string) -> string,
    verify: (string, string) -> Option<Claims>,
    accessSecret: string,
    accessExpiry: string,
    refreshSecret: string,
    refreshExpiry: string)

  /** A password always matches its own hash. */
  ghost predicate BcryptSound(env: Env) {
    forall p :: env.compare(p, env.hash(p))
  }

  /** A token opens, under the secret it was signed with, to the claims it was signed with. */
  ghost predicate JwtSound(env: Env) {
    forall c, secret, expiry :: env.verify(env.sign(c, secret, expiry), secret) == Some(c)
  }

  /**
   * The `lowercase: true, trim: true` setters of `username` and `email`, which
   * Mongoose runs on assignment and on query values alike.
   */
  function NormalizeKey(s: string): (r: string)
    ensures r == Trim(ToLower(s))
    ensures r == [] || (!IsSpace(r[0]) && !IsSpace(r[|r| - 1]))
    ensures forall k :: 0 <= k < |r| ==> LowerChar(r[k]) == r[k]
  {
    TrimLowerCommute(s);
    LowerTrimmedFacts(Trim(s));
    ToLower(Trim(s))
  }

  lemma LowerTrimmedFacts(t: string)
    requires t == [] || (!IsSpace(t[0]) && !IsSpace(t[|t| - 1]))
    ensures ToLower(t) == [] || (!IsSpace(ToLower(t)[0]) && !IsSpace(ToLower(t)[|t| - 1]))
    ensures forall k :: 0 <= k < |t| ==> LowerChar(ToLower(t)[k]) == ToLower(t)[k]
  {
    if t != [] {
      LowerCharSpace(t[0]);
      LowerCharSpace(t[|t| - 1]);
    }
    forall k | 0 <= k < |t| ensures LowerChar(ToLower(t)[k]) == ToLower(t)[k] {
      LowerCharIdempotent(t[k]);
    }
  }

  /** A normalised key is its own normal form. */
  lemma NormalizeKeyIdempotent(s: string)
    ensures NormalizeKey(NormalizeKey(s)) == NormalizeKey(s)
  {
    var t := Trim(s);
    TrimIdempotent(s);
    TrimLowerCommute(t);
    ToLowerIdempotent(t);
  }

  /** The schema setters applied to a new document's fields. */
  function ApplySetters(u: User): (r: User)
    ensures r.username == NormalizeKey(u.username) && r.email == NormalizeKey(u.email)
    ensures r.fullName == Trim(u.fullName)
    ensures r.(username := u.username, email := u.email, fullName := u.fullName) == u
  {
    u.(username := NormalizeKey(u.username), email := NormalizeKey(u.email), fullName := Trim(u.fullName))
  }

  /** `isModified("password")`: always for a new document, else when the value changed. */
  predicate PasswordModified(prior: Option<User>, next: User) {
    prior.None? || prior.value.password != next.password
  }

  /**
   * The pre-save hook: the password is replaced by its hash when it was
   * modified; nothing else about the document changes.
   */
  function PreSave(env: Env, prior: Option<User>, next: User): (r: User)
    ensures r.(password := next.password) == next
    ensures PasswordModified(prior, next) ==> r.password == env.hash(next.password)
    ensures !PasswordModified(prior, next) ==> r == next
  {
    if PasswordModified(prior, next) then next.(password := env.hash(next.password)) else next
  }

  /** A save that does not touch the password keeps the stored hash as it is. */
  lemma PreSaveKeepsHash(env: Env, stored: User, next: User)
    requires next.password == stored.password
    ensures PreSave(env, Some(stored), next).password == stored.password
    ensures PreSave(env, Some(stored), next) == next
  {
  }

  /** `user.isPasswordCorrect(p)`: bcrypt's comparison against the stored hash. */
  function IsPasswordCorrect(env: Env, u: User, candidate: string): bool {
    env.compare(candidate, u.password)
  }

  /** The password given at creation verifies against the hash the hook stores. */
  lemma CreatedPasswordVerifies(env: Env, u: User)
    requires BcryptSound(env)
    ensures IsPasswordCorrect(env, PreSave(env, None, u), u.password)
  {
  }

  /** The payload of an access token: the id and the three public identity fields. */
  function AccessClaims(u: User): (c: Claims)
    ensures c.Keys == {"_id", "email", "username", "fullName"}
    ensures c["_id"] == u.id && c["email"] == u.email
    ensures c["username"] == u.username && c["fullName"] == u.fullName
  {
    map["_id" := u.id, "email" := u.email, "username" := u.username, "fullName" := u.fullName]
  }

  /** The payload of a refresh token: the id alone. */
  function RefreshClaims(u: User): (c: Claims)
    ensures c.Keys == {"_id"} && c["_id"] == u.id
  {
    map["_id" := u.id]
  }

  function GenerateAccessToken(env: Env, u: User): string {
    env.sign(AccessClaims(u), env.accessSecret, env.accessExpiry)
  }

  function GenerateRefreshToken(env: Env, u: User): string {
    env.sign(RefreshClaims(u), env.refreshSecret, env.refreshExpiry)
  }

  /** An access token opens under the access secret to the user's identity claims. */
  lemma AccessTokenOpens(env: Env, u: User)
    requires JwtSound(env)
    ensures env.verify(GenerateAccessToken(env, u), env.accessSecret) == Some(AccessClaims(u))
    ensures env.verify(GenerateAccessToken(env, u), env.accessSecret).value["_id"] == u.id
  {
  }

  /** A refresh token opens under the refresh secret to the user's id and nothing more. */
  lemma RefreshTokenOpens(env: Env, u: User)
    requires JwtSound(env)
    ensures env.verify(GenerateRefreshToken(env, u), env.refreshSecret) == Some(RefreshClaims(u))
    ensures env.verify(GenerateRefreshToken(env, u), env.refreshSecret).value.Keys == {"_id"}
  {
  }

  /** `user.toObject()`: every stored field; `refreshToken` only when it is set. */
  function UserDoc(u: User): (d: Doc)
    ensures d.Keys == {"_id", "username", "email", "fullName", "avatar", "coverImage", "password"}
                      + (if u.refreshToken.Some? then {"refreshToken"} else {})
    ensures d["_id"] == Str(u.id) && d["username"] == Str(u.username) && d["email"] == Str(u.email)
    ensures d["fullName"] == Str(u.fullName) && d["avatar"] == Str(u.avatar)
    ensures d["coverImage"] == Str(u.coverImage) && d["password"] == Str(u.password)
    ensures u.refreshToken.Some? ==> d["refreshToken"] == Str(u.refreshToken.value)
  {
    var base := map[
      "_id" := Str(u.id), "username" := Str(u.username), "email" := Str(u.email),
      "fullName" := Str(u.fullName), "avatar" := Str(u.avatar),
      "coverImage" := Str(u.coverImage), "password" := Str(u.password)];
    match u.refreshToken
    case None => base
    case Some(t) => base["refreshToken" := Str(t)]
  }

  /**
   * The user as handed to clients and to `req.user`: `.select("-password
   * -refreshToken")`, or `toObject()` followed by deleting both fields.
   */
  function PublicUser(u: User): (d: Doc)
    ensures "password" !in d && "refreshToken" !in d
    ensures d.Keys == {"_id", "username", "email", "fullName", "avatar", "coverImage"}
    ensures d["_id"] == Str(u.id) && d["username"] == Str(u.username) && d["email"] == Str(u.email)
    ensures d["fullName"] == Str(u.fullName) && d["avatar"] == Str(u.avatar)
    ensures d["coverImage"] == Str(u.coverImage)
  {
    PublicKeys(u.refreshToken.Some?);
    Omit(UserDoc(u), {"password", "refreshToken"})
  }

  lemma PublicKeys(withToken: bool)
    ensures ({"_id", "username", "email", "fullName", "avatar", "coverImage", "password"}
             + (if withToken then {"refreshToken"} else {})) - {"password", "refreshToken"}
            == {"_id", "username", "email", "fullName", "avatar", "coverImage"}
  {
  }

  /** The public view does not depend on the secrets: changing them is invisible to clients. */
  lemma PublicUserIgnoresSecrets(u: User, password: string, refreshToken: Option<string>)
    ensures PublicUser(u.(password := password, refreshToken := refreshToken)) == PublicUser(u)
  {
    var v := u.(password := password, refreshToken := refreshToken);
    assert forall k :: k in PublicUser(v) ==> PublicUser(v)[k] == PublicUser(u)[k];
  }
}

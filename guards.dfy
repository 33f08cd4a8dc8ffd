/** The request guards (lib/auth.js): `authGuard` admits a request that
    carries a valid signed session, and `adminGuard` admits a user whose
    e-mail is on the `ADMIN_EMAILS` list.

    A session token is modelled by what it was signed with: the claims, the
    secret and the expiry. Verification succeeds exactly under the same
    secret and before the expiry; forgery is not modelled. */
module Guards {
  import opened Wrappers
  import opened Text
  import opened Documents

  /** The payload of a session: `{id, email, role}`. */
  datatype Claims = Claims(id: string, email: Option<string>, role: string)

  /** A signed session token; `expires` is in seconds since the epoch. */
  datatype Token = Token(claims: Claims, secret: string, expires: int)

  /** Sessions are signed to expire after 30 days (in seconds). */
  const SessionLifetime: int := 30 * 24 * 60 * 60

  /** The secret `lib/auth.js` signs and verifies with when `JWT_SECRET` is
      unset. */
  const DefaultSecret: string := "jwt_secret"

  /** `process.env.JWT_SECRET || fallback` */
  function SecretOr(env: Option<string>, fallback: string): (s: string)
    ensures Present(env) ==> s == env.value
    ensures !Present(env) ==> s == fallback
  {
    if Present(env) then env.value else fallback
  }

  /** `jwt.sign(payload, secret, {expiresIn: '30d'})` at issuedAt. */
  function Sign(claims: Claims, secret: string, issuedAt: int): Token {
    Token(claims, secret, issuedAt + SessionLifetime)
  }

  /** `jwt.verify(token, secret)` at now: the claims, or None where it throws. */
  function Verify(token: Token, secret: string, now: int): (r: Option<Claims>)
    ensures r.Some? <==> token.secret == secret && now < token.expires
    ensures r.Some? ==> r.value == token.claims
  {
    if token.secret == secret && now < token.expires then Some(token.claims) else None
  }

  /** `signSession(payload)` of lib/auth.js: signed with the secret the
      guard verifies with. */
  function SignSession(claims: Claims, env: Option<string>, issuedAt: int): Token {
    Sign(claims, SecretOr(env, DefaultSecret), issuedAt)
  }

  datatype AuthReply =
    | NoSession                   // 401 {error: 'unauthorized'}
    | InvalidSession              // 401 {error: 'invalid'}
    | Authenticated(user: Claims) // req.user set, next()

  /** `authGuard`: the signed `session` cookie (None when there is none)
      checked against `JWT_SECRET` at now. */
  function AuthGuard(cookie: Option<Token>, env: Option<string>, now: int): (r: AuthReply)
    ensures cookie.None? ==> r == NoSession
    ensures cookie.Some? ==> r != NoSession
    ensures cookie.Some? ==>
              (r.Authenticated? <==> cookie.value.secret == SecretOr(env, DefaultSecret) && now < cookie.value.expires)
    ensures r.Authenticated? ==> r.user == cookie.value.claims
  {
    if cookie.None? then NoSession
    else
      var data := Verify(cookie.value, SecretOr(env, DefaultSecret), now);
      if data.None? then InvalidSession else Authenticated(data.value)
  }

  /** A session signed by `signSession` passes the guard for 30 days, and
      is refused from then on. */
  lemma SessionLasts(claims: Claims, env: Option<string>, issuedAt: int, now: int)
    ensures issuedAt <= now < issuedAt + SessionLifetime ==>
              AuthGuard(Some(SignSession(claims, env, issuedAt)), env, now) == Authenticated(claims)
    ensures now >= issuedAt + SessionLifetime ==>
              AuthGuard(Some(SignSession(claims, env, issuedAt)), env, now) == InvalidSession
  {
  }

  /** `(process.env.ADMIN_EMAILS || '').split(',').map(s => s.trim().toLowerCase())` */
  function AdminList(env: Option<string>): (admins: seq<string>)
    ensures |admins| == |Split(env.GetOr(""), ',')|
    ensures forall i :: 0 <= i < |admins| ==> admins[i] == Lower(Trim(Split(env.GetOr(""), ',')[i]))
  {
    var parts := Split(env.GetOr(""), ',');
    seq(|parts|, i requires 0 <= i < |parts| => Lower(Trim(parts[i])))
  }

  /** `admins.includes((req.user.email || '').toLowerCase())` */
  predicate IsAdmin(email: Option<string>, env: Option<string>) {
    Lower(email.GetOr("")) in AdminList(env)
  }

  datatype AdminReply =
    | NotSignedIn   // 401 {error: 'unauthorized'}
    | Forbidden     // 403 {error: 'forbidden'}
    | Admitted      // next()

  /** `adminGuard`, after `authGuard` has set req.user (or not). */
  function AdminGuard(user: Option<Claims>, env: Option<string>): (r: AdminReply)
    ensures user.None? ==> r == NotSignedIn
    ensures user.Some? ==> r != NotSignedIn
    ensures user.Some? ==> (r == Admitted <==> IsAdmin(user.value.email, env))
  {
    if user.None? then NotSignedIn
    else if IsAdmin(user.value.email, env) then Admitted
    else Forbidden
  }

  /** A user is an admin exactly when some comma-separated entry of
      `ADMIN_EMAILS`, trimmed, equals the e-mail ignoring case. */
  lemma AdminMembership(email: Option<string>, env: Option<string>)
    ensures IsAdmin(email, env) <==> Listed(Split(env.GetOr(""), ','), Lower(email.GetOr("")))
  {
    InCleaned(AdminList(env), Split(env.GetOr(""), ','), Lower(email.GetOr("")));
  }

  /** Some entry of parts, trimmed and lower-cased, is x. */
  predicate Listed(parts: seq<string>, x: string) {
    exists i :: 0 <= i < |parts| && Lower(Trim(parts[i])) == x
  }

  /** Membership in a list of trimmed, lower-cased entries. */
  lemma InCleaned(admins: seq<string>, parts: seq<string>, x: string)
    requires |admins| == |parts|
    requires forall i :: 0 <= i < |admins| ==> admins[i] == Lower(Trim(parts[i]))
    ensures x in admins <==> Listed(parts, x)
  {
    if x in admins {
      var i :| 0 <= i < |admins| && admins[i] == x;
    }
  }

  /** With `ADMIN_EMAILS` unset the list is `[""]`: only a user with an
      empty or missing e-mail is admitted. */
  lemma AdminsUnset(email: Option<string>)
    ensures AdminList(None) == [""]
    ensures IsAdmin(email, None) <==> email.GetOr("") == ""
  {
    assert Split("", ',') == [""];
    assert Trim("") == "";
    assert Lower("") == "";
  }

  /** For an `ADMIN_EMAILS` written as comma-separated entries, a user is
      admitted exactly when some entry, trimmed, equals the e-mail ignoring
      case. */
  lemma AdminListed(entries: seq<string>, email: string)
    requires |entries| >= 1
    requires forall i :: 0 <= i < |entries| ==> ',' !in entries[i]
    ensures IsAdmin(Some(email), Some(Join(entries, ','))) <==> Listed(entries, Lower(email))
  {
    SplitJoin(entries, ',');
    AdminMembership(Some(email), Some(Join(entries, ',')));
  }

  /** The admin test ignores the case of the user's e-mail. */
  lemma AdminIgnoresCase(email: string, env: Option<string>)
    ensures IsAdmin(Some(email), env) <==> IsAdmin(Some(Lower(email)), env)
  {
    LowerIdempotent(email);
  }
}

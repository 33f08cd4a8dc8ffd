/** The account routes (routes/auth.js): an in-memory `Map` from e-mail to
    user, filled by the guest and register handlers and read by login and
    `/me`. The generated ids, the password hash and its comparison, and the
    clock are parameters. */
module Accounts {
  import opened Wrappers
  import opened Documents
  import opened Collections
  import opened Guards

  /** A stored user: `{id, email, name, role, passhash?}`. */
  datatype Account = Account(id: string, email: string, name: string, role: string, passhash: Option<string>)

  /** A user as the routes answer with it: never the password hash. */
  datatype View = View(id: string, email: Option<string>, name: string, role: string)

  function ViewOf(a: Account): View {
    View(a.id, Some(a.email), a.name, a.role)
  }

  /** The session payload `{id, email, role}` of an account. */
  function ClaimsOf(a: Account): Claims {
    Claims(a.id, Some(a.email), a.role)
  }

  datatype Reply =
    | BadRequest                           // 400 'Dados inválidos'
    | Conflict                             // 409 'E-mail já cadastrado'
    | Unauthorized                         // 401 'E-mail ou senha inválidos'
    | SignedIn(user: View, session: Token) // {ok: true, user} and the session cookie
    | SessionMissing                       // 401 'Sem sessão'
    | Profile(user: View)                  // the /me answer
    | LoggedOut                            // {ok: true}, the cookie cleared

  /** `uid(p)`: the prefix, an underscore and a generated stamp. */
  function NewId(prefix: string, stamp: string): string {
    prefix + "_" + stamp
  }

  /** The guest the guest handler creates from a stamp: no password hash. */
  function GuestAccount(stamp: string): (a: Account)
    ensures a.passhash.None? && a.role == "guest" && a.name == "Convidado"
    ensures a.email == a.id + "@guest.local" && a.id == "guest_" + stamp
  {
    var id := NewId("guest", stamp);
    Account(id, id + "@guest.local", "Convidado", "guest", None)
  }

  /** The user the register handler creates. */
  function NewAccount(email: string, name: string, stamp: string, passhash: string): Account {
    Account(NewId("usr", stamp), email, name, "user", Some(passhash))
  }

  /** The accounts of the map in insertion order (`users.values()`). */
  function InOrder(users: map<string, Account>, order: seq<string>): (accounts: seq<Account>)
    requires forall e :: e in order ==> e in users
    ensures |accounts| == |order|
    ensures forall i :: 0 <= i < |order| ==> accounts[i] == users[order[i]]
  {
    if order == [] then [] else [users[order[0]]] + InOrder(users, order[1..])
  }

  /** The in-memory user map. A JavaScript `Map` remembers the order in which
      keys were first set; `order` is that order. */
  class Directory {
    var users: map<string, Account>
    var order: seq<string>

    ghost predicate Valid()
      reads this
    {
      NoDup(order) && forall e :: e in order <==> e in users
    }

    /** The map is empty at every start of the server. */
    constructor ()
      ensures Valid() && users == map[] && order == []
    {
      users := map[];
      order := [];
    }

    function Accounts(): seq<Account>
      reads this
      requires Valid()
    {
      InOrder(users, order)
    }

    /** `users.set(email, a)`: replaces the value of a known key in place,
        or adds a new key last. */
    method Set(email: string, a: Account)
      requires Valid()
      modifies this
      ensures Valid()
      ensures users == old(users)[email := a]
      ensures order == if email in old(users) then old(order) else old(order) + [email]
    {
      if email !in users {
        order := order + [email];
      }
      users := users[email := a];
    }

    /** `guestHandler`: stores a fresh guest under `<id>@guest.local`
        (replacing any user there) and signs a session for it. */
    method Guest(stamp: string, env: Option<string>, issuedAt: int) returns (r: Reply)
      requires Valid()
      modifies this
      ensures Valid()
      ensures var g := GuestAccount(stamp);
              && users == old(users)[g.email := g]
              && order == (if g.email in old(users) then old(order) else old(order) + [g.email])
              && r == SignedIn(ViewOf(g), SignSession(ClaimsOf(g), env, issuedAt))
    {
      var g := GuestAccount(stamp);
      Set(g.email, g);
      r := SignedIn(ViewOf(g), SignSession(ClaimsOf(g), env, issuedAt));
    }

    /** `POST /register {email, password, name}`; a missing field is the
        empty string and passhash is the hash of the password. */
    method Register(email: string, password: string, name: string, stamp: string, passhash: string,
                    env: Option<string>, issuedAt: int) returns (r: Reply)
      requires Valid()
      modifies this
      ensures Valid()
      ensures email == "" || password == "" || name == "" ==>
                r == BadRequest && users == old(users) && order == old(order)
      ensures email != "" && password != "" && name != "" && email in old(users) ==>
                r == Conflict && users == old(users) && order == old(order)
      ensures email != "" && password != "" && name != "" && email !in old(users) ==>
                var a := NewAccount(email, name, stamp, passhash);
                && users == old(users)[email := a]
                && order == old(order) + [email]
                && r == SignedIn(ViewOf(a), SignSession(ClaimsOf(a), env, issuedAt))
    {
      if email == "" || password == "" || name == "" {
        return BadRequest;
      }
      if email in users {
        return Conflict;
      }
      var a := NewAccount(email, name, stamp, passhash);
      Set(email, a);
      r := SignedIn(ViewOf(a), SignSession(ClaimsOf(a), env, issuedAt));
    }
  }

  /** `POST /login {email, password}`; compare is `bcrypt.compare`. */
  function Login(users: map<string, Account>, email: string, password: string,
                 compare: (string, string) -> bool, env: Option<string>, issuedAt: int): (r: Reply)
    ensures email == "" || password == "" ==> r == BadRequest
    ensures email != "" && password != "" ==>
              (r.SignedIn? <==> email in users && Present(users[email].passhash)
                                && compare(password, users[email].passhash.value))
    ensures email != "" && password != "" && !r.SignedIn? ==> r == Unauthorized
    ensures r.SignedIn? ==> r == SignedIn(ViewOf(users[email]), SignSession(ClaimsOf(users[email]), env, issuedAt))
  {
    if email == "" || password == "" then BadRequest
    else if email !in users || !Present(users[email].passhash) then Unauthorized
    else if !compare(password, users[email].passhash.value) then Unauthorized
    else SignedIn(ViewOf(users[email]), SignSession(ClaimsOf(users[email]), env, issuedAt))
  }

  /** A session handed out by login passes every guarded route for 30
      days, with the stored user's id, e-mail and role as its claims. */
  lemma LoginSessionPassesGuard(users: map<string, Account>, email: string, password: string,
                                compare: (string, string) -> bool, env: Option<string>, issuedAt: int, now: int)
    requires Login(users, email, password, compare, env, issuedAt).SignedIn?
    requires issuedAt <= now < issuedAt + SessionLifetime
    ensures AuthGuard(Some(Login(users, email, password, compare, env, issuedAt).session), env, now)
              == Authenticated(ClaimsOf(users[email]))
  {
    SessionLasts(ClaimsOf(users[email]), env, issuedAt, now);
  }

  /** A guest has no password, so no password logs in as a guest. */
  lemma GuestCannotLogIn(users: map<string, Account>, stamp: string, password: string,
                         compare: (string, string) -> bool, env: Option<string>, issuedAt: int)
    requires GuestAccount(stamp).email in users && users[GuestAccount(stamp).email] == GuestAccount(stamp)
    ensures !Login(users, GuestAccount(stamp).email, password, compare, env, issuedAt).SignedIn?
  {
  }

  /** After a register, the password whose hash was stored logs in as that
      user. */
  lemma RegisteredCanLogIn(users: map<string, Account>, email: string, password: string, name: string,
                           stamp: string, passhash: string, compare: (string, string) -> bool,
                           env: Option<string>, issuedAt: int)
    requires email != "" && password != "" && passhash != "" && compare(password, passhash)
    ensures var a := NewAccount(email, name, stamp, passhash);
            Login(users[email := a], email, password, compare, env, issuedAt)
              == SignedIn(View(NewId("usr", stamp), Some(email), name, "user"), SignSession(ClaimsOf(a), env, issuedAt))
  {
  }

  /** The position of the first account with the id, if any
      (`[...users.values()].find(u => u.id === id)`). */
  function FindById(accounts: seq<Account>, id: string): (r: Option<nat>)
    ensures r.Some? ==> r.value < |accounts| && accounts[r.value].id == id
    ensures r.Some? ==> forall j :: 0 <= j < r.value ==> accounts[j].id != id
    ensures r.None? ==> forall j :: 0 <= j < |accounts| ==> accounts[j].id != id
  {
    if accounts == [] then None
    else if accounts[0].id == id then Some(0)
    else
      var rest := FindById(accounts[1..], id);
      if rest.None? then None else Some(rest.value + 1)
  }

  /** `readSession`: the claims of a session cookie that verifies. With the
      shared secret, `/me` reads a session exactly when the guard admits it,
      and reads the claims the guard hands on. */
  function ReadSession(cookie: Option<Token>, env: Option<string>, now: int): (r: Option<Claims>)
    ensures r.Some? <==> AuthGuard(cookie, env, now).Authenticated?
    ensures r.Some? ==> AuthGuard(cookie, env, now) == Authenticated(r.value)
  {
    if cookie.None? then None else Verify(cookie.value, SecretOr(env, DefaultSecret), now)
  }

  /** `GET /me`: the first stored account with the session's id, or one made
      from the session with the name "Usuário". */
  function Me(accounts: seq<Account>, cookie: Option<Token>, env: Option<string>, now: int): (r: Reply)
    ensures ReadSession(cookie, env, now).None? ==> r == SessionMissing
    ensures ReadSession(cookie, env, now).Some? ==>
              var ses := ReadSession(cookie, env, now).value;
              && r.Profile? && r.user.id == ses.id
              && ((exists j :: 0 <= j < |accounts| && accounts[j].id == ses.id) ==>
                    exists j :: 0 <= j < |accounts| && r.user == ViewOf(accounts[j])
                                && forall k :: 0 <= k < j ==> accounts[k].id != ses.id)
              && ((forall j :: 0 <= j < |accounts| ==> accounts[j].id != ses.id) ==>
                    r.user == View(ses.id, ses.email, "Usuário", ses.role))
  {
    var ses := ReadSession(cookie, env, now);
    if ses.None? then SessionMissing
    else
      var found := FindById(accounts, ses.value.id);
      if found.Some? then Profile(ViewOf(accounts[found.value]))
      else Profile(View(ses.value.id, ses.value.email, "Usuário", ses.value.role))
  }

  /** A user who just registered finds themself through `/me` while the
      session lasts, when no earlier account has the same id. */
  lemma RegisteredIsMe(accounts: seq<Account>, a: Account, env: Option<string>, issuedAt: int, now: int)
    requires issuedAt <= now < issuedAt + SessionLifetime
    requires forall j :: 0 <= j < |accounts| ==> accounts[j].id != a.id
    ensures Me(accounts + [a], Some(SignSession(ClaimsOf(a), env, issuedAt)), env, now) == Profile(ViewOf(a))
  {
    var all := accounts + [a];
    assert all[|accounts|] == a;
    var found := FindById(all, a.id);
    assert found == Some(|accounts|);
  }

  /** `POST /logout`: always ok, and the session cookie is cleared. */
  function Logout(cookie: Option<Token>): (r: (Reply, Option<Token>))
    ensures r.0 == LoggedOut && r.1.None?
  {
    (LoggedOut, None)
  }

  /** After logout the browser sends no session, so the guard refuses it. */
  lemma LoggedOutHasNoSession(cookie: Option<Token>, env: Option<string>, now: int)
    ensures AuthGuard(Logout(cookie).1, env, now) == Guards.NoSession
    ensures Me([], Logout(cookie).1, env, now) == SessionMissing
  {
  }

  /** The secret routes/auth.js signs with as written when `JWT_SECRET` is
      unset: not the one the guard verifies with. */
  const RoutesDefaultSecret: string := "dev_jwt_secret"

  /** `signSession(res, payload)` of routes/auth.js as written. */
  function SignSessionAsWritten(claims: Claims, env: Option<string>, issuedAt: int): Token {
    Sign(claims, SecretOr(env, RoutesDefaultSecret), issuedAt)
  }

  /** As written, with `JWT_SECRET` unset, a fresh session from login,
      register or guest is refused by every guarded route. */
  lemma SessionAsWrittenRefused(claims: Claims, issuedAt: int, now: int)
    requires issuedAt <= now < issuedAt + SessionLifetime
    ensures AuthGuard(Some(SignSessionAsWritten(claims, None, issuedAt)), None, now) == InvalidSession
  {
    assert RoutesDefaultSecret != DefaultSecret by {
      assert RoutesDefaultSecret[0] != DefaultSecret[0];
    }
  }

  /** As written, the two secrets agree once `JWT_SECRET` is set. */
  lemma SessionAsWrittenWithSecret(claims: Claims, secret: string, issuedAt: int, now: int)
    requires secret != "" && issuedAt <= now < issuedAt + SessionLifetime
    ensures AuthGuard(Some(SignSessionAsWritten(claims, Some(secret), issuedAt)), Some(secret), now) == Authenticated(claims)
  {
  }
}

// Auth.js: `/login`, `/register`, `/logout`, `/login_with_token` and
// `/login_with_cookie` over the user table and the session-token table.
// bcrypt and JWT are parameters: `compare(password, hash)`, `hash(password)`,
// `sign(claims, expiresIn)` and `verify(token)`.

module Auth {
  import opened Wrappers
  import opened Models
  import opened Text
  import opened Guards

  /** What a handler does to the `access_token` cookie. */
  datatype CookieAction = SetCookie(value: string, lifetimeMs: int) | ClearCookie | KeepCookie

  /** Cookie lifetimes: 7 days with "remember me", 12 hours without. */
  const WeekMs: int := 7 * 24 * 60 * 60 * 1000
  const HalfDayMs: int := 12 * 60 * 60 * 1000

  /** The token's own expiry, as `expiresIn`. */
  function TokenExpiry(remember: bool): string
  {
    if remember then "7d" else "1h"
  }

  /** The cookie login and register set: the token behind "Bearer ". */
  function SessionCookie(token: string, lifetimeMs: int): (c: CookieAction)
    ensures c.SetCookie? && StripBearer(c.value) == token && c.lifetimeMs == lifetimeMs
  {
    StripAfterBearer(token);
    SetCookie(BearerPrefix + token, lifetimeMs)
  }

  // ---------------------------------------------------------------------
  // The token table

  /** `Token.deleteMany({ user: u })`. */
  function WithoutUser(ts: seq<TokenRecord>, u: Id): (r: seq<TokenRecord>)
    ensures forall t :: t in r <==> t in ts && t.user != u
    ensures |r| <= |ts|
  {
    if ts == [] then []
    else if ts[0].user == u then WithoutUser(ts[1..], u)
    else [ts[0]] + WithoutUser(ts[1..], u)
  }

  /** `Token.deleteMany({ token: t })`. */
  function WithoutToken(ts: seq<TokenRecord>, t: string): (r: seq<TokenRecord>)
    ensures forall x :: x in r <==> x in ts && x.token != t
    ensures |r| <= |ts|
  {
    if ts == [] then []
    else if ts[0].token == t then WithoutToken(ts[1..], t)
    else [ts[0]] + WithoutToken(ts[1..], t)
  }

  /** The records held for user `u`, in order. */
  function TokensOf(ts: seq<TokenRecord>, u: Id): (r: seq<TokenRecord>)
    ensures forall t :: t in r <==> t in ts && t.user == u
  {
    if ts == [] then []
    else if ts[0].user == u then [ts[0]] + TokensOf(ts[1..], u)
    else TokensOf(ts[1..], u)
  }

  lemma {:induction false} TokensOfAppend(a: seq<TokenRecord>, b: seq<TokenRecord>, u: Id)
    ensures TokensOf(a + b, u) == TokensOf(a, u) + TokensOf(b, u)
  {
    if a == [] {
      assert a + b == b;
    } else {
      TokensOfAppend(a[1..], b, u);
      assert (a + b)[1..] == a[1..] + b;
    }
  }

  lemma {:induction false} NoTokensOf(ts: seq<TokenRecord>, u: Id)
    requires forall t :: t in ts ==> t.user != u
    ensures TokensOf(ts, u) == []
  {
    if ts != [] {
      NoTokensOf(ts[1..], u);
    }
  }

  /** The table after a login or registration of `u` with token `token`. */
  function AfterLogin(ts: seq<TokenRecord>, u: Id, token: string): seq<TokenRecord> {
    WithoutUser(ts, u) + [TokenRecord(u, token)]
  }

  /** After a login the user holds exactly one token, the new one. */
  lemma OneTokenAfterLogin(ts: seq<TokenRecord>, u: Id, token: string)
    ensures TokensOf(AfterLogin(ts, u, token), u) == [TokenRecord(u, token)]
  {
    var rest := WithoutUser(ts, u);
    TokensOfAppend(rest, [TokenRecord(u, token)], u);
    NoTokensOf(rest, u);
    assert TokensOf([TokenRecord(u, token)], u) == [TokenRecord(u, token)];
  }

  /** A login leaves every other user's tokens as they were. */
  lemma {:induction false} LoginKeepsOthers(ts: seq<TokenRecord>, u: Id, token: string, v: Id)
    requires v != u
    ensures TokensOf(AfterLogin(ts, u, token), v) == TokensOf(ts, v)
  {
    WithoutUserKeepsOthers(ts, u, v);
    TokensOfAppend(WithoutUser(ts, u), [TokenRecord(u, token)], v);
  }

  lemma {:induction false} WithoutUserKeepsOthers(ts: seq<TokenRecord>, u: Id, v: Id)
    requires v != u
    ensures TokensOf(WithoutUser(ts, u), v) == TokensOf(ts, v)
  {
    if ts != [] {
      WithoutUserKeepsOthers(ts[1..], u, v);
      if ts[0].user != u {
        assert ([ts[0]] + WithoutUser(ts[1..], u))[1..] == WithoutUser(ts[1..], u);
      }
    }
  }

  // ---------------------------------------------------------------------
  // Token and cookie login

  /** How a presented session token fares, checked in the handlers' order. */
  datatype Session = SessionOk(user: Id) | NoToken | BadSignature | NotStored | NoUser

  predicate Stored(ts: seq<TokenRecord>, token: string) {
    exists t :: t in ts && t.token == token
  }

  /**
   * Missing token; then signature (after stripping "Bearer "); then
   * presence in the token table; then the user the claims name.
   */
  function CheckSession(token: Option<string>, verify: string -> Option<Claims>, ts: seq<TokenRecord>, users: map<Id, User>): (s: Session)
    ensures s == NoToken <==> !Truthy(token)
    ensures s == BadSignature <==> Truthy(token) && verify(StripBearer(token.value)).None?
    ensures s == NotStored <==>
      Truthy(token) && verify(StripBearer(token.value)).Some? && !Stored(ts, StripBearer(token.value))
    ensures s.SessionOk? <==>
      && Truthy(token) && verify(StripBearer(token.value)).Some? && Stored(ts, StripBearer(token.value))
      && verify(StripBearer(token.value)).value.id in users
    ensures s.SessionOk? ==> s.user == verify(StripBearer(token.value)).value.id
  {
    if !Truthy(token) then NoToken
    else
      var main := StripBearer(token.value);
      match verify(main)
      case None => BadSignature
      case Some(claims) =>
        if !Stored(ts, main) then NotStored
        else if claims.id !in users then NoUser
        else SessionOk(claims.id)
  }

  /** The three answers both handlers share: 400, failure with the cookie cleared, or success. */
  function SessionReply(s: Session): (rc: (Reply, CookieAction))
    ensures s == NoToken <==> rc == (Fail(400), KeepCookie)
    ensures s.SessionOk? <==> rc == (Ok(200), KeepCookie)
    ensures !s.SessionOk? && s != NoToken <==> rc == (Reply(200, false), ClearCookie)
  {
    match s
    case NoToken => (Fail(400), KeepCookie)
    case SessionOk(_) => (Ok(200), KeepCookie)
    case _ => (Reply(200, false), ClearCookie)
  }

  /** What `/login_with_cookie` sends back on success. */
  datatype Profile = Profile(name: string, email: string, role: Role)

  /** `PUT /login_with_token`: the token comes in the body; the whole user comes back. */
  function LoginWithToken(token: Option<string>, verify: string -> Option<Claims>, ts: seq<TokenRecord>, users: map<Id, User>)
    : (r: (Reply, CookieAction, Option<User>))
    ensures r.0.success <==> CheckSession(token, verify, ts, users).SessionOk?
    ensures r.0.success ==> r.2 == Some(users[CheckSession(token, verify, ts, users).user])
    ensures !r.0.success ==> r.2.None?
  {
    var s := CheckSession(token, verify, ts, users);
    var (reply, cookie) := SessionReply(s);
    (reply, cookie, if s.SessionOk? then Some(users[s.user]) else None)
  }

  /** `PUT /login_with_cookie`: the token comes in the cookie; name, email and role come back. */
  function LoginWithCookie(cookie: Option<string>, verify: string -> Option<Claims>, ts: seq<TokenRecord>, users: map<Id, User>)
    : (r: (Reply, CookieAction, Option<Profile>))
    ensures r.0.success <==> CheckSession(cookie, verify, ts, users).SessionOk?
    ensures r.0.success ==>
      var u := users[CheckSession(cookie, verify, ts, users).user];
      r.2 == Some(Profile(u.name, u.email, u.role))
    ensures !r.0.success ==> r.2.None?
  {
    var s := CheckSession(cookie, verify, ts, users);
    var (reply, c) := SessionReply(s);
    (reply, c, if s.SessionOk? then Some(Profile(users[s.user].name, users[s.user].email, users[s.user].role)) else None)
  }

  /**
   * The cookie a login sets is accepted afterwards, provided the token
   * verifies to the claims it was signed with.
   */
  lemma SessionAfterLogin(ts: seq<TokenRecord>, users: map<Id, User>, u: Id, token: string, claims: Claims, verify: string -> Option<Claims>)
    requires u in users && claims.id == u
    requires verify(token) == Some(claims)
    ensures var c := SessionCookie(token, 0);
      CheckSession(Some(c.value), verify, AfterLogin(ts, u, token), users) == SessionOk(u)
  {
    var c := SessionCookie(token, 0);
    assert c.value != "";
    assert TokenRecord(u, token) in AfterLogin(ts, u, token);
  }

  /** After logging out with a cookie, that cookie no longer opens a session. */
  lemma SessionAfterLogout(ts: seq<TokenRecord>, users: map<Id, User>, cookie: string, verify: string -> Option<Claims>)
    requires cookie != ""
    requires verify(StripBearer(cookie)).Some?
    ensures CheckSession(Some(cookie), verify, WithoutToken(ts, StripBearer(cookie)), users) == NotStored
  {
  }

  /**
   * The route guards never consult the token table: a cookie whose token
   * logout deleted is refused by `/login_with_cookie` but still admitted by
   * every guard whose role check the user passes.
   */
  lemma LogoutLeavesGuardsOpen(ts: seq<TokenRecord>, users: map<Id, User>, cookie: string, verify: string -> Option<Claims>, tier: Tier)
    requires cookie != ""
    requires verify(StripBearer(cookie)).Some?
    requires var id := verify(StripBearer(cookie)).value.id;
      id in users && !users[id].disabled && Admits(tier, users[id].role)
    ensures !LoginWithCookie(Some(cookie), verify, WithoutToken(ts, StripBearer(cookie)), users).0.success
    ensures Guard(tier, Some(cookie), verify, users) == Next(users[verify(StripBearer(cookie)).value.id])
  {
    SessionAfterLogout(ts, users, cookie, verify);
  }

  // ---------------------------------------------------------------------
  // The handlers that write

  /** `Users.findOne({ email_address })`; emails are unique, so there is at most one. */
  method FindByEmail(db: Db, email: string) returns (u: Option<Id>)
    ensures u.Some? ==> u.value in db.users && db.users[u.value].email == email
    ensures u.None? ==> forall v :: v in db.users ==> db.users[v].email != email
  {
    if exists v :: v in db.users && db.users[v].email == email {
      var v :| v in db.users && db.users[v].email == email;
      u := Some(v);
    } else {
      u := None;
    }
  }

  /**
   * `PUT /login`. 400 without email or password; 401 for an unknown email or
   * a wrong password, the table untouched. Otherwise the user's tokens are
   * all deleted and the new one saved, and the cookie carries it.
   */
  method Login(db: Db, email: Option<string>, password: Option<string>, remember: bool,
               compare: (string, string) -> bool, sign: (Claims, string) -> string)
    returns (r: Reply, c: CookieAction)
    requires db.Valid()
    modifies db`tokens
    ensures db.Valid()
    ensures !Truthy(email) || !Truthy(password) ==> r == Fail(400) && c == KeepCookie
    ensures Truthy(email) && Truthy(password) && (forall v :: v in db.users ==> db.users[v].email != email.value) ==>
      r == Fail(401) && c == KeepCookie
    ensures Truthy(email) && Truthy(password) ==> forall v :: v in db.users && db.users[v].email == email.value ==>
      && (!compare(password.value, db.users[v].passwordHash) ==> r == Fail(401) && c == KeepCookie)
      && (compare(password.value, db.users[v].passwordHash) ==>
            var token := sign(Claims(v, email.value), TokenExpiry(remember));
            && r == Ok(200)
            && c == SessionCookie(token, if remember then WeekMs else HalfDayMs)
            && db.tokens == AfterLogin(old(db.tokens), v, token))
    ensures !r.success ==> db.tokens == old(db.tokens)
  {
    if !Truthy(email) || !Truthy(password) {
      return Fail(400), KeepCookie;
    }
    var found := FindByEmail(db, email.value);
    if found.None? {
      return Fail(401), KeepCookie;
    }
    var u := found.value;
    if !compare(password.value, db.users[u].passwordHash) {
      return Fail(401), KeepCookie;
    }
    db.tokens := WithoutUser(db.tokens, u);
    var token := sign(Claims(u, db.users[u].email), TokenExpiry(remember));
    db.tokens := db.tokens + [TokenRecord(u, token)];
    r := Ok(200);
    c := SessionCookie(token, if remember then WeekMs else HalfDayMs);
  }

  /**
   * `POST /register`. 400 without name, email or password; 409 when the
   * email is taken, nothing created. Otherwise a user with role `user` is
   * inserted under the fresh id `uid` and gets exactly one token.
   */
  method Register(db: Db, name: Option<string>, email: Option<string>, password: Option<string>, terms: bool,
                  uid: Id, hash: string -> string, sign: (Claims, string) -> string)
    returns (r: Reply, c: CookieAction)
    requires db.Valid()
    requires uid !in db.users
    modifies db`users, db`tokens
    ensures db.Valid()
    ensures !Truthy(name) || !Truthy(email) || !Truthy(password) ==> r == Fail(400)
    ensures Truthy(name) && Truthy(email) && Truthy(password) ==>
      r == (if exists v :: v in old(db.users) && old(db.users)[v].email == email.value then Fail(409) else Ok(200))
    ensures !r.success ==> db.users == old(db.users) && db.tokens == old(db.tokens) && c == KeepCookie
    ensures r.success ==>
      var token := sign(Claims(uid, email.value), "7d");
      && db.users == old(db.users)[uid := User(name.value, email.value, hash(password.value), terms, "", "", UserRole, false, [])]
      && db.tokens == AfterLogin(old(db.tokens), uid, token)
      && c == SessionCookie(token, WeekMs)
  {
    if !Truthy(name) || !Truthy(email) || !Truthy(password) {
      return Fail(400), KeepCookie;
    }
    var existing := FindByEmail(db, email.value);
    if existing.Some? {
      return Fail(409), KeepCookie;
    }
    var user := User(name.value, email.value, hash(password.value), terms, "", "", UserRole, false, []);
    NewUserKeepsInvariants(db.users, db.labs, uid, user);
    db.users := db.users[uid := user];
    db.tokens := WithoutUser(db.tokens, uid);
    var token := sign(Claims(uid, email.value), "7d");
    db.tokens := db.tokens + [TokenRecord(uid, token)];
    r := Ok(200);
    c := SessionCookie(token, WeekMs);
  }

  /**
   * `DELETE /logout`. 400 without a cookie; otherwise every record holding
   * the cookie's token is deleted, whoever it belongs to.
   */
  method Logout(db: Db, cookie: Option<string>) returns (r: Reply, c: CookieAction)
    requires db.Valid()
    modifies db`tokens
    ensures db.Valid()
    ensures !Truthy(cookie) ==> r == Fail(400) && c == KeepCookie && db.tokens == old(db.tokens)
    ensures Truthy(cookie) ==>
      r == Ok(200) && c == ClearCookie && db.tokens == WithoutToken(old(db.tokens), StripBearer(cookie.value))
  {
    if !Truthy(cookie) {
      return Fail(400), KeepCookie;
    }
    db.tokens := WithoutToken(db.tokens, StripBearer(cookie.value));
    r, c := Ok(200), ClearCookie;
  }
}

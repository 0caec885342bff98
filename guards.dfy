// utls/AuthFunctations.js: the three route guards `isUsersRegistered`,
// `isUserStaff` and `isUserAdmin`. Each reads the `access_token` cookie,
// strips "Bearer ", verifies the token, looks the user up and checks the
// role, in that order. JWT verification is the parameter `verify`, which
// yields the signed claims or nothing. The guards do not consult the token
// table.

module Guards {
  import opened Wrappers
  import opened Models
  import opened Text

  /** What a session token carries: `{ id, email }`. */
  datatype Claims = Claims(id: Id, email: string)

  /** `isUsersRegistered`, `isUserStaff`, `isUserAdmin`. */
  datatype Tier = Registered | StaffTier | AdminTier

  /** The role check of each guard; the first guard has none. */
  predicate Admits(tier: Tier, role: Role) {
    match tier
    case Registered => true
    case StaffTier => role == StaffRole || role == AdminRole
    case AdminTier => role == AdminRole
  }

  /** `next()` with `req.user` set, or the error the guard sends. */
  datatype GuardResult = Next(user: User) | Deny(code: int)

  /**
   * One guard. 401 for a missing cookie, a token that does not verify, or a
   * user that is missing or disabled; only then 403 for a role the guard
   * does not admit; otherwise `next` with the looked-up user.
   */
  function Guard(tier: Tier, cookie: Option<string>, verify: string -> Option<Claims>, users: map<Id, User>): (r: GuardResult)
    ensures r == Deny(401) <==>
      || !Truthy(cookie)
      || verify(StripBearer(cookie.value)).None?
      || verify(StripBearer(cookie.value)).value.id !in users
      || users[verify(StripBearer(cookie.value)).value.id].disabled
    ensures r == Deny(403) <==>
      && Truthy(cookie)
      && verify(StripBearer(cookie.value)).Some?
      && var id := verify(StripBearer(cookie.value)).value.id;
         id in users && !users[id].disabled && !Admits(tier, users[id].role)
    ensures r.Next? <==>
      && Truthy(cookie)
      && verify(StripBearer(cookie.value)).Some?
      && var id := verify(StripBearer(cookie.value)).value.id;
         id in users && !users[id].disabled && Admits(tier, users[id].role)
    ensures r.Next? ==> r.user == users[verify(StripBearer(cookie.value)).value.id]
  {
    if !Truthy(cookie) then Deny(401)
    else match verify(StripBearer(cookie.value))
      case None => Deny(401)
      case Some(claims) =>
        if claims.id !in users || users[claims.id].disabled then Deny(401)
        else if !Admits(tier, users[claims.id].role) then Deny(403)
        else Next(users[claims.id])
  }

  /** Passing the admin guard implies passing the staff guard, which implies passing the first. */
  lemma GuardsNest(cookie: Option<string>, verify: string -> Option<Claims>, users: map<Id, User>)
    ensures Guard(AdminTier, cookie, verify, users).Next? ==> Guard(StaffTier, cookie, verify, users) == Guard(AdminTier, cookie, verify, users)
    ensures Guard(StaffTier, cookie, verify, users).Next? ==> Guard(Registered, cookie, verify, users) == Guard(StaffTier, cookie, verify, users)
  {
  }

  /** The three guards differ only in the role check: they agree on every 401. */
  lemma GuardsAgreeOn401(cookie: Option<string>, verify: string -> Option<Claims>, users: map<Id, User>, t: Tier, u: Tier)
    ensures Guard(t, cookie, verify, users) == Deny(401) <==> Guard(u, cookie, verify, users) == Deny(401)
  {
  }

  /** A disabled admin is turned away with 401, never 403, by every guard. */
  lemma DisabledUserIs401(tier: Tier, token: string, verify: string -> Option<Claims>, users: map<Id, User>)
    requires token != ""
    requires verify(StripBearer(token)).Some?
    requires var id := verify(StripBearer(token)).value.id; id in users && users[id].disabled
    ensures Guard(tier, Some(token), verify, users) == Deny(401)
  {
  }
}

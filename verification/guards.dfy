/** The two route guards: `verifyToken` (middlewares/verifyToken.js), which
    authenticates the access cookie and attaches the caller's stored record
    to the request, and `verifyAdmin` (middlewares/verifyAdmin.js), which
    lets only administrators through. A guard either passes control on
    (`next()`) or answers the request itself. */
module Guards {
  import opened Base
  import opened UserModel
  import opened Tokens
  import opened Accounts

  /** The part of a request the guards read and write: the incoming access
      cookie, and `req.user`, which `verifyToken` fills in. */
  class Request {
    const accessCookie: Option<Token>
    var user: Option<User>

    constructor(accessCookie: Option<Token>)
      ensures this.accessCookie == accessCookie && user == None
    {
      this.accessCookie := accessCookie;
      user := None;
    }
  }

  /** What a guard does: call `next()` once, or answer with an error. */
  datatype Gate = Next | Deny(status: nat, message: string)

  /** The outcome of authenticating an access cookie against the store. */
  datatype Authentication = Authenticated(user: User) | Rejected(message: string)

  /** `verifyToken`'s decision: the cookie must be present, carry a token the
      access secret verifies and that has not expired, and name a user that
      is still stored; the caller is then that user's current record. */
  function Authenticate(users: seq<User>, accessCookie: Option<Token>, cfg: Config, pastExpiry: bool): (r: Authentication)
    ensures !Present(accessCookie) ==> r == Rejected("No access token, authorization denied.")
    ensures Present(accessCookie) && Verify(accessCookie.value, cfg.accessSecret, pastExpiry).Invalid? ==>
              r == Rejected("Access token is not valid.")
    ensures Present(accessCookie) && Verify(accessCookie.value, cfg.accessSecret, pastExpiry).Expired? ==>
              r == Rejected("Access token expired.")
    ensures r.Authenticated? <==>
              && Present(accessCookie)
              && Verify(accessCookie.value, cfg.accessSecret, pastExpiry).Decoded?
              && ById(users, accessCookie.value.payload.id).Some?
    ensures r.Authenticated? ==>
              r.user.id == accessCookie.value.payload.id && r.user in users
    ensures r.Rejected? && Present(accessCookie) && Verify(accessCookie.value, cfg.accessSecret, pastExpiry).Decoded? ==>
              r == Rejected("User not found.")
  {
    if !Present(accessCookie) then Rejected("No access token, authorization denied.")
    else match Verify(accessCookie.value, cfg.accessSecret, pastExpiry)
      case Expired => Rejected("Access token expired.")
      case Invalid => Rejected("Access token is not valid.")
      case Decoded(payload) =>
        match ById(users, payload.id)
        case None => Rejected("User not found.")
        case Some(i) => Authenticated(users[i])
  }

  /** `verifyToken`: every refusal is a 401 and leaves `req.user` alone; on
      success `req.user` becomes the caller's stored record and control
      passes on. */
  method VerifyToken(users: seq<User>, req: Request, cfg: Config, pastExpiry: bool) returns (g: Gate)
    modifies req
    ensures var auth := Authenticate(users, req.accessCookie, cfg, pastExpiry);
            && (auth.Authenticated? ==> g == Next && req.user == Some(auth.user))
            && (auth.Rejected? ==> g == Deny(401, auth.message) && req.user == old(req.user))
  {
    var accessToken := req.accessCookie;
    if !Present(accessToken) {
      return Deny(401, "No access token, authorization denied.");
    }
    var decoded := Verify(accessToken.value, cfg.accessSecret, pastExpiry);
    if decoded.Expired? {
      return Deny(401, "Access token expired.");
    }
    if decoded.Invalid? {
      return Deny(401, "Access token is not valid.");
    }
    var found := ById(users, decoded.payload.id);
    if found.None? {
      return Deny(401, "User not found.");
    }
    req.user := Some(users[found.value]);
    g := Next;
  }

  /** `verifyAdmin`: control passes on exactly when the request carries a
      user whose role is admin; otherwise the answer is 403. */
  function VerifyAdmin(user: Option<User>): (g: Gate)
    ensures g == Next <==> user.Some? && user.value.role == Admin
    ensures g != Next ==> g == Deny(403, "Access denied. Admins only.")
  {
    if user.Some? && user.value.role == Admin then Next else Deny(403, "Access denied. Admins only.")
  }

  /** `verifyToken` followed by `verifyAdmin`, as the administrator routes
      chain them: the request gets through exactly when the cookie
      authenticates a user whose stored role is admin. */
  method AdminGate(users: seq<User>, req: Request, cfg: Config, pastExpiry: bool) returns (g: Gate)
    modifies req
    ensures var auth := Authenticate(users, req.accessCookie, cfg, pastExpiry);
            && (g == Next <==> auth.Authenticated? && auth.user.role == Admin)
            && (auth.Rejected? ==> g == Deny(401, auth.message) && req.user == old(req.user))
            && (auth.Authenticated? ==> req.user == Some(auth.user))
            && (auth.Authenticated? && auth.user.role != Admin ==> g == Deny(403, "Access denied. Admins only."))
  {
    g := VerifyToken(users, req, cfg, pastExpiry);
    if g == Next {
      g := VerifyAdmin(req.user);
    }
  }

  /** A freshly issued access cookie authenticates its user as long as the
      token has not expired, whatever cookie the client held before. */
  lemma {:induction false} IssuedAccessCookieAuthenticates(users: seq<User>, i: nat, cfg: Config, before: Option<Token>)
    requires ValidUsers(users) && i < |users|
    ensures var cookie := CookieAfter(before, IssueSession(cfg, users[i].id, users[i].role), "accessToken");
            Authenticate(users, cookie, cfg, false) == Authenticated(users[i])
  {
    IssuedSessionAuthenticates(cfg, users[i].id, users[i].role, before, None);
    IdLocates(users, i);
  }

  /** A refresh token is never accepted as an access token when the two
      secrets differ. */
  lemma RefreshTokenNeverAuthenticates(users: seq<User>, cfg: Config, id: UserId, role: Role, pastExpiry: bool)
    requires cfg.accessSecret != cfg.refreshSecret
    ensures Authenticate(users, Some(SessionCookies(cfg, id, role).1.value), cfg, pastExpiry)
              == Rejected("Access token is not valid.")
  {
  }

  /** The admin check uses the role stored now, not the role in the token: a
      token issued while the user was an admin is refused once the stored
      role is back to "user". */
  lemma StoredRoleDecides(users: seq<User>, cfg: Config, id: UserId)
    requires forall j :: 0 <= j < |users| && users[j].id == id ==> users[j].role == Regular
    ensures var cookie := Some(SessionCookies(cfg, id, Admin).0.value);
            var auth := Authenticate(users, cookie, cfg, false);
            auth.Authenticated? ==> VerifyAdmin(Some(auth.user)) == Deny(403, "Access denied. Admins only.")
  {
  }

  /** A session whose access token has expired: the guard refuses it with
      the expiry message, the still-valid refresh token gets a new pair of
      cookies, and the new access cookie authenticates the user with the
      role stored now, however stale the role in the old tokens was. */
  lemma {:induction false} ExpiredSessionRefreshes(users: seq<User>, i: nat, cfg: Config, staleRole: Role)
    requires ValidUsers(users) && i < |users|
    ensures var issued := SessionCookies(cfg, users[i].id, staleRole);
            Authenticate(users, Some(issued.0.value), cfg, true) == Rejected("Access token expired.")
    ensures var issued := SessionCookies(cfg, users[i].id, staleRole);
            var refreshed := RefreshAccessToken(users, Some(issued.1.value), cfg, false);
            var access := CookieAfter(Some(issued.0.value), refreshed.cookies, "accessToken");
            && refreshed.response.status == 200
            && Authenticate(users, access, cfg, false) == Authenticated(users[i])
            && access.value.payload.role == users[i].role
            && GetUserById(users, users[i].id).status == 200
  {
    var issued := SessionCookies(cfg, users[i].id, staleRole);
    IdLocates(users, i);
    var refreshed := RefreshAccessToken(users, Some(issued.1.value), cfg, false);
    assert refreshed.cookies == IssueSession(cfg, users[i].id, users[i].role);
    IssuedAccessCookieAuthenticates(users, i, cfg, Some(issued.0.value));
    IssuedSessionAuthenticates(cfg, users[i].id, users[i].role, Some(issued.0.value), None);
  }
}

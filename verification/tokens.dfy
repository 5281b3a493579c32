/** Session token issuance (utils/generateTokenAndSetKookie.js) and the
    token verifier it pairs with.

    JSON Web Tokens are modelled by what was signed: the payload, the secret
    and the `expiresIn` setting. Any other cookie value a client presents is
    `Malformed`. Whether a correctly signed token's `exp` claim lies in the
    past is a fact about the clock, passed to the verifier as `pastExpiry`. */
module Tokens {
  import opened Base
  import opened UserModel

  /** The environment settings the issuer reads, passed explicitly. `None`
      is an unset variable. */
  datatype Config = Config(
    accessSecret: string,          // JWT_ACCESS_SECRET
    refreshSecret: string,         // JWT_REFRESH_SECRET
    accessTokenExpiry: Option<string>,   // ACCESS_TOKEN_EXPIRY
    refreshTokenExpiry: Option<string>,  // REFRESH_TOKEN_EXPIRY
    nodeEnv: Option<string>)       // NODE_ENV

  datatype Payload = Payload(id: UserId, role: Role)

  datatype Token =
    | Signed(payload: Payload, secret: string, expiresIn: string)
    | Malformed(text: string)

  /** What `jwt.verify` yields: the payload, or the `TokenExpiredError`, or
      any other error. */
  datatype Verdict = Decoded(payload: Payload) | Expired | Invalid

  /** `jwt.verify(token, secret)`: the signature is checked before the
      expiry, so only a token signed with `secret` can be reported expired. */
  function Verify(token: Token, secret: string, pastExpiry: bool): (v: Verdict)
    ensures v.Decoded? <==> token.Signed? && token.secret == secret && !pastExpiry
    ensures v.Decoded? ==> v.payload == token.payload
    ensures v.Expired? <==> token.Signed? && token.secret == secret && pastExpiry
  {
    match token
    case Malformed(_) => Invalid
    case Signed(payload, key, _) =>
      if key != secret then Invalid else if pastExpiry then Expired else Decoded(payload)
  }

  /** A cookie value counts as present when it is set and not the empty
      string (both fail the handlers' `!token` test otherwise). */
  predicate Present(cookie: Option<Token>) {
    cookie.Some? && cookie.value != Malformed("")
  }

  /** `setting || fallback`: an unset or empty variable falls back. */
  function OrDefault(setting: Option<string>, fallback: string): (r: string)
    ensures setting.Some? && setting.value != "" ==> r == setting.value
    ensures setting.None? || setting.value == "" ==> r == fallback
  {
    if setting.Some? && setting.value != "" then setting.value else fallback
  }

  const AccessMaxAge: nat := 1000 * 60 * 15
  const RefreshMaxAge: nat := 1000 * 60 * 60 * 24 * 7

  datatype CookieOptions = CookieOptions(httpOnly: bool, secure: bool, sameSite: string, maxAge: nat)

  datatype Cookie = Cookie(name: string, value: Token, options: CookieOptions)

  /** What a handler does to the response's cookies: `res.cookie(...)` or
      `res.clearCookie(name)`. */
  datatype CookieOp = SetCookie(cookie: Cookie) | ClearCookie(name: string)

  /** The options both session cookies share, differing only in `maxAge`. */
  function SessionCookieOptions(cfg: Config, maxAge: nat): CookieOptions {
    CookieOptions(true, cfg.nodeEnv != Some("development"), "Strict", maxAge)
  }

  /** The access and refresh cookies `generateTokensAndSetKookie` builds for
      a user: both tokens carry the payload {id, role}; the access token is
      signed with the access secret and the refresh token with the refresh
      secret; both cookies are http-only, same-site strict, secure unless
      NODE_ENV is "development", and their lifetimes are fixed at 15 minutes
      and 7 days whatever the configured token expiry. */
  function SessionCookies(cfg: Config, id: UserId, role: Role): (r: (Cookie, Cookie))
    ensures r.0.name == "accessToken" && r.1.name == "refreshToken"
    ensures Verify(r.0.value, cfg.accessSecret, false) == Decoded(Payload(id, role))
    ensures Verify(r.1.value, cfg.refreshSecret, false) == Decoded(Payload(id, role))
    ensures cfg.accessSecret != cfg.refreshSecret ==>
              forall e :: Verify(r.1.value, cfg.accessSecret, e) == Invalid
    ensures r.0.value.expiresIn == OrDefault(cfg.accessTokenExpiry, "15m")
    ensures r.1.value.expiresIn == OrDefault(cfg.refreshTokenExpiry, "7d")
    ensures r.0.options.httpOnly && r.1.options.httpOnly
    ensures r.0.options.sameSite == "Strict" && r.1.options.sameSite == "Strict"
    ensures r.0.options.secure <==> cfg.nodeEnv != Some("development")
    ensures r.1.options.secure <==> cfg.nodeEnv != Some("development")
    ensures r.0.options.maxAge == 900000 && r.1.options.maxAge == 604800000
  {
    var payload := Payload(id, role);
    var access := Signed(payload, cfg.accessSecret, OrDefault(cfg.accessTokenExpiry, "15m"));
    var refresh := Signed(payload, cfg.refreshSecret, OrDefault(cfg.refreshTokenExpiry, "7d"));
    (Cookie("accessToken", access, SessionCookieOptions(cfg, AccessMaxAge)),
     Cookie("refreshToken", refresh, SessionCookieOptions(cfg, RefreshMaxAge)))
  }

  /** The two `res.cookie` calls, in source order. */
  function IssueSession(cfg: Config, id: UserId, role: Role): seq<CookieOp> {
    var cookies := SessionCookies(cfg, id, role);
    [SetCookie(cookies.0), SetCookie(cookies.1)]
  }

  /** The cookies' options do not depend on the configured token expiries:
      the lifetimes can disagree with ACCESS_TOKEN_EXPIRY and
      REFRESH_TOKEN_EXPIRY. */
  lemma CookieOptionsIgnoreExpirySettings(cfg: Config, other: Config, id: UserId, role: Role)
    requires cfg.nodeEnv == other.nodeEnv
    ensures SessionCookies(cfg, id, role).0.options == SessionCookies(other, id, role).0.options
    ensures SessionCookies(cfg, id, role).1.options == SessionCookies(other, id, role).1.options
  {
  }

  /** The value of the cookie named `name` after a sequence of operations on
      a response whose incoming cookie was `before`: the last operation on
      that name wins. */
  function CookieAfter(before: Option<Token>, ops: seq<CookieOp>, name: string): Option<Token>
    decreases |ops|
  {
    if ops == [] then before
    else
      var last := ops[|ops| - 1];
      match last
      case SetCookie(c) => if c.name == name then Some(c.value) else CookieAfter(before, ops[..|ops| - 1], name)
      case ClearCookie(n) => if n == name then None else CookieAfter(before, ops[..|ops| - 1], name)
  }

  /** After issuing a session, the client holds a present access cookie that
      the access secret decodes to the user's payload, and a present refresh
      cookie that the refresh secret decodes to the same payload. */
  lemma IssuedSessionAuthenticates(cfg: Config, id: UserId, role: Role,
                                   accessBefore: Option<Token>, refreshBefore: Option<Token>)
    ensures var access := CookieAfter(accessBefore, IssueSession(cfg, id, role), "accessToken");
            Present(access) && Verify(access.value, cfg.accessSecret, false) == Decoded(Payload(id, role))
    ensures var refresh := CookieAfter(refreshBefore, IssueSession(cfg, id, role), "refreshToken");
            Present(refresh) && Verify(refresh.value, cfg.refreshSecret, false) == Decoded(Payload(id, role))
  {
    var ops := IssueSession(cfg, id, role);
    assert ops[..1] == [ops[0]];
    assert ops[..|ops| - 1] == [ops[0]];
    assert [ops[0]][..0] == [];
  }
}

/** `authGuard`: the fail-closed gate in front of protected routes. It
    needs both auth cookies, verifies only the access token and only as
    the Access kind, and either attaches the identity and the cookie pair
    to the request and calls `next`, or responds 401. */
module AuthGuardMiddleware {
  import opened Wrappers
  import opened JsValues
  import opened Http
  import opened TokenService

  datatype GuardOutcome = Admit(userId: Option<Json>, tokens: CookiePair) | Deny

  /** The decision `authGuard` (and `injectUserIdIfAuthed`) take on a
      request's cookies. Every exception collapses into `Deny`. */
  function GuardDecision(env: Env, revoked: set<string>, cookies: map<string, string>, nowMs: nat)
    : (o: GuardOutcome)
    ensures o.Admit? <==>
      && Present(cookies, AccessCookie) && Present(cookies, RefreshCookie)
      && VerifyToken(env, revoked, Known(Access), cookies[AccessCookie], nowMs).Ok?
    ensures o.Admit? ==>
      && o.tokens == CookiePair(Some(cookies[AccessCookie]), Some(cookies[RefreshCookie]))
      && o.userId == Prop(VerifyToken(env, revoked, Known(Access), cookies[AccessCookie], nowMs).value, "id")
  {
    match ExtractTokens(cookies, 2)
    case None => Deny
    case Some(tokens) =>
      match VerifyToken(env, revoked, Known(Access), tokens.accessToken.value, nowMs)
      case Err(_) => Deny
      case Ok(decoded) => Admit(Prop(decoded, "id"), tokens)
  }

  /** The refresh cookie is checked for presence only: the invalidated
      set never changes the guard's decision, so a revoked refresh token
      does not block it. */
  lemma GuardIgnoresRevocation(env: Env, r1: set<string>, r2: set<string>, cookies: map<string, string>, nowMs: nat)
    ensures GuardDecision(env, r1, cookies, nowMs) == GuardDecision(env, r2, cookies, nowMs)
  {
    if Present(cookies, AccessCookie) {
      VerifyIgnoresRevocationUnlessRefresh(env, r1, r2, Known(Access), cookies[AccessCookie], nowMs);
    }
  }

  /** Right after login, a request carrying the issued cookies passes the
      guard with the user's id, as long as the access token is unexpired. */
  lemma {:induction false} LoginThenGuardAdmits(
    env: Env, revoked: set<string>, jar: CookieJar, userId: string, loginMs: nat, nowMs: nat)
    requires Sound(env.codec)
    requires SignAuthTokens(env, IdPayload(Some(JStr(userId)), loginMs), loginMs).Ok?
    requires env.config.access.expiresIn > 0 ==> Seconds(nowMs) < Seconds(loginMs) + env.config.access.expiresIn
    ensures var tokens := SignAuthTokens(env, IdPayload(Some(JStr(userId)), loginMs), loginMs).value;
      var cookies := SentCookies(ApplyCookies(jar, SetCookieOps(tokens, env.config.cookieOptions)));
      GuardDecision(env, revoked, cookies, nowMs) == Admit(Some(JStr(userId)), tokens)
  {
    var payload := WithTimestamp(IdPayload(Some(JStr(userId)), loginMs), loginMs);
    var tokens := SignAuthTokens(env, IdPayload(Some(JStr(userId)), loginMs), loginMs).value;
    var opts := env.config.cookieOptions;
    var cookies := SentCookies(ApplyCookies(jar, SetCookieOps(tokens, opts)));
    SetCookiesDelivered(jar, tokens, opts);
    var accessJws := SignJws(env.config, Known(Access), JObj(payload), loginMs).value;
    var refreshJws := SignJws(env.config, Known(Refresh), JObj(payload), loginMs).value;
    assert env.codec.decode(env.codec.encode(accessJws)) == Some(accessJws) && env.codec.encode(accessJws) != "";
    assert env.codec.encode(refreshJws) != "";
    assert cookies[AccessCookie] == env.codec.encode(accessJws);
    VerifySignedToken(env, revoked, Access, payload, loginMs, nowMs);
    assert "id" in payload && payload["id"] == JStr(userId);
  }

  /** A request whose access token has expired is turned away even when
      its refresh token is valid: the guard never refreshes by itself. */
  lemma {:induction false} ExpiredAccessDenied(
    env: Env, revoked: set<string>, cookies: map<string, string>, claims: map<string, Json>, signMs: nat, nowMs: nat)
    requires Sound(env.codec)
    requires SignToken(env, Known(Access), JObj(claims), signMs).Ok?
    requires AccessCookie in cookies && cookies[AccessCookie] == SignToken(env, Known(Access), JObj(claims), signMs).value
    requires env.config.access.expiresIn > 0
    requires Seconds(nowMs) >= Seconds(signMs) + env.config.access.expiresIn
    ensures GuardDecision(env, revoked, cookies, nowMs) == Deny
  {
    VerifyExpiredToken(env, revoked, Access, claims, signMs, nowMs);
  }

  /** `authGuard(req, res, next)`: returns whether `next` was called. On
      `Deny` it responds 401 and leaves `req.userId` and `req.tokens` as
      they were; on `Admit` it sets them and sends nothing. */
  method AuthGuard(env: Env, reg: RevocationSet, req: Request, res: Response, nowMs: nat) returns (next: bool)
    modifies req, res
    ensures var o := GuardDecision(env, reg.tokens, req.cookies, nowMs);
      && next == o.Admit?
      && (o.Admit? ==> req.userId == o.userId && req.tokens == Some(o.tokens))
      && (o.Admit? ==> res.status == old(res.status) && res.body == old(res.body))
      && (o.Deny? ==> res.status == Some(401) && res.body == Message("Not Authorized"))
      && (o.Deny? ==> req.userId == old(req.userId) && req.tokens == old(req.tokens))
    ensures res.cookieOps == old(res.cookieOps)
  {
    var o := GuardDecision(env, reg.tokens, req.cookies, nowMs);
    match o
    case Deny =>
      res.Send(401, Message("Not Authorized"));
      next := false;
    case Admit(userId, tokens) =>
      req.userId := userId;
      req.tokens := Some(tokens);
      next := true;
  }
}

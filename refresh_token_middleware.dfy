/** `refreshTokenMiddleware`: runs after `authGuard` and silently reissues
    the access token for `req.userId`, passing the refresh token through
    unchanged and rewriting both cookies. */
module RefreshMiddleware {
  import opened Wrappers
  import opened JsValues
  import opened Http
  import opened TokenService

  /** The new cookie pair, or None when the middleware answers 500: reading
      `req.tokens.refreshToken` throws when `req.tokens` is unset, and
      signing throws when the Access secret is unset. */
  function Reissue(env: Env, userId: Option<Json>, tokens: Option<CookiePair>, nowMs: nat)
    : (r: Option<CookiePair>)
    ensures r.Some? <==> tokens.Some? && env.config.access.secret != ""
    ensures r.Some? ==> r.value.refreshToken == tokens.value.refreshToken
    ensures r.Some? ==> r.value == SetAccessToken(env, userId, tokens.value.refreshToken, nowMs).value
  {
    if tokens.None? then None
    else
      match SetAccessToken(env, userId, tokens.value.refreshToken, nowMs)
      case Err(_) => None
      case Ok(pair) => Some(pair)
  }

  /** The reissued access token verifies as an Access token at the moment
      it is minted, and its `id` claim is the incoming `req.userId`. */
  lemma {:induction false} ReissuedTokenCarriesUserId(
    env: Env, revoked: set<string>, userId: Option<Json>, tokens: Option<CookiePair>, nowMs: nat)
    requires Sound(env.codec)
    requires Reissue(env, userId, tokens, nowMs).Some?
    ensures var access := Reissue(env, userId, tokens, nowMs).value.accessToken;
      && access.Some?
      && var v := VerifyToken(env, revoked, Known(Access), access.value, nowMs);
      && v.Ok?
      && Prop(v.value, "id") == userId
  {
    var payload := IdPayload(userId, nowMs);
    assert SetAccessToken(env, userId, tokens.value.refreshToken, nowMs).Ok?;
    VerifySignedToken(env, revoked, Access, payload, nowMs, nowMs);
    assert userId.Some? ==> "id" in payload && payload["id"] == userId.value;
  }

  /** `refreshTokenMiddleware(req, res, next)`: returns whether `next` was
      called. On success both cookies are rewritten with the new pair and
      `req.userId` keeps its value; otherwise it responds 500. */
  method RefreshTokenMiddleware(env: Env, req: Request, res: Response, nowMs: nat) returns (next: bool)
    modifies req, res
    ensures var r := Reissue(env, old(req.userId), old(req.tokens), nowMs);
      && next == r.Some?
      && (r.Some? ==> res.cookieOps == old(res.cookieOps) + SetCookieOps(r.value, env.config.cookieOptions))
      && (r.Some? ==> res.status == old(res.status) && res.body == old(res.body))
      && (r.None? ==> res.cookieOps == old(res.cookieOps))
      && (r.None? ==> res.status == Some(500) && res.body == Message("Failed to generate new access token"))
    ensures req.userId == old(req.userId) && req.tokens == old(req.tokens)
  {
    var userId := req.userId;
    var r := Reissue(env, userId, req.tokens, nowMs);
    if r.Some? {
      SetAuthTokensToCookies(res, r.value, env.config.cookieOptions);
      req.userId := userId;
      next := true;
    } else {
      res.Send(500, Message("Failed to generate new access token"));
      next := false;
    }
  }
}

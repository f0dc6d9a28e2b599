/** `authRouter` (mounted at "/auth") and its handlers: login, logout,
    the refresh endpoint, the access check, email verification and
    password reset. Each handler is a total function from the request
    and the state it reads to an `Outcome`. */
module AuthController {
  import opened Wrappers
  import opened JsValues
  import opened UriCoding
  import opened Http
  import opened Routing
  import opened TokenService
  import opened Users
  import opened EmailService
  import opened Outcomes
  import opened AuthGuardMiddleware

  // ---------------------------------------------------------------- routes

  /** The routes in the order the source registers them. */
  const AuthRoutesAsWritten: seq<Route> := [
    Route(POST, [Lit("login")], [], "loginController"),
    Route(POST, [Lit("register")], [], "registerController"),
    Route(POST, [Lit("logout")], [AuthGuardStage], "logoutController"),
    Route(POST, [Lit("refreshToken")], [], "refreshAccessTokenController"),
    Route(GET, [Lit("check-auth")], [], "checkAccessTokenController"),
    Route(POST, [Lit("verify-email"), Param("token")], [], "verificateEmail"),
    Route(POST, [Lit("verify-email"), Lit("send-email")], [], "sendVerificationEmailController"),
    Route(POST, [Lit("password-reset"), Lit("send-email")], [], "sendPasswordResetEmailController"),
    Route(POST, [Lit("password-reset"), Param("token")], [], "resetPasswordController")]

  /** The routes with the literal "/verify-email/send-email" registered
      before the "/verify-email/:token" pattern, as the password-reset
      pair already is. */
  const AuthRoutes: seq<Route> := [
    Route(POST, [Lit("login")], [], "loginController"),
    Route(POST, [Lit("register")], [], "registerController"),
    Route(POST, [Lit("logout")], [AuthGuardStage], "logoutController"),
    Route(POST, [Lit("refreshToken")], [], "refreshAccessTokenController"),
    Route(GET, [Lit("check-auth")], [], "checkAccessTokenController"),
    Route(POST, [Lit("verify-email"), Lit("send-email")], [], "sendVerificationEmailController"),
    Route(POST, [Lit("verify-email"), Param("token")], [], "verificateEmail"),
    Route(POST, [Lit("password-reset"), Lit("send-email")], [], "sendPasswordResetEmailController"),
    Route(POST, [Lit("password-reset"), Param("token")], [], "resetPasswordController")]

  /** As registered, "/verify-email/send-email" is taken by the
      "/verify-email/:token" route, with "send-email" as the token. */
  lemma SendVerificationShadowedAsWritten(path: string)
    requires path == "/verify-email/send-email"
    ensures FirstMatch(AuthRoutesAsWritten, POST, path) == Some(5)
    ensures AuthRoutesAsWritten[5].handler == "verificateEmail"
    ensures MatchPattern(AuthRoutesAsWritten[5].pattern, Segments(path)) == Some(map["token" := "send-email"])
  {
    SendEmailSegments(path);
    ShadowedBySegments(path);
  }

  lemma ShadowedBySegments(path: string)
    requires Segments(path) == ["verify-email", "send-email"]
    ensures FirstMatch(AuthRoutesAsWritten, POST, path) == Some(5)
    ensures MatchPattern(AuthRoutesAsWritten[5].pattern, Segments(path)) == Some(map["token" := "send-email"])
  {
    NoEarlierTwoSegmentRoute(AuthRoutesAsWritten, path);
    LitParamMatch(AuthRoutesAsWritten[5].pattern, "verify-email", "token", Segments(path));
    FirstMatchAt(AuthRoutesAsWritten, POST, path, 5);
  }

  /** The path "/verify-email/send-email" has two segments. */
  lemma SendEmailSegments(path: string)
    requires path == "/verify-email/send-email"
    ensures Segments(path) == ["verify-email", "send-email"]
  {
    var rest := path[1..];
    assert rest == "verify-email/send-email";
    SplitSendEmail(rest);
  }

  lemma SplitSendEmail(rest: string)
    requires rest == "verify-email/send-email"
    ensures Split(rest) == ["verify-email", "send-email"]
  {
    SendEmailParts(rest);
    SplitTwo(rest, rest[..12], rest[13..]);
  }

  lemma SendEmailParts(rest: string)
    requires rest == "verify-email/send-email"
    ensures |rest| == 23 && rest == rest[..12] + "/" + rest[13..]
    ensures rest[..12] == "verify-email" && rest[13..] == "send-email"
    ensures forall i :: 0 <= i < 12 ==> rest[i] != '/'
    ensures forall i :: 13 <= i < 23 ==> rest[i] != '/'
  {
  }

  /** No route before the fifth takes a POST with two segments. */
  lemma NoEarlierTwoSegmentRoute(routes: seq<Route>, path: string)
    requires routes == AuthRoutes || routes == AuthRoutesAsWritten
    requires |Segments(path)| == 2
    ensures forall j :: 0 <= j < 5 ==> !(routes[j].verb == POST && MatchPattern(routes[j].pattern, Segments(path)).Some?)
  {
    forall j | 0 <= j < 5
      ensures !(routes[j].verb == POST && MatchPattern(routes[j].pattern, Segments(path)).Some?)
    {
      if j < 4 {
        assert |routes[j].pattern| == 1;
      }
    }
  }

  /** As registered, no request ever reaches the send-verification route:
      every path it matches is matched by the route before it. */
  lemma SendVerificationUnreachableAsWritten(verb: Verb, path: string)
    ensures FirstMatch(AuthRoutesAsWritten, verb, path) != Some(6)
  {
    var segs := Segments(path);
    LitPairMatch(AuthRoutesAsWritten[6].pattern, "verify-email", "send-email", segs);
    LitParamMatch(AuthRoutesAsWritten[5].pattern, "verify-email", "token", segs);
  }

  /** With the literal route first, the send endpoint is reached. */
  lemma SendVerificationReachable(path: string)
    requires path == "/verify-email/send-email"
    ensures FirstMatch(AuthRoutes, POST, path) == Some(5)
    ensures AuthRoutes[5].handler == "sendVerificationEmailController"
  {
    SendEmailSegments(path);
    ReachedBySegments(path);
  }

  lemma ReachedBySegments(path: string)
    requires Segments(path) == ["verify-email", "send-email"]
    ensures FirstMatch(AuthRoutes, POST, path) == Some(5)
  {
    NoEarlierTwoSegmentRoute(AuthRoutes, path);
    LitPairMatch(AuthRoutes[5].pattern, "verify-email", "send-email", Segments(path));
    FirstMatchAt(AuthRoutes, POST, path, 5);
  }

  /** Encoding is one-to-one and "send-email" decodes to itself, so only
      the token "send-email" encodes to it. The literal is passed in as
      `se` so that the proof reasons about it by its characters. */
  lemma EncodeSendEmail(token: string, se: string)
    requires se == "send-email" && token != se
    ensures Encode(token) != se
  {
    DecodeEncode(token);
    SendEmailDecodes(se);
  }

  lemma SendEmailDecodes(se: string)
    requires se == "send-email"
    ensures Decode(se) == Some(se)
  {
    DecodePlain(se);
  }

  /** Only the empty string encodes to the empty string. */
  lemma EncodeNonEmpty(token: string)
    requires token != ""
    ensures Encode(token) != ""
  {
    DecodeEncode(token);
    DecodeEncode("");
  }

  /** The path of a link made of the prefix `p` == "/" + a + "/" and an
      encoded token has the two segments `a` and the encoded token. */
  lemma LinkPathSegments(p: string, a: string, token: string)
    requires p == "/" + a + "/"
    requires forall i :: 0 <= i < |a| ==> a[i] != '/'
    ensures Segments(p + Encode(token)) == [a, Encode(token)]
  {
    EncodeNoSlash(token);
    PrefixedSegments(p, a, Encode(token));
  }

  lemma VerifyPrefixParts()
    ensures "/verify-email/" == "/" + "verify-email" + "/"
    ensures forall i :: 0 <= i < |"verify-email"| ==> "verify-email"[i] != '/'
  {
  }

  lemma ResetPrefixParts()
    ensures "/password-reset/" == "/" + "password-reset" + "/"
    ensures forall i :: 0 <= i < |"password-reset"| ==> "password-reset"[i] != '/'
  {
  }

  /** A two-segment path under "verify-email" whose second segment is
      neither empty nor "send-email" is taken by `verificateEmail`. */
  lemma VerifyRouteTakes(path: string, e: string)
    requires Segments(path) == ["verify-email", e] && e != "" && e != "send-email"
    ensures FirstMatch(AuthRoutes, POST, path) == Some(6)
    ensures MatchPattern(AuthRoutes[6].pattern, Segments(path)) == Some(map["token" := e])
  {
    var segs := Segments(path);
    NoEarlierTwoSegmentRoute(AuthRoutes, path);
    assert MatchPattern(AuthRoutes[5].pattern, segs).None?;
    assert MatchPattern(AuthRoutes[6].pattern, segs) == Some(map["token" := e]);
    FirstMatchAt(AuthRoutes, POST, path, 6);
  }

  /** A two-segment path under "password-reset" whose second segment is
      neither empty nor "send-email" is taken by `resetPasswordController`. */
  lemma ResetRouteTakes(path: string, e: string)
    requires Segments(path) == ["password-reset", e] && e != "" && e != "send-email"
    ensures FirstMatch(AuthRoutes, POST, path) == Some(8)
    ensures MatchPattern(AuthRoutes[8].pattern, Segments(path)) == Some(map["token" := e])
  {
    var segs := Segments(path);
    NoEarlierTwoSegmentRoute(AuthRoutes, path);
    assert MatchPattern(AuthRoutes[5].pattern, segs).None?;
    assert MatchPattern(AuthRoutes[6].pattern, segs).None?;
    assert MatchPattern(AuthRoutes[7].pattern, segs).None?;
    assert MatchPattern(AuthRoutes[8].pattern, segs) == Some(map["token" := e]);
    FirstMatchAt(AuthRoutes, POST, path, 8);
  }

  /** A verification link reaches `verificateEmail` with the token, decoded,
      as its `token` parameter (for any token the router can capture). */
  lemma {:induction false} VerifyLinkReachesHandler(token: string)
    requires token != "" && token != "send-email"
    ensures var path := "/verify-email/" + Encode(token);
      && FirstMatch(AuthRoutes, POST, path) == Some(6)
      && AuthRoutes[6].handler == "verificateEmail"
      && var raw := MatchPattern(AuthRoutes[6].pattern, Segments(path));
      && raw.Some? && DecodeParams(raw.value) == Some(map["token" := token])
  {
    VerifyPrefixParts();
    LinkPathSegments("/verify-email/", "verify-email", token);
    EncodeSendEmail(token, "send-email");
    EncodeNonEmpty(token);
    VerifyRouteTakes("/verify-email/" + Encode(token), Encode(token));
    TokenParamDecodes(token);
  }

  /** The captured parameter decodes to the token itself. */
  lemma TokenParamDecodes(token: string)
    ensures DecodeParams(map["token" := Encode(token)]) == Some(map["token" := token])
  {
    DecodeEncode(token);
    var raw := map["token" := Encode(token)];
    assert raw["token"] == Encode(token);
    var r := DecodeParams(raw);
    assert r.value.Keys == {"token"};
    assert Decode(raw["token"]) == Some(r.value["token"]);
    assert r.value == map["token" := token];
  }

  /** A reset link reaches `resetPasswordController` with the token, decoded. */
  lemma {:induction false} ResetLinkReachesHandler(token: string)
    requires token != "" && token != "send-email"
    ensures var path := "/password-reset/" + Encode(token);
      && FirstMatch(AuthRoutes, POST, path) == Some(8)
      && AuthRoutes[8].handler == "resetPasswordController"
      && var raw := MatchPattern(AuthRoutes[8].pattern, Segments(path));
      && raw.Some? && DecodeParams(raw.value) == Some(map["token" := token])
  {
    ResetPrefixParts();
    LinkPathSegments("/password-reset/", "password-reset", token);
    EncodeSendEmail(token, "send-email");
    EncodeNonEmpty(token);
    ResetRouteTakes("/password-reset/" + Encode(token), Encode(token));
    TokenParamDecodes(token);
  }

  // ----------------------------------------------------------------- login

  /** `loginController`: 404 for an unknown email, then 400 when the
      stored hash or the given password is not a string, then 403 when
      they do not compare, then 400 when signing throws; only the 200 path
      writes the auth cookies. */
  function Login(env: Env, users: seq<User>, b: Bcrypt, body: map<string, Json>, nowMs: nat): (o: Outcome)
    ensures o.saved.None? && o.revoke.None? && o.mail.None?
    ensures o.cookieOps != [] <==> o.status == 200
    ensures FindByEmail(users, Get(body, "email")).None? ==> o == Reply(404, Message("User not found"))
    ensures FindByEmail(users, Get(body, "email")).Some? ==>
      var u := FindByEmail(users, Get(body, "email")).value;
      var pw := AsString(Get(body, "password"));
      && ((u.passwordHash.None? || pw.None?) ==> o == Reply(400, Message("Email and password are required")))
      && ((u.passwordHash.Some? && pw.Some? && !b.compare(pw.value, u.passwordHash.value)) ==>
            o == Reply(403, Message("Email or password is invalid")))
    ensures (FindByEmail(users, Get(body, "email")).Some? &&
             var u := FindByEmail(users, Get(body, "email")).value;
             var pw := AsString(Get(body, "password"));
             u.passwordHash.Some? && pw.Some? && b.compare(pw.value, u.passwordHash.value)) ==>
      (o.status == 200 <==> ConfigOf(env.config, Access).secret != "" && ConfigOf(env.config, Refresh).secret != "")
    ensures o.status == 200 ==>
      var u := FindByEmail(users, Get(body, "email")).value;
      var tokens := SignAuthTokens(env, IdPayload(Some(JStr(u.id)), nowMs), nowMs);
      && u.passwordHash.Some? && AsString(Get(body, "password")).Some?
      && b.compare(AsString(Get(body, "password")).value, u.passwordHash.value)
      && tokens.Ok? && o.cookieOps == SetCookieOps(tokens.value, env.config.cookieOptions)
      && o.body == Data(PublicUser(u))
  {
    match FindByEmail(users, Get(body, "email"))
    case None => Reply(404, Message("User not found"))
    case Some(u) =>
      var pw := AsString(Get(body, "password"));
      if u.passwordHash.None? || pw.None? then Reply(400, Message("Email and password are required"))
      else if !b.compare(pw.value, u.passwordHash.value) then Reply(403, Message("Email or password is invalid"))
      else
        match SignAuthTokens(env, IdPayload(Some(JStr(u.id)), nowMs), nowMs)
        case Err(_) => Reply(400, Message("Invalid data"))
        case Ok(tokens) =>
          Outcome(200, Data(PublicUser(u)), None, SetCookieOps(tokens, env.config.cookieOptions), None, None)
  }

  /** A successful login leaves the browser with cookies that pass
      `authGuard` as that user, until the access token expires. */
  lemma {:induction false} LoginThenGuard(
    env: Env, revoked: set<string>, jar: CookieJar, users: seq<User>, b: Bcrypt,
    body: map<string, Json>, loginMs: nat, nowMs: nat)
    requires Sound(env.codec)
    requires Login(env, users, b, body, loginMs).status == 200
    requires env.config.access.expiresIn > 0 ==> Seconds(nowMs) < Seconds(loginMs) + env.config.access.expiresIn
    ensures var u := FindByEmail(users, Get(body, "email")).value;
      var cookies := SentCookies(ApplyCookies(jar, Login(env, users, b, body, loginMs).cookieOps));
      GuardDecision(env, revoked, cookies, nowMs).Admit?
      && GuardDecision(env, revoked, cookies, nowMs).userId == Some(JStr(u.id))
  {
    var u := FindByEmail(users, Get(body, "email")).value;
    LoginThenGuardAdmits(env, revoked, jar, u.id, loginMs, nowMs);
  }

  // ---------------------------------------------------------------- logout

  /** `logoutController`, behind `authGuard`: clears both cookies, revokes
      the refresh token the guard attached, answers 200. */
  function Logout(env: Env, tokens: CookiePair): (o: Outcome)
    ensures o.status == 200 && o.body == OkBody && o.saved.None? && o.mail.None?
    ensures o.cookieOps == ClearCookieOps(env.config.cookieOptions)
    ensures o.revoke == tokens.refreshToken
  {
    Outcome(200, OkBody, None, ClearCookieOps(env.config.cookieOptions), tokens.refreshToken, None)
  }

  /** POST /logout: `authGuard`, then `logoutController`. A request the
      guard turns away changes nothing but the 401 response; otherwise both
      cookies are cleared and the request's refresh cookie is revoked. */
  method LogoutRoute(
    env: Env, store: UserStore, reg: RevocationSet, outbox: Outbox, req: Request, res: Response, nowMs: nat)
    modifies store, reg, outbox, req, res
    ensures var g := old(GuardDecision(env, reg.tokens, req.cookies, nowMs));
      && (g.Deny? ==> res.status == Some(401) && res.body == Message("Not Authorized"))
      && (g.Deny? ==> reg.tokens == old(reg.tokens) && res.cookieOps == old(res.cookieOps))
      && (g.Admit? ==>
            && res.status == Some(200) && res.body == OkBody
            && reg.tokens == old(reg.tokens) + {req.cookies[RefreshCookie]}
            && res.cookieOps == old(res.cookieOps) + ClearCookieOps(env.config.cookieOptions))
    ensures store.users == old(store.users) && outbox.sent == old(outbox.sent)
  {
    var next := AuthGuard(env, reg, req, res, nowMs);
    if next {
      Commit(Logout(env, req.tokens.value), store, reg, outbox, res);
    }
  }

  // --------------------------------------------------------------- refresh

  /** `refreshAccessTokenController`: needs only the refresh cookie (401
      without it), then 401 when the token does not verify as Refresh —
      a revoked token included — then 400 when the decoded `id` finds no
      user or signing throws; on 200 both cookies are written, the refresh
      one with the very token the request sent. */
  function RefreshAccess(env: Env, revoked: set<string>, users: seq<User>, cookies: map<string, string>, nowMs: nat)
    : (o: Outcome)
    ensures o.saved.None? && o.revoke.None? && o.mail.None?
    ensures !Present(cookies, RefreshCookie) ==> o == Reply(401, Message("Not Authorized"))
    ensures (Present(cookies, RefreshCookie) &&
             VerifyToken(env, revoked, Known(Refresh), cookies[RefreshCookie], nowMs).Err?) ==>
               o == Reply(401, Message("Could not verify Token"))
    ensures o.status == 200 ==>
      var decoded := VerifyToken(env, revoked, Known(Refresh), cookies[RefreshCookie], nowMs);
      var u := FindById(users, Prop(decoded.value, "id"));
      && Present(cookies, RefreshCookie) && decoded.Ok? && u.Some?
      && var tokens := SetAccessToken(env, Some(JStr(u.value.id)), Some(cookies[RefreshCookie]), nowMs);
      && tokens.Ok?
      && tokens.value.refreshToken == Some(cookies[RefreshCookie])
      && o.cookieOps == SetCookieOps(tokens.value, env.config.cookieOptions)
      && o.body == Data(PublicUser(u.value))
    ensures (Present(cookies, RefreshCookie) &&
             VerifyToken(env, revoked, Known(Refresh), cookies[RefreshCookie], nowMs).Ok? &&
             FindById(users, Prop(VerifyToken(env, revoked, Known(Refresh), cookies[RefreshCookie], nowMs).value,
                                  "id")).Some? &&
             ConfigOf(env.config, Access).secret != "") ==>
               o.status == 200
    ensures (Present(cookies, RefreshCookie) &&
             VerifyToken(env, revoked, Known(Refresh), cookies[RefreshCookie], nowMs).Ok? &&
             FindById(users, Prop(VerifyToken(env, revoked, Known(Refresh), cookies[RefreshCookie], nowMs).value,
                                  "id")).None?) ==>
               o == Reply(400, Message("Invalid data"))
    ensures o.status != 200 ==> o.cookieOps == []
  {
    match ExtractTokens(cookies, 1)
    case None => Reply(401, Message("Not Authorized"))
    case Some(input) =>
      var refresh := input.refreshToken.value;
      match VerifyToken(env, revoked, Known(Refresh), refresh, nowMs)
      case Err(_) => Reply(401, Message("Could not verify Token"))
      case Ok(decoded) =>
        match FindById(users, Prop(decoded, "id"))
        case None => Reply(400, Message("Invalid data"))
        case Some(u) =>
          match SetAccessToken(env, Some(JStr(u.id)), Some(refresh), nowMs)
          case Err(_) => Reply(400, Message("Invalid data"))
          case Ok(tokens) =>
            Outcome(200, Data(PublicUser(u)), None, SetCookieOps(tokens, env.config.cookieOptions), None, None)
  }

  /** The refresh endpoint does not read the access cookie at all. */
  lemma RefreshIgnoresAccessCookie(
    env: Env, revoked: set<string>, users: seq<User>, cookies: map<string, string>, nowMs: nat)
    ensures RefreshAccess(env, revoked, users, cookies, nowMs) ==
            RefreshAccess(env, revoked, users, cookies - {AccessCookie}, nowMs)
  {
    DistinctCookieNames();
    assert Present(cookies, RefreshCookie) <==> Present(cookies - {AccessCookie}, RefreshCookie);
    if Present(cookies, RefreshCookie) {
      assert (cookies - {AccessCookie})[RefreshCookie] == cookies[RefreshCookie];
    }
  }

  /** After logout revokes a refresh token, the refresh endpoint refuses
      that token. */
  lemma RefreshAfterLogoutRefused(
    env: Env, revoked: set<string>, users: seq<User>, cookies: map<string, string>, tokens: CookiePair, nowMs: nat)
    requires Present(cookies, RefreshCookie) && tokens.refreshToken == Some(cookies[RefreshCookie])
    ensures var after := revoked + {Logout(env, tokens).revoke.value};
      RefreshAccess(env, after, users, cookies, nowMs) == Reply(401, Message("Could not verify Token"))
  {
  }

  /** After a login, a request carrying only the refresh cookie the login
      wrote gets 200 while that token is unexpired and not revoked: a new
      access token for the same user is written and the refresh cookie
      stays what the login wrote. */
  lemma {:induction false} LoginThenRefresh(
    env: Env, revoked: set<string>, jar: CookieJar, users: seq<User>, b: Bcrypt,
    body: map<string, Json>, loginMs: nat, nowMs: nat)
    requires Sound(env.codec)
    requires Login(env, users, b, body, loginMs).status == 200
    requires var u := FindByEmail(users, Get(body, "email")).value;
      SignAuthTokens(env, IdPayload(Some(JStr(u.id)), loginMs), loginMs).value.refreshToken.value !in revoked
    requires env.config.refresh.expiresIn > 0 ==> Seconds(nowMs) < Seconds(loginMs) + env.config.refresh.expiresIn
    ensures var u := FindByEmail(users, Get(body, "email")).value;
      var jar1 := ApplyCookies(jar, Login(env, users, b, body, loginMs).cookieOps);
      && RefreshCookie in SentCookies(jar1)
      && var refresh := SentCookies(jar1)[RefreshCookie];
      && var o := RefreshAccess(env, revoked, users, map[RefreshCookie := refresh], nowMs);
      && var tokens := SetAccessToken(env, Some(JStr(u.id)), Some(refresh), nowMs);
      && o.status == 200 && tokens.Ok?
      && o.cookieOps == SetCookieOps(tokens.value, env.config.cookieOptions)
      && var sent := SentCookies(ApplyCookies(jar1, o.cookieOps));
      && RefreshCookie in sent && AccessCookie in sent
      && sent[RefreshCookie] == refresh
      && sent[AccessCookie] == tokens.value.accessToken.value
  {
    var u := FindByEmail(users, Get(body, "email")).value;
    var opts := env.config.cookieOptions;
    var pair := SignAuthTokens(env, IdPayload(Some(JStr(u.id)), loginMs), loginMs).value;
    var jar1 := ApplyCookies(jar, Login(env, users, b, body, loginMs).cookieOps);
    SetCookiesDelivered(jar, pair, opts);
    var refresh := SentCookies(jar1)[RefreshCookie];
    assert refresh == pair.refreshToken.value;
    assert Login(env, users, b, body, loginMs).cookieOps == SetCookieOps(pair, opts);
    RefreshWithIssuedToken(env, revoked, users, u, loginMs, nowMs);
    var tokens := SetAccessToken(env, Some(JStr(u.id)), Some(refresh), nowMs);
    SetCookiesDelivered(jar1, tokens.value, opts);
  }

  /** The refresh token signed for a stored user gets 200 from the refresh
      endpoint while it is unexpired and not revoked. */
  lemma {:induction false} RefreshWithIssuedToken(
    env: Env, revoked: set<string>, users: seq<User>, u: User, loginMs: nat, nowMs: nat)
    requires Sound(env.codec) && u in users
    requires SignAuthTokens(env, IdPayload(Some(JStr(u.id)), loginMs), loginMs).Ok?
    requires SignAuthTokens(env, IdPayload(Some(JStr(u.id)), loginMs), loginMs).value.refreshToken.value !in revoked
    requires env.config.refresh.expiresIn > 0 ==> Seconds(nowMs) < Seconds(loginMs) + env.config.refresh.expiresIn
    ensures var refresh := SignAuthTokens(env, IdPayload(Some(JStr(u.id)), loginMs), loginMs).value.refreshToken.value;
      var o := RefreshAccess(env, revoked, users, map[RefreshCookie := refresh], nowMs);
      o.status == 200 && o.cookieOps == SetCookieOps(
        SetAccessToken(env, Some(JStr(u.id)), Some(refresh), nowMs).value, env.config.cookieOptions)
  {
    var payload := WithTimestamp(IdPayload(Some(JStr(u.id)), loginMs), loginMs);
    var refresh := SignAuthTokens(env, IdPayload(Some(JStr(u.id)), loginMs), loginMs).value.refreshToken.value;
    var refreshJws := SignJws(env.config, Known(Refresh), JObj(payload), loginMs).value;
    assert refresh == env.codec.encode(refreshJws);
    assert env.codec.encode(refreshJws) != "";
    var cookies := map[RefreshCookie := refresh];
    assert Present(cookies, RefreshCookie) && cookies[RefreshCookie] == refresh;
    VerifySignedToken(env, revoked, Refresh, payload, loginMs, nowMs);
    assert "id" in payload && payload["id"] == JStr(u.id);
    var decoded := VerifyToken(env, revoked, Known(Refresh), refresh, nowMs);
    assert Prop(decoded.value, "id") == Some(JStr(u.id));
    var found := FindById(users, Some(JStr(u.id)));
    assert found.Some? && found.value.id == u.id;
  }

  /** POST /refreshToken: the endpoint's outcome, performed. */
  method RefreshAccessTokenController(
    env: Env, store: UserStore, reg: RevocationSet, outbox: Outbox, req: Request, res: Response, nowMs: nat)
    modifies store, reg, outbox, res
    ensures var o := old(RefreshAccess(env, reg.tokens, store.users, req.cookies, nowMs));
      && res.status == Some(o.status) && res.body == o.body
      && res.cookieOps == old(res.cookieOps) + o.cookieOps
    ensures store.users == old(store.users) && reg.tokens == old(reg.tokens) && outbox.sent == old(outbox.sent)
  {
    var o := RefreshAccess(env, reg.tokens, store.users, req.cookies, nowMs);
    Commit(o, store, reg, outbox, res);
  }

  // ---------------------------------------------------------- access check

  /** `checkAccessTokenController`: `true` with 200 for a pair whose access
      token verifies, 401 for everything else. A verified payload is an
      object or an array, both truthy, so the `!jwtData` branch never
      runs. */
  function CheckAccess(env: Env, revoked: set<string>, cookies: map<string, string>, nowMs: nat): (o: Outcome)
    ensures o.saved.None? && o.cookieOps == [] && o.revoke.None? && o.mail.None?
    ensures o.status == 200 || o == Reply(401, Message("Not Authorized"))
    ensures o.status == 200 <==> GuardDecision(env, revoked, cookies, nowMs).Admit?
    ensures o.status == 200 ==> o.body == Data(JBool(true))
  {
    match ExtractTokens(cookies, 2)
    case None => Reply(401, Message("Not Authorized"))
    case Some(tokens) =>
      match VerifyToken(env, revoked, Known(Access), tokens.accessToken.value, nowMs)
      case Err(_) => Reply(401, Message("Not Authorized"))
      case Ok(_) => Reply(200, Data(JBool(true)))
  }

  // ---------------------------------------------------- email verification

  /** `sendVerificationEmailController`: 400 without an email, 404 for an
      unknown one, 500 when signing throws, else 200 with the mail (none
      for an already verified user). */
  function SendVerificationEmail(env: Env, users: seq<User>, body: map<string, Json>, nowMs: nat): (o: Outcome)
    ensures o.saved.None? && o.cookieOps == [] && o.revoke.None?
    ensures !Truthy(Get(body, "email")) ==> o == Reply(400, Message("Email is required"))
    ensures Truthy(Get(body, "email")) && FindByEmail(users, Get(body, "email")).None? ==>
      o == Reply(404, Message("User not found"))
    ensures o.status == 200 ==>
      var u := FindByEmail(users, Get(body, "email"));
      u.Some? && VerificationMail(env, u.value, nowMs) == Ok(o.mail) && o.body == OkBody
    ensures (Truthy(Get(body, "email")) && FindByEmail(users, Get(body, "email")).Some? &&
             VerificationMail(env, FindByEmail(users, Get(body, "email")).value, nowMs).Err?) ==>
      o == Reply(500, Message("Error"))
    ensures o.mail.Some? ==> o.status == 200
    ensures (Truthy(Get(body, "email")) && FindByEmail(users, Get(body, "email")).Some? &&
             VerificationMail(env, FindByEmail(users, Get(body, "email")).value, nowMs).Ok?) ==>
      && o.status == 200 && o.body == OkBody
      && o.mail == VerificationMail(env, FindByEmail(users, Get(body, "email")).value, nowMs).value
  {
    var email := Get(body, "email");
    if !Truthy(email) then Reply(400, Message("Email is required"))
    else
      match FindByEmail(users, email)
      case None => Reply(404, Message("User not found"))
      case Some(u) =>
        match VerificationMail(env, u, nowMs)
        case Err(_) => Reply(500, Message("Error"))
        case Ok(m) => Outcome(200, OkBody, None, [], None, m)
  }

  /** The non-empty `token` route parameter, when there is one. */
  function TokenParam(params: map<string, string>): (r: Option<string>)
    ensures r.Some? <==> "token" in params && params["token"] != ""
    ensures r.Some? ==> r.value == params["token"]
  {
    if "token" in params && params["token"] != "" then Some(params["token"]) else None
  }

  /** `verificateEmail`: 400 without a token, 403 when it does not verify
      as Verification, 404 when its `_id` finds no user; otherwise the user
      is saved with `emailVerified` set and the browser is redirected to
      the front end. */
  function VerifyEmail(
    env: Env, revoked: set<string>, users: seq<User>, params: map<string, string>,
    frontendUrl: Option<string>, nowMs: nat): (o: Outcome)
    ensures o.cookieOps == [] && o.revoke.None? && o.mail.None?
    ensures TokenParam(params).None? ==> o == Reply(400, Message("Token is required"))
    ensures (TokenParam(params).Some? &&
             VerifyToken(env, revoked, Known(Verification), TokenParam(params).value, nowMs).Err?) ==>
               o == Reply(403, Message("Invalid token"))
    ensures (TokenParam(params).Some? &&
             VerifyToken(env, revoked, Known(Verification), TokenParam(params).value, nowMs).Ok? &&
             FindById(users, Prop(VerifyToken(env, revoked, Known(Verification), TokenParam(params).value, nowMs).value,
                                  "_id")).None?) ==>
               o == Reply(404, Message("User not found"))
    ensures (TokenParam(params).Some? &&
             VerifyToken(env, revoked, Known(Verification), TokenParam(params).value, nowMs).Ok? &&
             FindById(users, Prop(VerifyToken(env, revoked, Known(Verification), TokenParam(params).value, nowMs).value,
                                  "_id")).Some?) ==>
               o.status == 302
    ensures o.saved.Some? <==> o.status == 302
    ensures o.saved.Some? ==>
      var data := VerifyToken(env, revoked, Known(Verification), TokenParam(params).value, nowMs);
      var u := FindById(users, Prop(data.value, "_id"));
      && data.Ok? && u.Some?
      && o.saved == Some(u.value.(emailVerified := true))
      && o.body == Redirect(Show(frontendUrl) + "/verify-email")
  {
    match TokenParam(params)
    case None => Reply(400, Message("Token is required"))
    case Some(token) =>
      match VerifyToken(env, revoked, Known(Verification), token, nowMs)
      case Err(_) => Reply(403, Message("Invalid token"))
      case Ok(data) =>
        match FindById(users, Prop(data, "_id"))
        case None => Reply(404, Message("User not found"))
        case Some(u) =>
          Outcome(302, Redirect(Show(frontendUrl) + "/verify-email"), Some(u.(emailVerified := true)), [], None, None)
  }

  /** Replaying a verification link, at any later time and whatever was
      revoked meanwhile, leaves the store as the first use left it; while
      the token still verifies, the replay gets the same response, and at
      the same instant it does in every case. */
  lemma {:induction false} VerifyEmailIdempotent(
    env: Env, revoked: set<string>, users: seq<User>, params: map<string, string>,
    frontendUrl: Option<string>, nowMs: nat, revoked2: set<string>, nowMs2: nat)
    ensures var first := VerifyEmail(env, revoked, users, params, frontendUrl, nowMs);
      var users1 := Stored(users, first.saved);
      var second := VerifyEmail(env, revoked2, users1, params, frontendUrl, nowMs2);
      && (first.saved.Some? ==> Stored(users1, second.saved) == users1)
      && (first.saved.Some? && VerifyToken(env, revoked2, Known(Verification), TokenParam(params).value, nowMs2).Ok? ==>
            second == first)
      && (nowMs2 == nowMs ==> second == first)
  {
    var first := VerifyEmail(env, revoked, users, params, frontendUrl, nowMs);
    var users1 := Stored(users, first.saved);
    if TokenParam(params).Some? {
      var token := TokenParam(params).value;
      VerifyIgnoresRevocationUnlessRefresh(env, revoked, revoked2, Known(Verification), token, nowMs);
      var d1 := VerifyToken(env, revoked, Known(Verification), token, nowMs);
      var d2 := VerifyToken(env, revoked2, Known(Verification), token, nowMs2);
      if first.saved.Some? {
        var u1 := first.saved.value;
        FindAfterReplace(users, u1, Prop(d1.value, "_id"));
        ReplaceIdempotent(users, u1);
        if d2.Ok? {
          assert d2.value == d1.value;
          assert FindById(users1, Prop(d2.value, "_id")) == Some(u1);
        }
      }
    }
  }

  /** POST /verify-email/:token: the outcome, performed. */
  method VerificateEmail(
    env: Env, store: UserStore, reg: RevocationSet, outbox: Outbox, req: Request, res: Response,
    frontendUrl: Option<string>, nowMs: nat)
    modifies store, reg, outbox, res
    ensures var o := old(VerifyEmail(env, reg.tokens, store.users, req.params, frontendUrl, nowMs));
      && res.status == Some(o.status) && res.body == o.body
      && store.users == Stored(old(store.users), o.saved)
    ensures reg.tokens == old(reg.tokens) && outbox.sent == old(outbox.sent) && res.cookieOps == old(res.cookieOps)
  {
    var o := VerifyEmail(env, reg.tokens, store.users, req.params, frontendUrl, nowMs);
    Commit(o, store, reg, outbox, res);
  }

  // -------------------------------------------------------- password reset

  /** `sendPasswordResetEmailController`: 400 without an email; otherwise
      200 whether or not the user exists. The mail is sent without being
      awaited, so its failure never reaches the response. */
  function SendPasswordReset(env: Env, users: seq<User>, body: map<string, Json>, nowMs: nat): (o: Outcome)
    ensures o.saved.None? && o.cookieOps == [] && o.revoke.None?
    ensures !Truthy(Get(body, "email")) ==> o == Reply(400, Message("Email is required"))
    ensures Truthy(Get(body, "email")) ==> o.status == 200 && o.body == OkBody
    ensures o.mail.Some? <==>
      Truthy(Get(body, "email")) && PasswordResetMail(env, users, Get(body, "email"), nowMs).Ok?
    ensures o.mail.Some? ==> o.mail.value == PasswordResetMail(env, users, Get(body, "email"), nowMs).value
  {
    var email := Get(body, "email");
    if !Truthy(email) then Reply(400, Message("Email is required"))
    else
      match PasswordResetMail(env, users, email, nowMs)
      case Err(_) => Outcome(200, OkBody, None, [], None, None)
      case Ok(m) => Outcome(200, OkBody, None, [], None, Some(m))
  }

  /** `user.passwordHash != passwordHash` negated: loose equality between
      the stored hash and the token's snapshot, where `undefined` equals
      `undefined` and `null`. */
  predicate SameHash(stored: Option<string>, snapshot: Option<Json>) {
    if stored.None? then snapshot.None? || snapshot == Some(JNull)
    else snapshot == Some(JStr(stored.value))
  }

  /** One snapshot matches at most one stored hash. */
  lemma SameHashUnique(a: Option<string>, c: Option<string>, snapshot: Option<Json>)
    requires SameHash(a, snapshot) && SameHash(c, snapshot)
    ensures a == c
  {
  }

  /** The message of the TypeError `password.trim()` throws on a value
      that is not a string. */
  const PasswordTrimError := "password.trim is not a function"

  /** `resetPasswordController`: 400 without a token, 400 without a
      password, 403 for a password that is not a string, 400 when the
      trimmed password fails `passwordRegex` — all before the token is
      verified — then 403 when it does not verify as PasswordReset, 404
      when its `_id` finds no user, 403 "Token is already used" when the
      stored hash differs from the token's snapshot, 403 when the new
      password is too long; otherwise the new hash is saved. */
  function ResetPassword(
    env: Env, revoked: set<string>, b: Bcrypt, passwordRule: string -> bool, users: seq<User>,
    params: map<string, string>, body: map<string, Json>, salt: nat, nowMs: nat): (o: Outcome)
    ensures o.cookieOps == [] && o.revoke.None? && o.mail.None?
    ensures o.saved.Some? <==> o.status == 200
    ensures TokenParam(params).None? ==> o == Reply(400, Message("Token is required"))
    ensures (TokenParam(params).Some? && !Truthy(Get(body, "password"))) ==>
              o == Reply(400, Message("Password is required"))
    ensures (TokenParam(params).Some? && Truthy(Get(body, "password")) &&
             AsString(Get(body, "password")).Some? &&
             !passwordRule(Trim(AsString(Get(body, "password")).value))) ==>
               o == Reply(400, Message(PasswordRuleMessage))
    ensures (TokenParam(params).Some? && Truthy(Get(body, "password")) && AsString(Get(body, "password")).None?) ==>
              o == Reply(403, Message(PasswordTrimError))
    ensures (TokenParam(params).Some? && Truthy(Get(body, "password")) &&
             AsString(Get(body, "password")).Some? &&
             passwordRule(Trim(AsString(Get(body, "password")).value)) &&
             VerifyToken(env, revoked, Known(PasswordReset), TokenParam(params).value, nowMs).Err?) ==>
               o == Reply(403, Message("Invalid token"))
    ensures (TokenParam(params).Some? && Truthy(Get(body, "password")) &&
             AsString(Get(body, "password")).Some? &&
             passwordRule(Trim(AsString(Get(body, "password")).value)) &&
             VerifyToken(env, revoked, Known(PasswordReset), TokenParam(params).value, nowMs).Ok?) ==>
      var pw := AsString(Get(body, "password")).value;
      var data := VerifyToken(env, revoked, Known(PasswordReset), TokenParam(params).value, nowMs).value;
      var u := FindById(users, Prop(data, "_id"));
      && (u.None? ==> o == Reply(404, Message("User not found")))
      && (u.Some? && !SameHash(u.value.passwordHash, Prop(data, "passwordHash")) ==>
            o == Reply(403, Message("Token is already used")))
      && (u.Some? && SameHash(u.value.passwordHash, Prop(data, "passwordHash")) &&
          CreateHashPassword(b, pw, salt).Err? ==>
            o == Reply(403, Message("Password is too long")))
      && (u.Some? && SameHash(u.value.passwordHash, Prop(data, "passwordHash")) &&
          CreateHashPassword(b, pw, salt).Ok? ==>
            && o.status == 200 && o.body == OkBody
            && o.saved == Some(u.value.(passwordHash := Some(CreateHashPassword(b, pw, salt).value))))
    ensures o.status == 200 ==>
      && TokenParam(params).Some? && AsString(Get(body, "password")).Some?
      && var pw := AsString(Get(body, "password")).value;
      && var data := VerifyToken(env, revoked, Known(PasswordReset), TokenParam(params).value, nowMs);
      && passwordRule(Trim(pw)) && data.Ok?
      && var u := FindById(users, Prop(data.value, "_id"));
      && u.Some?
      && SameHash(u.value.passwordHash, Prop(data.value, "passwordHash"))
      && CreateHashPassword(b, pw, salt).Ok?
      && o.saved == Some(u.value.(passwordHash := Some(CreateHashPassword(b, pw, salt).value)))
      && o.body == OkBody
    ensures o.status == 403 && o.body == Message("Token is already used") ==>
      && TokenParam(params).Some?
      && var data := VerifyToken(env, revoked, Known(PasswordReset), TokenParam(params).value, nowMs);
      && data.Ok?
      && var u := FindById(users, Prop(data.value, "_id"));
      && u.Some? && !SameHash(u.value.passwordHash, Prop(data.value, "passwordHash"))
  {
    match TokenParam(params)
    case None => Reply(400, Message("Token is required"))
    case Some(token) =>
      var password := Get(body, "password");
      if !Truthy(password) then Reply(400, Message("Password is required"))
      else if AsString(password).None? then Reply(403, Message(PasswordTrimError))
      else
        var pw := AsString(password).value;
        if !passwordRule(Trim(pw)) then Reply(400, Message(PasswordRuleMessage))
        else
          match VerifyToken(env, revoked, Known(PasswordReset), token, nowMs)
          case Err(_) => Reply(403, Message("Invalid token"))
          case Ok(data) =>
            match FindById(users, Prop(data, "_id"))
            case None => Reply(404, Message("User not found"))
            case Some(u) =>
              if !SameHash(u.passwordHash, Prop(data, "passwordHash")) then
                Reply(403, Message("Token is already used"))
              else
                match CreateHashPassword(b, pw, salt)
                case Err(e) => Reply(403, Message(e))
                case Ok(h) => Outcome(200, OkBody, Some(u.(passwordHash := Some(h))), [], None, None)
  }

  /** A reset token works once: after a successful reset whose new hash
      differs from the old one, any later request with the same token is
      refused and saves nothing, whatever the password, salt or time. */
  lemma {:induction false} ResetTokenSingleUse(
    env: Env, revoked: set<string>, b: Bcrypt, passwordRule: string -> bool, users: seq<User>,
    params: map<string, string>, body: map<string, Json>, salt: nat, nowMs: nat,
    revoked2: set<string>, body2: map<string, Json>, salt2: nat, nowMs2: nat)
    requires ResetPassword(env, revoked, b, passwordRule, users, params, body, salt, nowMs).status == 200
    requires var first := ResetPassword(env, revoked, b, passwordRule, users, params, body, salt, nowMs);
      var data := VerifyToken(env, revoked, Known(PasswordReset), TokenParam(params).value, nowMs);
      first.saved.value.passwordHash != FindById(users, Prop(data.value, "_id")).value.passwordHash
    ensures var first := ResetPassword(env, revoked, b, passwordRule, users, params, body, salt, nowMs);
      var users1 := Stored(users, first.saved);
      var second := ResetPassword(env, revoked2, b, passwordRule, users1, params, body2, salt2, nowMs2);
      second.status != 200 && second.saved.None?
  {
    var first := ResetPassword(env, revoked, b, passwordRule, users, params, body, salt, nowMs);
    var token := TokenParam(params).value;
    var data := VerifyToken(env, revoked, Known(PasswordReset), token, nowMs).value;
    var id := Prop(data, "_id");
    var u := FindById(users, id).value;
    var u1 := first.saved.value;
    var users1 := Stored(users, first.saved);
    FindAfterReplace(users, u1, id);
    assert FindById(users1, id) == Some(u1);
    VerifyIgnoresRevocationUnlessRefresh(env, revoked, revoked2, Known(PasswordReset), token, nowMs);
    var again := VerifyToken(env, revoked2, Known(PasswordReset), token, nowMs2);
    if again.Ok? {
      assert again.value == data;
      if SameHash(u1.passwordHash, Prop(data, "passwordHash")) {
        SameHashUnique(u1.passwordHash, u.passwordHash, Prop(data, "passwordHash"));
      }
    }
  }

  /** POST /password-reset/:token: the outcome, performed. */
  method ResetPasswordController(
    env: Env, store: UserStore, reg: RevocationSet, outbox: Outbox, req: Request, res: Response,
    b: Bcrypt, passwordRule: string -> bool, salt: nat, nowMs: nat)
    modifies store, reg, outbox, res
    ensures var o := old(ResetPassword(env, reg.tokens, b, passwordRule, store.users, req.params, req.body, salt, nowMs));
      && res.status == Some(o.status) && res.body == o.body
      && store.users == Stored(old(store.users), o.saved)
    ensures reg.tokens == old(reg.tokens) && outbox.sent == old(outbox.sent) && res.cookieOps == old(res.cookieOps)
  {
    var o := ResetPassword(env, reg.tokens, b, passwordRule, store.users, req.params, req.body, salt, nowMs);
    Commit(o, store, reg, outbox, res);
  }
}

/** `userRouter` (mounted at "/user"): the guard chain in front of the
    account routes, password change and the profile-update data. */
module UserController {
  import opened Wrappers
  import opened JsValues
  import opened Http
  import opened Routing
  import opened TokenService
  import opened Users
  import opened EmailService
  import opened Outcomes
  import opened AuthGuardMiddleware
  import opened RefreshMiddleware
  import AuthController

  /** The routes in registration order, with their middleware chains. */
  const UserRoutes: seq<Route> := [
    Route(GET, [Lit("user-info")], [AuthGuardStage, RefreshStage], "getUserInfoController"),
    Route(GET, [Lit("user-info"), Param("userId")], [], "getUserInfoByIdController"),
    Route(GET, [Lit("verify-email")], [AuthGuardStage, RefreshStage], "verifyEmailWithAccountController"),
    Route(PATCH, [Lit("edit-password")], [AuthGuardStage, RefreshStage], "changePasswordController"),
    Route(PATCH, [Lit("edit-profile")], [AuthGuardStage, RefreshStage], "updateProfileController")]

  /** Every account route but the public profile lookup runs `authGuard`
      and then `refreshTokenMiddleware`. */
  lemma UserRoutesGuarded()
    ensures forall i :: 0 <= i < |UserRoutes| && i != 1 ==> UserRoutes[i].stages == [AuthGuardStage, RefreshStage]
    ensures UserRoutes[1].stages == []
  {
  }

  /** Whichever route takes a request, it is guarded unless it is the
      `/user-info/:userId` lookup. */
  lemma UserRouteTakenGuarded(verb: Verb, path: string)
    ensures var m := FirstMatch(UserRoutes, verb, path);
      m.Some? && m.value != 1 ==> UserRoutes[m.value].stages == [AuthGuardStage, RefreshStage]
  {
    UserRoutesGuarded();
  }

  /** Once `authGuard` admits a request, `refreshTokenMiddleware` always
      succeeds on it: the Access secret that verified the token also signs
      the new one. */
  lemma GuardThenReissue(env: Env, revoked: set<string>, cookies: map<string, string>, nowMs: nat)
    requires GuardDecision(env, revoked, cookies, nowMs).Admit?
    ensures var g := GuardDecision(env, revoked, cookies, nowMs);
      Reissue(env, g.userId, Some(g.tokens), nowMs).Some?
  {
    var v := VerifyToken(env, revoked, Known(Access), cookies[AccessCookie], nowMs);
    assert ConfigOf(env.config, Access).secret != "";
  }

  /** `authGuard` then `refreshTokenMiddleware`: returns whether the
      handler runs. A request the guard admits always passes the refresh
      step, which rewrites both cookies; one it turns away gets 401. */
  method GuardChain(env: Env, reg: RevocationSet, req: Request, res: Response, nowMs: nat) returns (proceed: bool)
    modifies req, res
    ensures var g := old(GuardDecision(env, reg.tokens, req.cookies, nowMs));
      && proceed == g.Admit?
      && (g.Deny? ==> res.status == Some(401) && res.body == Message("Not Authorized"))
      && (g.Deny? ==> res.cookieOps == old(res.cookieOps))
      && (g.Deny? ==> req.userId == old(req.userId) && req.tokens == old(req.tokens))
      && (g.Admit? ==>
            && req.userId == g.userId && req.tokens == Some(g.tokens)
            && Reissue(env, g.userId, Some(g.tokens), nowMs).Some?
            && res.cookieOps == old(res.cookieOps) +
                 SetCookieOps(Reissue(env, g.userId, Some(g.tokens), nowMs).value, env.config.cookieOptions)
            && res.status == old(res.status) && res.body == old(res.body))
  {
    ghost var g := GuardDecision(env, reg.tokens, req.cookies, nowMs);
    var next := AuthGuard(env, reg, req, res, nowMs);
    proceed := false;
    if next {
      GuardThenReissue(env, reg.tokens, req.cookies, nowMs);
      proceed := RefreshTokenMiddleware(env, req, res, nowMs);
    }
  }

  const PasswordTrimError := "newPassword.trim is not a function"
  const NoUserError := "Cannot read properties of null (reading 'passwordHash')"
  const NoTokensError := "Cannot read properties of undefined (reading 'refreshToken')"
  /** What bcrypt's `compareSync` throws for a password that is not a string. */
  const CompareTypeError := "data must be a string or Buffer and hash must be strings"

  /** `changePasswordController`:
      400 when either field is falsy or the trimmed new password fails
      `passwordRule`; 500 for a new password that is not a string or a
      user id that finds nobody; 403 when no hash is stored or the current
      password does not compare. When it compares, the new hash is saved,
      both cookies are cleared and the request's refresh token is revoked
      (500 after the save and the clearing when the request has no token
      pair to revoke). */
  function ChangePassword(
    env: Env, b: Bcrypt, passwordRule: string -> bool, users: seq<User>,
    userId: Option<Json>, tokens: Option<CookiePair>, body: map<string, Json>, salt: nat): (o: Outcome)
    ensures o.mail.None?
    ensures (!Truthy(Get(body, "currentPassword")) || !Truthy(Get(body, "newPassword"))) ==>
      o == Reply(400, Message("Current password and New password are required."))
    ensures (AsString(Get(body, "newPassword")).Some? && Truthy(Get(body, "currentPassword")) &&
             Truthy(Get(body, "newPassword")) && !passwordRule(Trim(AsString(Get(body, "newPassword")).value))) ==>
      o == Reply(400, Message(PasswordRuleMessage))
    ensures o.status == 403 ==> o == Reply(403, Message("The password does not match"))
    ensures o.saved.None? ==> o.cookieOps == [] && o.revoke.None?
    ensures o.status == 200 <==> o.saved.Some? && tokens.Some?
    ensures o.status == 200 ==> o.revoke == tokens.value.refreshToken
  {
    var cur := Get(body, "currentPassword");
    var nw := Get(body, "newPassword");
    if !Truthy(cur) || !Truthy(nw) then Reply(400, Message("Current password and New password are required."))
    else if AsString(nw).None? then Reply(500, Message(PasswordTrimError))
    else if !passwordRule(Trim(AsString(nw).value)) then Reply(400, Message(PasswordRuleMessage))
    else
      match FindById(users, userId)
      case None => Reply(500, Message(NoUserError))
      case Some(u) => ChangeStoredPassword(env, b, u, AsString(cur), AsString(nw).value, tokens, salt)
  }

  /** The part of `changePasswordController` after the user is loaded:
      403 when no hash is stored or the current password does not
      compare (500 when it is not a string); otherwise the new hash is
      saved, both cookies are cleared and the refresh token is revoked. */
  function ChangeStoredPassword(
    env: Env, b: Bcrypt, u: User, cur: Option<string>, nw: string, tokens: Option<CookiePair>, salt: nat): (o: Outcome)
    ensures o.mail.None?
    ensures o.saved.Some? <==>
      && u.passwordHash.Some? && u.passwordHash.value != "" && cur.Some?
      && b.compare(cur.value, u.passwordHash.value) && CreateHashPassword(b, nw, salt).Ok?
    ensures o.saved.Some? ==>
      && o.saved == Some(u.(passwordHash := Some(CreateHashPassword(b, nw, salt).value)))
      && o.cookieOps == ClearCookieOps(env.config.cookieOptions)
    ensures o.status == 403 <==>
      u.passwordHash.None? || u.passwordHash.value == "" || (cur.Some? && !b.compare(cur.value, u.passwordHash.value))
    ensures o.status == 403 ==> o == Reply(403, Message("The password does not match"))
    ensures o.saved.None? ==> o.cookieOps == [] && o.revoke.None?
    ensures o.status == 200 <==> o.saved.Some? && tokens.Some?
    ensures o.status == 200 ==> o.revoke == tokens.value.refreshToken
  {
    if u.passwordHash.None? || u.passwordHash.value == "" then Reply(403, Message("The password does not match"))
    else if cur.None? then Reply(500, Message(CompareTypeError))
    else if !b.compare(cur.value, u.passwordHash.value) then Reply(403, Message("The password does not match"))
    else
      match CreateHashPassword(b, nw, salt)
      case Err(e) => Reply(500, Message(e))
      case Ok(h) =>
        var saved := Some(u.(passwordHash := Some(h)));
        var clears := ClearCookieOps(env.config.cookieOptions);
        if tokens.None? then Outcome(500, Message(NoTokensError), saved, clears, None, None)
        else Outcome(200, Message("Password successfully changed."), saved, clears, tokens.value.refreshToken, None)
  }

  /** The new hash is saved exactly when both passwords are given as
      non-empty strings, the new one passes the rule, the user exists with
      a stored hash that the current password compares against, and
      hashing succeeds; the saved record differs from the stored one only
      in its hash, and the save comes with the clearing of both cookies.
      When the current password does not compare, the answer is 403. */
  lemma ChangePasswordSaves(
    env: Env, b: Bcrypt, passwordRule: string -> bool, users: seq<User>,
    userId: Option<Json>, tokens: Option<CookiePair>, body: map<string, Json>, salt: nat)
    ensures var o := ChangePassword(env, b, passwordRule, users, userId, tokens, body, salt);
      && var u := FindById(users, userId);
      && var cur := AsString(Get(body, "currentPassword"));
      && var nw := AsString(Get(body, "newPassword"));
      && (o.saved.Some? <==>
            && cur.Some? && cur.value != "" && nw.Some? && nw.value != ""
            && passwordRule(Trim(nw.value))
            && u.Some? && u.value.passwordHash.Some? && u.value.passwordHash.value != ""
            && b.compare(cur.value, u.value.passwordHash.value)
            && CreateHashPassword(b, nw.value, salt).Ok?)
      && (o.saved.Some? ==>
            && o.saved == Some(u.value.(passwordHash := Some(CreateHashPassword(b, nw.value, salt).value)))
            && o.cookieOps == ClearCookieOps(env.config.cookieOptions))
    ensures var o := ChangePassword(env, b, passwordRule, users, userId, tokens, body, salt);
      && var u := FindById(users, userId);
      && var cur := AsString(Get(body, "currentPassword"));
      && var nw := AsString(Get(body, "newPassword"));
      && var admitted := cur.Some? && cur.value != "" && nw.Some? && nw.value != "" && passwordRule(Trim(nw.value));
      && (admitted && u.Some? && u.value.passwordHash.Some? && !b.compare(cur.value, u.value.passwordHash.value)
          ==> o == Reply(403, Message("The password does not match")))
  {
    var cur, nw := Get(body, "currentPassword"), Get(body, "newPassword");
    var u := FindById(users, userId);
    if Truthy(cur) && Truthy(nw) && AsString(nw).Some? && passwordRule(Trim(AsString(nw).value)) && u.Some? {
      ChangePasswordLoaded(env, b, passwordRule, users, userId, tokens, body, salt);
    }
  }

  /** Once the inputs pass the checks and the user is loaded, the
      controller continues with the stored-hash part. */
  lemma ChangePasswordLoaded(
    env: Env, b: Bcrypt, passwordRule: string -> bool, users: seq<User>,
    userId: Option<Json>, tokens: Option<CookiePair>, body: map<string, Json>, salt: nat)
    requires var cur, nw := Get(body, "currentPassword"), Get(body, "newPassword");
      Truthy(cur) && Truthy(nw) && AsString(nw).Some? && passwordRule(Trim(AsString(nw).value))
    requires FindById(users, userId).Some?
    ensures ChangePassword(env, b, passwordRule, users, userId, tokens, body, salt) ==
      ChangeStoredPassword(env, b, FindById(users, userId).value, AsString(Get(body, "currentPassword")),
        AsString(Get(body, "newPassword")).value, tokens, salt)
  {
  }

  /** After a password change the browser holds neither auth cookie (the
      refresh step's new cookies included), the refresh token of that
      session no longer refreshes, and the stored hash accepts the new
      password. */
  lemma {:induction false} ChangePasswordEndsSession(
    env: Env, b: Bcrypt, passwordRule: string -> bool, users: seq<User>, userId: Option<Json>,
    tokens: CookiePair, body: map<string, Json>, salt: nat,
    revoked: set<string>, jar: CookieJar, reissued: CookiePair, cookies: map<string, string>, nowMs: nat)
    requires Present(cookies, RefreshCookie) && tokens.refreshToken == Some(cookies[RefreshCookie])
    requires ChangePassword(env, b, passwordRule, users, userId, Some(tokens), body, salt).status == 200
    ensures var o := ChangePassword(env, b, passwordRule, users, userId, Some(tokens), body, salt);
      var jar1 := ApplyCookies(jar, SetCookieOps(reissued, env.config.cookieOptions) + o.cookieOps);
      && AccessCookie !in jar1 && RefreshCookie !in jar1
      && o.revoke == Some(cookies[RefreshCookie])
      && AuthController.RefreshAccess(env, revoked + {o.revoke.value}, Stored(users, o.saved), cookies, nowMs)
           == Reply(401, Message("Could not verify Token"))
    ensures BcryptSound(b) ==>
      var o := ChangePassword(env, b, passwordRule, users, userId, Some(tokens), body, salt);
      b.compare(AsString(Get(body, "newPassword")).value, o.saved.value.passwordHash.value)
  {
    ChangePasswordSaves(env, b, passwordRule, users, userId, Some(tokens), body, salt);
    ClearRemovesSetCookies(jar, reissued, env.config.cookieOptions);
  }

  /** PATCH /edit-password: the guard chain, then `changePasswordController`
      on the identity and token pair the guard attached. */
  method ChangePasswordRoute(
    env: Env, store: UserStore, reg: RevocationSet, outbox: Outbox, req: Request, res: Response,
    b: Bcrypt, passwordRule: string -> bool, salt: nat, nowMs: nat)
    modifies store, reg, outbox, req, res
    ensures var g := old(GuardDecision(env, reg.tokens, req.cookies, nowMs));
      && (g.Deny? ==> res.status == Some(401) && res.body == Message("Not Authorized"))
      && (g.Deny? ==> res.cookieOps == old(res.cookieOps))
      && (g.Deny? ==> store.users == old(store.users) && reg.tokens == old(reg.tokens))
      && (g.Admit? ==>
            && var o := ChangePassword(env, b, passwordRule, old(store.users), g.userId, Some(g.tokens), req.body, salt);
            && res.status == Some(o.status) && res.body == o.body
            && store.users == Stored(old(store.users), o.saved)
            && reg.tokens == old(reg.tokens) + (if o.revoke.Some? then {o.revoke.value} else {})
            && res.cookieOps == old(res.cookieOps) +
                 SetCookieOps(Reissue(env, g.userId, Some(g.tokens), nowMs).value, env.config.cookieOptions) +
                 o.cookieOps)
    ensures outbox.sent == old(outbox.sent)
  {
    var proceed := GuardChain(env, reg, req, res, nowMs);
    if proceed {
      var o := ChangePassword(env, b, passwordRule, store.users, req.userId, req.tokens, req.body, salt);
      Commit(o, store, reg, outbox, res);
    }
  }

  const EmailTrimError := "updateData.email?.trim is not a function"
  const NoUserEmailError := "Cannot read properties of null (reading 'email')"

  /** The `updateData` that `updateProfileController` hands to
      `updateUser`: a copy of the body with `emailVerified` forced to false
      when an email is given that differs, after trimming, from the
      current one; the body unchanged otherwise. The error is the message
      of the TypeError the comparison throws (answered with 500). */
  function UpdateProfileData(users: seq<User>, userId: Option<Json>, body: map<string, Json>)
    : (r: Result<map<string, Json>, string>)
    ensures !Truthy(Get(body, "email")) ==> r == Ok(body)
    ensures r.Ok? ==> forall k :: k in body && k != "emailVerified" ==> k in r.value && r.value[k] == body[k]
    ensures r.Ok? ==> r.value.Keys == body.Keys || r.value.Keys == body.Keys + {"emailVerified"}
    ensures r.Err? ==> Truthy(Get(body, "email"))
    ensures Truthy(Get(body, "email")) && AsString(Get(body, "email")).None? ==> r == Err(EmailTrimError)
    ensures Truthy(Get(body, "email")) && FindById(users, userId).None? ==> r.Err?
    ensures (Truthy(Get(body, "email")) && AsString(Get(body, "email")).Some? && FindById(users, userId).Some?) ==>
      && var email, current := AsString(Get(body, "email")).value, FindById(users, userId).value;
      && r.Ok?
      && (Trim(email) != Trim(current.email) ==> r.value == body["emailVerified" := JBool(false)])
      && (Trim(email) == Trim(current.email) ==> r.value == body)
  {
    var email := Get(body, "email");
    if !Truthy(email) then Ok(body)
    else if AsString(email).None? then Err(EmailTrimError)
    else
      match FindById(users, userId)
      case None => Err(NoUserEmailError)
      case Some(u) =>
        if Trim(AsString(email).value) != Trim(u.email) then Ok(body["emailVerified" := JBool(false)])
        else Ok(body)
  }

  /** A changed email cannot come out verified, whatever the body says. */
  lemma ChangedEmailUnverified(users: seq<User>, userId: Option<Json>, body: map<string, Json>, u: User, email: string)
    requires FindById(users, userId) == Some(u)
    requires email != "" && Get(body, "email") == Some(JStr(email)) && Trim(email) != Trim(u.email)
    ensures UpdateProfileData(users, userId, body) == Ok(body["emailVerified" := JBool(false)])
    ensures UpdateProfileData(users, userId, body).value["emailVerified"] == JBool(false)
  {
  }

  /** Surrounding whitespace in the new email does not count as a change. */
  lemma PaddedEmailKeepsVerification(users: seq<User>, userId: Option<Json>, body: map<string, Json>, u: User, pad: string)
    requires FindById(users, userId) == Some(u) && u.email != ""
    requires !IsJsSpace(u.email[0]) && !IsJsSpace(u.email[|u.email| - 1])
    requires forall i :: 0 <= i < |pad| ==> IsJsSpace(pad[i])
    requires Get(body, "email") == Some(JStr(pad + u.email + pad))
    ensures UpdateProfileData(users, userId, body) == Ok(body)
  {
    TrimPadding(pad, u.email);
    TrimFixed(u.email);
  }
}

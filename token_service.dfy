/** The token service: the kind-to-configuration lookup, signing and
    verification of JWTs, the process-wide set of invalidated refresh
    tokens, reading the two auth cookies from a request, and writing and
    clearing them on a response.

    JWT cryptography is abstract: a token string stands for a `Jws`, its
    payload and the secret it was signed with, through a `JwtCodec` pair
    of functions; `Sound` says the codec reads back what it writes. As in
    jsonwebtoken, signing adds the `iat` claim and, when the kind has an
    expiry, the `exp` claim (section 4.1.4 of RFC 7519), in seconds. */
module TokenService {
  import opened Wrappers
  import opened JsValues
  import opened Http

  /** The five members of `ETokenType`. */
  datatype Kind = Access | Refresh | Verification | PasswordReset | QRCode

  /** The `type` argument at run time: an `ETokenType` member or any other value. */
  datatype TokenType = Known(kind: Kind) | Unknown(raw: int)

  /** A kind's configuration: an empty secret is an unset one, and an
      `expiresIn` of 0 seconds is no expiry (both are falsy in JavaScript). */
  datatype JwtConfig = JwtConfig(secret: string, expiresIn: nat)

  /** The constants of the (unseen) `authConfig` module. */
  datatype AuthConfig = AuthConfig(
    access: JwtConfig, refresh: JwtConfig, verification: JwtConfig,
    passwordReset: JwtConfig, qrCode: JwtConfig, cookieOptions: CookieOptions)

  /** What a JWT stands for: its payload and the secret it was signed with. */
  datatype Jws = Jws(payload: Json, key: string)

  datatype JwtCodec = JwtCodec(encode: Jws -> string, decode: string -> Option<Jws>)

  /** The codec reads back what it writes, and a token string is never empty. */
  ghost predicate Sound(codec: JwtCodec) {
    forall t :: codec.decode(codec.encode(t)) == Some(t) && codec.encode(t) != ""
  }

  datatype Env = Env(config: AuthConfig, codec: JwtCodec)

  /** The thrown errors: `WrongTokenType` and `SecretNotSet` from the
      service, `InvalidPayload` and the verification failures from
      jsonwebtoken, `Invalidated` for a revoked refresh token and
      `UnexpectedStructure` for a token whose payload comes back from
      jsonwebtoken as a string. */
  datatype TokenError =
    | WrongTokenType | SecretNotSet | InvalidPayload
    | Invalidated | Malformed | InvalidSignature | InvalidClaim | Expired
    | UnexpectedStructure

  const AccessCookie := "accessToken"
  const RefreshCookie := "refreshToken"

  function ConfigOf(cfg: AuthConfig, k: Kind): JwtConfig {
    match k
    case Access => cfg.access
    case Refresh => cfg.refresh
    case Verification => cfg.verification
    case PasswordReset => cfg.passwordReset
    case QRCode => cfg.qrCode
  }

  /** `getConfig`: each kind has its own configuration; any other value throws. */
  function GetConfig(cfg: AuthConfig, t: TokenType): (r: Result<JwtConfig, TokenError>)
    ensures r.Ok? <==> t.Known?
    ensures r.Ok? ==> r.value == ConfigOf(cfg, t.kind)
    ensures r.Err? ==> r.error == WrongTokenType
  {
    match t
    case Known(k) => Ok(ConfigOf(cfg, k))
    case Unknown(_) => Err(WrongTokenType)
  }

  /** A millisecond clock reading in whole seconds, rounded down. */
  function Seconds(ms: nat): (r: nat)
    ensures r * 1000 <= ms < r * 1000 + 1000
  {
    ms / 1000
  }

  /** The claims jsonwebtoken signs for an object payload. */
  function StampedClaims(claims: map<string, Json>, c: JwtConfig, nowMs: nat): (r: map<string, Json>)
    ensures r.Keys == claims.Keys + {"iat"} + (if c.expiresIn > 0 then {"exp"} else {})
    ensures forall k :: k in claims && k != "iat" && k != "exp" ==> r[k] == claims[k]
    ensures r["iat"] == JNum(Seconds(nowMs))
    ensures c.expiresIn > 0 ==> r["exp"] == JNum(Seconds(nowMs) + c.expiresIn)
    ensures c.expiresIn == 0 && "exp" in claims ==> r["exp"] == claims["exp"]
  {
    var stamped := claims["iat" := JNum(Seconds(nowMs))];
    if c.expiresIn > 0 then stamped["exp" := JNum(Seconds(nowMs) + c.expiresIn)] else stamped
  }

  /** The signed value `signToken` produces, before encoding. jsonwebtoken
      signs a plain object with stamped claims, and a string, number or
      boolean as it is when no `expiresIn` is given; `null` and arrays are
      refused. */
  function SignJws(cfg: AuthConfig, t: TokenType, payload: Json, nowMs: nat): (r: Result<Jws, TokenError>)
    ensures r.Ok? ==> t.Known? && ConfigOf(cfg, t.kind).secret != ""
    ensures r.Ok? ==> r.value.key == ConfigOf(cfg, t.kind).secret
    ensures t.Known? && ConfigOf(cfg, t.kind).secret == "" ==> r == Err(SecretNotSet)
    ensures r.Ok? && payload.JObj? ==>
              r.value.payload == JObj(StampedClaims(payload.fields, ConfigOf(cfg, t.kind), nowMs))
    ensures r.Ok? && !payload.JObj? ==>
              r.value.payload == payload && ConfigOf(cfg, t.kind).expiresIn == 0
    ensures t.Known? && ConfigOf(cfg, t.kind).secret != "" && (payload.JNull? || payload.JArr?) ==>
              r == Err(InvalidPayload)
  {
    match GetConfig(cfg, t)
    case Err(e) => Err(e)
    case Ok(c) =>
      if c.secret == "" then Err(SecretNotSet)
      else
        match payload
        case JObj(claims) => Ok(Jws(JObj(StampedClaims(claims, c, nowMs)), c.secret))
        case JNull => Err(InvalidPayload)
        case JArr(_) => Err(InvalidPayload)
        case _ => if c.expiresIn > 0 then Err(InvalidPayload) else Ok(Jws(payload, c.secret))
  }

  /** `signToken(type, payload)`: fails when the kind's secret is unset;
      attaches an expiry exactly when the kind's `expiresIn` is set. */
  function SignToken(env: Env, t: TokenType, payload: Json, nowMs: nat): (r: Result<string, TokenError>)
    ensures r.Ok? <==> SignJws(env.config, t, payload, nowMs).Ok?
    ensures r.Ok? ==> r.value == env.codec.encode(SignJws(env.config, t, payload, nowMs).value)
    ensures r.Err? ==> r.error == SignJws(env.config, t, payload, nowMs).error
  {
    match SignJws(env.config, t, payload, nowMs)
    case Err(e) => Err(e)
    case Ok(j) => Ok(env.codec.encode(j))
  }

  /** What `jwt.verify` then `verifyToken` accept of a decoded token. A
      token whose payload is not a JSON object or array is decoded by
      jsonwebtoken as a string (or throws on `null`), so only objects and
      arrays get through. */
  function CheckJws(j: Jws, secret: string, nowMs: nat): (r: Result<Json, TokenError>)
    ensures r.Ok? ==> j.key == secret && (j.payload.JObj? || j.payload.JArr?) && r.value == j.payload
    ensures j.key == secret && !j.payload.JObj? && !j.payload.JArr? ==> r == Err(UnexpectedStructure)
  {
    if j.key != secret then Err(InvalidSignature)
    else
      match j.payload
      case JArr(_) => Ok(j.payload)
      case JObj(f) =>
        if "exp" !in f then Ok(j.payload)
        else if !f["exp"].JNum? then Err(InvalidClaim)
        else if Seconds(nowMs) >= f["exp"].n then Err(Expired)
        else Ok(j.payload)
      case _ => Err(UnexpectedStructure)
  }

  /** `verifyToken(type, token)`. A Refresh token in the invalidated set
      fails first, before the configuration or the signature is looked
      at; the set is consulted for no other kind. */
  function VerifyToken(env: Env, revoked: set<string>, t: TokenType, token: string, nowMs: nat)
    : (r: Result<Json, TokenError>)
    ensures t == Known(Refresh) && token in revoked ==> r == Err(Invalidated)
    ensures r.Ok? ==> t.Known? && ConfigOf(env.config, t.kind).secret != ""
    ensures t.Unknown? ==> r.Err?
  {
    if t == Known(Refresh) && token in revoked then Err(Invalidated)
    else
      match GetConfig(env.config, t)
      case Err(e) => Err(e)
      case Ok(c) =>
        if c.secret == "" then Err(SecretNotSet)
        else
          match env.codec.decode(token)
          case None => Err(Malformed)
          case Some(j) => CheckJws(j, c.secret, nowMs)
  }

  /** For every kind but Refresh the invalidated set makes no difference. */
  lemma VerifyIgnoresRevocationUnlessRefresh(
    env: Env, r1: set<string>, r2: set<string>, t: TokenType, token: string, nowMs: nat)
    requires t != Known(Refresh)
    ensures VerifyToken(env, r1, t, token, nowMs) == VerifyToken(env, r2, t, token, nowMs)
  {
  }

  /** A token signed for a kind verifies as that kind, returning its claims
      with `iat` and `exp` added, while it is unexpired and not invalidated. */
  lemma {:induction false} VerifySignedToken(
    env: Env, revoked: set<string>, k: Kind, claims: map<string, Json>, signMs: nat, nowMs: nat)
    requires Sound(env.codec)
    requires SignToken(env, Known(k), JObj(claims), signMs).Ok?
    requires k == Refresh ==> SignToken(env, Known(k), JObj(claims), signMs).value !in revoked
    requires ConfigOf(env.config, k).expiresIn > 0 ==>
               Seconds(nowMs) < Seconds(signMs) + ConfigOf(env.config, k).expiresIn
    requires ConfigOf(env.config, k).expiresIn == 0 ==> "exp" !in claims
    ensures var r := VerifyToken(env, revoked, Known(k), SignToken(env, Known(k), JObj(claims), signMs).value, nowMs);
      && r.Ok? && r.value.JObj?
      && (forall key :: key in claims && key != "iat" && key != "exp" ==>
            key in r.value.fields && r.value.fields[key] == claims[key])
      && r.value.fields["iat"] == JNum(Seconds(signMs))
  {
    var j := SignJws(env.config, Known(k), JObj(claims), signMs).value;
    assert env.codec.decode(env.codec.encode(j)) == Some(j);
  }

  /** Once past its expiry a signed token fails with `Expired`. */
  lemma {:induction false} VerifyExpiredToken(
    env: Env, revoked: set<string>, k: Kind, claims: map<string, Json>, signMs: nat, nowMs: nat)
    requires Sound(env.codec)
    requires SignToken(env, Known(k), JObj(claims), signMs).Ok?
    requires k == Refresh ==> SignToken(env, Known(k), JObj(claims), signMs).value !in revoked
    requires ConfigOf(env.config, k).expiresIn > 0
    requires Seconds(nowMs) >= Seconds(signMs) + ConfigOf(env.config, k).expiresIn
    ensures VerifyToken(env, revoked, Known(k), SignToken(env, Known(k), JObj(claims), signMs).value, nowMs)
      == Err(Expired)
  {
    var j := SignJws(env.config, Known(k), JObj(claims), signMs).value;
    assert env.codec.decode(env.codec.encode(j)) == Some(j);
  }

  /** Kind confusion is rejected exactly when the two kinds' secrets differ:
      verification checks the secret, not a kind recorded in the token. */
  lemma {:induction false} KindConfusionRejected(
    env: Env, revoked: set<string>, signed: Kind, checked: Kind, payload: Json, signMs: nat, nowMs: nat)
    requires Sound(env.codec)
    requires ConfigOf(env.config, signed).secret != ConfigOf(env.config, checked).secret
    requires SignToken(env, Known(signed), payload, signMs).Ok?
    ensures VerifyToken(env, revoked, Known(checked), SignToken(env, Known(signed), payload, signMs).value, nowMs).Err?
  {
    var j := SignJws(env.config, Known(signed), payload, signMs).value;
    assert env.codec.decode(env.codec.encode(j)) == Some(j);
  }

  /** The other half: when two kinds share a secret, a token signed for one
      verifies as the other while it is unexpired and not revoked. */
  lemma {:induction false} KindConfusionAccepted(
    env: Env, revoked: set<string>, signed: Kind, checked: Kind, claims: map<string, Json>, signMs: nat, nowMs: nat)
    requires Sound(env.codec)
    requires ConfigOf(env.config, signed).secret == ConfigOf(env.config, checked).secret
    requires SignToken(env, Known(signed), JObj(claims), signMs).Ok?
    requires checked == Refresh ==> SignToken(env, Known(signed), JObj(claims), signMs).value !in revoked
    requires ConfigOf(env.config, signed).expiresIn > 0 ==>
               Seconds(nowMs) < Seconds(signMs) + ConfigOf(env.config, signed).expiresIn
    requires ConfigOf(env.config, signed).expiresIn == 0 ==> "exp" !in claims
    ensures var token := SignToken(env, Known(signed), JObj(claims), signMs).value;
      VerifyToken(env, revoked, Known(checked), token, nowMs)
        == VerifyToken(env, {}, Known(signed), token, nowMs)
      && VerifyToken(env, revoked, Known(checked), token, nowMs).Ok?
  {
    var j := SignJws(env.config, Known(signed), JObj(claims), signMs).value;
    assert env.codec.decode(env.codec.encode(j)) == Some(j);
    VerifySignedToken(env, {}, signed, claims, signMs, nowMs);
  }

  /** A cookie the code treats as present: set and not the empty string. */
  predicate Present(cookies: map<string, string>, name: string) {
    name in cookies && cookies[name] != ""
  }

  /** `extractTokens(request, code)`: code 1 needs the refresh cookie, code 2
      needs both, other codes need neither; the values come back as they are. */
  function ExtractTokens(cookies: map<string, string>, code: int): (r: Option<CookiePair>)
    ensures code == 1 ==> (r.None? <==> !Present(cookies, RefreshCookie))
    ensures code == 2 ==> (r.None? <==> !Present(cookies, AccessCookie) || !Present(cookies, RefreshCookie))
    ensures code != 1 && code != 2 ==> r.Some?
    ensures r.Some? ==> r.value.accessToken == Get(cookies, AccessCookie)
    ensures r.Some? ==> r.value.refreshToken == Get(cookies, RefreshCookie)
  {
    if (code == 1 && !Present(cookies, RefreshCookie))
       || (code == 2 && (!Present(cookies, AccessCookie) || !Present(cookies, RefreshCookie)))
    then None
    else Some(CookiePair(Get(cookies, AccessCookie), Get(cookies, RefreshCookie)))
  }

  /** The strict level admits a subset of what the relaxed one admits, and
      both return the same pair. */
  lemma ExtractStrictImpliesRelaxed(cookies: map<string, string>)
    ensures ExtractTokens(cookies, 2).Some? ==> ExtractTokens(cookies, 1) == ExtractTokens(cookies, 2)
  {
  }

  /** `{...payload, timestamp: now}`. */
  function WithTimestamp(payload: map<string, Json>, nowMs: nat): (r: map<string, Json>)
    ensures r.Keys == payload.Keys + {"timestamp"}
    ensures r["timestamp"] == JNum(nowMs)
    ensures forall k :: k in payload && k != "timestamp" ==> r[k] == payload[k]
  {
    payload["timestamp" := JNum(nowMs)]
  }

  /** `signAuthTokens(payload)`: an Access token and a Refresh token, both
      carrying the payload and a timestamp; the first failure is thrown. */
  function SignAuthTokens(env: Env, payload: map<string, Json>, nowMs: nat): (r: Result<CookiePair, TokenError>)
    ensures r.Ok? <==> ConfigOf(env.config, Access).secret != "" && ConfigOf(env.config, Refresh).secret != ""
    ensures r.Ok? ==> r.value == CookiePair(
      Some(SignToken(env, Known(Access), JObj(WithTimestamp(payload, nowMs)), nowMs).value),
      Some(SignToken(env, Known(Refresh), JObj(WithTimestamp(payload, nowMs)), nowMs).value))
    ensures r.Err? ==> r.error == SecretNotSet
  {
    var body := JObj(WithTimestamp(payload, nowMs));
    match SignToken(env, Known(Access), body, nowMs)
    case Err(e) => Err(e)
    case Ok(a) =>
      match SignToken(env, Known(Refresh), body, nowMs)
      case Err(e) => Err(e)
      case Ok(r) => Ok(CookiePair(Some(a), Some(r)))
  }

  /** The payload `setAuthTokens` and `setAccessToken` sign: the user id
      (left out when `undefined`) and a timestamp. */
  function IdPayload(userId: Option<Json>, nowMs: nat): (r: map<string, Json>)
    ensures r.Keys == {"timestamp"} + (if userId.Some? then {"id"} else {})
    ensures r["timestamp"] == JNum(nowMs)
    ensures userId.Some? ==> r["id"] == userId.value
  {
    With(map["timestamp" := JNum(nowMs)], "id", userId)
  }

  /** `setAccessToken(userId, refreshToken)`: a new Access token whose `id`
      is `userId`; the refresh token is returned exactly as given. */
  function SetAccessToken(env: Env, userId: Option<Json>, refreshToken: Option<string>, nowMs: nat)
    : (r: Result<CookiePair, TokenError>)
    ensures r.Ok? <==> ConfigOf(env.config, Access).secret != ""
    ensures r.Ok? ==> r.value.refreshToken == refreshToken
    ensures r.Ok? ==> r.value.accessToken == Some(env.codec.encode(
      Jws(JObj(StampedClaims(IdPayload(userId, nowMs), env.config.access, nowMs)), env.config.access.secret)))
  {
    match SignToken(env, Known(Access), JObj(IdPayload(userId, nowMs)), nowMs)
    case Err(e) => Err(e)
    case Ok(a) => Ok(CookiePair(Some(a), refreshToken))
  }

  /** The cookie headers `setAuthTokensToCookies` adds: refresh, then access. */
  function SetCookieOps(tokens: CookiePair, opts: CookieOptions): seq<CookieOp> {
    [SetCookie(RefreshCookie, Show(tokens.refreshToken), opts),
     SetCookie(AccessCookie, Show(tokens.accessToken), opts)]
  }

  /** The cookie headers `deleteAuthTokensFromCookies` adds. */
  function ClearCookieOps(opts: CookieOptions): seq<CookieOp> {
    [ClearCookie(RefreshCookie, opts), ClearCookie(AccessCookie, opts)]
  }

  /** After the pair is written, the browser sends both values back. */
  lemma SetCookiesDelivered(jar: CookieJar, tokens: CookiePair, opts: CookieOptions)
    ensures var sent := SentCookies(ApplyCookies(jar, SetCookieOps(tokens, opts)));
      && AccessCookie in sent && sent[AccessCookie] == Show(tokens.accessToken)
      && RefreshCookie in sent && sent[RefreshCookie] == Show(tokens.refreshToken)
  {
    DistinctCookieNames();
    ApplyTwoCookies(jar, SetCookieOps(tokens, opts)[0], SetCookieOps(tokens, opts)[1]);
  }

  lemma DistinctCookieNames()
    ensures AccessCookie != RefreshCookie
  {
    assert AccessCookie[0] != RefreshCookie[0];
  }

  /** Because the same options object sets and clears the cookies, clearing
      removes both from the browser, whatever else the jar holds. */
  lemma {:induction false} ClearRemovesSetCookies(jar: CookieJar, tokens: CookiePair, opts: CookieOptions)
    ensures var after := ApplyCookies(jar, SetCookieOps(tokens, opts) + ClearCookieOps(opts));
      AccessCookie !in after && RefreshCookie !in after
    ensures forall n :: n in jar && n != AccessCookie && n != RefreshCookie ==>
      n in ApplyCookies(jar, SetCookieOps(tokens, opts) + ClearCookieOps(opts))
  {
    DistinctCookieNames();
    var sets, clears := SetCookieOps(tokens, opts), ClearCookieOps(opts);
    ApplyCookiesAppend(jar, sets, clears);
    ApplyTwoCookies(jar, sets[0], sets[1]);
    ApplyTwoCookies(ApplyCookies(jar, sets), clears[0], clears[1]);
  }

  /** Had the options differed in path or domain, clearing would leave the
      cookie in place. */
  lemma {:induction false} ClearWithOtherScopeKeepsCookie(jar: CookieJar, value: string, setWith: CookieOptions, clearWith: CookieOptions)
    requires !SameScope(setWith, clearWith)
    ensures var after := ApplyCookies(jar, [SetCookie(AccessCookie, value, setWith), ClearCookie(AccessCookie, clearWith)]);
      AccessCookie in after && after[AccessCookie].value == value
  {
    ApplyTwoCookies(jar, SetCookie(AccessCookie, value, setWith), ClearCookie(AccessCookie, clearWith));
  }

  /** `setAuthTokensToCookies(res, tokens)`. */
  method SetAuthTokensToCookies(res: Response, tokens: CookiePair, opts: CookieOptions)
    modifies res
    ensures res.cookieOps == old(res.cookieOps) + SetCookieOps(tokens, opts)
    ensures res.status == old(res.status) && res.body == old(res.body)
  {
    res.Cookie(RefreshCookie, tokens.refreshToken, opts);
    res.Cookie(AccessCookie, tokens.accessToken, opts);
  }

  /** `deleteAuthTokensFromCookies(res)`. */
  method DeleteAuthTokensFromCookies(res: Response, opts: CookieOptions)
    modifies res
    ensures res.cookieOps == old(res.cookieOps) + ClearCookieOps(opts)
    ensures res.status == old(res.status) && res.body == old(res.body)
  {
    res.ClearCookieNamed(RefreshCookie, opts);
    res.ClearCookieNamed(AccessCookie, opts);
  }

  /** `setAuthTokens(res, user)`: signs the pair for `{id: user._id,
      timestamp}` and writes both cookies; on a signing failure nothing is
      written and the error is returned. */
  method SetAuthTokens(env: Env, res: Response, userId: string, nowMs: nat) returns (r: Result<CookiePair, TokenError>)
    modifies res
    ensures r == SignAuthTokens(env, IdPayload(Some(JStr(userId)), nowMs), nowMs)
    ensures res.cookieOps == old(res.cookieOps) + (if r.Ok? then SetCookieOps(r.value, env.config.cookieOptions) else [])
    ensures res.status == old(res.status) && res.body == old(res.body)
  {
    r := SignAuthTokens(env, IdPayload(Some(JStr(userId)), nowMs), nowMs);
    if r.Ok? {
      SetAuthTokensToCookies(res, r.value, env.config.cookieOptions);
    }
  }

  /** `invalidatedRefreshTokenSet`, the module-level set of revoked refresh tokens. */
  class RevocationSet {
    var tokens: set<string>

    constructor ()
      ensures tokens == {}
    {
      tokens := {};
    }

    /** `invalidateRefreshToken(token)`: adds the token; nothing else changes,
        and adding it again changes nothing. */
    method Invalidate(token: string)
      modifies this
      ensures tokens == old(tokens) + {token}
    {
      tokens := tokens + {token};
    }
  }

  /** Two invalidations of one token leave the set as one does. */
  method InvalidateTwice(reg: RevocationSet, token: string)
    modifies reg
    ensures reg.tokens == old(reg.tokens) + {token}
  {
    reg.Invalidate(token);
    ghost var once := reg.tokens;
    reg.Invalidate(token);
    assert reg.tokens == once;
  }
}

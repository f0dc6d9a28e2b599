/** The parts of Express's request and response objects the core reads and
    writes, and what a browser does with the cookie headers a response
    carries. */
module Http {
  import opened Wrappers
  import opened JsValues

  /** The options object handed to `res.cookie` and `res.clearCookie`.
      A cookie's scope is its domain and path; Express uses path "/" when
      none is given. */
  datatype CookieOptions = CookieOptions(
    httpOnly: bool, secure: bool, sameSite: string, path: Option<string>, domain: Option<string>)

  function EffectivePath(o: CookieOptions): string {
    if o.path.Some? then o.path.value else "/"
  }

  predicate SameScope(a: CookieOptions, b: CookieOptions) {
    EffectivePath(a) == EffectivePath(b) && a.domain == b.domain
  }

  datatype CookieOp =
    | SetCookie(name: string, value: string, opts: CookieOptions)
    | ClearCookie(name: string, opts: CookieOptions)

  /** The browser's cookie store, one cookie per name. */
  datatype StoredCookie = StoredCookie(value: string, opts: CookieOptions)
  type CookieJar = map<string, StoredCookie>

  /** A Set-Cookie header stores (or replaces) the cookie; the expired
      Set-Cookie that `res.clearCookie` sends removes the stored cookie
      only when its domain and path match those the cookie was set with
      (section 5.3 of RFC 6265). */
  function ApplyCookie(jar: CookieJar, op: CookieOp): (r: CookieJar)
    ensures op.SetCookie? ==> r == jar[op.name := StoredCookie(op.value, op.opts)]
    ensures (op.ClearCookie? && op.name in jar && SameScope(jar[op.name].opts, op.opts)) ==> r == jar - {op.name}
    ensures (op.ClearCookie? && !(op.name in jar && SameScope(jar[op.name].opts, op.opts))) ==> r == jar
  {
    match op
    case SetCookie(n, v, o) => jar[n := StoredCookie(v, o)]
    case ClearCookie(n, o) =>
      if n in jar && SameScope(jar[n].opts, o) then jar - {n} else jar
  }

  function ApplyCookies(jar: CookieJar, ops: seq<CookieOp>): (r: CookieJar)
    decreases |ops|
  {
    if ops == [] then jar else ApplyCookies(ApplyCookie(jar, ops[0]), ops[1..])
  }

  lemma {:induction false} ApplyCookiesAppend(jar: CookieJar, a: seq<CookieOp>, b: seq<CookieOp>)
    ensures ApplyCookies(jar, a + b) == ApplyCookies(ApplyCookies(jar, a), b)
    decreases |a|
  {
    if a != [] {
      assert (a + b)[0] == a[0];
      assert (a + b)[1..] == a[1..] + b;
      ApplyCookiesAppend(ApplyCookie(jar, a[0]), a[1..], b);
    } else {
      assert a + b == b;
    }
  }

  lemma ApplyTwoCookies(jar: CookieJar, a: CookieOp, b: CookieOp)
    ensures ApplyCookies(jar, [a, b]) == ApplyCookie(ApplyCookie(jar, a), b)
  {
    assert [a, b][1..] == [b];
    ApplyOneCookie(ApplyCookie(jar, a), b);
  }

  lemma ApplyOneCookie(jar: CookieJar, a: CookieOp)
    ensures ApplyCookies(jar, [a]) == ApplyCookie(jar, a)
  {
    assert [a][1..] == [];
  }

  /** The `Cookie` header the browser sends next, as `cookie-parser`
      presents it in `req.cookies`. */
  function SentCookies(jar: CookieJar): (m: map<string, string>)
    ensures m.Keys == jar.Keys
    ensures forall n :: n in jar ==> m[n] == jar[n].value
  {
    map n | n in jar :: jar[n].value
  }

  /** The object `{ accessToken, refreshToken }` (`IAuthTokens`) as it is at
      run time: either field may hold `undefined`. */
  datatype CookiePair = CookiePair(accessToken: Option<string>, refreshToken: Option<string>)

  /** What a handler sends: nothing yet, a `msgObj` message, JSON data,
      plain text (`res.send`, and the reason phrase `res.sendStatus`
      sends), or a redirect (status 302). */
  datatype Body = NoBody | Message(text: string) | Data(json: Json) | Text(text: string) | Redirect(location: string)

  /** What `res.sendStatus(200)` sends: the reason phrase as plain text. */
  const OkBody: Body := Text("OK")

  /** An Express request after routing: cookies, JSON body and decoded
      route parameters are inputs; `userId` and `tokens` are the fields
      the middlewares attach. */
  class Request {
    const cookies: map<string, string>
    const body: map<string, Json>
    const params: map<string, string>
    var userId: Option<Json>
    var tokens: Option<CookiePair>

    constructor (cookies: map<string, string>, body: map<string, Json>, params: map<string, string>)
      ensures this.cookies == cookies && this.body == body && this.params == params
      ensures userId == None && tokens == None
    {
      this.cookies := cookies;
      this.body := body;
      this.params := params;
      userId := None;
      tokens := None;
    }
  }

  /** An Express response: the status and body once sent, and the cookie
      headers in the order they were added. */
  class Response {
    var status: Option<nat>
    var body: Body
    var cookieOps: seq<CookieOp>

    constructor ()
      ensures status == None && body == NoBody && cookieOps == []
    {
      status := None;
      body := NoBody;
      cookieOps := [];
    }

    /** `res.status(code).json(body)`, `res.sendStatus(code)`, `res.redirect(url)`. */
    method Send(code: nat, b: Body)
      modifies this
      ensures status == Some(code) && body == b && cookieOps == old(cookieOps)
    {
      status := Some(code);
      body := b;
    }

    /** `res.cookie(name, value, opts)`. */
    method Cookie(name: string, value: Option<string>, opts: CookieOptions)
      modifies this
      ensures cookieOps == old(cookieOps) + [SetCookie(name, Show(value), opts)]
      ensures status == old(status) && body == old(body)
    {
      cookieOps := cookieOps + [SetCookie(name, Show(value), opts)];
    }

    /** `res.clearCookie(name, opts)`. */
    method ClearCookieNamed(name: string, opts: CookieOptions)
      modifies this
      ensures cookieOps == old(cookieOps) + [ClearCookie(name, opts)]
      ensures status == old(status) && body == old(body)
    {
      cookieOps := cookieOps + [ClearCookie(name, opts)];
    }
  }
}

/** `injectUserIdIfAuthed`: the fail-open variant of `authGuard`. It
    attaches the identity when the cookies verify, never responds, and
    always calls `next`. */
module InjectUserIdMiddleware {
  import opened Wrappers
  import opened JsValues
  import opened Http
  import opened TokenService
  import opened AuthGuardMiddleware

  /** `injectUserIdIfAuthed(req, res, next)`: `next` is called on every
      path; the response is not in the frame, so nothing is sent. With
      `Admit` the request gets exactly what `authGuard` would set; with
      `Deny` (a missing cookie or a failed verification) it is unchanged. */
  method InjectUserIdIfAuthed(env: Env, reg: RevocationSet, req: Request, res: Response, nowMs: nat)
    returns (next: bool)
    modifies req
    ensures next
    ensures var o := GuardDecision(env, reg.tokens, req.cookies, nowMs);
      && (o.Admit? ==> req.userId == o.userId && req.tokens == Some(o.tokens))
      && (o.Deny? ==> req.userId == old(req.userId) && req.tokens == old(req.tokens))
    ensures res.status == old(res.status) && res.body == old(res.body) && res.cookieOps == old(res.cookieOps)
  {
    var o := GuardDecision(env, reg.tokens, req.cookies, nowMs);
    if o.Admit? {
      req.userId := o.userId;
      req.tokens := Some(o.tokens);
    }
    next := true;
  }
}

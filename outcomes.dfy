/** What one handler run does: the response it sends and the state it
    changes (a saved user record, cookie headers, a revoked refresh token,
    a mail handed to the transport). Each handler is a total function to
    an `Outcome`; `Commit` performs it on the shared state. */
module Outcomes {
  import opened Wrappers
  import opened Http
  import opened TokenService
  import opened Users
  import opened EmailService

  datatype Outcome = Outcome(
    status: nat, body: Body, saved: Option<User>, cookieOps: seq<CookieOp>,
    revoke: Option<string>, mail: Option<Mail>)

  /** A response and nothing else. */
  function Reply(status: nat, body: Body): (o: Outcome)
    ensures o.status == status && o.body == body
    ensures o.saved.None? && o.cookieOps == [] && o.revoke.None? && o.mail.None?
  {
    Outcome(status, body, None, [], None, None)
  }

  /** The user collection after an outcome's save, if any. */
  function Stored(users: seq<User>, saved: Option<User>): seq<User> {
    if saved.Some? then Replace(users, saved.value) else users
  }

  /** Performs an outcome: saves the record, adds the cookie headers,
      revokes the token, hands over the mail and sends the response. */
  method Commit(o: Outcome, store: UserStore, reg: RevocationSet, outbox: Outbox, res: Response)
    modifies store, reg, outbox, res
    ensures store.users == Stored(old(store.users), o.saved)
    ensures reg.tokens == old(reg.tokens) + (if o.revoke.Some? then {o.revoke.value} else {})
    ensures outbox.sent == old(outbox.sent) + (if o.mail.Some? then [o.mail.value] else [])
    ensures res.status == Some(o.status) && res.body == o.body
    ensures res.cookieOps == old(res.cookieOps) + o.cookieOps
  {
    if o.saved.Some? {
      store.Save(o.saved.value);
    }
    res.cookieOps := res.cookieOps + o.cookieOps;
    if o.revoke.Some? {
      reg.Invalidate(o.revoke.value);
    }
    if o.mail.Some? {
      outbox.SendMail(o.mail.value);
    }
    res.Send(o.status, o.body);
  }
}

/** `EmailService`: the token each mail carries and the link built from
    it. The SMTP transport is abstract: a mail is the value handed to
    `sendMail`, collected in an outbox. */
module EmailService {
  import opened Wrappers
  import opened JsValues
  import opened UriCoding
  import opened TokenService
  import opened Users

  /** The parts of the mail options the core decides; the HTML template
      around the link is not part of this model. */
  datatype Mail = Mail(to: string, subject: string, link: string)

  const VerificationSubject := "Webster Email Verification"
  const ResetSubject := "UEvent Music Password Reset"
  const VerifyLinkPrefix := "/auth/verify-email/"
  const ResetLinkPrefix := "/auth/password-reset/"

  /** The payload of a verification token: exactly `{_id}`. */
  function VerificationPayload(u: User): map<string, Json> {
    map["_id" := JStr(u.id)]
  }

  /** The payload of a reset token: `{_id, passwordHash}`, the hash stored
      when the mail is made (left out when the user has none). */
  function ResetPayload(u: User): map<string, Json> {
    With(map["_id" := JStr(u.id)], "passwordHash",
      if u.passwordHash.Some? then Some(JStr(u.passwordHash.value)) else None)
  }

  /** `sendVerificationEmail(user)`: None when the user is already
      verified (no token is signed); otherwise the mail to the user's
      address whose link carries the percent-encoded Verification token;
      a signing failure is thrown. */
  function VerificationMail(env: Env, u: User, nowMs: nat): (r: Result<Option<Mail>, TokenError>)
    ensures u.emailVerified ==> r == Ok(None)
    ensures !u.emailVerified ==>
      var t := SignToken(env, Known(Verification), JObj(VerificationPayload(u)), nowMs);
      && (r.Ok? <==> t.Ok?)
      && (r.Ok? ==> r.value == Some(Mail(u.email, VerificationSubject, VerifyLinkPrefix + Encode(t.value))))
      && (r.Err? ==> r.error == t.error)
  {
    if u.emailVerified then Ok(None)
    else
      match SignToken(env, Known(Verification), JObj(VerificationPayload(u)), nowMs)
      case Err(e) => Err(e)
      case Ok(token) => Ok(Some(Mail(u.email, VerificationSubject, VerifyLinkPrefix + Encode(token))))
  }

  datatype MailError = UserNotFound | SignFailed(e: TokenError)

  /** `sendPasswordResetEmail(email)`: an unknown address is an error
      before anything is signed; otherwise the mail to the stored address
      whose link carries the percent-encoded PasswordReset token. */
  function PasswordResetMail(env: Env, users: seq<User>, email: Option<Json>, nowMs: nat)
    : (r: Result<Mail, MailError>)
    ensures FindByEmail(users, email).None? ==> r == Err(UserNotFound)
    ensures FindByEmail(users, email).Some? ==>
      var u := FindByEmail(users, email).value;
      var t := SignToken(env, Known(PasswordReset), JObj(ResetPayload(u)), nowMs);
      && (r.Ok? <==> t.Ok?)
      && (r.Ok? ==> r.value == Mail(u.email, ResetSubject, ResetLinkPrefix + Encode(t.value)))
      && (r.Err? ==> r.error == SignFailed(t.error))
  {
    match FindByEmail(users, email)
    case None => Err(UserNotFound)
    case Some(u) =>
      match SignToken(env, Known(PasswordReset), JObj(ResetPayload(u)), nowMs)
      case Err(e) => Err(SignFailed(e))
      case Ok(token) => Ok(Mail(u.email, ResetSubject, ResetLinkPrefix + Encode(token)))
  }

  /** The token inside a link: the part after the prefix, decoded. */
  function LinkToken(m: Mail, prefix: string): (r: Option<string>)
    ensures r.Some? ==> |prefix| <= |m.link| && Decode(m.link[|prefix|..]) == r
  {
    if |prefix| <= |m.link| && m.link[..|prefix|] == prefix then Decode(m.link[|prefix|..]) else None
  }

  /** A verification mail's link gives back the token it was made from,
      and that token verifies as a Verification token whose `_id` is the
      user's, until it expires. */
  lemma {:induction false} VerificationLinkCarriesToken(env: Env, revoked: set<string>, u: User, signMs: nat, nowMs: nat)
    requires Sound(env.codec)
    requires VerificationMail(env, u, signMs).Ok? && VerificationMail(env, u, signMs).value.Some?
    requires env.config.verification.expiresIn > 0 ==>
      Seconds(nowMs) < Seconds(signMs) + env.config.verification.expiresIn
    ensures var m := VerificationMail(env, u, signMs).value.value;
      && m.to == u.email
      && LinkToken(m, VerifyLinkPrefix).Some?
      && var v := VerifyToken(env, revoked, Known(Verification), LinkToken(m, VerifyLinkPrefix).value, nowMs);
      && v.Ok? && Prop(v.value, "_id") == Some(JStr(u.id))
  {
    var token := SignToken(env, Known(Verification), JObj(VerificationPayload(u)), signMs).value;
    var m := VerificationMail(env, u, signMs).value.value;
    assert m.link == VerifyLinkPrefix + Encode(token);
    assert m.link[..|VerifyLinkPrefix|] == VerifyLinkPrefix;
    assert m.link[|VerifyLinkPrefix|..] == Encode(token);
    DecodeEncode(token);
    VerifySignedToken(env, revoked, Verification, VerificationPayload(u), signMs, nowMs);
  }

  /** A reset token read back while unexpired carries the user's id and
      the hash the user had when the mail was made. */
  lemma {:induction false} ResetLinkCarriesSnapshot(
    env: Env, revoked: set<string>, users: seq<User>, email: Option<Json>, signMs: nat, nowMs: nat)
    requires Sound(env.codec)
    requires PasswordResetMail(env, users, email, signMs).Ok?
    requires env.config.passwordReset.expiresIn > 0 ==>
      Seconds(nowMs) < Seconds(signMs) + env.config.passwordReset.expiresIn
    ensures var u := FindByEmail(users, email).value;
      var m := PasswordResetMail(env, users, email, signMs).value;
      && m.to == u.email
      && LinkToken(m, ResetLinkPrefix).Some?
      && var v := VerifyToken(env, revoked, Known(PasswordReset), LinkToken(m, ResetLinkPrefix).value, nowMs);
      && v.Ok? && Prop(v.value, "_id") == Some(JStr(u.id))
      && Prop(v.value, "passwordHash") == (if u.passwordHash.Some? then Some(JStr(u.passwordHash.value)) else None)
  {
    var u := FindByEmail(users, email).value;
    var token := SignToken(env, Known(PasswordReset), JObj(ResetPayload(u)), signMs).value;
    var m := PasswordResetMail(env, users, email, signMs).value;
    assert m.link[..|ResetLinkPrefix|] == ResetLinkPrefix;
    assert m.link[|ResetLinkPrefix|..] == Encode(token);
    DecodeEncode(token);
    VerifySignedToken(env, revoked, PasswordReset, ResetPayload(u), signMs, nowMs);
  }

  /** The mails handed to the transport, in order. */
  class Outbox {
    var sent: seq<Mail>

    constructor ()
      ensures sent == []
    {
      sent := [];
    }

    /** `sendMail(opts)`. */
    method SendMail(m: Mail)
      modifies this
      ensures sent == old(sent) + [m]
    {
      sent := sent + [m];
    }
  }
}

# Session tokens of the Webster backend, modelled in Dafny

The Webster backend is an Express server that signs users in with JWTs
kept in two HTTP-only cookies:

- `accessToken`, short-lived;
- `refreshToken`, which a process-wide revocation set can invalidate.

This project models that token lifecycle and the decisions built on it,
then proves what the code promises about them. It covers:

- **token service.** The kind-to-config lookup, signing and verification with the secret check and the optional `exp` claim (section 4.1.4 of RFC 7519), the revocation set, cookie extraction at two strictness levels, access-token reissue, and writing and clearing the two cookies.
- **middlewares.** `authGuard` (fails closed with 401), `refreshTokenMiddleware` (reissues the access token) and `injectUserIdIfAuthed` (fails open and never answers).
- **auth controller.** Login, logout, refresh, the access check, sending and following the verification link, and sending and using a password-reset link. The route table is modelled too, so the links can be followed through Express's routing and percent-decoding.
- **user controller.** The guard chain on its routes, password change (which revokes the refresh token) and the profile-update data (which clears `emailVerified` when the email changes).
- **email service.** Token payloads and links of the two mails.
- **project controller.** The ownership gate, response sanitising, create, update, delete, image upload and list, and the file names `removeBackground` derives.
- **upload helpers.** `updateFile`, `generateFileUrl` and `getMimeType`, with the parts of `path.posix` and `String.prototype` they rely on.

The state is a user store, a revocation set, a mail outbox, a project store, the response's status, body and cookie headers, and the browser's cookie jar.

Each auth and user handler is a total function from its inputs to an `Outcome` (`Outcomes` module). An `Outcome` holds a status, a body, the user record to save, cookie headers, the token to revoke and the mail to send. The request-level methods (`LogoutRoute`, `VerificateEmail`, `ChangePasswordRoute`, …) carry that outcome out on the mutable state.

The middlewares and project handlers are methods on `Request`, `Response` and `ProjectStore` objects. `RevocationSet`, `UserStore`, `Outbox` and `UpdateData` are classes whose methods change their fields in place.

External parts are parameters, not code:

- **JWT.** A codec pair `JwtCodec(encode, decode)`; `Sound` states that decoding an encoded token gives it back.
- **bcrypt.** A `Bcrypt(hash, compare)` pair; `BcryptSound` states that a hash accepts its password.
- **Password rule.** `passwordRegex` is a predicate parameter.
- **Clock and salt.** The clock is a millisecond parameter `nowMs`. The random salt is a parameter `salt`.
- **Environment.** `BACKEND_URL` and `FRONTEND_URL` are optional-string parameters; an unset one shows as "undefined".

Three source defects came out of stating natural contracts; they are listed under "## Findings". For each, the model keeps the code as written, with a lemma showing the discrepancy, and a corrected definition that the rest of the model uses.

A token does not carry its kind. As in jsonwebtoken, verification checks the signature against the secret of the kind it is asked for. A token of one kind is therefore refused as another kind only when the two kinds' secrets differ. `KindConfusionRejected` states the refusing half and `KindConfusionAccepted` the accepting half. The model follows the code here, not the simpler reading that verification compares kinds.

## Model

| member | source | states |
|---|---|---|
| TokenService.GetConfig | src/services/tokenService.ts:34-49 | succeeds exactly for the five known kinds and gives that kind's own config; any other type value fails with the wrong-token-type error |
| TokenService.Seconds | src/services/tokenService.ts:54-58 | the clock reading jsonwebtoken writes into `iat` and compares with `exp`: whole seconds rounded down, so `r * 1000 <= ms < r * 1000 + 1000` |
| TokenService.StampedClaims | src/services/tokenService.ts:54-58 | the signed claims keep every payload claim, add `iat` from the clock in seconds, and add `exp` = `iat` + `expiresIn` exactly when the config has a non-zero `expiresIn` |
| TokenService.SignJws | src/services/tokenService.ts:51-59 | fails with "secret not set" when the kind's secret is empty; a signed token is keyed with that kind's secret and carries the stamped claims of an object payload; a string, number or boolean is signed as it is and only without `expiresIn`; `null` and arrays are refused |
| TokenService.SignToken | src/services/tokenService.ts:51-59 | the token string is the codec's encoding of the signed token, and it fails exactly when signing fails, with the same error |
| TokenService.CheckJws | src/services/tokenService.ts:69-72 | accepts only a token keyed with the given secret whose payload is an object or an array, and then returns that payload; a string, number, boolean or `null` payload, which jsonwebtoken hands back as a string, fails with the unexpected-structure error |
| TokenService.VerifyToken | src/services/tokenService.ts:61-73 | a Refresh token in the revocation set is refused as invalidated before any other check; success implies a known kind whose secret is set; an unknown type never verifies |
| TokenService.VerifyIgnoresRevocationUnlessRefresh | src/services/tokenService.ts:62-66 | for every kind other than Refresh the revocation set has no influence on verification |
| TokenService.VerifySignedToken | src/services/tokenService.ts:51-72 | with a sound codec, a token signed for a kind verifies as that kind before its expiry and while not revoked, and gives back every payload claim plus `iat` |
| TokenService.VerifyExpiredToken | src/services/tokenService.ts:54-69 | once the clock reaches `exp` the same token is refused as expired |
| TokenService.KindConfusionRejected | src/services/tokenService.ts:67-69 | a token signed for one kind never verifies as a kind whose secret differs |
| TokenService.KindConfusionAccepted | src/services/tokenService.ts:67-69 | a token signed for one kind verifies as any kind with the same secret, unexpired and unrevoked, exactly as it verifies as its own kind |
| TokenService.ExtractTokens | src/services/tokenService.ts:16-28 | code 1 gives null exactly when the refresh cookie is missing or empty, code 2 exactly when either is, other codes never; otherwise both cookie values come back unchanged |
| TokenService.ExtractStrictImpliesRelaxed | src/services/tokenService.ts:21-27 | whenever the strict extraction succeeds, the relaxed one gives the same pair |
| TokenService.Present | src/services/tokenService.ts:18-24 | definition: a cookie is present when it is set and not the empty string, which is when `!token` is false; stated by ExtractTokens |
| TokenService.SignAuthTokens | src/services/tokenService.ts:75-86 | succeeds exactly when both the Access and the Refresh secret are set, and then gives the Access-kind and the Refresh-kind signing of the payload with its timestamp |
| TokenService.WithTimestamp | src/services/tokenService.ts:77-84 | `{...payload, timestamp}`: the payload's keys plus `timestamp`, which holds the clock in milliseconds; every other key keeps its value |
| TokenService.IdPayload | src/services/tokenService.ts:104-120 | `{id, timestamp}`: `timestamp` holds the clock in milliseconds, and `id` is present exactly when the user id is defined, holding it |
| TokenService.SetAccessToken | src/services/tokenService.ts:113-125 | succeeds exactly when the Access secret is set; the refresh token comes back unchanged and the access token is the Access-kind signing of `{id, timestamp}` |
| TokenService.SetCookiesDelivered | src/services/tokenService.ts:88-95 | after the two Set-Cookie headers the browser holds both cookies with the tokens' values |
| TokenService.SetCookieOps | src/services/tokenService.ts:92-93 | definition: the refresh and then the access Set-Cookie header, both with the shared options; stated by SetCookiesDelivered and SetAuthTokensToCookies |
| TokenService.ClearCookieOps | src/services/tokenService.ts:98-99 | definition: the refresh and then the access clearing header, both with the shared options; stated by ClearRemovesSetCookies and DeleteAuthTokensFromCookies |
| TokenService.ClearRemovesSetCookies | src/services/tokenService.ts:88-102 | clearing with the options the cookies were set with removes both of them and keeps every other cookie |
| TokenService.ClearWithOtherScopeKeepsCookie | src/services/tokenService.ts:97-102 | a clear whose path or domain differs from the set's leaves the cookie in place, which is why both sides share one options object |
| TokenService.SetAuthTokensToCookies | src/services/tokenService.ts:88-95 | appends exactly the two Set-Cookie headers, refresh then access, with the shared options; status and body are untouched |
| TokenService.DeleteAuthTokensFromCookies | src/services/tokenService.ts:97-102 | appends exactly the two clearing headers with the same shared options; status and body are untouched |
| TokenService.SetAuthTokens | src/services/tokenService.ts:104-111 | signs `{id: user id, timestamp}` as both kinds and appends the two cookies only when signing succeeded |
| TokenService.RevocationSet.constructor | src/services/tokenService.ts:13 | the revocation set starts empty |
| TokenService.RevocationSet.Invalidate | src/services/tokenService.ts:30-32 | the set gains the token and nothing else |
| TokenService.InvalidateTwice | src/services/tokenService.ts:30-32 | revoking the same token twice leaves the set as revoking it once |
| AuthGuardMiddleware.GuardDecision | src/helpers/authGuard.ts:12-20 | admits exactly when both cookies are present and the access cookie verifies as Access; the user id is then the decoded `id` and the tokens are the extracted pair |
| AuthGuardMiddleware.GuardIgnoresRevocation | src/helpers/authGuard.ts:12-17 | the revocation set never changes the decision, so a revoked refresh token does not block the guard |
| AuthGuardMiddleware.LoginThenGuardAdmits | src/helpers/authGuard.ts:12-20 | the cookies `setAuthTokens` writes are admitted, with that user's id, until the access token expires |
| AuthGuardMiddleware.ExpiredAccessDenied | src/helpers/authGuard.ts:14-23 | an access token whose `exp` has passed is denied |
| AuthGuardMiddleware.AuthGuard | src/helpers/authGuard.ts:6-24 | `next` runs exactly when admitted; admission sets `userId` and `tokens` and leaves the response alone; denial answers 401 "Not Authorized" and leaves the request alone; no cookie is written |
| RefreshMiddleware.Reissue | src/helpers/refreshTokenMiddleware.ts:10-14 | a new pair exists exactly when the request carries tokens and the Access secret is set; it keeps the refresh token and is `setAccessToken`'s result |
| RefreshMiddleware.ReissuedTokenCarriesUserId | src/helpers/refreshTokenMiddleware.ts:11-13 | the reissued access token verifies as Access and its `id` is the incoming `userId` |
| RefreshMiddleware.RefreshTokenMiddleware | src/helpers/refreshTokenMiddleware.ts:5-25 | `next` runs exactly when reissued, after both cookies are rewritten with the new pair; otherwise 500 with no cookie; `userId` and `tokens` keep their values |
| InjectUserIdMiddleware.InjectUserIdIfAuthed | src/helpers/injectUserIdIfAuthed.ts:5-23 | always calls `next` and never touches the response; sets `userId` and `tokens` exactly as `authGuard` would, and otherwise leaves them as they were |
| AuthController.SendVerificationShadowedAsWritten | src/controllers/authController.ts:23-24 | with the routes as registered, POST /verify-email/send-email goes to `verificateEmail` with token "send-email" |
| AuthController.SendVerificationUnreachableAsWritten | src/controllers/authController.ts:23-24 | as registered, no request of any verb and path ever reaches the send-email route |
| AuthController.SendVerificationReachable | src/controllers/authController.ts:23-24 | with the literal route first, that path reaches `sendVerificationEmailController` |
| AuthController.VerifyLinkReachesHandler | src/services/emailService.ts:27-29 | the verification link of any non-empty token other than "send-email" is routed to `verificateEmail`, and its `:token` decodes back to the token |
| AuthController.ResetLinkReachesHandler | src/services/emailService.ts:46-48 | the reset link of any such token is routed to `resetPasswordController`, and its `:token` decodes back to the token |
| AuthController.Login | src/controllers/authController.ts:32-58 | 404 for an unknown email; then 400 when the stored hash or the given password is not a string; then 403 when they do not compare; a request passing all three gets 200 exactly when both the Access and the Refresh secret are set; cookies are set exactly on 200, with the signed pair; the body is the user without the hash; nothing is saved or revoked |
| AuthController.LoginThenGuard | src/controllers/authController.ts:51-54 | after a successful login the cookies it set pass `authGuard` with the user's id until the access token expires |
| AuthController.Logout | src/controllers/authController.ts:80-86 | 200 with the text "OK"; both cookies are cleared with the shared options and the request's refresh token is revoked |
| AuthController.LogoutRoute | src/controllers/authController.ts:20 | logout runs behind `authGuard`: denied gives 401 "Not Authorized" with nothing revoked or cleared; admitted gives 200 "OK", revokes the refresh cookie and clears both cookies |
| AuthController.RefreshAccess | src/controllers/authController.ts:88-119 | 401 "Not Authorized" without a refresh cookie; 401 "Could not verify Token" when it fails Refresh verification, revocation included; 400 "Invalid data" when the decoded `id` finds nobody; a verifying cookie of a stored user gets 200 whenever the Access secret is set, with a new access token beside the identical refresh token and the public user as body; no cookie otherwise |
| AuthController.RefreshIgnoresAccessCookie | src/controllers/authController.ts:92-93 | the access cookie plays no part in the refresh endpoint |
| AuthController.RefreshAfterLogoutRefused | src/controllers/authController.ts:96-103 | once logout has revoked a refresh token, refreshing with it gives 401 |
| AuthController.RefreshWithIssuedToken | src/controllers/authController.ts:88-116 | the refresh token signed for a stored user gets 200 while unexpired and unrevoked, and the cookies written hold a new access token for that user |
| AuthController.LoginThenRefresh | src/controllers/authController.ts:32-116 | after a login, a request with only the refresh cookie it wrote gets 200 while that token is unexpired and unrevoked; the browser then holds a new access token for the same user and the same refresh cookie |
| AuthController.RefreshAccessTokenController | src/controllers/authController.ts:88-119 | the response and cookies are the refresh outcome's; store, revocations and outbox are untouched |
| AuthController.CheckAccess | src/controllers/authController.ts:121-136 | 200 `true` exactly when the guard would admit, 401 "Not Authorized" otherwise; no state changes |
| AuthController.SendVerificationEmail | src/controllers/authController.ts:138-152 | 400 without an email, 404 for an unknown one, 500 when signing fails; for a stored user whose mail can be built, 200 with "OK" and exactly that mail, which is none for a verified user; a mail is sent only on 200 |
| AuthController.TokenParam | src/controllers/authController.ts:156-157 | the `:token` parameter, absent exactly when it is missing or empty |
| AuthController.VerifyEmail | src/controllers/authController.ts:154-179 | 400 without a token, 403 when it fails Verification, 404 when its `_id` finds nobody; a verifying token whose `_id` finds a user gives the 302 redirect to the front end, and a user is saved exactly on that redirect, with `emailVerified` set |
| AuthController.VerifyEmailIdempotent | src/controllers/authController.ts:169-174 | replaying a verification link at any later time, whatever was revoked meanwhile, leaves the store as the first use left it; while the token still verifies the replay gets the same response, and at the same instant it always does |
| AuthController.VerificateEmail | src/controllers/authController.ts:154-179 | performs the verification outcome on the store and the response; nothing else changes |
| AuthController.SendPasswordReset | src/controllers/authController.ts:181-191 | 400 without an email; otherwise 200 with "OK" whether or not the user exists; a mail goes out exactly when the reset mail can be built |
| AuthController.SameHashUnique | src/controllers/authController.ts:221 | a token's snapshot matches at most one stored hash under the loose comparison |
| AuthController.SameHash | src/controllers/authController.ts:221 | definition: `user.passwordHash != passwordHash` is false, by loose equality, where `undefined` equals `undefined` and `null`; stated by SameHashUnique and ResetPassword |
| AuthController.ResetPassword | src/controllers/authController.ts:193-231 | 400 for a missing token, 400 for a missing password, 403 for a non-string one, 400 for a failed rule, all before verification; then 403 "Invalid token", 404 "User not found" for an unknown `_id`, and 403 "Token is already used" exactly when the stored hash differs from the snapshot; with a matching snapshot, 403 "Password is too long" when hashing refuses the password, and otherwise 200 with "OK" and the user saved with the new hash; a user is saved exactly on 200 |
| AuthController.ResetTokenSingleUse | src/controllers/authController.ts:218-225 | after a successful reset whose new hash differs, the same token never succeeds again and saves nothing |
| AuthController.ResetPasswordController | src/controllers/authController.ts:193-231 | performs the reset outcome on the store and the response; nothing else changes |
| UserController.UserRoutesGuarded | src/controllers/userController.ts:15-43 | every route runs `authGuard` then `refreshTokenMiddleware`, except `/user-info/:userId`, which runs neither |
| UserController.UserRouteTakenGuarded | src/controllers/userController.ts:15-43 | whatever route a request reaches, other than `/user-info/:userId`, is behind both middlewares |
| UserController.GuardThenReissue | src/controllers/userController.ts:31-36 | once `authGuard` admits, the reissue in `refreshTokenMiddleware` always succeeds |
| UserController.GuardChain | src/controllers/userController.ts:31-36 | the two middlewares in sequence: denial is a 401 "Not Authorized" with no cookie header and the request's fields unchanged, admission sets the request fields and rewrites both cookies with the reissued pair |
| UserController.ChangePassword | src/controllers/userController.ts:74-121 | 400 when either field is missing, 400 when the new password fails the rule; 403 is always "The password does not match"; without a save no cookie is cleared and nothing is revoked; 200 exactly when saved and the request has tokens, and then the request's refresh token is revoked |
| UserController.ChangeStoredPassword | src/controllers/userController.ts:94-113 | saves exactly when a non-empty hash is stored and compares with the current password and the new one hashes, and then clears both cookies; 403 exactly when no hash is stored or the comparison fails |
| UserController.ChangePasswordSaves | src/controllers/userController.ts:79-102 | the new hash is saved exactly when both fields are present strings, the rule holds, the user has a hash, it compares and hashing succeeds; a failed comparison after the checks gives 403 |
| UserController.ChangePasswordEndsSession | src/controllers/userController.ts:98-107 | after a change both cookies are gone from the browser, the refresh token is revoked and refreshing with it gives 401; with sound bcrypt the new hash accepts the new password |
| UserController.ChangePasswordRoute | src/controllers/userController.ts:31-36 | `/edit-password` through the guard chain: a denial answers 401 "Not Authorized" and adds no cookie header, saves nothing and revokes nothing; admitted, the outcome's save, revocation and response are performed after the reissued cookies |
| UserController.UpdateProfileData | src/controllers/userController.ts:128-133 | without a truthy email the update data is the body; an email that differs from the current one after trimming adds `emailVerified: false`; one equal after trimming leaves the body; a non-string email or a missing user is an error; no other key changes |
| UserController.ChangedEmailUnverified | src/controllers/userController.ts:129-133 | a new email makes the update set `emailVerified` to false |
| UserController.PaddedEmailKeepsVerification | src/controllers/userController.ts:131 | the current email padded with whitespace keeps the body unchanged |
| EmailService.VerificationMail | src/services/emailService.ts:21-37 | no mail for a verified user; otherwise a Verification token over `{_id}`, a mail to the user's email whose link is `/auth/verify-email/` and the encoded token; fails exactly when signing does |
| EmailService.PasswordResetMail | src/services/emailService.ts:39-56 | an unknown email fails before anything is signed; otherwise a PasswordReset token over `{_id, passwordHash}`, a mail to the user's email whose link is `/auth/password-reset/` and the encoded token |
| EmailService.LinkToken | src/services/emailService.ts:27-29 | the decoded token after the link's prefix |
| EmailService.VerificationLinkCarriesToken | src/services/emailService.ts:24-29 | the verification link's token verifies as Verification until it expires and carries the user's `_id` |
| EmailService.ResetLinkCarriesSnapshot | src/services/emailService.ts:42-48 | the reset link's token verifies as PasswordReset until it expires and carries the `_id` and the hash stored when it was issued |
| EmailService.Outbox.SendMail | src/services/emailService.ts:36 | the mail is appended to what the transport received |
| Http.ApplyCookie | src/services/tokenService.ts:97-102 | a Set-Cookie header stores the cookie; a clearing header removes it only when its path and domain match the stored cookie's |
| Http.Response.Send | src/helpers/authGuard.ts:13 | sets the status and body and leaves the cookie headers |
| Http.Response.Cookie | src/services/tokenService.ts:92-93 | appends one Set-Cookie header whose value is the token shown as a string ("undefined" when absent) |
| Http.Response.ClearCookieNamed | src/services/tokenService.ts:98-99 | appends one clearing header with the given options |
| JsValues.Get | src/services/tokenService.ts:18-19 | a property or cookie read gives the stored value exactly when the key is present, and `undefined` otherwise |
| JsValues.Truthy | src/services/tokenService.ts:22-23 | definition: JavaScript truthiness, where `undefined`, `null`, `false`, 0 and "" are falsy and every array and object is truthy; stated through ExtractTokens, SendVerificationEmail, ChangePassword and UpdateFile |
| JsValues.AsString | src/controllers/authController.ts:40-43 | a value is a string exactly when it is present and a JSON string, and then it is that string |
| JsValues.Show | src/helpers/uploadImages.ts:44-45 | a template literal shows an unset value as "undefined" and a string as itself |
| JsValues.Trim | src/controllers/userController.ts:131 | definition: `trimEnd` after `trimStart`; stated by TrimSpec, TrimStripsEnds, TrimIdempotent and TrimPadding |
| JsValues.TrimSpec | src/controllers/userController.ts:131 | the trimmed string is the infix of the input that starts where the leading whitespace ends |
| JsValues.TrimStripsEnds | src/controllers/userController.ts:131 | the trimmed string neither starts nor ends with whitespace |
| JsValues.TrimIdempotent | src/controllers/userController.ts:131 | trimming twice is trimming once |
| JsValues.TrimPadding | src/controllers/userController.ts:131 | whitespace padding on both sides is removed exactly |
| JsValues.ToLowerAscii | src/helpers/uploadImages.ts:55 | every upper-case ASCII letter is lowered and every other character kept |
| JsValues.ToLowerAsciiChar | src/helpers/uploadImages.ts:55 | an upper-case ASCII letter becomes the letter 32 code points on, in 'a'..'z'; every other character is its own lower case |
| JsValues.LowerAsciiIdempotent | src/helpers/uploadImages.ts:55 | a lowered string holds no upper-case ASCII letter, and lowering it again changes nothing |
| NodePath.LastSegment | src/helpers/uploadImages.ts:14 | what follows the last slash, or the whole string without one, as a slash-free suffix |
| NodePath.SlashesForward | src/helpers/uploadImages.ts:13 | every backslash becomes a slash and every other character is kept |
| NodePath.Basename | src/controllers/projectController.ts:158 | the base name holds no slash |
| NodePath.BasenameAfterSlash | src/controllers/projectController.ts:158 | the base name of `dir/name` is `name` |
| NodePath.ExtName | src/controllers/projectController.ts:173 | the extension is empty or starts with a dot |
| NodePath.ExtNameIsSuffix | src/controllers/projectController.ts:173 | the extension is a suffix of the base name with no further dot or slash |
| NodePath.ExtNameOf | src/controllers/projectController.ts:173 | the extension of `stem.x` with a stem not starting with a dot is `.x` |
| NodePath.IndexOfFrom | src/controllers/projectController.ts:172-175 | the position of the first occurrence of the pattern, none when it does not occur |
| NodePath.ReplaceFirst | src/controllers/projectController.ts:172-175 | replaces only the first occurrence, leaves the string when there is none, and puts the replacement in front for an empty pattern |
| NodePath.JoinSplit | src/helpers/uploadImages.ts:23 | joining the pieces of a split by slashes gives the string back |
| NodePath.SplitAppend | src/helpers/uploadImages.ts:23 | splitting `a/b` gives the pieces of `a` followed by those of `b` |
| NodePath.Normalize | src/helpers/uploadImages.ts:23 | definition: `path.posix.normalize`, the segment stack of Node's `normalizeString` joined by slashes, keeping a leading and a trailing slash, "." for an empty result; stated by NormalizeRelative, NormalizePlain and NormalizeParentPath |
| NodePath.PosixJoin | src/helpers/uploadImages.ts:18-23 | definition: `path.posix.join` of two arguments, the non-empty ones joined by a slash and normalised, "." when both are empty; stated by JoinPlainName, JoinParentName and BaseFolderPlain |
| NodePath.NormalizeSegments | src/helpers/uploadImages.ts:23 | the normalised segments hold no empty or "." segment, and none of ".." on an absolute path |
| NodePath.NormalizeSegmentsAppend | src/helpers/uploadImages.ts:23 | normalising two runs of segments one after the other is normalising them together |
| NodePath.NormalizeKept | src/helpers/uploadImages.ts:23 | segments other than empty, "." and ".." are kept as they are |
| NodePath.NormalizeRelative | src/helpers/uploadImages.ts:23 | a relative path without a trailing slash normalises to its normalised segments joined by slashes |
| NodePath.NormalizePlain | src/helpers/uploadImages.ts:23 | a relative path of plain segments is already normal |
| NodePath.JoinPlainName | src/helpers/uploadImages.ts:23 | joining a plain folder and a plain name puts one slash between them |
| NodePath.SplitThreeAfter | src/helpers/uploadImages.ts:23 | the segments of `dir/x/y/z` are those of `dir`, then x, y and z |
| NodePath.NormalizeParentSegments | src/helpers/uploadImages.ts:23 | a ".." right after a segment removes it |
| NodePath.JoinParentName | src/helpers/uploadImages.ts:23 | joining `dir/last` with "../" + name gives `dir/name` |
| NodePath.NormalizeParentPath | src/helpers/uploadImages.ts:23 | `dir/last/../name` normalises to `dir/name` |
| UploadImages.StoredName | src/helpers/uploadImages.ts:13-14 | the stored name is a suffix of the path with backslashes turned to slashes, holding no separator |
| UploadImages.StoredNameAfterSeparator | src/helpers/uploadImages.ts:13-14 | a POSIX or a Windows path gives the name after its last separator |
| UploadImages.BaseFolder | src/helpers/uploadImages.ts:16-19 | definition: "static/avatars" for a profile and "static/projects" for a project; stated by BaseFolderPlain, which shows it is the `path.posix.join` the code computes |
| UploadImages.BaseFolderPlain | src/helpers/uploadImages.ts:16-19 | each folder is the join of "static" with "avatars" or "projects", and a plain relative path |
| UploadImages.RemovedPathOfStoredName | src/helpers/uploadImages.ts:21-24 | for an old name that is one plain segment, the removed path is the folder, a slash and the name |
| UploadImages.RemovedPathClimbs | src/helpers/uploadImages.ts:21-24 | an old name led by "../" is resolved out of the entity's folder into "static" |
| UploadImages.UpdateData.UpdateFile | src/helpers/uploadImages.ts:6-28 | no file or no path changes nothing; otherwise the field becomes the stored name and no other key changes; the old file, `path.posix.join` of the entity's folder and the old name, is removed exactly when the field had a value; a non-string old value fails before any change |
| UploadImages.GenerateFileUrl | src/helpers/uploadImages.ts:40-46 | the URL starts with `BACKEND_URL` and ends with "/" and the file name |
| UploadImages.UrlNamesFile | src/helpers/uploadImages.ts:45 | the base name of a file's URL is the file's name |
| UploadImages.GetMimeTypeAsWritten | src/helpers/uploadImages.ts:48-56 | as written, the lower-case inherited keys of an object literal are returned as members, not MIME types |
| UploadImages.GetMimeTypeAsWrittenLeaksPrototype | src/helpers/uploadImages.ts:55 | "constructor", "Constructor" and "\_\_proto\_\_" give no MIME type |
| UploadImages.GetMimeType | src/helpers/uploadImages.ts:48-56 | always image/png or image/jpeg, and image/jpeg exactly for jpeg or jpg in any ASCII letter case |
| UploadImages.MimeTypeAsWrittenAgrees | src/helpers/uploadImages.ts:55 | the two agree on every format other than the inherited keys |
| Users.FindById | src/controllers/authController.ts:105 | a found user is in the store and has that id string; when nobody is found, no user has it |
| Users.FindByEmail | src/controllers/authController.ts:36 | a found user is in the store and has exactly that email; when nobody is found, no user has it |
| Users.Replace | src/controllers/authController.ts:173 | a save keeps the number of users and every position's id |
| Users.FindAfterReplace | src/controllers/authController.ts:173 | after a save, its id finds the saved record and every other id finds what it found before |
| Users.ReplaceIdempotent | src/controllers/authController.ts:173 | saving the same record twice is saving it once |
| Users.ReplaceWithFound | src/controllers/authController.ts:170-173 | with unique ids, saving a record as it was loaded leaves the store unchanged |
| Users.UserStore.Save | src/controllers/authController.ts:173 | the store becomes the store with that record saved |
| Outcomes.Commit | src/controllers/userController.ts:101-111 | performs one handler outcome: the record is saved, the cookie headers appended, the token revoked, the mail handed over, and the response gets the outcome's status and body |
| Users.CreateHashPassword | src/services/userService.ts:4-15 | fails with "Password is too long" exactly when the UTF-8 encoding exceeds 72 bytes, and otherwise is the bcrypt hash |
| Users.HashLengthBounds | src/services/userService.ts:5 | every password of at most 18 characters hashes, and every one of more than 72 characters is refused |
| Users.NewHashAcceptsPassword | src/services/userService.ts:9-12 | with sound bcrypt, the new hash accepts its password |
| Users.PublicUser | src/controllers/authController.ts:54 | the user sent out has no `passwordHash` but keeps `_id` and email |
| Routing.LitParamMatch | src/controllers/authController.ts:23 | `/verify-email/:token` matches exactly two segments whose first is "verify-email" and whose second is non-empty, capturing the second |
| Routing.LitPairMatch | src/controllers/authController.ts:24-25 | a pattern of two literals, such as `/verify-email/send-email`, matches exactly those two segments and captures nothing |
| Routing.MatchPattern | src/controllers/authController.ts:16-26 | Express's path matching: a match needs as many segments as the pattern; literals must be equal and parameters non-empty, which LitPairMatch and LitParamMatch state in full |
| Routing.Segments | src/controllers/authController.ts:16-26 | definition: the slash-separated pieces of a path after its leading slash; stated by PrefixedSegments |
| Routing.PrefixedSegments | src/controllers/authController.ts:23-26 | a path `/a/` followed by a slash-free token has exactly the two segments `a` and the token |
| Routing.FirstMatch | src/controllers/authController.ts:16-26 | a request goes to a route of its verb whose pattern matches, and no earlier route matches it; none means no route matches |
| Routing.FirstMatchAt | src/controllers/authController.ts:16-26 | a matching route with no matching route before it is the one taken |
| Routing.DecodeParams | src/controllers/authController.ts:156 | the parameters are all percent-decoded with the same keys, and decoding fails exactly when one of them does not decode |
| UriCoding.Utf8 | src/services/userService.ts:5 | a character takes one to four bytes, one exactly for ASCII |
| UriCoding.Utf8Length | src/services/userService.ts:5 | the byte length lies between the character count and four times it |
| UriCoding.EncodeAlphabet | src/services/emailService.ts:28 | an encoding holds only unreserved characters, percent signs and hex digits, and a string of unreserved characters encodes to itself |
| UriCoding.Encode | src/services/emailService.ts:28 | definition: `encodeURIComponent`, character by character, keeping unreserved characters and percent-encoding the UTF-8 bytes of the others; stated by EncodeAlphabet, EncodeNoSlash and DecodeEncode |
| UriCoding.EncodeNoSlash | src/services/emailService.ts:28 | an encoded token holds no slash, so it stays one path segment |
| UriCoding.DecodePlain | src/controllers/authController.ts:156 | a segment without a percent sign decodes to itself |
| UriCoding.Decode | src/controllers/authController.ts:156 | definition: `decodeURIComponent` as Express applies it to route parameters, None where it throws a URIError; stated by DecodePlain and DecodeEncode |
| UriCoding.DecodeEncode | src/services/emailService.ts:28 | decoding the encoding of any string gives that string back |
| ProjectController.ProjectRoutesGuarded | src/controllers/projectController.ts:22-33 | every project route starts with `authGuard` |
| ProjectController.ProjectRouteTakenGuarded | src/controllers/projectController.ts:22-33 | whatever project route a request reaches runs `authGuard` first |
| ProjectController.MyProjectsNotShadowed | src/controllers/projectController.ts:29-31 | GET /myProjects reaches the list handler, not GET /:id |
| ProjectController.ToObject | src/controllers/projectController.ts:45 | the document's id, title, owner and pictures, and `projectJSON` only when set |
| ProjectController.Sanitized | src/controllers/projectController.ts:45-47 | the single-project response is the document without `pictures`, every other field unchanged |
| ProjectController.ListEntry | src/controllers/projectController.ts:59-64 | a list entry holds just id, title and owner, unchanged |
| ProjectController.SanitizeAll | src/controllers/projectController.ts:59-64 | one entry per project in the same order, each with that project's id, title and owner only |
| ProjectController.Gate | src/controllers/projectController.ts:41-44 | 404 "Project not found" for an unknown id, 403 "Project not yours" for another owner, and the handler goes on exactly for the caller's own project |
| ProjectController.OwnedBy | src/controllers/projectController.ts:43-44 | definition: `project.owner.toString() != userId` is false, so the caller's id is the owner's id string; the same test is at :94, :112 and :132, and Gate states it |
| ProjectController.NewProject | src/controllers/projectController.ts:77-80 | a project exists exactly when the caller's id is a string; its id is the body's string `_id` or else the fresh id; the owner is the caller; a string title is trimmed in (default ""), an array of strings gives the pictures (default []), and `projectJSON` is the body's string |
| ProjectController.NewProjectId | src/controllers/projectController.ts:77-80 | definition: the body's string `_id`, otherwise the fresh id the store hands out; stated by NewProject and CreateProject |
| ProjectController.StringItems | src/controllers/projectController.ts:77-80 | gives strings exactly when the value is an array of strings, and then the array is made of exactly those strings, in order |
| ProjectController.CreateIgnoresBodyOwner | src/controllers/projectController.ts:77-80 | an `owner` in the body changes nothing about the new project |
| ProjectController.Updated | src/controllers/projectController.ts:114 | the id never changes; a string title is trimmed in, a string `projectJSON` or owner replaces the old, an array of strings replaces the pictures; fields absent from the body keep their values |
| ProjectController.UpdateIdempotent | src/controllers/projectController.ts:114 | sending the same update twice leaves the project as the first left it |
| ProjectController.Format | src/controllers/projectController.ts:152-153 | the query's format when it is a string, "png" otherwise |
| ProjectController.OutputNameAsWritten | src/controllers/projectController.ts:172-175 | definition, as written: the first occurrence of the extension is replaced by "." + format; stated by OutputNameWithoutExtension, OutputNameDoubledExtension, OutputNameAsWrittenPrepends, OutputNameAsWrittenReplacesEarlier and OutputNameAsWrittenAgrees |
| ProjectController.OutputName | src/controllers/projectController.ts:172-175 | definition, corrected: the extension at the end of the name is replaced by "." + format, or that is appended when there is none; stated by OutputNameReplacesExtension, OutputNameHasFormat and OutputNameWithoutExtension |
| ProjectController.OutputNameReplacesExtension | src/controllers/projectController.ts:172-175 | the intended output name of `stem.x` is `stem.` + format |
| ProjectController.OutputNameHasFormat | src/controllers/projectController.ts:172-175 | the intended output name's extension is the new format |
| ProjectController.OutputNameWithoutExtension | src/controllers/projectController.ts:172-175 | a name without an extension gets the new one appended, but in front as written |
| ProjectController.OutputNameDoubledExtension | src/controllers/projectController.ts:172-175 | for `stem.x.x` the code as written replaces the earlier `.x`, the intended name the last |
| ProjectController.OutputNameAsWrittenPrepends | src/controllers/projectController.ts:172-175 | "new-photo" becomes ".pngnew-photo" as written, and "new-photo.png" as intended |
| ProjectController.OutputNameAsWrittenReplacesEarlier | src/controllers/projectController.ts:172-175 | "new-a.png.png" converted to jpg becomes "new-a.jpg.png" as written, and "new-a.png.jpg" as intended |
| ProjectController.OutputNameAsWrittenAgrees | src/controllers/projectController.ts:172-175 | where the extension occurs only at the end, the two agree |
| ProjectController.RemoveBackgroundNames | src/controllers/projectController.ts:152-191 | 400 without an image URL; the download is "new-" + base name, the output is the corrected output name of the third Findings row (not the as-written one), and the answer is the URL of the original base name |
| ProjectController.BackgroundKeepsFileUrl | src/controllers/projectController.ts:158-191 | given a URL the server handed out, the answer is that same URL |
| ProjectController.ProjectStore.GetProjectById | src/controllers/projectController.ts:37-52 | the gate's answer, or 200 with the sanitised project; the store is untouched |
| ProjectController.ProjectStore.CreateProject | src/controllers/projectController.ts:72-86 | the new project is stored under its id and returned; an id already in the store gives 500 with a message starting "E11000 duplicate key error" and no change; a caller without an id string gives 500 with the owner validation error and no change |
| ProjectController.ProjectStore.UpdateProject | src/controllers/projectController.ts:104-120 | the gate's answer with no change, or the body applied to the project and the project as it was before sent back |
| ProjectController.ProjectStore.DeleteProject | src/controllers/projectController.ts:88-102 | the gate's answer with no change, or the project removed and 200 with "OK" |
| ProjectController.ProjectStore.UpdateImage | src/controllers/projectController.ts:122-149 | 400 "No image uploaded." before any lookup; then the gate's answer with no change; otherwise the file name appended to the pictures and its URL returned |
| ProjectController.GetProjectsOfUser | src/controllers/projectController.ts:54-70 | 404 when the query gives no list, otherwise 200 with the sanitised list |
| ProjectController.CreatedProjectGate | src/controllers/projectController.ts:77-80 | a project the caller created, stored under its id, passes the gate for that caller and gives 403 to anyone else |

## Left out

- JWT cryptography: `jwt.sign` and `jwt.verify` are an abstract codec with a key and a payload. HMAC, the header, `nbf`, clock tolerance and malformed-token errors are not modelled; a token the codec cannot decode simply fails verification.
- bcrypt: `hashSync` and `compareSync` are function parameters, and the random salt is a parameter. Only the 72-byte guard of `createHashPassword` is code.
- Clock: `Date.now()` and `new Date().getTime()` are the `nowMs` parameter. JWT times are that value divided by 1000.
- Storage: Mongoose is a sequence of users with lookups by exact id and email, and a map of projects. Casting of ids, timestamps, schema defaults other than the project title and pictures, and the `updateUser` and query internals are not modelled.
- Unread helpers: `findUserById`, `findUserByEmail`, `removeSensitiveData`, `updateUser` and `getProjectsOfUserNoJSON` are not among the source files read. Each is modelled by what its name and its callers imply. The project list handler takes the query's answer as a parameter.
- Other handlers: `registerController`, `getUserInfoController`, `getUserInfoByIdController` and `verifyEmailWithAccountController` are not modelled. They appear only as routes where the guard chain is stated.
- Unseen configuration: `passwordRegex` is a predicate parameter. `msgObj` is the `Message` body. The secrets, expiry times and cookie options of `authConfig` are the `AuthConfig` parameter.
- Mail transport: SMTP, the HTML templates and mail failures are not modelled. `sendMail` appends to an outbox. A verification mail whose signing fails is the controller's 500 path.
- The unawaited `sendPasswordResetEmail` call is modelled as building its mail synchronously. Its failures can never reach the response, which is always 200.
- Unhandled rejection: for an unknown email `EmailService.sendPasswordResetEmail` rejects, and nothing catches it, because the call at `src/controllers/authController.ts:185` is not awaited and `src/index.ts` and `src/app.ts` install no `unhandledRejection` handler. Under Node's default since version 15 the process then exits, and the restart empties the in-memory `invalidatedRefreshTokenSet`, so every refresh token revoked before becomes valid again. The model has no process lifetime, and the Node version is not recorded in the repository, so this is not modelled.
- Files and images: disk access (`removeSingleFile`, `fs.unlink`), multer, `downloadImage`, `checkMimeType`, the remove-bg call and `handleAxiosError`/`handleGeneralError` are not modelled. `updateFile` returns the path it would remove.
- `removeBackground` models only the names it derives and its 400 check, not the download, conversion and rename steps.
- Concurrency: Node runs each handler to completion, so the revocation set and the stores are updated in sequence.
- Wiring: `src/index.ts` and `src/app.ts` are not modelled. `projectRouter` is never mounted in `src/app.ts`, which mounts only `/auth` and `/user`.
- JavaScript values: only the JSON shapes the handlers read are covered. Numbers are integers, `toLowerCase` is ASCII-only, `trim` uses the JavaScript whitespace set, and `$` patterns in `String.prototype.replace` are not interpreted.
- Error texts: the messages of runtime TypeErrors that reach a response through `error.message` are written out as V8 phrases them. Examples are reading `passwordHash` of null, and `trim` of a non-string.
- Cookies: the browser jar keeps one cookie per name. Expiry attributes and `Max-Age` are not modelled.
- TokenService.VerifyToken: its own contract states the revocation, secret and type checks only. The round trip and expiry are stated by `VerifySignedToken` and `VerifyExpiredToken`.
- TokenService.KindConfusionRejected: holds only when the two kinds' secrets differ, because the code checks secrets, not kinds; `KindConfusionAccepted` states the case of equal secrets.
- TokenService.StampedClaims: overwrites an `iat` already in the payload and adds `exp` over one already there. jsonwebtoken keeps a truthy `payload.iat` and refuses a payload holding `exp` when `expiresIn` is set. The core's payloads (`{id, timestamp}`, `{_id}`, `{_id, passwordHash}`) carry neither claim.
- NodePath.ExtName: its own contract says only that an extension is empty or starts with a dot. Its content is stated by `ExtNameIsSuffix` and `ExtNameOf`.
- NodePath.Basename: its contract does not restate Node's handling of trailing slashes. What the model relies on is stated by `BasenameAfterSlash`.
- Users.HashLengthBounds: states the 72-byte guard through character counts, since a character encodes to between one and four bytes.
- ProjectController.Updated: an `owner` that is not a string and `pictures` that are not an array of strings are treated as absent. Mongoose would cast them (a single string becomes a one-element array) or fail validation. The same goes for a `title` or `projectJSON` that is a number or a boolean, which Mongoose's String cast would turn into its text, and for a `null` title or `projectJSON`, which the update would `$set` to null.
- ProjectController.ProjectStore.CreateProject: the 500 message for a taken id is only the start of MongoDB's duplicate-key message, "E11000 duplicate key error"; the collection, index and key that MongoDB appends are not modelled.
- ProjectController.NewProject: the same holds for the body's `pictures`, and for a number or boolean `title` or `projectJSON`, which Mongoose would cast to its text; such a title gets the default "". A `null` title, which Mongoose would store as null instead of applying the default, and a `null` `projectJSON` are treated as absent. A string `_id` is used as it is; the ObjectId cast that refuses other strings, and `_id` values that are not strings, are not modelled.
- AuthController.SameHash: models `!=` between the stored hash and the snapshot for the values the snapshot can hold (a string, or `undefined`/`null`). The coercions loose equality applies to numbers, booleans and objects are not modelled, since the snapshot is signed from the stored hash.
- Routing: only the route shapes the core uses are matched (literal and `:param` segments). Query strings, trailing slashes, case-insensitive matching and `next("route")` are not modelled.

## Findings

| source | as written | input that shows it | evidently intended | confidence | as-written member | corrected member |
|---|---|---|---|---|---|---|
| src/controllers/authController.ts:23-24 | `POST /verify-email/:token` is registered before `POST /verify-email/send-email` | `POST /auth/verify-email/send-email` runs `verificateEmail` with token "send-email" | the literal route first, as done for `/password-reset` at lines 25-26 | not executed; high | AuthController.SendVerificationShadowedAsWritten | AuthController.SendVerificationReachable |
| src/helpers/uploadImages.ts:55 | `formats[format.toLowerCase()]` also finds keys inherited from `Object.prototype` | format "constructor" returns the `Object` function instead of a MIME type | an own-key lookup with the image/png fallback | not executed; medium | UploadImages.GetMimeTypeAsWrittenLeaksPrototype | UploadImages.GetMimeType |
| src/controllers/projectController.ts:172-175 | `name.replace(path.extname(name), "." + format)` replaces the first occurrence, and an empty extension matches at position 0 | "new-photo" gives ".pngnew-photo"; "new-a.png.png" to jpg gives "new-a.jpg.png" | replace the extension at the end, or append one when there is none | not executed; high | ProjectController.OutputNameAsWrittenPrepends | ProjectController.OutputNameReplacesExtension |

# Account lifecycle of the NestJS admin boilerplate, in Dafny

This project models the authentication core of the boilerplate. An admin
account is created by an invitation (`send_email`), confirms its email, sets a
password, and is then provisioned with a TOTP second factor. It can verify or
toggle that factor, log in, and recover a forgotten password through a reset
link. The model covers:

- the `admins` table: the `Account` row, the mutable `User` entity, and its
  outward `toJSON`/`toDto` form (`UserEntity`);
- `UsersService`: the read-modify-write updates of that table, as a class over
  a `map` from email to row (`UserStore`);
- `AuthService`: every flow, as a class whose methods run the same steps
  against the store (`AuthEngine`). Each method is proved to return the answer
  and leave the table that a pure function of the same name in `AuthSpec`
  computes. The properties of the flows are lemmas about those functions
  (`AuthProperties`);
- the request validators: the email and password regular expressions,
  written as predicates over characters (`Patterns`), and the payloads that
  use them (`ConfirmationPayloads`, `AuthDtos`).

Every failure the services raise themselves is an `HttpException` that
carries one of the fixed `ResponseMessage`/`ResponseCode` constants
(`Responses`). The one other failure is `QueryFailed`: the database refuses
to insert an email longer than its 255-character column, which `createAdmin`
and `sendEmail` pass on.

Some parts are kept abstract:

- Password hashing is a salted function together with a compare relation
  (`Hashing`). The salt is a parameter. As with bcrypt, the salt is part of
  the hash, so hashes made with different salts differ.
- The TOTP code check is an oracle over key, code and time (`Totp`). The key
  that `generateKey()` would produce is a parameter.
- A signed JWT is the record of its claims `Token(uuid, email, subject,
  expiry)` (`Tokens`). A token verifies when it has not expired and carries the
  demanded subject.
- The clock is a parameter `now` measured in seconds.

The point of the reset-link design is proved: a link's subject is the signing
secret followed by the account's current password hash. So a link works until
it expires, but only as long as that hash is unchanged.

Decisions where the code is followed literally:

- `createToken` treats its `subject` argument only as a switch: when the
  argument is truthy, the subject is always `secret + user.password`.
- A missing password prints as `null` in that concatenation. So an account
  that never set a password receives a reset link that can never work
  (`AuthProperties.NoPasswordResetLinkNeverWorks`).
- `generateToTpURI` keeps an existing key and leaves `twoFa` alone. So setting
  a password again after two-factor was toggled off does not switch it back
  on. Only a freshly generated key switches it on.
- `toggle2FA` needs an accepted code but not an enabled factor.
- `toJSON`/`toDto` (src/modules/user/user.entity.ts:36-44) remove only
  `password`. The login response (src/modules/auth/auth.controller.ts:107-112
  returns `createToken(user)`, whose bundle carries the entity,
  src/modules/auth/auth.service.ts:104) and `/me`
  (src/modules/auth/auth.controller.ts:164-168) therefore serialize
  `twoFaKey`, the TOTP secret. The model follows the code and records this
  under Findings.
- `JWT_TIME_FORGOT_PASSWORD` is read as a string, so any non-empty value is
  truthy and is passed to `sign` as the lifetime. A value of "0" gives reset
  links that have expired when they are issued
  (`AuthProperties.ResetLinkExpires`).

## Model

| member | source | states |
|---|---|---|
| UserEntity.User.constructor | src/modules/user/user.entity.ts:7-34 | a new entity has no key yet, no password, no 2FA key and both flags false |
| UserEntity.User.FromDto | src/modules/user/user.entity.ts:46-50 | copies only the email from the payload and returns the same object |
| UserEntity.Public | src/modules/user/user.entity.ts:36-44 | the form `toJSON` and `toDto` return: every column of the row except `password` |
| UserEntity.PublicForgetsOnlyPassword | src/modules/user/user.entity.ts:36-44 | two rows have the same outward form exactly when they differ at most in their password |
| UserEntity.PublicExposesTwoFaKey | src/modules/user/user.entity.ts:36-44 | the outward form, as written, carries the stored 2FA key |
| UserEntity.RedactedHidesSecrets | src/modules/user/user.entity.ts:36-44 | the corrected outward form forgets the password and the 2FA key and nothing else |
| UserStore.CreateOutcome | src/modules/user/user.service.ts:52-63 | a taken email fails with USER_ALREADY_EXISTS/400 and leaves the table unchanged; an email that fits its 255-character column adds exactly one row with a key no other row has and default columns; the store invariant (rows keyed by their email, distinct keys) is kept |
| UserStore.ResetPasswordOutcome | src/modules/user/user.service.ts:71-83 | an unknown email fails with USER_DOES_NOT_EXIST/404 and changes nothing; a known one always succeeds, and only that row's password becomes the new hash, and the row returned is the one read before the update |
| UserStore.SavePreservesInvariant | src/modules/user/user.service.ts:38 | writing an entity back under its own email and key keeps the store invariant |
| UserStore.EmailStatusIdempotent | src/modules/user/user.service.ts:90-94 | after `updateEmailStatus` the stored email is confirmed and the store invariant holds; a second call on the saved entity leaves the table as the first left it |
| UserStore.ToggleInvolutive | src/modules/user/user.service.ts:101-105 | `toggle2FA` on a stored entity changes the table; a second call on the saved entity restores the table |
| UserStore.ToggleLabel | src/modules/user/user.service.ts:104 | the answer is "Enabled" exactly when the new flag is on |
| UserStore.UsersService.Get | src/modules/user/user.service.ts:21-23 | finds the entity with that key when one exists, and returns null exactly when none does |
| UserStore.UsersService.GetByEmail | src/modules/user/user.service.ts:25-27 | returns the stored row of that email, or null exactly when the email is unknown |
| UserStore.UsersService.SetPassword | src/modules/user/user.service.ts:36-39 | the entity's password becomes a fresh hash; the table's row for that email becomes the whole entity; nothing else changes |
| UserStore.UsersService.SetToTpURI | src/modules/user/user.service.ts:41-45 | stores the key and switches two-factor on; nothing else changes |
| UserStore.UsersService.CreateAdmin | src/modules/user/user.service.ts:52-63 | answers and leaves the table exactly as `UserStore.Create` describes |
| UserStore.UsersService.ConfirmForgotPassword | src/modules/user/user.service.ts:71-83 | answers and leaves the table exactly as `UserStore.ResetPassword` describes |
| UserStore.UsersService.UpdateEmailStatus | src/modules/user/user.service.ts:90-94 | sets only the confirmation flag and saves |
| UserStore.UsersService.Save | src/modules/user/user.service.ts:38 | `userRepository.save` on a stored entity writes its whole row back under its email, changes no other row and keeps the store invariant |
| UserStore.UsersService.Insert | src/modules/user/user.service.ts:60-62 | `userRepository.save` on a new entity answers and leaves the table as `UserStore.Create` describes for a free email: `QueryFailed` for an email longer than 255 characters, otherwise the next key is assigned and one row added |
| UserStore.UsersService.Toggle2FA | src/modules/user/user.service.ts:101-105 | negates only the flag, saves, and answers "Enabled" exactly when it is now on |
| Tokens.JsTextCollisions | src/modules/auth/auth.service.ts:100 | two password columns bind the same subject only when they are equal, or one is null and the other is the text "null" |
| Tokens.Verify | src/modules/auth/auth.service.ts:175 | `jwtService.verify(token, { subject })`: the token verifies when it has not expired and, when the demanded subject is non-empty, carries it; an empty demanded subject is not checked |
| Totp.FormatKey | src/modules/auth/auth.service.ts:202 | the formatted key has no whitespace and no lower-case letter and is no longer than the input |
| Totp.FormatKeyFixes | src/modules/auth/auth.service.ts:202 | formatting leaves a key unchanged exactly when it is already formatted |
| Totp.FormatKeyIdempotent | src/modules/auth/auth.service.ts:202 | formatting twice is formatting once |
| AuthProperties.SendEmailOutcome | src/modules/auth/auth.service.ts:26-32 | a known email changes nothing and still gets a token; an unknown one is registered exactly when it fits its 255-character column, and otherwise gets QueryFailed with the table unchanged; a registered email gets a default row under the next key, with every other row unchanged; the token is for that email and its row's key, with no subject and the default lifetime; the flow invariant holds and nothing is undone |
| AuthProperties.SendEmailTwice | src/modules/auth/auth.service.ts:26-32 | a second invitation for the same email registers nothing and hands out a token for the same account |
| AuthProperties.CreateKeepsInvariant | src/modules/user/user.service.ts:52-63 | registering keeps the flow invariant and undoes nothing |
| AuthProperties.ConfirmEmailOutcome | src/modules/auth/auth.service.ts:39-48 | an unknown email gets INVALID_EMAIL/400; a known, already confirmed email gets EMAIL_LINK_EXPIRED/400; success happens exactly on a known, unconfirmed email and sets only that flag; a failure changes nothing |
| AuthProperties.ConfirmEmailTwice | src/modules/auth/auth.service.ts:42-46 | a second confirmation is refused with EMAIL_LINK_EXPIRED/400 |
| AuthProperties.GenerateToTpUriOutcome | src/modules/auth/auth.service.ts:200-214 | a truthy stored key is kept and nothing is written; otherwise the formatted fresh key is stored and two-factor switched on; the stored key is the answered one, it is formatted, and the URI uses it, the email, the app name, SHA1, 6 digits and 30 seconds; no other row and no other column changes |
| AuthProperties.SetPasswordOutcome | src/modules/auth/auth.service.ts:55-60 | an unknown email gets INVALID_EMAIL/400 and changes nothing; a known one always succeeds: the password becomes the new hash and logs in, the stored key is the answered one, the URI names the email, two-factor is switched on only when the key was just generated, and no other row, nor the key, email or confirmation of this one, changes |
| AuthProperties.SetPasswordKeepsInvariant | src/modules/auth/auth.service.ts:55-60 | setting a password keeps the flow invariant and undoes nothing |
| AuthProperties.SetPasswordTwice | src/modules/auth/auth.service.ts:55-60 | a second call keeps the non-empty key of the first; with a new salt it stores a different hash of the same password; the newest password logs in |
| AuthProperties.Verify2FAOutcome | src/modules/auth/auth.service.ts:67-77 | nothing changes; the checks run in order: unknown email INVALID_EMAIL, factor off TWOFACTOR_DISABLED whatever the code, rejected code INVALID_2FA_CODE; otherwise a login token |
| AuthProperties.Toggle2FAOutcome | src/modules/auth/auth.service.ts:80-88 | an unknown email gets INVALID_EMAIL/400, a refused code INVALID_2FA_CODE/400; succeeds exactly on a known email with an accepted code, whether or not the factor is on; negates only the flag; answers "Enabled" exactly when it is now on |
| AuthProperties.Toggle2FATwice | src/modules/auth/auth.service.ts:80-88 | two accepted toggles restore the table and give opposite answers |
| AuthProperties.CreateTokenClaims | src/modules/auth/auth.service.ts:90-106 | the claims are the user's key and email; the lifetime is the argument when it is truthy (the environment text "0" included) and the default otherwise; a truthy subject argument binds secret and password column whatever it says, and a falsy one leaves the subject empty |
| AuthProperties.ValidateUserOutcome | src/modules/auth/auth.service.ts:127-143 | answers with the stored row exactly when the password matches its hash; an unknown email and a wrong password get the same INVALID_USERNAME_OR_PASSWORD/400 |
| AuthProperties.NoPasswordNoLogin | src/modules/auth/auth.service.ts:135-141 | an account without a password cannot log in |
| AuthProperties.ForgotPasswordOutcome | src/modules/auth/auth.service.ts:150-169 | an unknown email gets EMAIL_NOT_REGISTERED/404; a known one always gets a link, for that account, bound to its password when it has one, and lives the forgot-password lifetime when that variable is set, even to "0", and the default one otherwise |
| AuthProperties.BoundSubjectNonEmpty | src/modules/auth/auth.service.ts:174 | the subject a reset link is checked against is never empty |
| AuthProperties.CheckPasswordLinkExpiryOutcome | src/modules/auth/auth.service.ts:171-183 | a link is accepted exactly when it decodes, is unexpired and carries the subject of the account's current password; every failure gets RESET_PASSWORD_LINK_EXPIRED/404 |
| AuthProperties.ResetLinkAccepted | src/modules/auth/auth.service.ts:150-183 | a mailed link is accepted until it expires, by any later table where that password column is unchanged |
| AuthProperties.ResetLinkExpires | src/modules/auth/auth.service.ts:150-183 | a mailed link is refused with RESET_PASSWORD_LINK_EXPIRED/404 once its expiry is reached, whatever the table is by then |
| AuthProperties.ResetLinkRevoked | src/modules/auth/auth.service.ts:171-183 | once the password column holds a different hash, the old link is refused |
| AuthProperties.LoginTokenIsNoResetLink | src/modules/auth/auth.service.ts:90-106 | a token without a subject (invitation, 2FA and login tokens) is never accepted as a reset link |
| AuthProperties.NoPasswordResetLinkNeverWorks | src/modules/auth/auth.service.ts:153-157 | the link mailed to an account without a password is never accepted |
| AuthProperties.ConfirmForgotPasswordOutcome | src/modules/auth/auth.service.ts:191-194 | an unknown email gets USER_DOES_NOT_EXIST/404 and changes nothing; a known one always succeeds, only its password changes, the new password logs in, and the flow invariant holds |
| AuthProperties.ResetLinkSingleUse | src/modules/auth/auth.service.ts:171-194 | after a reset with a new salt, to any password, the link used for it is refused, because the salt is part of the stored hash |
| AuthProperties.InviteThenSetPassword | test/auth/auth.e2e.spec.ts:34-51 | the test's order: `sendEmail` on a new email, then at once `setPassword`, both succeed; the password then logs in, two-factor is on and the email is still unconfirmed |
| AuthProperties.RegistrationScenario | src/modules/auth/auth.service.ts:26-60 | invitation, confirmation and set-password all succeed in that order on a new email, after which the password logs in, the email is confirmed and two-factor is on |
| AuthProperties.UpdateIsMonotone | src/modules/user/user.service.ts:36-105 | a row update that keeps the key and undoes no column is monotone (no account removed, no confirmation reset, no password or key cleared, no truthy key replaced) |
| AuthEngine.AuthService.CreateToken | src/modules/auth/auth.service.ts:90-106 | computes the bundle `AuthSpec.CreateToken` describes |
| AuthEngine.AuthService.SendEmail | src/modules/auth/auth.service.ts:26-32 | answers and leaves the table as `AuthSpec.SendEmail` describes, and queues exactly one confirmation mail exactly when it succeeds |
| AuthEngine.AuthService.ConfirmEmail | src/modules/auth/auth.service.ts:39-48 | answers and leaves the table as `AuthSpec.ConfirmEmail` describes |
| AuthEngine.AuthService.SetPassword | src/modules/auth/auth.service.ts:55-60 | answers and leaves the table as `AuthSpec.SetPassword` describes |
| AuthEngine.AuthService.GenerateToTpURI | src/modules/auth/auth.service.ts:200-214 | answers and leaves the table as `AuthSpec.GenerateToTpUri` describes |
| AuthEngine.AuthService.Verify2FA | src/modules/auth/auth.service.ts:67-77 | answers as `AuthSpec.Verify2FA` describes and changes nothing |
| AuthEngine.AuthService.Toggle2FA | src/modules/auth/auth.service.ts:80-88 | answers and leaves the table as `AuthSpec.Toggle2FA` describes |
| AuthEngine.AuthService.RegisterAdmin | src/modules/auth/auth.service.ts:113-125 | answers and leaves the table as `createAdmin` does |
| AuthEngine.AuthService.ValidateUser | src/modules/auth/auth.service.ts:127-143 | answers as `AuthSpec.ValidateUser` describes and changes nothing |
| AuthEngine.AuthService.ForgotPassword | src/modules/auth/auth.service.ts:150-169 | fails exactly on an unknown email, and otherwise queues one reset mail carrying the link `AuthSpec.ForgotPassword` describes |
| AuthEngine.AuthService.CheckPasswordLinkExpiry | src/modules/auth/auth.service.ts:171-183 | answers as `AuthSpec.CheckPasswordLinkExpiry` describes and changes nothing |
| AuthEngine.AuthService.ConfirmForgotPassword | src/modules/auth/auth.service.ts:191-194 | answers and leaves the table as `AuthSpec.ConfirmForgotPassword` describes |
| Patterns.EmailAccepted | src/modules/auth/confirmation.payload.ts:10-16 | the two `@Matches` patterns on the email field: the first pattern's shape, and no doubled `-`, `_` or `.` and no line terminator |
| Patterns.PasswordAccepted | src/modules/auth/confirmation.payload.ts:19-26 | the password pattern: 8 to 50 characters from letters, digits and the listed symbols, with at least one lower-case letter, one upper-case letter, one digit and one symbol |
| Patterns.EmailShapeFacts | src/modules/auth/confirmation.payload.ts:11 | an email of the accepted shape starts with a letter, has a local part of at least two characters ending in an alphanumeric before its first `@`, ends in two alphanumerics, and is at least 9 characters long |
| Patterns.DomainPartEnding | src/modules/auth/confirmation.payload.ts:11 | an accepted domain part is at least 6 characters long and ends in two alphanumerics |
| Patterns.NoDoubleSeparatorAt | src/modules/auth/confirmation.payload.ts:14 | the second email pattern holds exactly when no line terminator occurs and no `-`, `_` or `.` is followed by another |
| Patterns.EmailNoDoubleSeparator | src/modules/auth/confirmation.payload.ts:14 | in an accepted email, no `-`, `_` or `.` is followed by another |
| Patterns.AcceptedWithOneLabel | src/modules/auth/confirmation.payload.ts:11-16 | a local part, one label of 3 to 30 characters followed by any character, and a 2 to 5 character ending make an accepted email |
| Patterns.DotlessDomainAccepted | src/modules/auth/confirmation.payload.ts:11 | because the dot is unescaped, an email with no dot in its domain ("ab@abcdefgh") is accepted |
| Patterns.ShortLocalPartRefused | src/modules/auth/confirmation.payload.ts:11 | a one-character local part ("a@x.com") is refused |
| Patterns.TestEmailAccepted | test/auth/auth.e2e.spec.ts:43 | the test's email is accepted |
| Patterns.HelperEmailAccepted | test/helper.ts:19 | the helper's email is accepted |
| Patterns.DoubleDotRefused | src/modules/auth/confirmation.payload.ts:14 | an email with two dots in a row is refused |
| Patterns.TestPasswordAccepted | test/auth/auth.e2e.spec.ts:44 | the test's password "Testing193!" meets the password policy |
| Patterns.HelperPasswordAccepted | test/helper.ts:56 | the helper's password "Test@1234" meets the password policy |
| Patterns.WeakPasswordsRefused | src/modules/auth/confirmation.payload.ts:21 | a password without an upper-case letter, and one shorter than 8 characters, are refused |
| ConfirmationPayloads.Accepted | src/modules/auth/confirmation.payload.ts:7-30 | the `ConfirmationPayload` validators: a non-empty email passing both patterns, a password meeting the policy, and a confirmation equal to the password |
| ConfirmationPayloads.AcceptedMeans | src/modules/auth/confirmation.payload.ts:7-30 | a payload is accepted exactly when its email passes both patterns, its password meets the policy and its confirmation equals it; an accepted password has 8 to 50 characters |
| ConfirmationPayloads.TestPayloadAccepted | test/auth/auth.e2e.spec.ts:42-46 | the test's set-password body is accepted |
| ConfirmationPayloads.MismatchRefused | src/modules/auth/confirmation.payload.ts:28-29 | a confirmation that differs from the password is refused |
| AuthDtos.TwoFactorAccepted | src/modules/auth/commons/auth.dtos.ts:4-17 | the `TwoFactorPayload` validators: a non-empty code and an email passing both patterns |
| AuthDtos.ToggleTwoFactorAccepted | src/modules/auth/commons/auth.dtos.ts:18-31 | the `ToggleTwoFactorPayload` validators: a non-empty code and an email passing both patterns |
| AuthDtos.ConfirmEmailAccepted | src/modules/auth/commons/auth.dtos.ts:32-42 | the `ConfrimEmailPayload` validators: an email passing both patterns |
| AuthDtos.SameEmailRule | src/modules/auth/commons/auth.dtos.ts:4-42 | both 2FA payloads need a non-empty code and an accepted email; for the same email and a non-empty code, all three payloads are accepted or refused together |
| AuthDtos.AcceptedEmailFacts | src/modules/auth/commons/auth.dtos.ts:32-42 | an accepted email starts with a letter, has an alphanumeric before its first `@`, ends in two alphanumerics, and has no doubled `-`, `_` or `.` |

## Left out

- The HTTP controller, routing, guards, logging, and the passport strategy that picks the current user from a token.
- Mail delivery. `MailService` is modelled as a queue of the mails the service asks it to send.
- The TypeORM repository as SQL. The table is a map from email to row. The generated uuid is a counter starting at 1.
- The 255-character width of the `password` and `twoFaKey` columns. Only the email width is modelled: an insert of a longer email fails as a query error.
- bcrypt, the TOTP algorithm, JWT signing and encoding, and the otpauth URI text. They are kept abstract as described above.
- The behaviour of `Hash.compare` on a null hash and of `verifyToken` on a null key. Both libraries are external. Both are modelled as "no match", which gives the flow's own error.
- Parsing of lifetimes written as strings such as "1h". Lifetimes are whole seconds.
- A lifetime given as a non-numeric string is not modelled.
- Clocks, salts and `generateKey()`. They are parameters.
- `@IsEmail()` and `TrimStringsPipe`. Their implementations are not part of this model. Only the visible patterns are modelled.
- JavaScript strings are UTF-16 and the model's are sequences of code points. Upper-casing is modelled for ASCII letters only.
- Concurrent requests. Every flow runs alone.
- The promise plumbing of `registerAdmin`.
- The object-rest copies of `toJSON` and `toDto` are modelled as a record type without the password field, not as dynamic objects.

## Findings

| source | as written | input that shows it | evidently intended | confidence | as-written member | corrected member |
|---|---|---|---|---|---|---|
| src/modules/user/user.entity.ts:36-44 | `toJSON` and `toDto` remove only `password`, so the TOTP secret `twoFaKey` is part of every serialized entity, including the login response (src/modules/auth/auth.controller.ts:107-112) and `/me` (src/modules/auth/auth.controller.ts:164-168); whoever reads either can generate valid second-factor codes | any account after `set_password`, e.g. one with `twoFaKey` "JBSWY3DPEHPK3PXP" | the outward form hides both credentials: the password is stripped because it is a secret, and the TOTP key is as much a credential as the password | medium, not executed | UserEntity.PublicExposesTwoFaKey | UserEntity.RedactedHidesSecrets |

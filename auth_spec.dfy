/** The authentication flows of src/modules/auth/auth.service.ts as functions
    from the account table (and the inputs the flows read from the outside:
    the clock, the random salt, the random key) to a result and the new table. */
module AuthSpec {
  import opened Wrappers
  import opened Responses
  import opened Hashing
  import opened Totp
  import opened AuthDtos
  import opened ConfirmationPayloads
  import opened UserEntity
  import opened UserStore
  import opened Tokens

  /** The environment the service reads: `JWT_SECRET_KEY`,
      `JWT_EXPIRATION_TIME` (seconds), `JWT_TIME_FORGOT_PASSWORD` and
      `APP_NAME`. An environment variable is a string, so `forgotTtl` is None
      only when the variable is unset or empty; `Some(0)` is the truthy text
      "0", a lifetime of zero seconds. */
  datatype Config = Config(secret: string, expiration: nat, forgotTtl: Option<nat>, appName: string)

  /** What `createToken` returns. */
  datatype TokenBundle = TokenBundle(expiresIn: nat, accessToken: Token, user: Account)

  /** What `generateToTpURI` returns. */
  datatype Provisioning = Provisioning(toTpURI: TotpUri, formattedKey: string)

  /** The subject a reset link is bound to: the secret followed by the
      password column as JavaScript prints it. */
  function BoundSubject(cfg: Config, a: Account): string
  {
    cfg.secret + JsText(a.password)
  }

  /** `createToken(user, expiryTime, subject)` at time `now`: a truthy
      `subject` argument only switches the binding on, the subject itself is
      always derived from the user's password column. `expiryTime` is None
      for a falsy argument (missing, empty text or the number 0), which falls
      back to the default lifetime, and `Some(n)` for a truthy one naming `n`
      seconds; the only caller that passes one passes an environment string,
      for which "0" is truthy. */
  function CreateToken(cfg: Config, user: Account, now: int, expiryTime: Option<nat>, subject: Option<string>): TokenBundle
  {
    var lifetime := if expiryTime.Some? then expiryTime.value else cfg.expiration;
    var sub := if Truthy(subject) then BoundSubject(cfg, user) else "";
    TokenBundle(cfg.expiration, Token(user.uuid, user.email, sub, now + lifetime), user)
  }

  /** `sendEmail`: an existing account gets a fresh token; an unknown email is
      first registered. */
  function SendEmail(cfg: Config, s: Store, payload: RegisterPayload, now: int): Step<Token>
  {
    if payload.email in s.accounts then
      Step(Ok(CreateToken(cfg, s.accounts[payload.email], now, None, None).accessToken), s)
    else
      var c := Create(s, payload.email);
      if c.result.Err? then Step(Err(c.result.error), c.after)
      else Step(Ok(CreateToken(cfg, c.result.value, now, None, None).accessToken), c.after)
  }

  /** `confirmEmail`: an unknown email and an email already confirmed are
      refused; otherwise the flag is set. */
  function ConfirmEmail(s: Store, payload: ConfrimEmailPayload): Step<Account>
  {
    if payload.email !in s.accounts then Step(Err(HttpException(InvalidEmail, BadRequest)), s)
    else
      var a := s.accounts[payload.email];
      if a.emailConfirmed then Step(Err(HttpException(EmailLinkExpired, BadRequest)), s)
      else
        var a' := a.(emailConfirmed := true);
        Step(Ok(a'), s.(accounts := s.accounts[payload.email := a']))
  }

  /** `generateToTpURI(user)` on an entity `a` that is stored: a truthy stored
      key is kept, otherwise `freshKey` (what `generateKey()` returns) is
      formatted, stored and two-factor switched on; the entity saved is `a`
      with those two columns changed. */
  function GenerateToTpUri(cfg: Config, s: Store, a: Account, freshKey: string): Step<Provisioning>
  {
    var key := if Truthy(a.twoFaKey) then a.twoFaKey.value else freshKey;
    var formattedKey := FormatKey(key);
    var after := if Truthy(a.twoFaKey) then s
                 else s.(accounts := s.accounts[a.email := a.(twoFaKey := Some(formattedKey), twoFa := true)]);
    Step(Ok(Provisioning(TotpUri(formattedKey, a.email, cfg.appName, "SHA1", 6, 30), formattedKey)), after)
  }

  /** `setPassword`: an unknown email is refused; otherwise the password
      column becomes a fresh hash and the entity, as changed, is provisioned. */
  function SetPassword(cfg: Config, h: Hasher, s: Store, payload: ConfirmationPayload, salt: nat, freshKey: string): Step<Provisioning>
  {
    if payload.email !in s.accounts then Step(Err(HttpException(InvalidEmail, BadRequest)), s)
    else
      var a := s.accounts[payload.email].(password := Some(h.make(payload.password, salt)));
      GenerateToTpUri(cfg, s.(accounts := s.accounts[payload.email := a]), a, freshKey)
  }

  /** `verifyToken(twoFaKey, code)`: a missing key accepts no code. */
  predicate KeyAccepts(totp: Oracle, key: Option<string>, code: string, now: int)
  {
    key.Some? && totp(key.value, code, now)
  }

  /** `verify2FA`: refuses an unknown email, then a disabled second factor,
      then a wrong code; otherwise issues a token and changes nothing. */
  function Verify2FA(cfg: Config, totp: Oracle, s: Store, payload: TwoFactorPayload, now: int): Step<Token>
  {
    if payload.email !in s.accounts then Step(Err(HttpException(InvalidEmail, BadRequest)), s)
    else
      var a := s.accounts[payload.email];
      if !a.twoFa then Step(Err(HttpException(TwoFactorDisabled, BadRequest)), s)
      else if !KeyAccepts(totp, a.twoFaKey, payload.code, now) then Step(Err(HttpException(Invalid2FACode, BadRequest)), s)
      else Step(Ok(CreateToken(cfg, a, now, None, None).accessToken), s)
  }

  /** `toggle2FA`: refuses an unknown email, then a wrong code; otherwise
      negates the flag and answers with its new state. */
  function Toggle2FA(totp: Oracle, s: Store, payload: ToggleTwoFactorPayload, now: int): Step<string>
  {
    if payload.email !in s.accounts then Step(Err(HttpException(InvalidEmail, BadRequest)), s)
    else
      var a := s.accounts[payload.email];
      if !KeyAccepts(totp, a.twoFaKey, payload.code, now) then Step(Err(HttpException(Invalid2FACode, BadRequest)), s)
      else
        var a' := a.(twoFa := !a.twoFa);
        Step(Ok(ToggleLabel(a'.twoFa)), s.(accounts := s.accounts[payload.email := a']))
  }

  /** `registerAdmin`: `createAdmin`, whose token is discarded. */
  function RegisterAdmin(s: Store, payload: RegisterPayload): Step<Account>
  {
    Create(s, payload.email)
  }

  /** `validateUser`: the stored account when the password matches its hash;
      an unknown email and a wrong password get the same answer. */
  function ValidateUser(h: Hasher, s: Store, payload: LoginPayload): Result<Account, Error>
  {
    if payload.email in s.accounts && Matches(h, payload.password, s.accounts[payload.email].password)
    then Ok(s.accounts[payload.email])
    else Err(HttpException(InvalidUsernameOrPassword, BadRequest))
  }

  /** `forgotPassword`: the token mailed to a registered account, bound to its
      current password column and living `JWT_TIME_FORGOT_PASSWORD`. */
  function ForgotPassword(cfg: Config, s: Store, email: string, now: int): Result<Token, Error>
  {
    if email in s.accounts then
      var a := s.accounts[email];
      Ok(CreateToken(cfg, a, now, cfg.forgotTtl, a.password).accessToken)
    else Err(HttpException(EmailNotRegistered, NotFound))
  }

  /** `checkPasswordLinkExpiry`: every failure (unknown email, token that does
      not decode, wrong subject, expiry) gets the same answer. */
  function CheckPasswordLinkExpiry(cfg: Config, s: Store, email: string, token: Option<Token>, now: int): Result<(), Error>
  {
    if email in s.accounts && token.Some? && Verify(token.value, BoundSubject(cfg, s.accounts[email]), now)
    then Ok(())
    else Err(HttpException(ResetPasswordLinkExpired, NotFound))
  }

  /** `confirmForgotPassword`: the store's update, result discarded. */
  function ConfirmForgotPassword(h: Hasher, s: Store, email: string, password: string, salt: nat): Step<()>
  {
    var o := ResetPassword(h, s, email, password, salt);
    Step(if o.result.Ok? then Ok(()) else Err(o.result.error), o.after)
  }

  /** What holds of every table the flows produce: the store's own invariant,
      two-factor on only with a key, every key as `generateToTpURI` formats
      it, and no empty hash. */
  ghost predicate Invariant(s: Store)
  {
    && StoreInvariant(s)
    && (forall e :: e in s.accounts ==>
          && (s.accounts[e].twoFa ==> s.accounts[e].twoFaKey.Some?)
          && (s.accounts[e].twoFaKey.Some? ==> Formatted(s.accounts[e].twoFaKey.value))
          && (s.accounts[e].password.Some? ==> s.accounts[e].password.value != ""))
  }

  /** What no flow ever undoes: accounts are never removed, their keys never
      change, a confirmed email stays confirmed, a stored password or 2FA key
      is never cleared and a truthy 2FA key is never replaced. */
  ghost predicate Monotone(s: Store, s': Store)
  {
    && s.accounts.Keys <= s'.accounts.Keys
    && s.nextUuid <= s'.nextUuid
    && (forall e :: e in s.accounts ==>
          && s'.accounts[e].uuid == s.accounts[e].uuid
          && (s.accounts[e].emailConfirmed ==> s'.accounts[e].emailConfirmed)
          && (s.accounts[e].password.Some? ==> s'.accounts[e].password.Some?)
          && (s.accounts[e].twoFaKey.Some? ==> s'.accounts[e].twoFaKey.Some?)
          && (Truthy(s.accounts[e].twoFaKey) ==> s'.accounts[e].twoFaKey == s.accounts[e].twoFaKey))
  }
}

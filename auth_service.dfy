/** The `AuthService` class of src/modules/auth/auth.service.ts: each method
    does what the source does, step by step, against the account store, and
    is proved to end in the state and with the answer its flow in `AuthSpec`
    describes. */
module AuthEngine {
  import opened Wrappers
  import opened Responses
  import opened Hashing
  import opened Totp
  import opened AuthDtos
  import opened ConfirmationPayloads
  import opened UserEntity
  import opened UserStore
  import opened Tokens
  import AuthSpec
  import opened AuthProperties

  /** The two messages `MailService` is asked to deliver. */
  datatype MailKind = EmailConfirmation | ForgotPasswordMail

  datatype Mail = Mail(kind: MailKind, recipient: string, token: Token)

  class AuthService {
    const users: UsersService
    const config: AuthSpec.Config
    /** `verifyToken` of the `authenticator` package. */
    const totp: Oracle
    /** The mails handed to `MailService`, oldest first. */
    var outbox: seq<Mail>

    ghost predicate Valid()
      reads this, users
    {
      users.Valid() && AuthSpec.Invariant(users.State()) && Sound(users.hasher)
    }

    constructor (users: UsersService, config: AuthSpec.Config, totp: Oracle)
      requires users.Valid() && AuthSpec.Invariant(users.State()) && Sound(users.hasher)
      ensures Valid() && this.users == users && this.config == config && this.totp == totp && outbox == []
    {
      this.users := users;
      this.config := config;
      this.totp := totp;
      outbox := [];
    }

    /** `createToken(user, expiryTime, subject)` at time `now`. */
    method CreateToken(user: User, now: int, expiryTime: Option<nat>, subject: Option<string>) returns (b: AuthSpec.TokenBundle)
      ensures b == AuthSpec.CreateToken(config, user.Row(), now, expiryTime, subject)
    {
      var lifetime := if expiryTime.Some? then expiryTime.value else config.expiration;
      var sub := "";
      if subject.Some? && subject.value != "" {
        sub := config.secret + (if user.password.Some? then user.password.value else "null");
      }
      var accessToken := Token(user.uuid, user.email, sub, now + lifetime);
      b := AuthSpec.TokenBundle(config.expiration, accessToken, user.Row());
    }

    /** `sendEmail`. */
    method SendEmail(payload: RegisterPayload, now: int) returns (r: Result<Token, Error>)
      requires Valid()
      modifies users`accounts, users`nextUuid, this`outbox
      ensures Valid()
      ensures r == AuthSpec.SendEmail(config, old(users.State()), payload, now).result
      ensures users.State() == AuthSpec.SendEmail(config, old(users.State()), payload, now).after
      ensures outbox == old(outbox) + (if r.Ok? then [Mail(EmailConfirmation, payload.email, r.value)] else [])
    {
      var user := users.GetByEmail(payload.email);
      if user == null {
        CreateKeepsInvariant(users.State(), payload.email);
        var created := users.CreateAdmin(payload);
        if created.Err? {
          return Err(created.error);
        }
        user := created.value;
      }
      var bundle := CreateToken(user, now, None, None);
      outbox := outbox + [Mail(EmailConfirmation, user.email, bundle.accessToken)];
      r := Ok(bundle.accessToken);
    }

    /** `confirmEmail`. */
    method ConfirmEmail(payload: ConfrimEmailPayload) returns (r: Result<User, Error>)
      requires Valid()
      modifies users`accounts
      ensures Valid()
      ensures Snapshot(r) == AuthSpec.ConfirmEmail(old(users.State()), payload).result
      ensures users.State() == AuthSpec.ConfirmEmail(old(users.State()), payload).after
    {
      ghost var s0 := users.State();
      var user := users.GetByEmail(payload.email);
      if user == null {
        return Err(HttpException(InvalidEmail, BadRequest));
      }
      if user.emailConfirmed {
        return Err(HttpException(EmailLinkExpired, BadRequest));
      }
      UpdatePreservesInvariant(s0, s0.accounts[payload.email].(emailConfirmed := true));
      var confirmed := users.UpdateEmailStatus(user);
      r := Ok(confirmed);
    }

    /** `setPassword`. */
    method SetPassword(payload: ConfirmationPayload, salt: nat, freshKey: string) returns (r: Result<AuthSpec.Provisioning, Error>)
      requires Valid()
      modifies users`accounts
      ensures Valid()
      ensures r == AuthSpec.SetPassword(config, users.hasher, old(users.State()), payload, salt, freshKey).result
      ensures users.State() == AuthSpec.SetPassword(config, users.hasher, old(users.State()), payload, salt, freshKey).after
    {
      ghost var s0 := users.State();
      var user := users.GetByEmail(payload.email);
      if user == null {
        return Err(HttpException(InvalidEmail, BadRequest));
      }
      ghost var a := s0.accounts[payload.email].(password := Some(users.hasher.make(payload.password, salt)));
      var _ := users.SetPassword(user, payload.password, salt);
      assert user.Row() == a;
      assert users.State() == s0.(accounts := s0.accounts[payload.email := a]);
      UpdatePreservesInvariant(s0, a);
      var provisioning := GenerateToTpURI(user, freshKey);
      r := Ok(provisioning);
    }

    /** `generateToTpURI(user)` on an entity as it was just read or saved;
        `freshKey` is what `generateKey()` would return. */
    method GenerateToTpURI(user: User, freshKey: string) returns (p: AuthSpec.Provisioning)
      requires Valid() && user.email in users.accounts && users.accounts[user.email] == user.Row()
      modifies users`accounts, user
      ensures Valid()
      ensures Ok(p) == AuthSpec.GenerateToTpUri(config, old(users.State()), old(user.Row()), freshKey).result
      ensures users.State() == AuthSpec.GenerateToTpUri(config, old(users.State()), old(user.Row()), freshKey).after
    {
      GenerateToTpUriOutcome(config, users.State(), user.Row(), freshKey);
      var stored := user.twoFaKey.Some? && user.twoFaKey.value != "";
      var key := if stored then user.twoFaKey.value else freshKey;
      var formattedKey := FormatKey(key);
      if !stored {
        var _ := users.SetToTpURI(user, formattedKey);
      }
      var toTpURI := TotpUri(formattedKey, user.email, config.appName, "SHA1", 6, 30);
      p := AuthSpec.Provisioning(toTpURI, formattedKey);
    }

    /** `verify2FA`: reads only. */
    method Verify2FA(payload: TwoFactorPayload, now: int) returns (r: Result<Token, Error>)
      requires Valid()
      ensures r == AuthSpec.Verify2FA(config, totp, users.State(), payload, now).result
    {
      var user := users.GetByEmail(payload.email);
      if user == null {
        return Err(HttpException(InvalidEmail, BadRequest));
      }
      if !user.twoFa {
        return Err(HttpException(TwoFactorDisabled, BadRequest));
      }
      var verified := user.twoFaKey.Some? && totp(user.twoFaKey.value, payload.code, now);
      if !verified {
        return Err(HttpException(Invalid2FACode, BadRequest));
      }
      var bundle := CreateToken(user, now, None, None);
      r := Ok(bundle.accessToken);
    }

    /** `toggle2FA`. */
    method Toggle2FA(payload: ToggleTwoFactorPayload, now: int) returns (r: Result<string, Error>)
      requires Valid()
      modifies users`accounts
      ensures Valid()
      ensures r == AuthSpec.Toggle2FA(totp, old(users.State()), payload, now).result
      ensures users.State() == AuthSpec.Toggle2FA(totp, old(users.State()), payload, now).after
    {
      ghost var s0 := users.State();
      var user := users.GetByEmail(payload.email);
      if user == null {
        return Err(HttpException(InvalidEmail, BadRequest));
      }
      var verified := user.twoFaKey.Some? && totp(user.twoFaKey.value, payload.code, now);
      if !verified {
        return Err(HttpException(Invalid2FACode, BadRequest));
      }
      ghost var a := s0.accounts[payload.email];
      assert user.email == payload.email;
      var answer := users.Toggle2FA(user);
      assert user.Row() == a.(twoFa := !a.twoFa);
      assert users.State() == s0.(accounts := s0.accounts[payload.email := a.(twoFa := !a.twoFa)]);
      UpdatePreservesInvariant(s0, a.(twoFa := !a.twoFa));
      r := Ok(answer);
    }

    /** `registerAdmin`: the token it creates is discarded. */
    method RegisterAdmin(payload: RegisterPayload, now: int) returns (r: Result<User, Error>)
      requires Valid()
      modifies users`accounts, users`nextUuid
      ensures Valid()
      ensures Snapshot(r) == AuthSpec.RegisterAdmin(old(users.State()), payload).result
      ensures users.State() == AuthSpec.RegisterAdmin(old(users.State()), payload).after
    {
      CreateKeepsInvariant(users.State(), payload.email);
      r := users.CreateAdmin(payload);
      if r.Ok? {
        var _ := CreateToken(r.value, now, None, None);
      }
    }

    /** `validateUser`: reads only. */
    method ValidateUser(payload: LoginPayload) returns (r: Result<User, Error>)
      requires Valid()
      ensures Snapshot(r) == AuthSpec.ValidateUser(users.hasher, users.State(), payload)
    {
      var user := users.GetByEmail(payload.email);
      if user == null {
        return Err(HttpException(InvalidUsernameOrPassword, BadRequest));
      }
      var isValidPassword := user.password.Some? && users.hasher.compare(payload.password, user.password.value);
      if !isValidPassword {
        return Err(HttpException(InvalidUsernameOrPassword, BadRequest));
      }
      r := Ok(user);
    }

    /** `forgotPassword`: mails the reset link to a registered email. */
    method ForgotPassword(email: string, now: int) returns (r: Result<(), Error>)
      requires Valid()
      modifies this`outbox
      ensures Valid()
      ensures var spec := AuthSpec.ForgotPassword(config, users.State(), email, now);
        && (r.Ok? <==> spec.Ok?)
        && (spec.Err? ==> r == Err(spec.error) && outbox == old(outbox))
        && (spec.Ok? ==> outbox == old(outbox) + [Mail(ForgotPasswordMail, email, spec.value)])
    {
      var user := users.GetByEmail(email);
      if user != null {
        var token := CreateToken(user, now, config.forgotTtl, user.password);
        outbox := outbox + [Mail(ForgotPasswordMail, user.email, token.accessToken)];
        return Ok(());
      } else {
        return Err(HttpException(EmailNotRegistered, NotFound));
      }
    }

    /** `checkPasswordLinkExpiry`: `token` is None when the string does not
        decode or its signature is wrong; reads only. */
    method CheckPasswordLinkExpiry(email: string, token: Option<Token>, now: int) returns (r: Result<(), Error>)
      requires Valid()
      ensures r == AuthSpec.CheckPasswordLinkExpiry(config, users.State(), email, token, now)
    {
      var user := users.GetByEmail(email);
      if user == null {
        return Err(HttpException(ResetPasswordLinkExpired, NotFound));
      }
      var subject := config.secret + (if user.password.Some? then user.password.value else "null");
      if token.None? || !Verify(token.value, subject, now) {
        return Err(HttpException(ResetPasswordLinkExpired, NotFound));
      }
      r := Ok(());
    }

    /** `confirmForgotPassword`. */
    method ConfirmForgotPassword(email: string, password: string, salt: nat) returns (r: Result<(), Error>)
      requires Valid()
      modifies users`accounts
      ensures Valid()
      ensures r == AuthSpec.ConfirmForgotPassword(users.hasher, old(users.State()), email, password, salt).result
      ensures users.State() == AuthSpec.ConfirmForgotPassword(users.hasher, old(users.State()), email, password, salt).after
    {
      if email in users.accounts {
        UpdatePreservesInvariant(users.State(), users.accounts[email].(password := Some(users.hasher.make(password, salt))));
      }
      var updated := users.ConfirmForgotPassword(email, password, salt);
      if updated.Err? {
        return Err(updated.error);
      }
      r := Ok(());
    }
  }
}

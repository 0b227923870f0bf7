/** What the authentication flows promise, proved about their value model. */
module AuthProperties {
  import opened Wrappers
  import opened Responses
  import opened Hashing
  import opened Totp
  import opened AuthDtos
  import opened ConfirmationPayloads
  import opened UserEntity
  import opened UserStore
  import opened Tokens
  import opened AuthSpec

  /** Replacing one stored row by a row with the same key and email, whose
      two-factor columns and password keep the flow invariant, keeps it. */
  lemma UpdatePreservesInvariant(s: Store, a: Account)
    requires Invariant(s)
    requires a.email in s.accounts && s.accounts[a.email].uuid == a.uuid
    requires a.twoFa ==> a.twoFaKey.Some?
    requires a.twoFaKey.Some? ==> Formatted(a.twoFaKey.value)
    requires a.password.Some? ==> a.password.value != ""
    ensures Invariant(s.(accounts := s.accounts[a.email := a]))
  {
    SavePreservesInvariant(s, a);
    var m := s.accounts[a.email := a];
    forall e | e in m
      ensures (m[e].twoFa ==> m[e].twoFaKey.Some?)
      ensures (m[e].twoFaKey.Some? ==> Formatted(m[e].twoFaKey.value))
      ensures (m[e].password.Some? ==> m[e].password.value != "")
    {
      if e != a.email {
        assert m[e] == s.accounts[e];
      }
    }
  }

  /** Replacing one stored row by one that keeps its key and undoes none of
      its columns is monotone. */
  lemma UpdateIsMonotone(s: Store, a: Account)
    requires a.email in s.accounts
    requires a.uuid == s.accounts[a.email].uuid
    requires s.accounts[a.email].emailConfirmed ==> a.emailConfirmed
    requires s.accounts[a.email].password.Some? ==> a.password.Some?
    requires s.accounts[a.email].twoFaKey.Some? ==> a.twoFaKey.Some?
    requires Truthy(s.accounts[a.email].twoFaKey) ==> a.twoFaKey == s.accounts[a.email].twoFaKey
    ensures Monotone(s, s.(accounts := s.accounts[a.email := a]))
  {
    var m := s.accounts[a.email := a];
    forall e | e in s.accounts
      ensures m[e].uuid == s.accounts[e].uuid
    {
      if e != a.email {
        assert m[e] == s.accounts[e];
      }
    }
  }

  /** Monotone is reflexive and transitive. */
  lemma MonotoneTransitive(s1: Store, s2: Store, s3: Store)
    requires Monotone(s1, s2) && Monotone(s2, s3)
    ensures Monotone(s1, s3) && Monotone(s1, s1)
  {
  }

  /** Registering an email keeps the flow invariant and undoes nothing. */
  lemma CreateKeepsInvariant(s: Store, email: string)
    requires Invariant(s)
    ensures Invariant(Create(s, email).after) && Monotone(s, Create(s, email).after)
  {
    CreateOutcome(s, email);
    var c := Create(s, email);
    if c.result.Ok? {
      var m := c.after.accounts;
      forall e | e in s.accounts
        ensures m[e] == s.accounts[e]
      {
      }
      forall e | e in m
        ensures (m[e].twoFa ==> m[e].twoFaKey.Some?)
        ensures (m[e].twoFaKey.Some? ==> Formatted(m[e].twoFaKey.value))
        ensures (m[e].password.Some? ==> m[e].password.value != "")
      {
        if e != email {
          assert m[e] == s.accounts[e];
        }
      }
    }
  }

  /** `sendEmail` keeps the invariant, undoes nothing, registers an unknown
      email exactly when it fits its column (failing with the database's error,
      and no change, otherwise), and answers with a login token for the
      payload's email. */
  lemma SendEmailOutcome(cfg: Config, s: Store, payload: RegisterPayload, now: int)
    requires Invariant(s)
    ensures var o := SendEmail(cfg, s, payload, now);
      && Invariant(o.after) && Monotone(s, o.after)
      && (payload.email in s.accounts ==> o.after == s && o.result.Ok?)
      && (payload.email !in s.accounts ==> (o.result.Ok? <==> |payload.email| <= MaxColumnLength))
      && (o.result.Err? ==> o.after == s && o.result.error == QueryFailed)
      && (o.result.Ok? <==> payload.email in o.after.accounts)
      && (o.result.Ok? ==>
            && o.after.accounts.Keys == s.accounts.Keys + {payload.email}
            && o.result.value.email == payload.email
            && o.result.value.uuid == o.after.accounts[payload.email].uuid
            && o.result.value.subject == ""
            && o.result.value.expiry == now + cfg.expiration)
      && (o.result.Ok? && payload.email !in s.accounts ==>
            && o.after.accounts == s.accounts[payload.email := NewAccount(s.nextUuid, payload.email)]
            && o.after.nextUuid == s.nextUuid + 1)
  {
    if payload.email !in s.accounts {
      CreateKeepsInvariant(s, payload.email);
      CreateOutcome(s, payload.email);
    }
  }

  /** A second `sendEmail` for the same email registers nothing more and
      hands out a token for the same account. */
  lemma SendEmailTwice(cfg: Config, s: Store, payload: RegisterPayload, t1: int, t2: int)
    requires Invariant(s)
    ensures var o1 := SendEmail(cfg, s, payload, t1);
            var o2 := SendEmail(cfg, o1.after, payload, t2);
      o1.result.Ok? ==>
        && o2.after == o1.after
        && o2.result.Ok?
        && o2.result.value.uuid == o1.result.value.uuid
        && o2.result.value.email == o1.result.value.email
  {
    SendEmailOutcome(cfg, s, payload, t1);
  }

  /** `confirmEmail` refuses an unknown email as invalid and a confirmed one
      as an expired link, succeeds exactly on a known, unconfirmed email, sets
      only that flag, and keeps the invariant. */
  lemma ConfirmEmailOutcome(s: Store, payload: ConfrimEmailPayload)
    requires Invariant(s)
    ensures var o := ConfirmEmail(s, payload);
      && Invariant(o.after) && Monotone(s, o.after)
      && (payload.email !in s.accounts <==> o.result == Err(HttpException(InvalidEmail, BadRequest)))
      && (payload.email in s.accounts && s.accounts[payload.email].emailConfirmed <==>
            o.result == Err(HttpException(EmailLinkExpired, BadRequest)))
      && (o.result.Ok? <==> payload.email in s.accounts && !s.accounts[payload.email].emailConfirmed)
      && (o.result.Err? ==> o.after == s)
      && (o.result.Ok? ==>
            && o.result.value == s.accounts[payload.email].(emailConfirmed := true)
            && o.after.accounts == s.accounts[payload.email := o.result.value])
  {
    if payload.email in s.accounts && !s.accounts[payload.email].emailConfirmed {
      UpdatePreservesInvariant(s, s.accounts[payload.email].(emailConfirmed := true));
      UpdateIsMonotone(s, s.accounts[payload.email].(emailConfirmed := true));
    }
  }

  /** A confirmation link works once: the second use is refused as expired. */
  lemma ConfirmEmailTwice(s: Store, payload: ConfrimEmailPayload)
    requires Invariant(s)
    ensures var o1 := ConfirmEmail(s, payload);
      o1.result.Ok? ==> ConfirmEmail(o1.after, payload) == Step(Err(HttpException(EmailLinkExpired, BadRequest)), o1.after)
  {
  }

  /** `generateToTpURI` on a stored entity: the key it answers with is the one
      the table holds afterwards, it is formatted, two-factor is on, and the
      URI is provisioned for that key and the entity's email. */
  lemma GenerateToTpUriOutcome(cfg: Config, s: Store, a: Account, freshKey: string)
    requires Invariant(s)
    requires a.email in s.accounts && s.accounts[a.email].uuid == a.uuid
    requires a.twoFa ==> a.twoFaKey.Some?
    requires a.twoFaKey.Some? ==> Formatted(a.twoFaKey.value)
    requires a.password.Some? ==> a.password.value != ""
    requires Truthy(a.twoFaKey) ==> a == s.accounts[a.email]
    ensures var o := GenerateToTpUri(cfg, s, a, freshKey);
      && Invariant(o.after)
      && o.result.Ok?
      && o.after.accounts.Keys == s.accounts.Keys
      && o.after.accounts[a.email].twoFaKey == Some(o.result.value.formattedKey)
      && Formatted(o.result.value.formattedKey)
      && (Truthy(a.twoFaKey) ==> o.after == s && o.result.value.formattedKey == a.twoFaKey.value)
      && (!Truthy(a.twoFaKey) ==> o.after.accounts[a.email].twoFa
                                  && o.result.value.formattedKey == FormatKey(freshKey))
      && o.result.value.toTpURI == TotpUri(o.result.value.formattedKey, a.email, cfg.appName, "SHA1", 6, 30)
      && o.after.nextUuid == s.nextUuid
      && (forall e :: e in s.accounts && e != a.email ==> o.after.accounts[e] == s.accounts[e])
      && (!Truthy(a.twoFaKey) ==>
            o.after.accounts[a.email] == a.(twoFaKey := Some(FormatKey(freshKey)), twoFa := true))
  {
    if Truthy(a.twoFaKey) {
      FormatKeyFixes(a.twoFaKey.value);
    } else {
      UpdatePreservesInvariant(s, a.(twoFaKey := Some(FormatKey(freshKey)), twoFa := true));
    }
  }

  /** `setPassword` succeeds exactly on a known email; afterwards the new
      password logs in, the stored key is the one it answered with, two-factor
      is switched on when that key was just generated (and left as it was when
      a key existed), the invariant holds and nothing was undone. */
  lemma SetPasswordOutcome(cfg: Config, h: Hasher, s: Store, payload: ConfirmationPayload, salt: nat, freshKey: string)
    requires Invariant(s) && Sound(h)
    ensures var o := SetPassword(cfg, h, s, payload, salt, freshKey);
      && Invariant(o.after) && Monotone(s, o.after)
      && (payload.email !in s.accounts <==> o.result == Err(HttpException(InvalidEmail, BadRequest)))
      && (o.result.Ok? <==> payload.email in s.accounts)
      && (o.result.Err? ==> o.after == s)
      && (o.result.Ok? ==>
            && o.after.accounts.Keys == s.accounts.Keys
            && o.after.nextUuid == s.nextUuid
            && (forall e :: e in s.accounts && e != payload.email ==> o.after.accounts[e] == s.accounts[e])
            && o.after.accounts[payload.email].uuid == s.accounts[payload.email].uuid
            && o.after.accounts[payload.email].email == s.accounts[payload.email].email
            && o.after.accounts[payload.email].emailConfirmed == s.accounts[payload.email].emailConfirmed
            && o.result.value.toTpURI.accountName == payload.email
            && o.after.accounts[payload.email].password == Some(h.make(payload.password, salt))
            && ValidateUser(h, o.after, LoginPayload(payload.email, payload.password)).Ok?
            && (!Truthy(s.accounts[payload.email].twoFaKey) ==> o.after.accounts[payload.email].twoFa)
            && (Truthy(s.accounts[payload.email].twoFaKey) ==>
                  o.after.accounts[payload.email].twoFa == s.accounts[payload.email].twoFa)
            && o.after.accounts[payload.email].twoFaKey == Some(o.result.value.formattedKey)
            && Formatted(o.result.value.formattedKey))
  {
    if payload.email in s.accounts {
      var a := s.accounts[payload.email].(password := Some(h.make(payload.password, salt)));
      SetPasswordKeepsInvariant(cfg, h, s, payload, salt, freshKey);
      var s1 := s.(accounts := s.accounts[payload.email := a]);
      UpdatePreservesInvariant(s, a);
      GenerateToTpUriOutcome(cfg, s1, a, freshKey);
      var o := SetPassword(cfg, h, s, payload, salt, freshKey);
      assert o.after.accounts[payload.email].password == a.password;
    }
  }

  /** The invariant half of `setPassword`: two row updates, each monotone. */
  lemma SetPasswordKeepsInvariant(cfg: Config, h: Hasher, s: Store, payload: ConfirmationPayload, salt: nat, freshKey: string)
    requires Invariant(s) && Sound(h) && payload.email in s.accounts
    ensures Invariant(SetPassword(cfg, h, s, payload, salt, freshKey).after)
    ensures Monotone(s, SetPassword(cfg, h, s, payload, salt, freshKey).after)
  {
    var a := s.accounts[payload.email].(password := Some(h.make(payload.password, salt)));
    UpdatePreservesInvariant(s, a);
    UpdateIsMonotone(s, a);
    var s1 := s.(accounts := s.accounts[payload.email := a]);
    GenerateToTpUriOutcome(cfg, s1, a, freshKey);
    if !Truthy(a.twoFaKey) {
      UpdateIsMonotone(s1, a.(twoFaKey := Some(FormatKey(freshKey)), twoFa := true));
    }
    MonotoneTransitive(s, s1, SetPassword(cfg, h, s, payload, salt, freshKey).after);
  }

  /** Setting the password again keeps the 2FA key handed out the first time
      (when that key is not empty), and with a different salt stores a
      different hash, while the new password still logs in. */
  lemma SetPasswordTwice(cfg: Config, h: Hasher, s: Store, p1: ConfirmationPayload, p2: ConfirmationPayload,
                         salt1: nat, salt2: nat, key1: string, key2: string)
    requires Invariant(s) && Sound(h) && Salted(h)
    requires p1.email == p2.email && salt1 != salt2
    ensures var o1 := SetPassword(cfg, h, s, p1, salt1, key1);
            var o2 := SetPassword(cfg, h, o1.after, p2, salt2, key2);
      o1.result.Ok? ==>
        && o2.result.Ok?
        && (o1.result.value.formattedKey != "" ==> o2.result.value.formattedKey == o1.result.value.formattedKey)
        && (p1.password == p2.password ==>
              o2.after.accounts[p1.email].password != o1.after.accounts[p1.email].password)
        && ValidateUser(h, o2.after, LoginPayload(p2.email, p2.password)).Ok?
  {
    SetPasswordOutcome(cfg, h, s, p1, salt1, key1);
    var o1 := SetPassword(cfg, h, s, p1, salt1, key1);
    if o1.result.Ok? {
      SetPasswordOutcome(cfg, h, o1.after, p2, salt2, key2);
      var a := o1.after.accounts[p2.email].(password := Some(h.make(p2.password, salt2)));
      var s1 := o1.after.(accounts := o1.after.accounts[p2.email := a]);
      UpdatePreservesInvariant(o1.after, a);
      GenerateToTpUriOutcome(cfg, s1, a, key2);
    }
  }

  /** `verify2FA` changes nothing and checks, in this order, that the email
      is known, that two-factor is on and that the code is accepted. */
  lemma Verify2FAOutcome(cfg: Config, totp: Oracle, s: Store, payload: TwoFactorPayload, now: int)
    ensures var o := Verify2FA(cfg, totp, s, payload, now);
      && o.after == s
      && (payload.email !in s.accounts <==> o.result == Err(HttpException(InvalidEmail, BadRequest)))
      && (o.result == Err(HttpException(TwoFactorDisabled, BadRequest)) <==>
            payload.email in s.accounts && !s.accounts[payload.email].twoFa)
      && (o.result == Err(HttpException(Invalid2FACode, BadRequest)) <==>
            payload.email in s.accounts && s.accounts[payload.email].twoFa
            && !KeyAccepts(totp, s.accounts[payload.email].twoFaKey, payload.code, now))
      && (o.result.Ok? <==>
            payload.email in s.accounts && s.accounts[payload.email].twoFa
            && KeyAccepts(totp, s.accounts[payload.email].twoFaKey, payload.code, now))
      && (o.result.Ok? ==> o.result.value == CreateToken(cfg, s.accounts[payload.email], now, None, None).accessToken)
  {
  }

  /** `toggle2FA` succeeds exactly on a known email with an accepted code,
      negates only the flag and keeps the invariant. */
  lemma Toggle2FAOutcome(totp: Oracle, s: Store, payload: ToggleTwoFactorPayload, now: int)
    requires Invariant(s)
    ensures var o := Toggle2FA(totp, s, payload, now);
      && Invariant(o.after) && Monotone(s, o.after)
      && (o.result.Ok? <==> payload.email in s.accounts
                            && KeyAccepts(totp, s.accounts[payload.email].twoFaKey, payload.code, now))
      && (payload.email !in s.accounts <==> o.result == Err(HttpException(InvalidEmail, BadRequest)))
      && (payload.email in s.accounts && !KeyAccepts(totp, s.accounts[payload.email].twoFaKey, payload.code, now) <==>
            o.result == Err(HttpException(Invalid2FACode, BadRequest)))
      && (o.result.Err? ==> o.after == s)
      && (o.result.Ok? ==>
            && o.after.accounts == s.accounts[payload.email := s.accounts[payload.email].(twoFa := !s.accounts[payload.email].twoFa)]
            && (o.result.value == "Enabled" <==> o.after.accounts[payload.email].twoFa))
  {
    if payload.email in s.accounts && KeyAccepts(totp, s.accounts[payload.email].twoFaKey, payload.code, now) {
      var a := s.accounts[payload.email];
      UpdatePreservesInvariant(s, a.(twoFa := !a.twoFa));
      UpdateIsMonotone(s, a.(twoFa := !a.twoFa));
    }
  }

  /** Two accepted toggles restore the table and answer with opposite labels. */
  lemma Toggle2FATwice(totp: Oracle, s: Store, p1: ToggleTwoFactorPayload, p2: ToggleTwoFactorPayload, t1: int, t2: int)
    requires Invariant(s) && p1.email == p2.email
    ensures var o1 := Toggle2FA(totp, s, p1, t1);
            var o2 := Toggle2FA(totp, o1.after, p2, t2);
      o1.result.Ok? && o2.result.Ok? ==> o2.after == s && o1.result.value != o2.result.value
  {
    var o1 := Toggle2FA(totp, s, p1, t1);
    if o1.result.Ok? {
      var a := s.accounts[p1.email];
      assert o1.after.accounts[p1.email] == a.(twoFa := !a.twoFa);
      var o2 := Toggle2FA(totp, o1.after, p2, t2);
      if o2.result.Ok? {
        assert o2.after.accounts == s.accounts[p1.email := a];
        assert s.accounts[p1.email := a] == s.accounts;
      }
    }
  }

  /** `validateUser` answers with the stored account exactly when the
      password matches its hash, and otherwise with one error that does not
      tell an unknown email from a wrong password. */
  lemma ValidateUserOutcome(h: Hasher, s: Store, payload: LoginPayload)
    ensures var r := ValidateUser(h, s, payload);
      && (r.Ok? <==> payload.email in s.accounts && Matches(h, payload.password, s.accounts[payload.email].password))
      && (r.Ok? ==> r.value == s.accounts[payload.email])
      && (r.Ok? && StoreInvariant(s) ==> r.value.email == payload.email)
      && (r.Err? ==> r.error == HttpException(InvalidUsernameOrPassword, BadRequest))
  {
  }

  /** An account that never set a password cannot log in. */
  lemma NoPasswordNoLogin(h: Hasher, s: Store, payload: LoginPayload)
    requires payload.email in s.accounts && s.accounts[payload.email].password.None?
    ensures ValidateUser(h, s, payload) == Err(HttpException(InvalidUsernameOrPassword, BadRequest))
  {
  }

  /** The lifetime of every token `createToken` issues, and its subject: a
      truthy subject argument binds the token to the secret and the password
      column no matter what the argument says, a falsy one leaves it empty. */
  lemma CreateTokenClaims(cfg: Config, u: Account, now: int, expiryTime: Option<nat>, s1: Option<string>, s2: Option<string>)
    ensures var b := CreateToken(cfg, u, now, expiryTime, s1);
      && b.expiresIn == cfg.expiration
      && b.user == u
      && b.accessToken.uuid == u.uuid && b.accessToken.email == u.email
      && (expiryTime.Some? ==> b.accessToken.expiry == now + expiryTime.value)
      && (expiryTime.None? ==> b.accessToken.expiry == now + cfg.expiration)
      && (Truthy(s1) ==> b.accessToken.subject == BoundSubject(cfg, u))
      && (!Truthy(s1) ==> b.accessToken.subject == "")
    ensures Truthy(s1) == Truthy(s2) ==> CreateToken(cfg, u, now, expiryTime, s1) == CreateToken(cfg, u, now, expiryTime, s2)
  {
  }

  /** Under the invariant the subject a reset link is bound to is never
      empty, so the subject check of the reset link is always made. */
  lemma BoundSubjectNonEmpty(cfg: Config, s: Store, email: string)
    requires Invariant(s) && email in s.accounts
    ensures BoundSubject(cfg, s.accounts[email]) != ""
  {
    var a := s.accounts[email];
    assert |JsText(a.password)| > 0;
    assert |BoundSubject(cfg, a)| == |cfg.secret| + |JsText(a.password)|;
  }

  /** `forgotPassword` refuses an unknown email and otherwise mails a link
      bound to the account's password column, living the forgot-password
      lifetime when one is configured (even "0") and the default one
      otherwise. */
  lemma ForgotPasswordOutcome(cfg: Config, s: Store, email: string, now: int)
    ensures var r := ForgotPassword(cfg, s, email, now);
      && (email !in s.accounts <==> r == Err(HttpException(EmailNotRegistered, NotFound)))
      && (r.Ok? <==> email in s.accounts)
      && (r.Ok? ==>
            && r.value.email == s.accounts[email].email
            && r.value.uuid == s.accounts[email].uuid
            && (Truthy(s.accounts[email].password) ==> r.value.subject == BoundSubject(cfg, s.accounts[email]))
            && (!Truthy(s.accounts[email].password) ==> r.value.subject == "")
            && (cfg.forgotTtl.Some? ==> r.value.expiry == now + cfg.forgotTtl.value)
            && (cfg.forgotTtl.None? ==> r.value.expiry == now + cfg.expiration))
  {
  }

  /** The reset link mailed by `forgotPassword` is accepted, until it expires,
      by any later table in which that account's password column is unchanged. */
  lemma ResetLinkAccepted(cfg: Config, s: Store, s': Store, email: string, issued: int, later: int)
    requires Invariant(s) && email in s.accounts && s.accounts[email].password.Some?
    requires email in s'.accounts && s'.accounts[email].password == s.accounts[email].password
    requires later < ForgotPassword(cfg, s, email, issued).value.expiry
    ensures CheckPasswordLinkExpiry(cfg, s', email, Some(ForgotPassword(cfg, s, email, issued).value), later).Ok?
  {
  }

  /** A mailed reset link stops working once it expires, whatever the table
      looks like by then. With a forgot-password lifetime of "0" its expiry is
      the instant it is issued, so it never works. */
  lemma ResetLinkExpires(cfg: Config, s: Store, s': Store, email: string, issued: int, later: int)
    requires email in s.accounts
    requires later >= ForgotPassword(cfg, s, email, issued).value.expiry
    ensures CheckPasswordLinkExpiry(cfg, s', email, Some(ForgotPassword(cfg, s, email, issued).value), later)
              == Err(HttpException(ResetPasswordLinkExpired, NotFound))
  {
  }

  /** `checkPasswordLinkExpiry` accepts exactly an unexpired token carrying
      the subject the account's current password column binds, and gives one
      answer to every failure. */
  lemma CheckPasswordLinkExpiryOutcome(cfg: Config, s: Store, email: string, token: Option<Token>, now: int)
    requires Invariant(s)
    ensures var r := CheckPasswordLinkExpiry(cfg, s, email, token, now);
      && (r.Ok? <==> email in s.accounts && token.Some? && now < token.value.expiry
                     && token.value.subject == BoundSubject(cfg, s.accounts[email]))
      && (r.Err? ==> r.error == HttpException(ResetPasswordLinkExpired, NotFound))
  {
    if email in s.accounts {
      BoundSubjectNonEmpty(cfg, s, email);
    }
  }

  /** A token with no subject (every token except a reset link: the ones
      `sendEmail`, `verify2FA` and login hand out) is never a reset link. */
  lemma LoginTokenIsNoResetLink(cfg: Config, s: Store, email: string, t: Token, now: int)
    requires Invariant(s) && t.subject == ""
    ensures CheckPasswordLinkExpiry(cfg, s, email, Some(t), now) == Err(HttpException(ResetPasswordLinkExpired, NotFound))
  {
    if email in s.accounts {
      BoundSubjectNonEmpty(cfg, s, email);
    }
  }

  /** An account with no password gets a reset link that never works: the
      link carries no subject, while the account binds the text "null". */
  lemma NoPasswordResetLinkNeverWorks(cfg: Config, s: Store, email: string, issued: int, later: int)
    requires Invariant(s) && email in s.accounts && s.accounts[email].password.None?
    ensures CheckPasswordLinkExpiry(cfg, s, email, Some(ForgotPassword(cfg, s, email, issued).value), later).Err?
  {
    LoginTokenIsNoResetLink(cfg, s, email, ForgotPassword(cfg, s, email, issued).value, later);
  }

  /** Once the password column holds a different hash, every link bound to
      the old one is refused. */
  lemma ResetLinkRevoked(cfg: Config, s: Store, s': Store, email: string, issued: int, later: int)
    requires Invariant(s) && Invariant(s') && email in s.accounts && email in s'.accounts
    requires s.accounts[email].password.Some? && s'.accounts[email].password.Some?
    requires s'.accounts[email].password != s.accounts[email].password
    ensures CheckPasswordLinkExpiry(cfg, s', email, Some(ForgotPassword(cfg, s, email, issued).value), later).Err?
  {
    JsTextCollisions(cfg.secret, s.accounts[email].password, s'.accounts[email].password);
    BoundSubjectNonEmpty(cfg, s', email);
  }

  /** `confirmForgotPassword` succeeds exactly on a known email, changes only
      that password column, keeps the invariant, and the new password logs in. */
  lemma ConfirmForgotPasswordOutcome(h: Hasher, s: Store, email: string, password: string, salt: nat)
    requires Invariant(s) && Sound(h)
    ensures var o := ConfirmForgotPassword(h, s, email, password, salt);
      && Invariant(o.after) && Monotone(s, o.after)
      && (email !in s.accounts <==> o.result == Err(HttpException(UserDoesNotExist, NotFound)))
      && (o.result.Ok? <==> email in s.accounts)
      && (o.result.Err? ==> o.after == s)
      && (o.result.Ok? ==>
            && o.after.accounts == s.accounts[email := s.accounts[email].(password := Some(h.make(password, salt)))]
            && ValidateUser(h, o.after, LoginPayload(email, password)).Ok?)
  {
    ResetPasswordOutcome(h, s, email, password, salt);
    if email in s.accounts {
      UpdatePreservesInvariant(s, s.accounts[email].(password := Some(h.make(password, salt))));
      UpdateIsMonotone(s, s.accounts[email].(password := Some(h.make(password, salt))));
    }
  }

  /** A reset link is single use: `confirmForgotPassword` hashes the new
      password with a new salt, and since the salt is part of the hash, the
      stored hash then differs from the one the link was bound to, whatever
      the old and the new password are; so the link is refused. */
  lemma ResetLinkSingleUse(cfg: Config, h: Hasher, s: Store, email: string, oldPassword: string, password: string,
                           salt: nat, oldSalt: nat, issued: int, later: int)
    requires Invariant(s) && Sound(h) && Salted(h)
    requires email in s.accounts && s.accounts[email].password == Some(h.make(oldPassword, oldSalt))
    requires salt != oldSalt
    ensures var o := ConfirmForgotPassword(h, s, email, password, salt);
      CheckPasswordLinkExpiry(cfg, o.after, email, Some(ForgotPassword(cfg, s, email, issued).value), later).Err?
  {
    ConfirmForgotPasswordOutcome(h, s, email, password, salt);
    var o := ConfirmForgotPassword(h, s, email, password, salt);
    ResetLinkRevoked(cfg, s, o.after, email, issued, later);
  }

  /** The order of the end-to-end test: `sendEmail` registers a new email and
      `setPassword` follows at once, without a confirmation in between; both
      succeed, the password then logs in and the second factor is on, while
      the email is still unconfirmed. */
  lemma InviteThenSetPassword(cfg: Config, h: Hasher, s: Store, email: string, password: string,
                              now: int, salt: nat, freshKey: string)
    requires Invariant(s) && Sound(h) && email !in s.accounts && |email| <= MaxColumnLength
    ensures var o1 := SendEmail(cfg, s, RegisterPayload(email), now);
            var o2 := SetPassword(cfg, h, o1.after, ConfirmationPayload(email, password, password), salt, freshKey);
      && o1.result.Ok? && o2.result.Ok?
      && ValidateUser(h, o2.after, LoginPayload(email, password)).Ok?
      && o2.after.accounts[email].twoFa
      && !o2.after.accounts[email].emailConfirmed
  {
    CreateOutcome(s, email);
    SendEmailOutcome(cfg, s, RegisterPayload(email), now);
    var o1 := SendEmail(cfg, s, RegisterPayload(email), now);
    SetPasswordOutcome(cfg, h, o1.after, ConfirmationPayload(email, password, password), salt, freshKey);
  }

  /** The full onboarding: register by `sendEmail`, confirm the email, set a
      password; then logging in with it succeeds, the email is confirmed and
      the second factor is on. */
  lemma RegistrationScenario(cfg: Config, h: Hasher, s: Store, email: string, password: string,
                             now: int, salt: nat, freshKey: string)
    requires Invariant(s) && Sound(h) && email !in s.accounts && |email| <= MaxColumnLength
    ensures var o1 := SendEmail(cfg, s, RegisterPayload(email), now);
            var o2 := ConfirmEmail(o1.after, ConfrimEmailPayload(email));
            var o3 := SetPassword(cfg, h, o2.after, ConfirmationPayload(email, password, password), salt, freshKey);
      && o1.result.Ok? && o2.result.Ok? && o3.result.Ok?
      && ValidateUser(h, o3.after, LoginPayload(email, password)).Ok?
      && o3.after.accounts[email].emailConfirmed
      && o3.after.accounts[email].twoFa
  {
    CreateOutcome(s, email);
    SendEmailOutcome(cfg, s, RegisterPayload(email), now);
    var o1 := SendEmail(cfg, s, RegisterPayload(email), now);
    ConfirmEmailOutcome(o1.after, ConfrimEmailPayload(email));
    var o2 := ConfirmEmail(o1.after, ConfrimEmailPayload(email));
    SetPasswordOutcome(cfg, h, o2.after, ConfirmationPayload(email, password, password), salt, freshKey);
  }
}

/** The request bodies of the two-factor and email-confirmation endpoints
    (src/modules/auth/commons/auth.dtos.ts), and the bodies of the register and
    login endpoints, whose validators are not part of this model. */
module AuthDtos {
  import opened Patterns

  datatype TwoFactorPayload = TwoFactorPayload(code: string, email: string)

  datatype ToggleTwoFactorPayload = ToggleTwoFactorPayload(code: string, email: string)

  /** Only an email: there is no code field. */
  datatype ConfrimEmailPayload = ConfrimEmailPayload(email: string)

  /** The register body; only `email` is read by the core. */
  datatype RegisterPayload = RegisterPayload(email: string)

  /** The login body. */
  datatype LoginPayload = LoginPayload(email: string, password: string)

  /** `@IsNotEmpty() @IsString()` on `code`, both email patterns on `email`. */
  predicate TwoFactorAccepted(p: TwoFactorPayload)
  {
    p.code != [] && EmailAccepted(p.email)
  }

  predicate ToggleTwoFactorAccepted(p: ToggleTwoFactorPayload)
  {
    p.code != [] && EmailAccepted(p.email)
  }

  predicate ConfirmEmailAccepted(p: ConfrimEmailPayload)
  {
    EmailAccepted(p.email)
  }

  /** The three payloads apply the same email rule: for the same email and a
      non-empty code they are accepted together or refused together, and an
      accepted code is never empty. */
  lemma SameEmailRule(code: string, email: string)
    ensures TwoFactorAccepted(TwoFactorPayload(code, email)) <==> code != [] && EmailAccepted(email)
    ensures ToggleTwoFactorAccepted(ToggleTwoFactorPayload(code, email)) <==> TwoFactorAccepted(TwoFactorPayload(code, email))
    ensures code != [] ==> (ConfirmEmailAccepted(ConfrimEmailPayload(email)) <==> TwoFactorAccepted(TwoFactorPayload(code, email)))
  {
  }

  /** An accepted email in any of these payloads starts with a letter, has an
      alphanumeric just before its first `@`, ends in two alphanumerics, and
      has no `-`, `_` or `.` next to another. */
  lemma AcceptedEmailFacts(p: ConfrimEmailPayload)
    requires ConfirmEmailAccepted(p)
    ensures IsLetter(p.email[0]) && 2 <= FirstAt(p.email) < |p.email| && IsAlnum(p.email[FirstAt(p.email) - 1])
    ensures IsAlnum(p.email[|p.email| - 1]) && IsAlnum(p.email[|p.email| - 2])
    ensures forall i :: 0 <= i < |p.email| - 1 ==> !(IsSeparator(p.email[i]) && IsSeparator(p.email[i + 1]))
  {
    EmailShapeFacts(p.email);
    NoDoubleSeparatorAt(p.email);
  }
}

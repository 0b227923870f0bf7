/** The set-password request body (src/modules/auth/confirmation.payload.ts). */
module ConfirmationPayloads {
  import opened Patterns

  datatype ConfirmationPayload = ConfirmationPayload(email: string, password: string, passwordConfirmation: string)

  /** The validators on the payload's fields: `@IsNotEmpty` and both email
      patterns on `email`, `@IsNotEmpty` and the policy on `password`, and
      `@SameAs('password')` on `passwordConfirmation`, read as equality. */
  predicate Accepted(p: ConfirmationPayload)
  {
    && p.email != [] && EmailAccepted(p.email)
    && p.password != [] && PasswordAccepted(p.password)
    && p.passwordConfirmation == p.password
  }

  /** An accepted payload carries an accepted email, a password of 8 to 50
      allowed characters with all four character kinds, and a matching
      confirmation; and every such triple is accepted. */
  lemma AcceptedMeans(p: ConfirmationPayload)
    ensures Accepted(p) <==>
      EmailAccepted(p.email) && PasswordAccepted(p.password) && p.passwordConfirmation == p.password
    ensures Accepted(p) ==> 8 <= |p.password| <= 50
  {
    if EmailAccepted(p.email) {
      EmailShapeFacts(p.email);
    }
  }

  /** The body the end-to-end test sends to set_password is accepted. */
  lemma TestPayloadAccepted()
    ensures Accepted(ConfirmationPayload("talhatanveer333@gmail.com", "Testing193!", "Testing193!"))
  {
    TestEmailAccepted();
    TestPasswordAccepted();
  }

  /** A confirmation that differs from the password is refused. */
  lemma MismatchRefused(email: string, password: string, confirmation: string)
    requires confirmation != password
    ensures !Accepted(ConfirmationPayload(email, password, confirmation))
  {
  }
}

/** Signed access tokens (`JwtService.sign` / `JwtService.verify`), kept
    abstract: a token is the record it signs, and a string that does not decode
    or carries a bad signature is modelled as no token at all. */
module Tokens {
  import opened Wrappers
  import opened UserEntity

  /** The claims `createToken` signs: the payload, the `sub` claim and the
      absolute expiry instant. */
  datatype Token = Token(uuid: Uuid, email: string, subject: string, expiry: int)

  /** `verify(token, { subject })` at wall-clock time `now`: the token has not
      expired and, when a subject is demanded, it is the token's subject. */
  predicate Verify(t: Token, expectedSubject: string, now: int)
  {
    now < t.expiry && (expectedSubject != "" ==> t.subject == expectedSubject)
  }

  /** JavaScript truthiness of a nullable string column or argument. */
  predicate Truthy(s: Option<string>)
  {
    s.Some? && s.value != ""
  }

  /** The text a nullable string contributes to a JavaScript `+`. */
  function JsText(s: Option<string>): string
  {
    if s.Some? then s.value else "null"
  }

  /** Concatenated to a prefix, two column values give the same text only
      when they are equal, or one of them is missing and the other is the
      literal text "null". */
  lemma JsTextCollisions(prefix: string, a: Option<string>, b: Option<string>)
    ensures prefix + JsText(a) == prefix + JsText(b) <==>
              a == b || (a == None && b == Some("null")) || (a == Some("null") && b == None)
  {
    if prefix + JsText(a) == prefix + JsText(b) {
      assert JsText(a) == (prefix + JsText(a))[|prefix|..];
      assert JsText(b) == (prefix + JsText(b))[|prefix|..];
    }
  }
}

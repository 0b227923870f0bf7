/** The time-based one-time password provider (the `authenticator` package),
    kept abstract: the code check is an oracle and the provisioning URI a record. */
module Totp {

  /** `verifyToken(key, code)` evaluated at wall-clock time `now`. */
  type Oracle = (string, string, int) -> bool

  /** The arguments `generateTotpUri` turns into an otpauth:// URI. */
  datatype TotpUri = TotpUri(
    secret: string,
    accountName: string,
    issuer: string,
    algorithm: string,
    digits: nat,
    period: nat)

  /** The characters the JavaScript class `\s` matches. */
  predicate IsWhitespace(c: char)
  {
    var n := c as int;
    (9 <= n <= 13) || n == 32 || n == 0xA0 || n == 0x1680 || (0x2000 <= n <= 0x200A)
    || n == 0x2028 || n == 0x2029 || n == 0x202F || n == 0x205F || n == 0x3000 || n == 0xFEFF
  }

  predicate IsLower(c: char)
  {
    'a' <= c <= 'z'
  }

  function ToUpper(c: char): (u: char)
    ensures !IsLower(u)
    ensures IsLower(c) || u == c
    ensures IsWhitespace(u) <==> IsWhitespace(c)
  {
    if IsLower(c) then (c as int - 32) as char else c
  }

  /** A key as it is stored: no whitespace and no lower-case letter. */
  predicate Formatted(s: string)
  {
    forall i :: 0 <= i < |s| ==> !IsWhitespace(s[i]) && !IsLower(s[i])
  }

  /** `s.replace(/\s/g, "")`. */
  function StripWhitespace(s: string): (r: string)
    ensures forall i :: 0 <= i < |r| ==> !IsWhitespace(r[i])
    ensures |r| <= |s|
  {
    if s == [] then []
    else if IsWhitespace(s[0]) then StripWhitespace(s[1..])
    else [s[0]] + StripWhitespace(s[1..])
  }

  /** `s.toUpperCase()` on the ASCII letters. */
  function UpperCase(s: string): (r: string)
    ensures |r| == |s|
    ensures forall i :: 0 <= i < |r| ==> !IsLower(r[i]) && (IsWhitespace(r[i]) <==> IsWhitespace(s[i]))
  {
    if s == [] then [] else [ToUpper(s[0])] + UpperCase(s[1..])
  }

  /** `key.replace(/\s/g, "").toUpperCase()` (src/modules/auth/auth.service.ts:202). */
  function FormatKey(key: string): (r: string)
    ensures Formatted(r)
    ensures |r| <= |key|
  {
    UpperCase(StripWhitespace(key))
  }

  /** Formatting leaves a formatted key as it is, and only a formatted one. */
  lemma {:induction false} FormatKeyFixes(key: string)
    ensures FormatKey(key) == key <==> Formatted(key)
  {
    if Formatted(key) {
      StripKeepsClean(key);
      UpperKeepsUpper(key);
    }
  }

  lemma {:induction false} StripKeepsClean(s: string)
    requires forall i :: 0 <= i < |s| ==> !IsWhitespace(s[i])
    ensures StripWhitespace(s) == s
  {
    if s != [] {
      StripKeepsClean(s[1..]);
    }
  }

  lemma {:induction false} UpperKeepsUpper(s: string)
    requires forall i :: 0 <= i < |s| ==> !IsLower(s[i])
    ensures UpperCase(s) == s
  {
    if s != [] {
      UpperKeepsUpper(s[1..]);
    }
  }

  /** Formatting twice is formatting once. */
  lemma FormatKeyIdempotent(key: string)
    ensures FormatKey(FormatKey(key)) == FormatKey(key)
  {
    FormatKeyFixes(FormatKey(key));
  }
}

/** The regular expressions the request payloads are validated with, as
    predicates over strings. The same two email patterns appear in
    src/modules/auth/confirmation.payload.ts:11-16 and in every payload of
    src/modules/auth/commons/auth.dtos.ts; they are defined once here. */
module Patterns {

  predicate IsLetter(c: char) { 'a' <= c <= 'z' || 'A' <= c <= 'Z' }

  /** `\d` (ASCII digits only in JavaScript). */
  predicate IsDigit(c: char) { '0' <= c <= '9' }

  predicate IsAlnum(c: char) { IsLetter(c) || IsDigit(c) }

  /** `[-_.]` */
  predicate IsSeparator(c: char) { c == '-' || c == '_' || c == '.' }

  /** `[a-zA-Z0-9_.-]` */
  predicate IsLocalChar(c: char) { IsAlnum(c) || IsSeparator(c) }

  /** `[a-zA-Z0-9-]` */
  predicate IsLabelChar(c: char) { IsAlnum(c) || c == '-' }

  /** The characters the regex `.` does not match. */
  predicate IsLineTerminator(c: char)
  {
    c == '\n' || c == '\r' || c as int == 0x2028 || c as int == 0x2029
  }

  predicate AllAlnum(s: string) { forall i :: 0 <= i < |s| ==> IsAlnum(s[i]) }

  // ---------------------------------------------------------------------------
  // ^[a-zA-Z]+[a-zA-Z0-9_.-]*[a-zA-Z0-9]+@(([a-zA-Z0-9-]){3,30}.)+([a-zA-Z0-9]{2,5})$

  /** `[a-zA-Z]+[a-zA-Z0-9_.-]*[a-zA-Z0-9]+`: a letter, any local characters,
      an alphanumeric, so at least two characters. */
  predicate LocalPart(s: string)
  {
    |s| >= 2 && IsLetter(s[0]) && IsAlnum(s[|s| - 1])
    && forall i :: 0 <= i < |s| ==> IsLocalChar(s[i])
  }

  /** `[a-zA-Z0-9]{2,5}` */
  predicate TopLevel(s: string)
  {
    2 <= |s| <= 5 && AllAlnum(s)
  }

  /** `([a-zA-Z0-9-]){3,30}.` taking the first `n` characters of `s`: three to
      thirty label characters then ANY character but a line terminator (the dot
      is not escaped). */
  predicate LabelAt(s: string, n: int)
  {
    4 <= n <= 31 && n <= |s|
    && (forall i :: 0 <= i < n - 1 ==> IsLabelChar(s[i]))
    && !IsLineTerminator(s[n - 1])
  }

  /** `(([a-zA-Z0-9-]){3,30}.)+([a-zA-Z0-9]{2,5})`: one or more labels, then the ending. */
  predicate DomainPart(s: string)
    decreases |s|
  {
    exists n :: 4 <= n <= 31 && n <= |s| && LabelAt(s, n) && (TopLevel(s[n..]) || DomainPart(s[n..]))
  }

  /** The first email pattern: a local part, `@`, a domain part. */
  predicate EmailShape(s: string)
  {
    exists k :: 0 <= k < |s| && s[k] == '@' && LocalPart(s[..k]) && DomainPart(s[k + 1..])
  }

  /** `^(?!.*[-_.]{2}).*$`: no two separators in a row; and since the final `.*`
      must reach the end of the input, no line terminator either. */
  predicate NoDoubleSeparator(s: string)
  {
    s == []
    || (&& !IsLineTerminator(s[0])
        && (|s| >= 2 ==> !(IsSeparator(s[0]) && IsSeparator(s[1])))
        && NoDoubleSeparator(s[1..]))
  }

  /** Both email patterns, as every payload with an email field applies them. */
  predicate EmailAccepted(s: string)
  {
    EmailShape(s) && NoDoubleSeparator(s)
  }

  // ---------------------------------------------------------------------------
  // ^(?=.*[a-z])(?=.*[A-Z])(?=.*\d)(?=.*[$&+,:;=?@#|'<>.^*()_%!-])[A-Za-z\d$&+,:;=?@#|'<>.^*()_%!-]{8,50}$

  /** `[$&+,:;=?@#|'<>.^*()_%!-]` */
  predicate IsSymbol(c: char)
  {
    c in "$&+,:;=?@#|'<>.^*()_%!-"
  }

  predicate IsPasswordChar(c: char) { IsAlnum(c) || IsSymbol(c) }

  /** The password policy (src/modules/auth/confirmation.payload.ts:21). */
  predicate PasswordAccepted(s: string)
  {
    && 8 <= |s| <= 50
    && (forall i :: 0 <= i < |s| ==> IsPasswordChar(s[i]))
    && (exists i :: 0 <= i < |s| && 'a' <= s[i] <= 'z')
    && (exists i :: 0 <= i < |s| && 'A' <= s[i] <= 'Z')
    && (exists i :: 0 <= i < |s| && IsDigit(s[i]))
    && (exists i :: 0 <= i < |s| && IsSymbol(s[i]))
  }

  // ---------------------------------------------------------------------------
  // What an accepted email looks like

  /** A domain part is at least six characters long and ends in two alphanumerics. */
  lemma {:induction false} DomainPartEnding(s: string)
    requires DomainPart(s)
    ensures |s| >= 6 && IsAlnum(s[|s| - 1]) && IsAlnum(s[|s| - 2])
    decreases |s|
  {
    var n :| 4 <= n <= 31 && n <= |s| && LabelAt(s, n) && (TopLevel(s[n..]) || DomainPart(s[n..]));
    if !TopLevel(s[n..]) {
      DomainPartEnding(s[n..]);
    }
    assert s[|s| - 1] == s[n..][|s[n..]| - 1];
    assert s[|s| - 2] == s[n..][|s[n..]| - 2];
  }

  /** The index of the first `@` in `s`, or `|s|` when there is none. */
  function FirstAt(s: string): (k: nat)
    ensures k <= |s|
    ensures forall i :: 0 <= i < k ==> s[i] != '@'
    ensures k < |s| ==> s[k] == '@'
  {
    if s == [] then 0 else if s[0] == '@' then 0 else 1 + FirstAt(s[1..])
  }

  /** `FirstAt` finds an `@` with none before it. */
  lemma {:induction false} FirstAtIs(s: string, k: nat)
    requires k < |s| && s[k] == '@'
    requires forall i :: 0 <= i < k ==> s[i] != '@'
    ensures FirstAt(s) == k
    decreases k
  {
    if k > 0 {
      assert s[0] != '@';
      assert forall i :: 0 <= i < k - 1 ==> s[1..][i] == s[i + 1];
      FirstAtIs(s[1..], k - 1);
    }
  }

  /** A local part that is a prefix of `s`: `s` starts with a letter, holds
      no `@` before index `k`, and has an alphanumeric at `k - 1`. */
  lemma LocalPartFacts(s: string, k: nat)
    requires k <= |s| && LocalPart(s[..k])
    ensures k >= 2 && IsLetter(s[0]) && IsAlnum(s[k - 1])
    ensures forall i :: 0 <= i < k ==> s[i] != '@'
  {
    var l := s[..k];
    assert s[0] == l[0];
    assert s[k - 1] == l[k - 1];
    forall i | 0 <= i < k
      ensures s[i] != '@'
    {
      assert s[i] == l[i];
      assert IsLocalChar(l[i]);
    }
  }

  /** A domain part that is a suffix of `s` makes `s` end in two alphanumerics. */
  lemma DomainSuffixFacts(s: string, j: nat)
    requires j <= |s| && DomainPart(s[j..])
    ensures |s| >= j + 6 && IsAlnum(s[|s| - 1]) && IsAlnum(s[|s| - 2])
  {
    var d := s[j..];
    DomainPartEnding(d);
    assert s[|s| - 1] == d[|d| - 1];
    assert s[|s| - 2] == d[|d| - 2];
  }

  /** An accepted shape starts with a letter, its first `@` follows an
      alphanumeric at index two or later (a local part of at least two
      characters), and it ends in two alphanumerics. */
  lemma EmailShapeFacts(s: string)
    requires EmailShape(s)
    ensures 2 <= FirstAt(s) < |s| && IsAlnum(s[FirstAt(s) - 1])
    ensures |s| >= 9 && IsLetter(s[0]) && IsAlnum(s[|s| - 1]) && IsAlnum(s[|s| - 2])
  {
    var k :| 0 <= k < |s| && s[k] == '@' && LocalPart(s[..k]) && DomainPart(s[k + 1..]);
    LocalPartFacts(s, k);
    DomainSuffixFacts(s, k + 1);
    FirstAtIs(s, k);
  }

  /** The second email pattern holds exactly when no character is a line
      terminator and no two neighbouring characters are both separators. */
  lemma {:induction false} NoDoubleSeparatorAt(s: string)
    ensures NoDoubleSeparator(s) <==>
      (forall i :: 0 <= i < |s| ==> !IsLineTerminator(s[i]))
      && (forall i :: 0 <= i < |s| - 1 ==> !(IsSeparator(s[i]) && IsSeparator(s[i + 1])))
  {
    if s != [] {
      NoDoubleSeparatorAt(s[1..]);
      assert forall i :: 1 <= i < |s| ==> s[i] == s[1..][i - 1];
    }
  }

  /** An accepted email has no two consecutive `-`, `_` or `.`. */
  lemma EmailNoDoubleSeparator(s: string, i: int)
    requires EmailAccepted(s)
    requires 0 <= i < |s| - 1
    ensures !(IsSeparator(s[i]) && IsSeparator(s[i + 1]))
  {
    NoDoubleSeparatorAt(s);
  }

  /** An address with a local part, `@`, one label and the ending, no line
      terminator and no doubled separator, is accepted. */
  lemma AcceptedWithOneLabel(s: string, k: int, n: int)
    requires 0 <= k < |s| && s[k] == '@' && LocalPart(s[..k])
    requires LabelAt(s[k + 1..], n) && TopLevel(s[k + 1..][n..])
    requires forall i :: 0 <= i < |s| ==> !IsLineTerminator(s[i])
    requires forall i :: 0 <= i < |s| - 1 ==> !(IsSeparator(s[i]) && IsSeparator(s[i + 1]))
    ensures EmailAccepted(s)
  {
    assert DomainPart(s[k + 1..]);
    NoDoubleSeparatorAt(s);
  }

  /** Because the dot after each label is not escaped, an address without any
      dot in its domain is accepted. */
  lemma DotlessDomainAccepted()
    ensures EmailAccepted("ab@abcdefgh")
  {
    AcceptedWithOneLabel("ab@abcdefgh", 2, 4);
  }

  /** A one-character local part is refused, so `a@x.com` is not an accepted email. */
  lemma ShortLocalPartRefused()
    ensures !EmailAccepted("a@x.com")
  {
    var s := "a@x.com";
    forall k | 0 <= k < |s| && s[k] == '@'
      ensures !LocalPart(s[..k])
    {
      assert k == 1;
    }
  }

  /** The address the end-to-end test registers is accepted. */
  lemma TestEmailAccepted()
    ensures EmailAccepted("talhatanveer333@gmail.com")
  {
    TestEmailShape();
    TestEmailClean();
    TestEmailSingleSeparators();
    AcceptedWithOneLabel("talhatanveer333@gmail.com", 15, 6);
  }

  lemma TestEmailShape()
    ensures var s := "talhatanveer333@gmail.com";
      s[..15] == "talhatanveer333" && s[16..] == "gmail.com"
    ensures LocalPart("talhatanveer333") && LabelAt("gmail.com", 6) && TopLevel("gmail.com"[6..])
  {
    ShapePieces("talhatanveer333", "gmail.com", 6);
  }

  lemma TestEmailClean()
    ensures var s := "talhatanveer333@gmail.com";
      forall i :: 0 <= i < |s| ==> !IsLineTerminator(s[i])
  {
  }

  lemma TestEmailSingleSeparators()
    ensures var s := "talhatanveer333@gmail.com";
      forall i :: 0 <= i < |s| - 1 ==> !(IsSeparator(s[i]) && IsSeparator(s[i + 1]))
  {
  }

  /** The address the test helper registers is accepted. */
  lemma HelperEmailAccepted()
    ensures EmailAccepted("test_fingerate_admin@yopmail.com")
  {
    HelperEmailShape();
    HelperEmailClean();
    HelperEmailSingleSeparators();
    AcceptedWithOneLabel("test_fingerate_admin@yopmail.com", 20, 8);
  }

  lemma HelperEmailShape()
    ensures var s := "test_fingerate_admin@yopmail.com";
      s[..20] == "test_fingerate_admin" && s[21..] == "yopmail.com"
    ensures LocalPart("test_fingerate_admin") && LabelAt("yopmail.com", 8) && TopLevel("yopmail.com"[8..])
  {
    ShapePieces("test_fingerate_admin", "yopmail.com", 8);
  }

  lemma HelperEmailClean()
    ensures var s := "test_fingerate_admin@yopmail.com";
      forall i :: 0 <= i < |s| ==> !IsLineTerminator(s[i])
  {
  }

  lemma HelperEmailSingleSeparators()
    ensures var s := "test_fingerate_admin@yopmail.com";
      forall i :: 0 <= i < |s| - 1 ==> !(IsSeparator(s[i]) && IsSeparator(s[i + 1]))
  {
  }

  /** The local part and the single-label domain of a concrete address,
      each against its own pattern. */
  lemma ShapePieces(local: string, domain: string, n: int)
    requires |local| >= 2 && IsLetter(local[0]) && IsAlnum(local[|local| - 1])
    requires forall i :: 0 <= i < |local| ==> IsLocalChar(local[i])
    requires 4 <= n <= 31 && n <= |domain| && !IsLineTerminator(domain[n - 1])
    requires forall i :: 0 <= i < n - 1 ==> IsLabelChar(domain[i])
    requires 2 <= |domain| - n <= 5 && forall i :: n <= i < |domain| ==> IsAlnum(domain[i])
    ensures LocalPart(local) && LabelAt(domain, n) && TopLevel(domain[n..])
  {
    assert forall i :: 0 <= i < |domain[n..]| ==> domain[n..][i] == domain[i + n];
  }

  /** Two dots in a row are refused even where the shape allows them. */
  lemma DoubleDotRefused()
    ensures !EmailAccepted("ab..c@gmail.com")
  {
    var s := "ab..c@gmail.com";
    assert IsSeparator(s[2]) && IsSeparator(s[3]);
  }

  // ---------------------------------------------------------------------------
  // The password policy on concrete inputs

  /** The password of the end-to-end test is accepted. */
  lemma TestPasswordAccepted()
    ensures PasswordAccepted("Testing193!")
  {
    var p := "Testing193!";
    assert 'a' <= p[1] <= 'z' && 'A' <= p[0] <= 'Z' && IsDigit(p[7]) && IsSymbol(p[10]);
  }

  /** The password of the test helper is accepted. */
  lemma HelperPasswordAccepted()
    ensures PasswordAccepted("Test@1234")
  {
    var q := "Test@1234";
    assert 'a' <= q[1] <= 'z' && 'A' <= q[0] <= 'Z' && IsDigit(q[5]) && IsSymbol(q[4]);
  }

  /** A password without an upper-case letter, or shorter than eight characters, is refused. */
  lemma WeakPasswordsRefused()
    ensures !PasswordAccepted("testing193!")
    ensures !PasswordAccepted("Te1!")
  {
    var p := "testing193!";
    assert forall i :: 0 <= i < |p| ==> !('A' <= p[i] <= 'Z');
  }
}

/** The sign-up and login form, `UserCredentials`, and its two validators. */
module Forms {
  import opened Common
  import opened EmailPattern

  const MinPasswordChars: nat := 8
  const MaxPasswordChars: nat := 512
  const PasswordTooShort: string := "Password must be at least 8 characters"
  const PasswordTooLong: string := "Password can not be more than 512 characters"

  datatype UserCredentials = UserCredentials(email: string, password: string) {

    /** `is_valid_email`: the address pattern, as the regex engine receives it from the
        non-raw string literal, matches somewhere in the email.  So an email without `@`
        is never valid. */
    predicate IsValidEmail(): (valid: bool)
      ensures valid ==> '@' in email
    {
      IsMatch(AsWritten, email)
    }

    /** The corrected check: the pattern read as the RFC 5322 expression it copies. */
    predicate IsValidEmailAsIntended() {
      IsMatch(Intended, email)
    }

    /** `check_password_for_issues`: the password's length in characters (Unicode scalar
        values) must be within 8..=512. */
    function CheckPasswordForIssues(): (r: Option<string>)
      ensures r == Some(PasswordTooShort) <==> |password| < MinPasswordChars
      ensures r == Some(PasswordTooLong) <==> |password| > MaxPasswordChars
      ensures r.None? <==> MinPasswordChars <= |password| <= MaxPasswordChars
    {
      var characterCount := |password|;
      if characterCount < MinPasswordChars then Some(PasswordTooShort)
      else if characterCount > MaxPasswordChars then Some(PasswordTooLong)
      else None
    }
  }

  /** The check as written and the corrected one differ only on emails with a quote or an
      opening bracket. */
  lemma ChecksAgreeWithoutQuotesOrBrackets(c: UserCredentials)
    requires '"' !in c.email && '[' !in c.email
    ensures c.IsValidEmail() <==> c.IsValidEmailAsIntended()
  {
    ReadingsAgreeWithoutQuotesOrBrackets(c.email);
  }

  /** A quoted local part is valid for the corrected check and invalid as written. */
  lemma QuotedEmailOnlyValidAsIntended(password: string)
    ensures var c := UserCredentials("\"" + JohnDoe + "\"" + "@" + "example.com", password);
            c.IsValidEmailAsIntended() && !c.IsValidEmail()
  {
    QuotedLocalPartRejected();
    QuotedLocalPartAccepted();
  }

  // ---- Characters, not bytes ----

  /** The number of bytes `c` takes in UTF-8. */
  function Utf8Width(c: char): (n: nat)
    ensures 1 <= n <= 4
  {
    if c as int < 0x80 then 1
    else if c as int < 0x800 then 2
    else if c as int < 0x10000 then 3
    else 4
  }

  /** `str::len()`: the number of bytes of `s` in UTF-8. */
  function Utf8Length(s: string): (n: nat)
    ensures |s| <= n <= 4 * |s|
  {
    if s == [] then 0 else Utf8Width(s[0]) + Utf8Length(s[1..])
  }

  lemma {:induction false} Utf8LengthAtLeast(s: string, w: nat)
    requires forall m :: 0 <= m < |s| ==> Utf8Width(s[m]) >= w
    ensures Utf8Length(s) >= w * |s|
    decreases |s|
  {
    if s != [] {
      Utf8LengthAtLeast(s[1..], w);
    }
  }

  /** A password of two to seven characters outside the Basic Multilingual Plane has
      at least eight bytes and is still too short. */
  lemma WideShortPasswordIsTooShort(c: UserCredentials)
    requires 2 <= |c.password| < MinPasswordChars
    requires forall m :: 0 <= m < |c.password| ==> c.password[m] as int >= 0x10000
    ensures Utf8Length(c.password) >= 8
    ensures c.CheckPasswordForIssues() == Some(PasswordTooShort)
  {
    Utf8LengthAtLeast(c.password, 4);
  }

  /** A password of 257 to 512 two-byte characters has more than 512 bytes and is
      still accepted. */
  lemma WideLongPasswordIsAccepted(c: UserCredentials)
    requires 257 <= |c.password| <= MaxPasswordChars
    requires forall m :: 0 <= m < |c.password| ==> 0x80 <= c.password[m] as int < 0x800
    ensures Utf8Length(c.password) > 512
    ensures c.CheckPasswordForIssues().None?
  {
    Utf8LengthAtLeast(c.password, 2);
  }
}

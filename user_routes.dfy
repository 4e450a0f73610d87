/** The validation prefix of the `POST /signup` handler, `sign_up`. */
module UserRoutes {
  import opened Common
  import opened EmailPattern
  import opened Forms

  const InvalidEmail: string := "Email must be a valid email address"

  /** The `BadRequest` message `sign_up` returns before it looks the user up, or `None`
      when the credentials pass both checks and the handler goes on to the database. */
  function SignUpRejection(c: UserCredentials): (r: Option<string>)
    ensures r.None? <==> c.IsValidEmail() && MinPasswordChars <= |c.password| <= MaxPasswordChars
    ensures r.Some? ==> r.value in {InvalidEmail, PasswordTooShort, PasswordTooLong}
  {
    if !c.IsValidEmail() then Some(InvalidEmail)
    else c.CheckPasswordForIssues()
  }

  /** The email is checked first: with a bad email the password does not matter. */
  lemma BadEmailIsReportedFirst(email: string, password: string, other: string)
    requires !UserCredentials(email, password).IsValidEmail()
    ensures SignUpRejection(UserCredentials(email, password)) == Some(InvalidEmail)
    ensures SignUpRejection(UserCredentials(email, password)) == SignUpRejection(UserCredentials(email, other))
  {
  }

  /** The password rule the handler applies to a well-formed email. */
  lemma PasswordRuleOfSignUp(c: UserCredentials)
    requires c.IsValidEmail()
    ensures |c.password| < MinPasswordChars ==> SignUpRejection(c) == Some(PasswordTooShort)
    ensures |c.password| > MaxPasswordChars ==> SignUpRejection(c) == Some(PasswordTooLong)
    ensures MinPasswordChars <= |c.password| <= MaxPasswordChars ==> SignUpRejection(c).None?
  {
  }

  /** An email without `@` is turned away with the email message. */
  lemma NoAtSignIsRejected(c: UserCredentials)
    requires '@' !in c.email
    ensures SignUpRejection(c) == Some(InvalidEmail)
  {
  }

  /** `john@example.com` with an eight-character password passes the checks. */
  lemma PlainSignUpProceeds()
    ensures SignUpRejection(UserCredentials("john@example.com", "hunter22")).None?
  {
    PlainAddressMatches(AsWritten);
  }

  /** `"john.doe"@example.com` is turned away with the email message, whatever the
      password: the pattern as written rejects a quoted local part. */
  lemma QuotedEmailIsRejected(password: string)
    ensures SignUpRejection(UserCredentials("\"" + JohnDoe + "\"" + "@" + "example.com", password)) == Some(InvalidEmail)
  {
    QuotedLocalPartRejected();
  }
}

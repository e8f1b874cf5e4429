/** The sign-up form: three guards in a fixed order, then one sign-up call. */
module SignupScreen {
  import opened Alerts
  import opened AuthForms

  const MinPasswordLength: nat := 6

  /** The input the form lets through to the provider. No trimming: a field
      of spaces is filled. */
  predicate ValidSignup(email: string, password: string, confirmPassword: string) {
    email != "" && password != "" && confirmPassword != ""
    && password == confirmPassword && |password| >= MinPasswordLength
  }

  /** handleSignup. */
  function HandleSignup(email: string, password: string, confirmPassword: string, signUp: Provider)
    : (r: Submission)
    ensures r.calls != [] <==> ValidSignup(email, password, confirmPassword)
    ensures r.outcome == NavigatedHome ==> r.calls == [(email, password)] && signUp(email, password).None?
  {
    if email == "" || password == "" || confirmPassword == "" then
      Submission(Alerted(Alert("Error", "Please fill all fields")), [])
    else if password != confirmPassword then
      Submission(Alerted(Alert("Error", "Passwords do not match")), [])
    else if |password| < MinPasswordLength then
      Submission(Alerted(Alert("Error", "Password should be at least 6 characters long")), [])
    else
      Submit(signUp, email, password, "Error", "Failed to create account")
  }

  /** The first failing check decides the message. */
  lemma {:induction false} SignupMessages(email: string, password: string, confirmPassword: string, signUp: Provider)
    ensures (email == "" || password == "" || confirmPassword == "")
            ==> HandleSignup(email, password, confirmPassword, signUp).outcome
                == Alerted(Alert("Error", "Please fill all fields"))
    ensures (email != "" && password != "" && confirmPassword != "" && password != confirmPassword)
            ==> HandleSignup(email, password, confirmPassword, signUp).outcome
                == Alerted(Alert("Error", "Passwords do not match"))
    ensures (email != "" && password != "" && password == confirmPassword && |password| < MinPasswordLength)
            ==> HandleSignup(email, password, confirmPassword, signUp).outcome
                == Alerted(Alert("Error", "Password should be at least 6 characters long"))
  {
  }

  /** With valid input the outcome is the provider's: Home on success, the
      error's message or "Failed to create account" on rejection. */
  lemma {:induction false} SignupOutcome(email: string, password: string, confirmPassword: string, signUp: Provider)
    requires ValidSignup(email, password, confirmPassword)
    ensures var r := HandleSignup(email, password, confirmPassword, signUp);
            r.calls == [(email, password)]
            && r.outcome == (if signUp(email, password).None? then NavigatedHome
                             else Alerted(Alert("Error", RejectionMessage(signUp(email, password).value,
                                                                          "Failed to create account"))))
  {
  }

  /** A six-character password is long enough; five characters are not. */
  lemma {:induction false} PasswordLengthBoundary()
    ensures ValidSignup("a@b.c", "secret", "secret")
    ensures !ValidSignup("a@b.c", "short", "short")
    ensures ValidSignup(" ", "      ", "      ")
  {
  }
}

/** The sign-in form: one guard, then one sign-in call. */
module LoginScreen {
  import opened Alerts
  import opened AuthForms

  /** `!email || !password` is false: both strings are non-empty. */
  predicate ValidLogin(email: string, password: string) {
    email != "" && password != ""
  }

  /** handleLogin. */
  function HandleLogin(email: string, password: string, signIn: Provider): (r: Submission)
    ensures r.calls == (if ValidLogin(email, password) then [(email, password)] else [])
    ensures !ValidLogin(email, password) ==> r.outcome == Alerted(Alert("Error", "Please fill in all fields"))
    ensures r.outcome == NavigatedHome <==> ValidLogin(email, password) && signIn(email, password).None?
  {
    if email == "" || password == "" then
      Submission(Alerted(Alert("Error", "Please fill in all fields")), [])
    else
      Submit(signIn, email, password, "Login Failed", "An error occurred during login")
  }

  /** A rejected sign-in shows "Login Failed" with the error's message or the
      default text. */
  lemma {:induction false} LoginRejected(email: string, password: string, signIn: Provider)
    requires ValidLogin(email, password) && signIn(email, password).Some?
    ensures HandleLogin(email, password, signIn).outcome
            == Alerted(Alert("Login Failed", RejectionMessage(signIn(email, password).value,
                                                              "An error occurred during login")))
  {
  }
}

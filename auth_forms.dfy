/** What the sign-in and sign-up forms hand to the authentication provider
    and what they do with its answer. The provider is an oracle. */
module AuthForms {
  import opened Results
  import opened Alerts

  /** A rejection: an Error instance with its message, or any other thrown value. */
  datatype Rejection = ErrorInstance(message: string) | OtherThrown

  /** The provider's call: None when the promise resolves. */
  type Provider = (string, string) -> Option<Rejection>

  /** What a submission ends in: an alert, or `navigation.replace('Home')`. */
  datatype Outcome = Alerted(alert: Alert) | NavigatedHome

  /** The outcome, and the (email, password) pairs the provider was called with. */
  datatype Submission = Submission(outcome: Outcome, calls: seq<(string, string)>)

  /** The alert message for a rejection: the error's message or a fallback. */
  function RejectionMessage(rejection: Rejection, fallback: string): string {
    match rejection
    case ErrorInstance(message) => message
    case OtherThrown => fallback
  }

  /** One provider call and its outcome. */
  function Submit(provider: Provider, email: string, password: string, failureTitle: string, fallback: string)
    : (r: Submission)
    ensures r.calls == [(email, password)]
    ensures r.outcome == NavigatedHome <==> provider(email, password).None?
  {
    var result := provider(email, password);
    if result.None? then Submission(NavigatedHome, [(email, password)])
    else Submission(Alerted(Alert(failureTitle, RejectionMessage(result.value, fallback))), [(email, password)])
  }
}

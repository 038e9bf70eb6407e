/** components/auth-guard.tsx: what the guard around every dashboard page does with
    the current-user query's error. */
module AuthGuard {
  import opened JsText
  import opened UseAuth

  /** The guard's decision: whether its effect pushes /login, and whether it renders
      its children (otherwise it renders nothing). */
  datatype GuardDecision = GuardDecision(redirectToLogin: bool, renderChildren: bool)

  function Guard(error: Option<HttpError>): (d: GuardDecision)
    ensures d.redirectToLogin <==> error.Some? && IsAuthFailure(error.value)
    ensures d.renderChildren <==> !d.redirectToLogin
    ensures error.None? ==> d.renderChildren
  {
    var status := if error.Some? && error.value.Response? then Some(error.value.status) else None;
    var unauthorized := status == Some(401) || status == Some(503);
    GuardDecision(error.Some? && unauthorized, !(error.Some? && unauthorized))
  }

  /** The error the guard sees is the one the query settled with; when the first
      answer is a 401 or 503, the query stops there and the guard redirects and hides
      the page. */
  lemma FirstAuthFailureRedirects(answer: nat -> Option<HttpError>)
    requires answer(0).Some? && IsAuthFailure(answer(0).value)
    ensures var outcome := RunQuery(answer, 0).1;
            outcome.Failed? && Guard(Some(outcome.error)) == GuardDecision(true, false)
  {
    MeQueryBounds(answer);
  }

  /** With an error other than 401 or 503 the query settles only after four attempts,
      and the page then still renders (it also renders while the attempts run). */
  lemma OtherFailuresRenderAfterFourAttempts(answer: nat -> Option<HttpError>)
    ensures var r := RunQuery(answer, 0);
            r.1.Failed? && !IsAuthFailure(r.1.error) ==> r.0 == 4 && Guard(Some(r.1.error)).renderChildren
  {
  }
}

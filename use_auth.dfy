/** hooks/use-auth.ts: the retry policy of the current-user query, and the toast
    messages every auth mutation shows on success and on failure. */
module UseAuth {
  import opened JsText

  /** An Axios error: none at all came back (network failure, server down), or a
      response with its status and the `message` of its body, if any. */
  datatype HttpError = NoResponse | Response(status: int, message: Option<string>)

  /** 401 or 503: the statuses the dashboard treats as "not signed in". */
  predicate IsAuthFailure(e: HttpError)
  {
    e.Response? && (e.status == 401 || e.status == 503)
  }

  /** The `retry` option of useMe, called with the number of failures before this one
      (0 after the first failed attempt). */
  function ShouldRetry(failureCount: nat, e: HttpError): (retry: bool)
    ensures retry <==> !IsAuthFailure(e) && failureCount < 3
  {
    if e.Response? && (e.status == 401 || e.status == 503) then false
    else failureCount < 3
  }

  /** How the current-user query ends. */
  datatype QueryOutcome = Loaded | Failed(error: HttpError)

  /** The query library's loop around useMe: attempt number `failureCount` gets
      `answer(failureCount)` from the server (None for success); a failure is retried
      while ShouldRetry allows. The result is the number of attempts made from here and
      the outcome. */
  function RunQuery(answer: nat -> Option<HttpError>, failureCount: nat): (r: (nat, QueryOutcome))
    ensures r.0 >= 1
    ensures failureCount < 3 ==> failureCount + r.0 <= 4
    ensures failureCount >= 3 ==> r.0 == 1
    ensures var last := failureCount + r.0 - 1;
            && (r.1 == Loaded <==> answer(last).None?)
            && (r.1.Failed? ==> answer(last) == Some(r.1.error) && !ShouldRetry(last, r.1.error))
    ensures forall k :: failureCount <= k < failureCount + r.0 - 1 ==>
              answer(k).Some? && ShouldRetry(k, answer(k).value)
    decreases 3 - failureCount
  {
    match answer(failureCount)
    case None => (1, Loaded)
    case Some(e) =>
      if ShouldRetry(failureCount, e) then
        var rest := RunQuery(answer, failureCount + 1);
        (rest.0 + 1, rest.1)
      else (1, Failed(e))
  }

  /** useMe as a whole: at most four attempts (three retries); a 401 or 503 ends it
      at once with that error. */
  lemma MeQueryBounds(answer: nat -> Option<HttpError>)
    ensures 1 <= RunQuery(answer, 0).0 <= 4
    ensures answer(0).Some? && IsAuthFailure(answer(0).value) ==>
              RunQuery(answer, 0) == (1, Failed(answer(0).value))
  {
  }

  /** A server that keeps failing with another status is asked exactly four times and
      the query fails with its error. */
  lemma {:induction false} PersistentFailureGetsFourAttempts(answer: nat -> Option<HttpError>, e: HttpError)
    requires !IsAuthFailure(e)
    requires forall k :: answer(k) == Some(e)
    ensures RunQuery(answer, 0) == (4, Failed(e))
  {
    assert answer(3) == Some(e) && !ShouldRetry(3, e);
    assert RunQuery(answer, 3) == (1, Failed(e));
    assert answer(2) == Some(e) && ShouldRetry(2, e);
    assert RunQuery(answer, 2) == (2, Failed(e));
    assert answer(1) == Some(e);
    assert RunQuery(answer, 1) == (3, Failed(e));
    assert answer(0) == Some(e);
  }

  // ---------------------------------------------------------------------------
  // Messages

  /** The six auth mutations. */
  datatype AuthOperation = SignIn | SignUp | ForgotPassword | ResendOtp | Verify | ResetPassword

  const ConnectionMessage: string := "Unable to connect to server. Please check if the server is running."

  function SuccessDefault(op: AuthOperation): string
  {
    match op
    case SignIn => "Successfully signed in!"
    case SignUp => "Account created successfully!"
    case ForgotPassword => "Reset code sent to your email!"
    case ResendOtp => "OTP resent successfully!"
    case Verify => "Verification successful!"
    case ResetPassword => "Password reset successfully!"
  }

  function ErrorFallback(op: AuthOperation): string
  {
    match op
    case SignIn => "Sign in failed"
    case SignUp => "Sign up failed"
    case ForgotPassword => "Failed to send reset code"
    case ResendOtp => "Failed to resend OTP"
    case Verify => "Verification failed"
    case ResetPassword => "Password reset failed"
  }

  /** The success toast: the server's message when it sent a non-empty one, else the
      operation's own text. */
  function SuccessMessage(op: AuthOperation, serverMessage: Option<string>): (m: string)
    ensures m != ""
    ensures serverMessage.Some? && serverMessage.value != "" ==> m == serverMessage.value
    ensures serverMessage.None? || serverMessage.value == "" ==> m == SuccessDefault(op)
  {
    OrNull(serverMessage, SuccessDefault(op))
  }

  /** The error toast: the connection text when no response came back, whatever the
      operation; otherwise the server's non-empty message, else the operation's own
      fallback. */
  function ErrorMessage(op: AuthOperation, e: HttpError): (m: string)
    ensures m != ""
    ensures e.NoResponse? ==> m == ConnectionMessage
    ensures e.Response? && e.message.Some? && e.message.value != "" ==> m == e.message.value
    ensures e.Response? && (e.message.None? || e.message.value == "") ==> m == ErrorFallback(op)
  {
    if e.NoResponse? then ConnectionMessage
    else OrNull(e.message, ErrorFallback(op))
  }

  /** The connection text is never one of the fallbacks, so it is shown only when no
      response came back or the server itself sent exactly that text. */
  lemma ConnectionMessageMeansNoResponse(op: AuthOperation, e: HttpError)
    requires ErrorMessage(op, e) == ConnectionMessage
    ensures e.NoResponse? || e.message == Some(ConnectionMessage)
  {
    assert ErrorFallback(op) != ConnectionMessage by {
      assert |ErrorFallback(op)| < |ConnectionMessage|;
    }
  }
}

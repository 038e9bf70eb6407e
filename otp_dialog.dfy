/** components/otp-dialog.tsx: the one-time-code dialog. Entering the sixth digit
    sends the code on its own; a wrong code clears the input and shakes the dialog; a
    right one shows success and, after a delay, hands over to the caller. The verify
    and resend requests are outside: the dialog returns what it would send, and the
    caller reports how the request ended. Timers become explicit "delay elapsed"
    steps. */
module OtpDialog {
  import opened JsText

  const CodeLength: nat := 6

  /** The verify request: the username and the code exactly as entered. */
  datatype VerifyRequest = VerifyRequest(username: string, verificationCode: string)

  /** The resend request. */
  datatype ResendRequest = ResendRequest(email: string)

  /** What the success delay does besides resetting the dialog. */
  datatype Handover = CallOnSuccess | NavigateHome

  /** The effect's guard: a full code, no verify in flight, not yet verified. */
  function AutoSubmit(username: string, otp: string, verifyPending: bool, isVerified: bool): (req: Option<VerifyRequest>)
    ensures req.Some? <==> |otp| == CodeLength && !verifyPending && !isVerified
    ensures req.Some? ==> req.value.username == username && req.value.verificationCode == otp
  {
    if |otp| == CodeLength && !verifyPending && !isVerified then Some(VerifyRequest(username, otp)) else None
  }

  /** After the success delay: the caller's onSuccess if it gave one, else go home. */
  function HandoverFor(hasOnSuccess: bool): (h: Handover)
    ensures h == CallOnSuccess <==> hasOnSuccess
  {
    if hasOnSuccess then CallOnSuccess else NavigateHome
  }

  class OtpDialog {
    const username: string
    const email: string
    const hasOnSuccess: bool
    var otp: string
    var isShaking: bool
    var isVerified: bool
    var verifyPending: bool
    var resendPending: bool

    /** The code input holds at most six characters, and while a code is being checked
        or has been accepted the input holds that full code. */
    predicate Valid()
      reads this
    {
      && |otp| <= CodeLength
      && (verifyPending || isVerified ==> |otp| == CodeLength)
      && !(verifyPending && isVerified)
    }

    constructor (username: string, email: string, hasOnSuccess: bool)
      ensures Valid()
      ensures this.username == username && this.email == email && this.hasOnSuccess == hasOnSuccess
      ensures otp == "" && !isShaking && !isVerified && !verifyPending && !resendPending
    {
      this.username := username;
      this.email := email;
      this.hasOnSuccess := hasOnSuccess;
      otp := "";
      isShaking := false;
      isVerified := false;
      verifyPending := false;
      resendPending := false;
    }

    /** The code input is disabled while a code is checked or after it was accepted. */
    function InputDisabled(): (disabled: bool)
      reads this
      ensures disabled <==> verifyPending || isVerified
    {
      verifyPending || isVerified
    }

    /** The Resend button is shown until the code is accepted. */
    function ResendShown(): (shown: bool)
      reads this
      ensures shown <==> !isVerified
    {
      !isVerified
    }

    function ResendDisabled(): (disabled: bool)
      reads this
      ensures disabled <==> resendPending || verifyPending
    {
      resendPending || verifyPending
    }

    /** The input reports a new value (a disabled input reports nothing); the effect
        then sends the code if it is complete. */
    method EnterOtp(value: string) returns (req: Option<VerifyRequest>)
      requires Valid()
      requires |value| <= CodeLength
      modifies this
      ensures Valid()
      ensures old(InputDisabled()) ==> req.None? && otp == old(otp) && verifyPending == old(verifyPending)
      ensures !old(InputDisabled()) ==> otp == value && req == AutoSubmit(username, value, false, false)
      ensures !old(InputDisabled()) ==> verifyPending == req.Some?
      ensures isVerified == old(isVerified) && isShaking == old(isShaking) && resendPending == old(resendPending)
    {
      req := None;
      if !(verifyPending || isVerified) {
        otp := value;
        req := AutoSubmit(username, otp, verifyPending, isVerified);
        if req.Some? {
          verifyPending := true;
        }
      }
    }

    /** The verify request succeeded: show success and keep the code until the delay. */
    method VerifySucceeded()
      requires Valid() && verifyPending
      modifies this
      ensures Valid()
      ensures isVerified && !verifyPending
      ensures otp == old(otp) && isShaking == old(isShaking) && resendPending == old(resendPending)
    {
      verifyPending := false;
      isVerified := true;
    }

    /** The success delay elapsed (its timer exists only once the code was accepted):
        hand over, close, and reset the code and the success flag; the effect that runs
        next sends nothing, since the code is empty. */
    method SuccessDelayElapsed() returns (handover: Handover, closeDialog: bool, req: Option<VerifyRequest>)
      requires Valid() && isVerified
      modifies this
      ensures Valid()
      ensures handover == HandoverFor(hasOnSuccess) && closeDialog
      ensures otp == "" && !isVerified && req.None?
      ensures verifyPending == old(verifyPending) && isShaking == old(isShaking) && resendPending == old(resendPending)
    {
      handover := HandoverFor(hasOnSuccess);
      closeDialog := true;
      otp := "";
      isVerified := false;
      req := AutoSubmit(username, otp, verifyPending, isVerified);
    }

    /** The verify request failed: clear the code and shake; nothing is re-sent. */
    method VerifyFailed() returns (req: Option<VerifyRequest>)
      requires Valid() && verifyPending
      modifies this
      ensures Valid()
      ensures otp == "" && isShaking && !verifyPending && req.None?
      ensures isVerified == old(isVerified) && resendPending == old(resendPending)
    {
      verifyPending := false;
      isShaking := true;
      otp := "";
      req := AutoSubmit(username, otp, verifyPending, isVerified);
    }

    method ShakeElapsed()
      requires Valid()
      modifies this
      ensures Valid()
      ensures !isShaking
      ensures otp == old(otp) && isVerified == old(isVerified)
      ensures verifyPending == old(verifyPending) && resendPending == old(resendPending)
    {
      isShaking := false;
    }

    /** A click on Resend, which only a shown and enabled button can deliver. */
    method ResendClicked() returns (req: Option<ResendRequest>)
      requires Valid()
      modifies this
      ensures Valid()
      ensures req.Some? <==> old(ResendShown()) && !old(ResendDisabled())
      ensures req.Some? ==> req.value == ResendRequest(email) && resendPending
      ensures req.None? ==> resendPending == old(resendPending)
      ensures otp == old(otp) && isVerified == old(isVerified)
      ensures verifyPending == old(verifyPending) && isShaking == old(isShaking)
    {
      if !isVerified && !(resendPending || verifyPending) {
        req := Some(ResendRequest(email));
        resendPending := true;
      } else {
        req := None;
      }
    }

    /** The resend request ended, either way. */
    method ResendSettled()
      requires Valid()
      modifies this
      ensures Valid()
      ensures !resendPending
      ensures otp == old(otp) && isVerified == old(isVerified)
      ensures verifyPending == old(verifyPending) && isShaking == old(isShaking)
    {
      resendPending := false;
    }
  }

  /** While a code is being checked the effect sends nothing more, so one complete code
      is sent at most once until its answer arrives. */
  lemma NoSecondRequestWhilePending(username: string, otp: string, isVerified: bool)
    ensures AutoSubmit(username, otp, true, isVerified).None?
  {
  }

  /** The request an effect outcome sent, if any, as a list to append to a log. */
  function Sent(outcome: Option<VerifyRequest>): seq<VerifyRequest>
  {
    if outcome.Some? then [outcome.value] else []
  }

  /** A scenario: a wrong code is cleared, the next complete code is sent and accepted,
      and after the delay the dialog is back to an empty, unverified input. Exactly two
      requests go out, the extra input while checking and after acceptance is ignored,
      and without an onSuccess callback the dialog navigates home. */
  method WrongThenRightCode(username: string, email: string)
    returns (sent: seq<VerifyRequest>, acceptedCode: string, handover: Handover,
             finalOtp: string, finalVerified: bool)
    ensures sent == [VerifyRequest(username, "123456"), VerifyRequest(username, "654321")]
    ensures acceptedCode == "654321"
    ensures handover == NavigateHome
    ensures finalOtp == "" && !finalVerified
  {
    var d := new OtpDialog(username, email, false);
    var r := d.EnterOtp("12345");
    sent := Sent(r);
    r := d.EnterOtp("123456");
    sent := sent + Sent(r);
    r := d.EnterOtp("654321");
    sent := sent + Sent(r);
    r := d.VerifyFailed();
    sent := sent + Sent(r);
    d.ShakeElapsed();
    r := d.EnterOtp("654321");
    sent := sent + Sent(r);
    d.VerifySucceeded();
    r := d.EnterOtp("111111");
    sent := sent + Sent(r);
    acceptedCode := d.otp;
    var close;
    handover, close, r := d.SuccessDelayElapsed();
    sent := sent + Sent(r);
    finalOtp := d.otp;
    finalVerified := d.isVerified;
  }
}

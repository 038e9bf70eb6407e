/** components/reset-password-dialog.tsx: the dialog that takes the e-mailed code and a
    new password. Two checks guard the request: the form check that enables the submit
    button, and a weaker one inside the submit handler. Requests are returned to the
    caller, which reports how they ended; timers become "delay elapsed" steps. */
module ResetPasswordDialog {
  import opened JsText

  const CodeLength: nat := 6

  /** The reset request: e-mail, code, and the new password as typed (not trimmed). */
  datatype ResetRequest = ResetRequest(email: string, verificationCode: string, newPassword: string)

  /** The resend request (the forgot-password call again). */
  datatype ResendRequest = ResendRequest(email: string)

  /** isFormValid: a full code and at least six characters once white space is trimmed
      from both ends; such a password has a visible character and six characters. */
  function IsFormValid(otp: string, newPassword: string): (valid: bool)
    ensures valid <==> |otp| == CodeLength && |Trim(newPassword)| >= 6
    ensures valid ==> HasVisibleChar(newPassword) && |newPassword| >= 6
  {
    |otp| == CodeLength && |Trim(newPassword)| >= 6
  }

  /** handleSubmit's own check: a full code and a password that is not all white space. */
  function SubmitGuard(otp: string, newPassword: string): (passes: bool)
    ensures passes <==> |otp| == CodeLength && HasVisibleChar(newPassword)
  {
    |otp| == CodeLength && Trim(newPassword) != ""
  }

  /** Every form the button accepts passes the handler's check. */
  lemma FormValidPassesGuard(otp: string, newPassword: string)
    requires IsFormValid(otp, newPassword)
    ensures SubmitGuard(otp, newPassword)
  {
  }

  /** The handler's check is strictly weaker: a one-letter password passes it although
      the form is invalid. */
  lemma GuardWeakerThanForm()
    ensures SubmitGuard("123456", "x")
    ensures !IsFormValid("123456", "x")
  {
    assert !IsJsWhitespace('x');
    assert HasVisibleChar("x") by {
      assert "x"[0] == 'x';
    }
  }

  /** The form counts characters after trimming: five letters padded with spaces to
      seven characters are still too short, though the handler's check would pass. */
  lemma PaddedShortPasswordInvalid()
    ensures |" abcde "| >= 6
    ensures !IsFormValid("123456", " abcde ")
    ensures SubmitGuard("123456", " abcde ")
  {
    TrimIsTheOnlyCut(" abcde ", 1, 6);
    assert " abcde "[1..6] == "abcde";
  }

  /** The submit button: disabled for an invalid form or while disabled. */
  function SubmitButtonDisabled(otp: string, newPassword: string, isDisabled: bool): (disabled: bool)
    ensures !disabled ==> !isDisabled && SubmitGuard(otp, newPassword)
    ensures disabled <==> !IsFormValid(otp, newPassword) || isDisabled
  {
    !IsFormValid(otp, newPassword) || isDisabled
  }

  class ResetPasswordDialog {
    const email: string
    var otp: string
    var newPassword: string
    var isShaking: bool
    var isResetSuccessful: bool
    var resetPending: bool
    var resendPending: bool

    constructor (email: string)
      ensures this.email == email
      ensures otp == "" && newPassword == "" && !isShaking && !isResetSuccessful
      ensures !resetPending && !resendPending
    {
      this.email := email;
      otp := "";
      newPassword := "";
      isShaking := false;
      isResetSuccessful := false;
      resetPending := false;
      resendPending := false;
    }

    /** isDisabled: the inputs are locked while a reset runs or after it succeeded. */
    function IsDisabled(): (disabled: bool)
      reads this
      ensures disabled <==> resetPending || isResetSuccessful
    {
      resetPending || isResetSuccessful
    }

    function ResendShown(): (shown: bool)
      reads this
      ensures shown <==> !isResetSuccessful
    {
      !isResetSuccessful
    }

    function ResendDisabled(): (disabled: bool)
      reads this
      ensures disabled <==> resendPending || resetPending
    {
      resendPending || resetPending
    }

    /** The code input reports a value; a disabled input reports nothing. */
    method EditOtp(value: string)
      requires |value| <= CodeLength
      modifies this
      ensures otp == (if old(IsDisabled()) then old(otp) else value)
      ensures newPassword == old(newPassword) && isShaking == old(isShaking)
      ensures isResetSuccessful == old(isResetSuccessful)
      ensures resetPending == old(resetPending) && resendPending == old(resendPending)
    {
      if !IsDisabled() {
        otp := value;
      }
    }

    method EditPassword(value: string)
      modifies this
      ensures newPassword == (if old(IsDisabled()) then old(newPassword) else value)
      ensures otp == old(otp) && isShaking == old(isShaking)
      ensures isResetSuccessful == old(isResetSuccessful)
      ensures resetPending == old(resetPending) && resendPending == old(resendPending)
    {
      if !IsDisabled() {
        newPassword := value;
      }
    }

    /** handleSubmit: sends the request when its own check passes; it does not look at
        isDisabled or the form check. */
    method HandleSubmit() returns (req: Option<ResetRequest>)
      modifies this
      ensures req.Some? <==> SubmitGuard(old(otp), old(newPassword))
      ensures req.Some? ==> req.value == ResetRequest(email, otp, newPassword) && resetPending
      ensures req.None? ==> resetPending == old(resetPending)
      ensures otp == old(otp) && newPassword == old(newPassword) && isShaking == old(isShaking)
      ensures isResetSuccessful == old(isResetSuccessful) && resendPending == old(resendPending)
    {
      if |otp| == CodeLength && Trim(newPassword) != "" {
        req := Some(ResetRequest(email, otp, newPassword));
        resetPending := true;
      } else {
        req := None;
      }
    }

    method ResetSucceeded()
      requires resetPending
      modifies this
      ensures isResetSuccessful && !resetPending
      ensures otp == old(otp) && newPassword == old(newPassword) && isShaking == old(isShaking)
      ensures resendPending == old(resendPending)
    {
      resetPending := false;
      isResetSuccessful := true;
    }

    /** The success delay elapsed: go to the login page, close, and clear the form. */
    method SuccessDelayElapsed() returns (navigateToLogin: bool, closeDialog: bool)
      modifies this
      ensures navigateToLogin && closeDialog
      ensures otp == "" && newPassword == "" && !isResetSuccessful
      ensures isShaking == old(isShaking) && resetPending == old(resetPending)
      ensures resendPending == old(resendPending)
    {
      navigateToLogin := true;
      closeDialog := true;
      otp := "";
      newPassword := "";
      isResetSuccessful := false;
    }

    /** The reset failed: shake; the code and the password are kept for another try. */
    method ResetFailed()
      requires resetPending
      modifies this
      ensures isShaking && !resetPending
      ensures otp == old(otp) && newPassword == old(newPassword)
      ensures isResetSuccessful == old(isResetSuccessful) && resendPending == old(resendPending)
    {
      resetPending := false;
      isShaking := true;
    }

    method ShakeElapsed()
      modifies this
      ensures !isShaking
      ensures otp == old(otp) && newPassword == old(newPassword)
      ensures isResetSuccessful == old(isResetSuccessful)
      ensures resetPending == old(resetPending) && resendPending == old(resendPending)
    {
      isShaking := false;
    }

    /** A click on Resend, which only a shown and enabled button can deliver. */
    method ResendClicked() returns (req: Option<ResendRequest>)
      modifies this
      ensures req.Some? <==> old(ResendShown()) && !old(ResendDisabled())
      ensures req.Some? ==> req.value == ResendRequest(email) && resendPending
      ensures req.None? ==> resendPending == old(resendPending)
      ensures otp == old(otp) && newPassword == old(newPassword) && isShaking == old(isShaking)
      ensures isResetSuccessful == old(isResetSuccessful) && resetPending == old(resetPending)
    {
      if !isResetSuccessful && !(resendPending || resetPending) {
        req := Some(ResendRequest(email));
        resendPending := true;
      } else {
        req := None;
      }
    }

    method ResendSettled()
      modifies this
      ensures !resendPending
      ensures otp == old(otp) && newPassword == old(newPassword) && isShaking == old(isShaking)
      ensures isResetSuccessful == old(isResetSuccessful) && resetPending == old(resetPending)
    {
      resendPending := false;
    }
  }

  /** A click on an enabled submit button always sends the request, with the password
      exactly as typed. */
  method EnabledSubmitSends(d: ResetPasswordDialog) returns (req: Option<ResetRequest>)
    requires !SubmitButtonDisabled(d.otp, d.newPassword, d.IsDisabled())
    modifies d
    ensures req == Some(ResetRequest(d.email, d.otp, d.newPassword))
  {
    req := d.HandleSubmit();
  }
}

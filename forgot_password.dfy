/** The password-reset form (app/forgot-password/page.tsx). */
module ForgotPassword {
  import opened Common
  import opened Text
  import opened Email
  import Signup

  const EmailRequired := "Please enter your email."
  const InvalidEmail := "Please enter a valid email."
  const LinkSent := "We sent a link to your email!"

  /** What `resetPasswordForEmail` answers. */
  datatype ResetResult = ResetOk | ResetError(message: string)

  /** The message the validation chain of `handleResetRequest` stops with, or
      None when the reset request is to be issued. */
  function Rejection(email: string): (r: Option<string>)
    ensures r == Some(EmailRequired) <==> IsBlank(email)
    ensures r == Some(InvalidEmail) <==> !IsBlank(email) && !EmailShape(email)
    ensures r == None <==> !IsBlank(email) && EmailShape(email)
  {
    if Trim(email) == "" then Some(EmailRequired)
    else if !ValidateEmail(email) then Some(InvalidEmail)
    else None
  }

  /** Both forms apply the same e-mail rule: with a password that passes the
      sign-up checks, sign-up accepts an e-mail exactly when the reset form does. */
  lemma SameEmailRuleAsSignup(email: string, password: string)
    requires !IsBlank(password) && Utf16Length(password) >= Signup.MinPasswordLength
    ensures Signup.Rejection(email, password) == None <==> Rejection(email) == None
  {
  }

  /** A blank e-mail is reported as missing, never as malformed, although it is
      not of e-mail shape either. */
  lemma BlankBeforeShape(email: string)
    requires IsBlank(email)
    ensures !ValidateEmail(email)
    ensures Rejection(email) == Some(EmailRequired)
  {
  }

  class ForgotPasswordPage {
    var email: string
    var message: string

    constructor ()
      ensures email == "" && message == ""
    {
      email, message := "", "";
    }

    method SetEmail(newEmail: string)
      modifies this`email
      ensures email == newEmail
    {
      email := newEmail;
    }

    /** `handleResetRequest`. `reset` is what the reset request answers if it is
        issued; `requested` says whether it was. */
    method HandleResetRequest(reset: ResetResult) returns (requested: bool)
      modifies this`message
      ensures requested <==> Rejection(email) == None
      ensures !requested ==> message == Rejection(email).value
      ensures requested ==> message == if reset.ResetError? then "Error: " + reset.message else LinkSent
    {
      if Trim(email) == "" {
        message := EmailRequired;
        return false;
      }
      if !ValidateEmail(email) {
        message := InvalidEmail;
        return false;
      }
      requested := true;
      match reset
      case ResetError(m) => message := "Error: " + m;
      case ResetOk => message := LinkSent;
    }
  }
}

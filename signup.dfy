/** The sign-up form (app/signup/page.tsx): an early-return validation chain
    that writes exactly one message, then the call to the auth provider. */
module Signup {
  import opened Common
  import opened Text
  import opened Email

  const BothRequired := "Please enter both email and password."
  const InvalidEmail := "Please enter a valid email address."
  const ShortPassword := "Password must be at least 6 characters."
  const Registered := "Registration completed! Check your email to confirm."
  const MinPasswordLength := 6

  /** What the auth provider's `signUp` answers: an error with its message, or success. */
  datatype AuthResult = AuthOk | AuthError(message: string)

  /** The message the validation chain of `handleSignup` stops with, or None when
      every check passes. The checks run in order and the first failure wins. */
  function Rejection(email: string, password: string): (r: Option<string>)
    ensures r == Some(BothRequired) <==> IsBlank(email) || IsBlank(password)
    ensures r == Some(InvalidEmail) <==> !IsBlank(email) && !IsBlank(password) && !EmailShape(email)
    ensures r == Some(ShortPassword) <==>
              !IsBlank(email) && !IsBlank(password) && EmailShape(email) && Utf16Length(password) < MinPasswordLength
    ensures r == None <==>
              !IsBlank(email) && !IsBlank(password) && EmailShape(email) && Utf16Length(password) >= MinPasswordLength
  {
    if Trim(email) == "" || Trim(password) == "" then Some(BothRequired)
    else if !ValidateEmail(email) then Some(InvalidEmail)
    else if Utf16Length(password) < MinPasswordLength then Some(ShortPassword)
    else None
  }

  /** The length check looks at the password as typed, not trimmed: a password
      of six characters passes even when only one of them is not white space,
      and one of five characters is refused. */
  lemma LengthCheckIsUntrimmed()
    ensures Rejection("a@b.c", "     x") == None
    ensures Rejection("a@b.c", "    x") == Some(ShortPassword)
  {
    ValidateEmailExamples();
    assert !IsSpace("     x"[5]);
    assert !IsSpace("    x"[4]);
  }

  /** Six is the smallest length accepted. */
  lemma SixIsEnough(email: string, password: string)
    requires !IsBlank(email) && !IsBlank(password) && ValidateEmail(email)
    ensures Utf16Length(password) == MinPasswordLength ==> Rejection(email, password) == None
    ensures Utf16Length(password) == MinPasswordLength - 1 ==> Rejection(email, password) == Some(ShortPassword)
  {
  }

  class SignupPage {
    var email: string
    var password: string
    var message: string

    constructor ()
      ensures email == "" && password == "" && message == ""
    {
      email, password, message := "", "", "";
    }

    /** The `onChange` handlers of the two inputs. */
    method SetFields(newEmail: string, newPassword: string)
      modifies this`email, this`password
      ensures email == newEmail && password == newPassword
    {
      email, password := newEmail, newPassword;
    }

    /** `handleSignup`. `auth` is what `signUp` answers if it is called;
        `signUpCalled` says whether it was. */
    method HandleSignup(auth: AuthResult) returns (signUpCalled: bool)
      modifies this`message
      ensures signUpCalled <==> Rejection(email, password) == None
      ensures !signUpCalled ==> message == Rejection(email, password).value
      ensures signUpCalled ==> message == if auth.AuthError? then "Error: " + auth.message else Registered
    {
      if Trim(email) == "" || Trim(password) == "" {
        message := BothRequired;
        return false;
      }
      if !ValidateEmail(email) {
        message := InvalidEmail;
        return false;
      }
      if Utf16Length(password) < MinPasswordLength {
        message := ShortPassword;
        return false;
      }
      signUpCalled := true;
      match auth
      case AuthError(m) => message := "Error: " + m;
      case AuthOk => message := Registered;
    }
  }
}

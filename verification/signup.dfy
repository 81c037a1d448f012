/** The password checks of the sign-up form, made before the registration
    request is sent. */
module Signup {

  const MismatchMessage := "Passwords do not match"
  const TooShortMessage := "Password must be at least 6 characters"
  const MinPasswordLength := 6

  /** The outcome of one submit: the error shown, and whether the
      registration request goes out. */
  datatype SubmitOutcome = Rejected(error: string) | Register

  /** `handleSubmit` up to the registration call.  The error shown before the
      submit is cleared first, so it plays no part. */
  function SubmitSignup(password: string, confirmPassword: string): (o: SubmitOutcome)
    ensures o == Register <==> password == confirmPassword && |password| >= MinPasswordLength
    ensures o.Rejected? ==> o.error != ""
  {
    if password != confirmPassword then Rejected(MismatchMessage)
    else if |password| < MinPasswordLength then Rejected(TooShortMessage)
    else Register
  }

  /** The error shown after a submit: the check's message, or none while the
      request is under way; whatever was shown before is gone. */
  function ErrorAfterSubmit(previousError: string, password: string, confirmPassword: string): (e: string)
    ensures e == "" <==> SubmitSignup(password, confirmPassword) == Register
  {
    var cleared := "";
    match SubmitSignup(password, confirmPassword)
    case Rejected(msg) => msg
    case Register => cleared
  }

  /** A mismatch is reported even when the password is also too short: the
      mismatch is checked first. */
  lemma MismatchFirst(password: string, confirmPassword: string)
    requires password != confirmPassword
    ensures SubmitSignup(password, confirmPassword) == Rejected(MismatchMessage)
  {
  }

  /** Matching passwords shorter than six characters are rejected as too
      short, and only those. */
  lemma TooShortIff(password: string, confirmPassword: string)
    ensures SubmitSignup(password, confirmPassword) == Rejected(TooShortMessage) <==>
      password == confirmPassword && |password| < MinPasswordLength
  {
    assert MismatchMessage != TooShortMessage by {
      assert |MismatchMessage| != |TooShortMessage|;
    }
  }

  /** The previous error never survives a submit. */
  lemma StaleErrorCleared(e1: string, e2: string, password: string, confirmPassword: string)
    ensures ErrorAfterSubmit(e1, password, confirmPassword) == ErrorAfterSubmit(e2, password, confirmPassword)
  {
  }
}

/** The sign-up form: validation before the account is created. */
module Signup {

  import opened Replies
  import opened PasswordRules
  import JsText

  datatype Form = Form(email: string, password: string, confirmPassword: string)

  /** The message `validateForm` shows for a failed check. */
  function Message(f: Failure): (m: string)
    ensures m != ""
  {
    match f
    case MissingField => "All fields are required"
    case Mismatch => "Passwords do not match"
    case TooShort => "Password must be at least 6 characters"
  }

  /** What pressing the button does: the validation message left on screen
      (cleared when the form is valid), and whether `signUp` is called. */
  datatype Outcome = Outcome(validationError: Option<string>, signUpCalled: bool)

  /** `handleSignup` */
  function HandleSignup(form: Form): (r: Outcome)
    ensures r.signUpCalled <==> r.validationError.None?
    ensures r.signUpCalled <==>
      form.email != "" && form.password != "" && form.confirmPassword != ""
      && form.password == form.confirmPassword && JsText.Utf16Length(form.password) >= MinLength
    ensures form.email == "" || form.password == "" || form.confirmPassword == "" ==>
      r.validationError == Some("All fields are required")
  {
    var failure := FirstFailure([form.email, form.password, form.confirmPassword], form.password, form.confirmPassword);
    if failure.Some? then Outcome(Some(Message(failure.value)), false)
    else Outcome(None, true)
  }

  /** A form that only differs in a password too short to accept is refused
      with the length message. */
  lemma ShortPasswordRefused(email: string, password: string)
    requires email != "" && password != "" && JsText.Utf16Length(password) < MinLength
    ensures HandleSignup(Form(email, password, password)) == Outcome(Some("Password must be at least 6 characters"), false)
  {
  }

  /** Mismatching confirmation is reported before the length. */
  lemma MismatchBeforeLength(email: string, password: string, confirm: string)
    requires email != "" && password != "" && confirm != "" && password != confirm
    ensures HandleSignup(Form(email, password, confirm)) == Outcome(Some("Passwords do not match"), false)
  {
  }
}

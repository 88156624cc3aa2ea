/** The change-password screen: validation, re-authentication with the
    current password, the update, and the reset of the form. The sign-in and
    the update are inputs: the error message each failed with, or `None`. */
module ChangePassword {

  import opened Replies
  import opened PasswordRules
  import JsText

  datatype Form = Form(currentPassword: string, newPassword: string, confirmPassword: string)

  const Cleared := Form("", "", "")

  datatype Screen = Screen(form: Form, error: Option<string>, success: bool)

  function Message(f: Failure): (m: string)
    ensures m != ""
  {
    match f
    case MissingField => "All fields are required"
    case Mismatch => "New passwords do not match"
    case TooShort => "New password must be at least 6 characters"
  }

  /** `validateForm`: `None` when the form is valid, else the message it sets. */
  function Validate(form: Form): (r: Option<string>)
    ensures r.None? <==>
      form.currentPassword != "" && form.newPassword != "" && form.confirmPassword != ""
      && form.newPassword == form.confirmPassword && JsText.Utf16Length(form.newPassword) >= MinLength
    ensures form.currentPassword == "" || form.newPassword == "" || form.confirmPassword == "" ==>
      r == Some("All fields are required")
    ensures (form.currentPassword != "" && form.newPassword != "" && form.confirmPassword != ""
             && form.newPassword != form.confirmPassword) ==> r == Some("New passwords do not match")
    ensures (form.currentPassword != "" && form.newPassword != "" && form.newPassword == form.confirmPassword
             && JsText.Utf16Length(form.newPassword) < MinLength) ==> r == Some("New password must be at least 6 characters")
  {
    var failure := FirstFailure([form.currentPassword, form.newPassword, form.confirmPassword],
                                form.newPassword, form.confirmPassword);
    if failure.Some? then Some(Message(failure.value)) else None
  }

  /** Whether the current password is checked by signing in. */
  predicate SignInAttempted(s: Screen, signedIn: bool)
  {
    signedIn && Validate(s.form).None?
  }

  /** `handleChangePassword` */
  function Submit(s: Screen, signedIn: bool, signInError: Option<string>, updateError: Option<string>): (r: Screen)
    ensures !signedIn ==> r == s.(error := Some("You must be logged in to change your password"))
    ensures signedIn && Validate(s.form).Some? ==> r == s.(error := Validate(s.form))
    ensures SignInAttempted(s, signedIn) && signInError.Some? ==>
      r == Screen(s.form, Some("Current password is incorrect"), false)
    ensures SignInAttempted(s, signedIn) && signInError.None? && updateError.Some? ==>
      r == Screen(s.form, Some(ErrorText(updateError.value, "Failed to change password")), false)
    ensures r.success <==> (SignInAttempted(s, signedIn) && signInError.None? && updateError.None?) || (s.success && !SignInAttempted(s, signedIn))
    ensures r.form != s.form ==> r.form == Cleared && r.success && r.error.None?
  {
    if !signedIn then s.(error := Some("You must be logged in to change your password"))
    else if Validate(s.form).Some? then s.(error := Validate(s.form))
    else if signInError.Some? then Screen(s.form, Some("Current password is incorrect"), false)
    else if updateError.Some? then Screen(s.form, Some(ErrorText(updateError.value, "Failed to change password")), false)
    else Screen(Cleared, None, true)
  }

  /** A successful change always starts from a valid form and leaves every
      field empty. */
  lemma SuccessResets(s: Screen, signedIn: bool)
    requires SignInAttempted(s, signedIn)
    ensures Submit(s, signedIn, None, None) == Screen(Cleared, None, true)
    ensures Validate(s.form).None?
  {
  }

  /** Without a signed-in user nothing is validated: the same message shows
      whatever the form holds. */
  lemma SignedOutIgnoresForm(s: Screen, t: Screen, e: Option<string>, u: Option<string>)
    requires s.success == t.success
    ensures Submit(s, false, e, u).error == Submit(t, false, e, u).error
  {
  }
}

/** The password checks shared by the sign-up and change-password forms:
    every field filled in, the confirmation equal to the password, and at
    least six characters as the language counts them. The forms run the
    checks in that order and report the first that fails. */
module PasswordRules {

  import opened Replies
  import opened JsText

  const MinLength := 6

  datatype Failure = MissingField | Mismatch | TooShort

  /** The first failing check, if any. */
  function FirstFailure(fields: seq<string>, password: string, confirm: string): (r: Option<Failure>)
    ensures r.None? <==> ("" !in fields && password == confirm && Utf16Length(password) >= MinLength)
    ensures "" in fields ==> r == Some(MissingField)
    ensures r == Some(Mismatch) ==> "" !in fields && password != confirm
    ensures r == Some(TooShort) ==> "" !in fields && password == confirm && Utf16Length(password) < MinLength
  {
    if "" in fields then Some(MissingField)
    else if password != confirm then Some(Mismatch)
    else if Utf16Length(password) < MinLength then Some(TooShort)
    else None
  }

  /** A password of six ordinary characters is long enough, and one of three
      characters outside the Basic Multilingual Plane is too (six code units). */
  lemma LengthCountsCodeUnits()
    ensures Utf16Length("abcdef") == 6
    ensures Utf16Length("\U{1F600}\U{1F600}\U{1F600}") == 6
  {
    var e := "\U{1F600}\U{1F600}\U{1F600}";
    assert e[..2][..1] == "\U{1F600}" && e[..2] == "\U{1F600}\U{1F600}";
    assert Utf16Length(e[..2][..1]) == 2;
  }
}

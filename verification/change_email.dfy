/** The change-email screen: the required fields, the address pattern
    `^[^\s@]+@[^\s@]+\.[^\s@]+$`, re-authentication, the two updates, and the
    reset of the form. The sign-in and updates are inputs: the error message
    each failed with, or `None`. */
module ChangeEmail {

  import opened Replies
  import opened JsText

  // ------------------------------------------------------------- pattern

  /** A character `[^\s@]` accepts. */
  predicate Plain(c: char)
  {
    !IsSpace(c) && c != '@'
  }

  predicate AllPlain(s: string)
  {
    forall k :: 0 <= k < |s| ==> Plain(s[k])
  }

  /** The pattern read as a grammar: a non-empty local part, '@', a non-empty
      run, '.', and a non-empty run, none of the three containing whitespace
      or '@'. The domain runs may contain further dots. */
  ghost predicate MatchesPattern(s: string)
  {
    exists i, j :: 0 < i && i + 1 < j && j + 1 < |s| && s[i] == '@' && s[j] == '.'
      && AllPlain(s[..i]) && AllPlain(s[i + 1..j]) && AllPlain(s[j + 1..])
  }

  /** Position of the first `c` in `s`, or `|s|` when there is none. */
  function IndexOf(s: string, c: char): (k: nat)
    ensures k <= |s|
    ensures k < |s| ==> s[k] == c
    ensures forall m :: 0 <= m < k ==> s[m] != c
  {
    if |s| == 0 then 0
    else if s[0] == c then 0
    else 1 + IndexOf(s[1..], c)
  }

  /** A single scan: no whitespace anywhere, exactly one '@' with something
      before it, and after it a '.' that is neither first nor last. */
  predicate ValidEmail(s: string)
  {
    var at := IndexOf(s, '@');
    && at > 0
    && at + 3 < |s|
    && (forall k :: 0 <= k < |s| ==> !IsSpace(s[k]))
    && '@' !in s[at + 1..]
    && '.' in s[at + 2..|s| - 1]
  }

  /** The scan accepts exactly the addresses the pattern matches. */
  lemma ValidEmailMatchesPattern(s: string)
    ensures ValidEmail(s) <==> MatchesPattern(s)
  {
    if ValidEmail(s) {
      ScanFindsMatch(s);
    }
    if MatchesPattern(s) {
      var i, j :| 0 < i && i + 1 < j && j + 1 < |s| && s[i] == '@' && s[j] == '.'
        && AllPlain(s[..i]) && AllPlain(s[i + 1..j]) && AllPlain(s[j + 1..]);
      MatchPassesScan(s, i, j);
    }
  }

  lemma ScanFindsMatch(s: string)
    requires ValidEmail(s)
    ensures MatchesPattern(s)
  {
    var at := IndexOf(s, '@');
    var t := s[at + 2..|s| - 1];
    var d :| 0 <= d < |t| && t[d] == '.';
    var j := at + 2 + d;
    assert s[j] == '.';
    var local, mid, top := s[..at], s[at + 1..j], s[j + 1..];
    var after := s[at + 1..];
    forall k | 0 <= k < |local| ensures Plain(local[k]) {
      assert local[k] == s[k];
    }
    forall k | 0 <= k < |mid| ensures Plain(mid[k]) {
      assert mid[k] == s[at + 1 + k] == after[k];
    }
    forall k | 0 <= k < |top| ensures Plain(top[k]) {
      assert top[k] == s[j + 1 + k] == after[j - at + k];
    }
  }

  lemma MatchPassesScan(s: string, i: nat, j: nat)
    requires 0 < i && i + 1 < j && j + 1 < |s| && s[i] == '@' && s[j] == '.'
    requires AllPlain(s[..i]) && AllPlain(s[i + 1..j]) && AllPlain(s[j + 1..])
    ensures ValidEmail(s)
  {
    var local, mid, top := s[..i], s[i + 1..j], s[j + 1..];
    forall k | 0 <= k < i ensures s[k] != '@' {
      assert local[k] == s[k];
    }
    var at := IndexOf(s, '@');
    assert at == i;
    forall k | 0 <= k < |s| ensures !IsSpace(s[k]) && (k > i ==> s[k] != '@') {
      if k < i {
        assert local[k] == s[k];
      } else if i < k < j {
        assert mid[k - i - 1] == s[k];
      } else if k > j {
        assert top[k - j - 1] == s[k];
      }
    }
    var after := s[i + 1..];
    forall k | 0 <= k < |after| ensures after[k] != '@' {
      assert after[k] == s[i + 1 + k];
    }
    assert s[i + 2..|s| - 1][j - i - 2] == '.';
  }

  // ---------------------------------------------------------------- form

  datatype Form = Form(newEmail: string, password: string)

  /** `validateForm`: `None` when the form is valid, else the message it sets. */
  function Validate(form: Form): (r: Option<string>)
    ensures form.newEmail == "" || form.password == "" ==> r == Some("All fields are required")
    ensures form.newEmail != "" && form.password != "" && !MatchesPattern(form.newEmail) ==>
      r == Some("Please enter a valid email address")
    ensures r.None? <==> form.password != "" && MatchesPattern(form.newEmail)
  {
    ValidEmailMatchesPattern(form.newEmail);
    if form.newEmail == "" || form.password == "" then Some("All fields are required")
    else if !ValidEmail(form.newEmail) then Some("Please enter a valid email address")
    else None
  }

  datatype Screen = Screen(form: Form, error: Option<string>, success: bool)

  /** Whether the password is checked by signing in. */
  predicate SignInAttempted(s: Screen, signedIn: bool)
  {
    signedIn && Validate(s.form).None?
  }

  /** `handleChangeEmail`. The profile row is only updated after the
      account's email was. */
  function Submit(
    s: Screen, signedIn: bool,
    signInError: Option<string>, emailError: Option<string>, profileError: Option<string>): (r: Screen)
    ensures !signedIn ==> r == s.(error := Some("You must be logged in to change your email"))
    ensures signedIn && Validate(s.form).Some? ==> r == s.(error := Validate(s.form))
    ensures SignInAttempted(s, signedIn) && signInError.Some? ==> r == Screen(s.form, Some("Password is incorrect"), false)
    ensures SignInAttempted(s, signedIn) && signInError.None? && emailError.Some? ==>
      r == Screen(s.form, Some(ErrorText(emailError.value, "Failed to change email")), false)
    ensures SignInAttempted(s, signedIn) && signInError.None? && emailError.None? && profileError.Some? ==>
      r == Screen(s.form, Some(ErrorText(profileError.value, "Failed to change email")), false)
    ensures SignInAttempted(s, signedIn) && signInError.None? && emailError.None? && profileError.None? ==>
      r == Screen(Form("", ""), None, true)
    ensures r.form != s.form ==> r.form == Form("", "") && r.success && r.error.None? && MatchesPattern(s.form.newEmail)
  {
    if !signedIn then s.(error := Some("You must be logged in to change your email"))
    else if Validate(s.form).Some? then s.(error := Validate(s.form))
    else if signInError.Some? then Screen(s.form, Some("Password is incorrect"), false)
    else if emailError.Some? then Screen(s.form, Some(ErrorText(emailError.value, "Failed to change email")), false)
    else if profileError.Some? then Screen(s.form, Some(ErrorText(profileError.value, "Failed to change email")), false)
    else Screen(Form("", ""), None, true)
  }

  /** An ordinary address is accepted. */
  lemma AcceptsAddress()
    ensures MatchesPattern("a@b.co")
  {
    var s := "a@b.co";
    assert s[..1] == "a" && s[2..3] == "b" && s[4..] == "co";
    assert AllPlain(s[..1]) && AllPlain(s[2..3]) && AllPlain(s[4..]);
    assert s[1] == '@' && s[3] == '.';
  }

  /** A domain without a dot is refused. */
  lemma RefusesMissingDot()
    ensures !MatchesPattern("a@bco")
  {
    var s := "a@bco";
    ValidEmailMatchesPattern(s);
    assert IndexOf(s, '@') == 1;
    assert s[3..4] == "c";
  }

  /** A second '@' is refused, wherever it is. */
  lemma RefusesSecondAt()
    ensures !MatchesPattern("a@b@c.d")
  {
    var s := "a@b@c.d";
    ValidEmailMatchesPattern(s);
    assert IndexOf(s, '@') == 1;
    assert s[2..][1] == '@';
  }

  /** Whitespace anywhere is refused. */
  lemma RefusesSpace()
    ensures !MatchesPattern("a b@c.d")
  {
    var s := "a b@c.d";
    ValidEmailMatchesPattern(s);
    assert IsSpace(s[1]);
  }
}

/**
 * The sign-up form's validation. The checks run in a fixed order and the first
 * one that fails decides the alert; only a form that passes all of them is
 * handed to `signUp`. The username field stores its input lower-cased.
 */
module SignUp {
  import opened Common

  datatype Form = Form(email: string, password: string, confirmPassword: string, fullName: string, username: string)

  /** What pressing "Sign up" does: call `signUp` with the form, or show an alert. */
  datatype Submit = CallSignUp(email: string, password: string, username: string, fullName: string) | Alert(message: string)

  const FillAllFields := "Please fill in all fields"
  const UsernameTooShort := "Username must be at least 3 characters"
  const UsernameBadChars := "Username can only contain letters, numbers, and underscores"
  const PasswordsDiffer := "Passwords do not match"
  const PasswordTooShort := "Password must be at least 8 characters"

  /** A character of the class `[a-zA-Z0-9_]`. */
  predicate IsUsernameChar(c: char) {
    IsAsciiLower(c) || IsAsciiUpper(c) || IsDigit(c) || c == '_'
  }

  /**
   * `/^[a-zA-Z0-9_]+$/.test(u)`, matched the way the pattern reads: one class
   * character, then either the end or another match of the pattern.
   */
  function MatchesUsernamePattern(u: string): (m: bool)
    ensures m <==> |u| > 0 && forall i :: 0 <= i < |u| ==> IsUsernameChar(u[i])
  {
    |u| > 0 && IsUsernameChar(u[0]) && (|u| == 1 || MatchesUsernamePattern(u[1..]))
  }

  /** `handleSignUp`: the checks in the order the handler makes them. */
  function HandleSignUp(f: Form): (r: Submit)
    ensures r.CallSignUp? ==> r == CallSignUp(f.email, f.password, f.username, f.fullName)
    ensures r.CallSignUp? <==>
              && f.email != "" && f.password != "" && f.fullName != "" && f.username != ""
              && |f.username| >= 3 && MatchesUsernamePattern(f.username)
              && f.password == f.confirmPassword && |f.password| >= 8
  {
    if f.email == "" || f.password == "" || f.fullName == "" || f.username == "" then Alert(FillAllFields)
    else if |f.username| < 3 then Alert(UsernameTooShort)
    else if !MatchesUsernamePattern(f.username) then Alert(UsernameBadChars)
    else if f.password != f.confirmPassword then Alert(PasswordsDiffer)
    else if |f.password| < 8 then Alert(PasswordTooShort)
    else CallSignUp(f.email, f.password, f.username, f.fullName)
  }

  /** One check: whether the form passes it, and the alert shown when it does not. */
  datatype Check = Check(passes: bool, message: string)

  /** The checks as a list, in source order (the reference for HandleSignUp). */
  function Checks(f: Form): seq<Check> {
    [ Check(f.email != "" && f.password != "" && f.fullName != "" && f.username != "", FillAllFields),
      Check(|f.username| >= 3, UsernameTooShort),
      Check(MatchesUsernamePattern(f.username), UsernameBadChars),
      Check(f.password == f.confirmPassword, PasswordsDiffer),
      Check(|f.password| >= 8, PasswordTooShort) ]
  }

  /** The message of the first failing check, if any. */
  function FirstFailure(checks: seq<Check>): (r: Option<string>)
    ensures r.None? <==> forall i :: 0 <= i < |checks| ==> checks[i].passes
    ensures r.Some? ==> exists i :: 0 <= i < |checks| && !checks[i].passes && r.value == checks[i].message
                          && forall j :: 0 <= j < i ==> checks[j].passes
  {
    if checks == [] then None
    else if !checks[0].passes then Some(checks[0].message)
    else
      var rest := FirstFailure(checks[1..]);
      if rest.Some? then
        ghost var i :| 0 <= i < |checks[1..]| && !checks[1..][i].passes && rest.value == checks[1..][i].message
                       && forall j :: 0 <= j < i ==> checks[1..][j].passes;
        assert !checks[i + 1].passes && rest.value == checks[i + 1].message;
        rest
      else rest
  }

  /**
   * The if-chain is "the first failing check wins": the alert is the message of
   * the first check in source order that the form fails, and `signUp` is
   * called exactly when none fails.
   */
  lemma HandleSignUpIsFirstFailure(f: Form)
    ensures HandleSignUp(f) == match FirstFailure(Checks(f))
                               case None => CallSignUp(f.email, f.password, f.username, f.fullName)
                               case Some(m) => Alert(m)
  {
    var cs := Checks(f);
    assert cs[1..] == Checks(f)[1..];
    var r := FirstFailure(cs);
    if r.Some? {
      var i :| 0 <= i < |cs| && !cs[i].passes && r.value == cs[i].message && forall j :: 0 <= j < i ==> cs[j].passes;
      if i >= 1 { assert cs[0].passes; }
      if i >= 2 { assert cs[1].passes; }
      if i >= 3 { assert cs[2].passes; }
      if i >= 4 { assert cs[3].passes; }
    } else {
      assert cs[0].passes && cs[1].passes && cs[2].passes && cs[3].passes && cs[4].passes;
    }
  }

  /** A short password that also differs from its confirmation reports the mismatch. */
  lemma MismatchReportedBeforeLength(f: Form)
    requires f.email != "" && f.password != "" && f.fullName != ""
    requires |f.username| >= 3 && MatchesUsernamePattern(f.username)
    requires f.password != f.confirmPassword && |f.password| < 8
    ensures HandleSignUp(f) == Alert(PasswordsDiffer)
  {
  }

  /** The username field's `onChangeText`: it keeps the input lower-cased (ASCII case mapping). */
  function OnUsernameChange(text: string): (stored: string)
    ensures |stored| == |text|
    ensures forall i :: 0 <= i < |stored| ==> !IsAsciiUpper(stored[i])
    ensures forall i :: 0 <= i < |text| && !IsAsciiUpper(text[i]) ==> stored[i] == text[i]
  {
    ToLower(text)
  }

  /** Typing the stored value back in changes nothing. */
  lemma OnUsernameChangeIdempotent(text: string)
    ensures OnUsernameChange(OnUsernameChange(text)) == OnUsernameChange(text)
  {
  }

  /** Under the ASCII case mapping, lower-casing does not change whether a username passes the pattern. */
  lemma LowercasingKeepsPattern(text: string)
    ensures MatchesUsernamePattern(OnUsernameChange(text)) <==> MatchesUsernamePattern(text)
  {
    var s := OnUsernameChange(text);
    forall i | 0 <= i < |text| ensures IsUsernameChar(s[i]) <==> IsUsernameChar(text[i]) {
      assert s[i] == LowerChar(text[i]);
    }
  }
}

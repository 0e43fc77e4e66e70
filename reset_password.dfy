/** The reset-password screen: the password rules and their checklist, the
    confirmation rule, the guard on the navigation state that carries the
    verified email and code, and what a submission sends. */
module ResetPassword {
  import opened Js

  const MinLength: int := 8

  const PasswordRequired: string := "Password is required"
  const PasswordTooShort: string := "Minimum 8 characters"
  const PasswordNeedsUpper: string := "At least one uppercase letter"
  const ConfirmationRequired: string := "Please confirm password"
  const PasswordsDiffer: string := "Passwords do not match"

  const ForgotPasswordPath: string := "/forgot-password"

  predicate IsUpperAscii(c: char)
  {
    'A' <= c <= 'Z'
  }

  /** `/[A-Z]/.test(password)`. */
  function HasUpper(p: string): (b: bool)
    ensures b <==> exists i :: 0 <= i < |p| && IsUpperAscii(p[i])
  {
    if p == [] then false
    else if IsUpperAscii(p[0]) then true
    else
      assert forall i :: 1 <= i < |p| ==> p[i] == p[1..][i - 1];
      HasUpper(p[1..])
  }

  /** `password.length >= 8`. */
  predicate HasMinLength(p: string)
  {
    |p| >= MinLength
  }

  /** The password field's first failing rule, in the order the form checks
      them (required, then minimum length, then the pattern), or `None`
      when the field is accepted. */
  function PasswordError(p: string): (e: Option<string>)
    ensures e.None? <==> p != [] && HasMinLength(p) && HasUpper(p)
    ensures p == [] ==> e == Some(PasswordRequired)
    ensures p != [] && !HasMinLength(p) ==> e == Some(PasswordTooShort)
    ensures HasMinLength(p) && !HasUpper(p) ==> e == Some(PasswordNeedsUpper)
  {
    if p == [] then Some(PasswordRequired)
    else if |p| < MinLength then Some(PasswordTooShort)
    else if !HasUpper(p) then Some(PasswordNeedsUpper)
    else None
  }

  /** The checklist shows both ticks exactly when the password field is
      accepted: the required rule adds nothing to the length rule. */
  lemma ChecklistMatchesValidity(p: string)
    ensures PasswordError(p).None? <==> HasMinLength(p) && HasUpper(p)
  {
  }

  /** An accepted password is at least eight characters long and contains a
      letter from `A` to `Z`. */
  lemma AcceptedPassword(p: string)
    requires PasswordError(p).None?
    ensures |p| >= 8
    ensures exists i :: 0 <= i < |p| && IsUpperAscii(p[i])
  {
  }

  /** The confirmation field's first failing rule, or `None`. */
  function ConfirmationError(v: string, password: string): (e: Option<string>)
    ensures e.None? <==> v != [] && v == password
    ensures v == [] ==> e == Some(ConfirmationRequired)
    ensures v != [] && v != password ==> e == Some(PasswordsDiffer)
  {
    if v == [] then Some(ConfirmationRequired)
    else if v != password then Some(PasswordsDiffer)
    else None
  }

  /** Once the password is accepted, the confirmation is accepted exactly
      when it repeats the password. */
  lemma ConfirmationRepeatsPassword(v: string, password: string)
    requires PasswordError(password).None?
    ensures ConfirmationError(v, password).None? <==> v == password
  {
  }

  /** `location.state`: what the verification screen passes along. */
  datatype NavState = NavState(email: Option<string>, code: Option<string>)

  /** The form's two password fields. */
  datatype Form = Form(password: string, passwordConfirmation: string)

  predicate FormAccepted(f: Form)
  {
    PasswordError(f.password).None? && ConfirmationError(f.passwordConfirmation, f.password).None?
  }

  /** The argument of `resetPassword`. */
  datatype ResetRequest = ResetRequest(
    email: Option<string>,
    code: Option<string>,
    password: string,
    passwordConfirmation: string)

  /** A call out of the screen, in order. */
  datatype Effect = SendReset(request: ResetRequest) | Navigate(to: string, replace: bool)

  /** The guard effect: without an email or a code in the state, replace
      the screen with the forgot-password screen. */
  function Guard(state: Option<NavState>): (effects: seq<Effect>)
    ensures effects == [] <==> state.Some? && Truthy(state.value.email) && Truthy(state.value.code)
    ensures effects != [] ==> effects == [Navigate(ForgotPasswordPath, true)]
  {
    if state.None? || !Truthy(state.value.email) || !Truthy(state.value.code) then
      [Navigate(ForgotPasswordPath, true)]
    else []
  }

  /** A press of Reset Password, with the request's outcome as a parameter.
      A rejected form never reaches `onSubmit`. Without any state,
      `state!.email` throws inside the `try` and nothing is sent. Otherwise
      the request carries the state's email and code and the form's two
      fields, and only a successful request leads home. */
  function Submit(state: Option<NavState>, form: Form, succeeds: bool): (effects: seq<Effect>)
    ensures !FormAccepted(form) || state.None? ==> effects == []
    ensures FormAccepted(form) && state.Some? ==>
      && |effects| == (if succeeds then 2 else 1)
      && effects[0] == SendReset(ResetRequest(
           state.value.email, state.value.code, form.password, form.passwordConfirmation))
      && (succeeds ==> effects[1] == Navigate("/", true))
  {
    if !FormAccepted(form) || state.None? then []
    else
      [SendReset(ResetRequest(state.value.email, state.value.code, form.password, form.passwordConfirmation))]
      + (if succeeds then [Navigate("/", true)] else [])
  }

  /** When the guard lets the screen stay, every submission that is sent
      carries a non-empty email and code, and a password and confirmation
      that are equal and accepted. */
  lemma GuardedSubmissionIsComplete(state: Option<NavState>, form: Form, succeeds: bool)
    requires Guard(state) == []
    requires FormAccepted(form)
    ensures var effects := Submit(state, form, succeeds);
      && |effects| >= 1
      && effects[0].SendReset?
      && Truthy(effects[0].request.email) && Truthy(effects[0].request.code)
      && effects[0].request.password == effects[0].request.passwordConfirmation
      && PasswordError(effects[0].request.password).None?
  {
  }

  /** Whenever the guard redirects, a submission sends nothing or sends a
      request missing its email or code. */
  lemma UnguardedSubmissionIsIncomplete(state: Option<NavState>, form: Form, succeeds: bool)
    requires Guard(state) != []
    ensures var effects := Submit(state, form, succeeds);
      effects == [] || !Truthy(effects[0].request.email) || !Truthy(effects[0].request.code)
  {
  }
}

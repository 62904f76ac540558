/** The sign-up screen: the form validator, the submit gate and how the
    outcome of the session's sign-up is shown (messages, navigation to the
    home screen, alerts). */
module Signup {
  import opened JsValues
  import opened Results
  import opened Authentication
  import Network

  /** The form's four fields. */
  datatype SignupValues = SignupValues(email: string, name: string, password: string, passwordConfirm: string)

  /** `s.length`: UTF-16 code units, two for a character outside the Basic
      Multilingual Plane. */
  function Utf16Length(s: string): (n: nat)
    ensures |s| <= n <= 2 * |s|
  {
    if s == [] then 0 else (if s[0] as int >= 0x10000 then 2 else 1) + Utf16Length(s[1..])
  }

  /** Text within the Basic Multilingual Plane has one code unit per character. */
  lemma {:induction false} Utf16LengthOfBmp(s: string)
    requires forall i :: 0 <= i < |s| ==> s[i] as int < 0x10000
    ensures Utf16Length(s) == |s|
  {
    if s != [] {
      Utf16LengthOfBmp(s[1..]);
    }
  }

  /** Three characters outside the Basic Multilingual Plane already make a
      long enough password. */
  lemma ThreeAstralCharactersSuffice(c: char)
    requires c as int >= 0x10000
    ensures Utf16Length([c, c, c]) == 6
  {
    assert [c, c, c][1..] == [c, c];
    assert [c, c][1..] == [c];
    assert [c][1..] == [];
    assert Utf16Length([c]) == 2;
    assert Utf16Length([c, c]) == 4;
  }

  const InvalidEmail: string := "Invalid email format"
  const PasswordTooShort: string := "Password must be at least 6 characters long"
  const PasswordsDiffer: string := "Passwords do not match"

  /** `validateForm`: the first failing check's message, or None (`null`)
      when all pass. */
  function ValidateForm(values: SignupValues): (r: Option<string>)
    ensures r == None <==>
      '@' in values.email && Utf16Length(values.password) >= 6 && values.password == values.passwordConfirm
    ensures '@' !in values.email ==> r == Some(InvalidEmail)
    ensures '@' in values.email && Utf16Length(values.password) < 6 ==> r == Some(PasswordTooShort)
    ensures '@' in values.email && Utf16Length(values.password) >= 6 && values.password != values.passwordConfirm
            ==> r == Some(PasswordsDiffer)
  {
    if '@' !in values.email then Some(InvalidEmail)
    else if Utf16Length(values.password) < 6 then Some(PasswordTooShort)
    else if values.password != values.passwordConfirm then Some(PasswordsDiffer)
    else None
  }

  const SuccessMessage: string := "Registration successful! Please check your email for confirmation."
  const UnexpectedError: string := "An unexpected error occurred. Please try again."

  /** What the screen does besides setting its messages. */
  datatype ScreenEvent = NavigateHome | ShowAlert(title: string, message: string)

  /** What `signUpUser` sets for each way the session's sign-up can end:
      the error message, the success message (None: left as it was) and the
      events. Pending sets nothing. */
  datatype Feedback = Feedback(error: Option<string>, success: Option<string>, events: seq<ScreenEvent>)

  /** Success shows the confirmation and goes home; a failed result shows
      its own message as error and alert; a throw shows the generic message;
      never both messages, and home only on success. */
  function SignUpFeedback(outcome: Call<Result<Json>>): (f: Feedback)
    ensures !(f.error.Some? && f.success.Some?)
    ensures NavigateHome in f.events <==> outcome.Resolves? && !IsError(outcome.value)
    ensures f.success.Some? <==> outcome.Resolves? && !IsError(outcome.value)
    ensures outcome.Resolves? && IsError(outcome.value) ==>
      f.error == Some(ErrorOf(outcome.value)) && ShowAlert("Sign-up Failed", ErrorOf(outcome.value)) in f.events
    ensures f.success.Some? ==> f.success == Some(SuccessMessage)
    ensures outcome.Throws? ==>
      f.error == Some(UnexpectedError) && f.events == [ShowAlert("Sign-up Error", UnexpectedError)]
  {
    match outcome
    case Pending => Feedback(None, None, [])
    case Throws(_) => Feedback(Some(UnexpectedError), None, [ShowAlert("Sign-up Error", UnexpectedError)])
    case Resolves(result) =>
      if !IsError(result) then Feedback(None, Some(SuccessMessage), [NavigateHome])
      else Feedback(Some(result.error), None, [ShowAlert("Sign-up Failed", result.error)])
  }

  /** The sign-up form, over the session it signs up with. */
  class SignUpForm {
    var error: Option<string>
    var successMessage: Option<string>
    var events: seq<ScreenEvent>
    const session: AuthSession
    /** Whether the navigation context is set. */
    const hasNavigator: bool

    constructor (session: AuthSession, hasNavigator: bool)
      ensures this.session == session && this.hasNavigator == hasNavigator
      ensures error == None && successMessage == None && events == []
    {
      this.session := session;
      this.hasNavigator := hasNavigator;
      error := None;
      successMessage := None;
      events := [];
    }

    /** `onSubmit`: clear both messages; a validation failure sets the error
        and stops; without a navigator nothing more happens; otherwise the
        session signs up with the form's credentials and the screen shows
        the outcome. */
    method OnSubmit(values: SignupValues) returns (ghost outcome: Call<Result<Json>>, ghost sent: Network.Completion<Network.FetchResponse>)
      modifies this, session, session.network
      ensures ValidateForm(values).Some? ==>
        && error == ValidateForm(values) && successMessage == None && events == old(events)
        && unchanged(session) && unchanged(session.network)
      ensures ValidateForm(values).None? && !hasNavigator ==>
        && error == None && successMessage == None && events == old(events)
        && unchanged(session) && unchanged(session.network)
      ensures ValidateForm(values).None? && hasNavigator ==>
        var f := SignUpFeedback(outcome);
        error == f.error && successMessage == f.success && events == old(events) + f.events
      ensures ValidateForm(values).None? && hasNavigator && old(SignedIn(session.State())) ==>
        && outcome == Throws("cannot signup when signed in") && unchanged(session.network)
        && session.State() == old(session.State())
      ensures ValidateForm(values).None? && hasNavigator && !old(SignedIn(session.State())) ==>
        && session.network.Fetched(RegisterArgs(Credentials(values.email, values.password, values.name)), sent)
        && (sent.Awaiting? ==> outcome == Pending && session.State() == old(session.State()))
        && (sent.Returned? ==>
              var (next, result) := SignUpStep(old(session.State()), sent.value);
              outcome == Resolves(result) && session.State() == next)
    {
      outcome, sent := Pending, Network.Awaiting;
      error := None;
      successMessage := None;
      var invalid := ValidateForm(values);
      if invalid.Some? {
        error := invalid;
        return;
      }
      if !hasNavigator {
        return;
      }
      var call;
      call, sent := session.SignUp(Credentials(values.email, values.password, values.name));
      outcome := call;
      SignUpUser(call);
    }

    /** The part of `signUpUser` after the session's answer. */
    method SignUpUser(call: Call<Result<Json>>)
      modifies this`error, this`successMessage, this`events
      ensures var f := SignUpFeedback(call);
        && error == (if f.error.Some? then f.error else old(error))
        && successMessage == (if f.success.Some? then f.success else old(successMessage))
        && events == old(events) + f.events
    {
      match call
      case Pending =>
      case Throws(_) =>
        error := Some(UnexpectedError);
        events := events + [ShowAlert("Sign-up Error", UnexpectedError)];
      case Resolves(result) =>
        if !IsError(result) {
          successMessage := Some(SuccessMessage);
          events := events + [NavigateHome];
        } else {
          error := Some(result.error);
          events := events + [ShowAlert("Sign-up Failed", result.error)];
        }
    }
  }
}

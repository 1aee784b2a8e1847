/** The architect login page of app/login/page.tsx: credentials, then a
    one-time code, then success. The code is the fixed test code; the
    redirect after success is a timer and router call outside the model. */
module Login {

  datatype Step = LoginStep | MfaStep | SuccessStep

  datatype MfaMethod = Sms | EmailMethod

  /** The page's state variables (the show-password toggle only changes how
      the password is displayed). */
  datatype LoginState = LoginState(step: Step, mfaMethod: MfaMethod, email: string, password: string, mfaCode: string)

  /** The one code `handleMFA` accepts. */
  const TestCode: string := "123456"

  /** The code input's `maxLength`. */
  const CodeMaxLength: nat := 6

  function InitialLogin(): (s: LoginState)
    ensures s.step == LoginStep && s.email == "" && s.password == "" && s.mfaCode == ""
  {
    LoginState(LoginStep, Sms, "", "", "")
  }

  /** What the user can do on the page. */
  datatype Action =
    | SubmitLogin                 // the credentials form's submit (`handleLogin`)
    | SubmitCode                  // the code form's submit (`handleMFA`)
    | BackToLogin                 // "Retour à la connexion"
    | ChooseMethod(m: MfaMethod)  // the SMS / Email buttons
    | TypeEmail(v: string)
    | TypePassword(v: string)
    | TypeCode(v: string)

  /** The handlers the page renders in each step: the credentials form in
      `login`, the code form in `mfa`, and nothing that acts in `success`. */
  predicate Available(step: Step, a: Action) {
    match step
    case LoginStep => a.SubmitLogin? || a.TypeEmail? || a.TypePassword?
    case MfaStep =>
      a.SubmitCode? || a.BackToLogin? || a.ChooseMethod? || (a.TypeCode? && |a.v| <= CodeMaxLength)
    case SuccessStep => false
  }

  /** The effect of one available action. */
  function Apply(s: LoginState, a: Action): (t: LoginState)
    requires Available(s.step, a)
    ensures t.step == MfaStep && s.step == LoginStep ==> s.email != "" && s.password != ""
    ensures t.step == SuccessStep ==> s.step == MfaStep && a == SubmitCode && s.mfaCode == TestCode
    ensures a.ChooseMethod? ==> t.step == s.step && t.mfaCode == s.mfaCode
    ensures a == BackToLogin ==> t == s.(step := LoginStep)
  {
    match a
    case SubmitLogin => if s.email != "" && s.password != "" then s.(step := MfaStep) else s
    case SubmitCode => if s.mfaCode == TestCode then s.(step := SuccessStep) else s
    case BackToLogin => s.(step := LoginStep)
    case ChooseMethod(m) => s.(mfaMethod := m)
    case TypeEmail(v) => s.(email := v)
    case TypePassword(v) => s.(password := v)
    case TypeCode(v) => s.(mfaCode := v)
  }

  /** `handleLogin` moves to the code step exactly when both credentials are
      filled in, and otherwise changes nothing. */
  lemma SubmitLoginIff(s: LoginState)
    requires s.step == LoginStep
    ensures Apply(s, SubmitLogin).step == MfaStep <==> s.email != "" && s.password != ""
    ensures Apply(s, SubmitLogin).step != MfaStep ==> Apply(s, SubmitLogin) == s
  {
  }

  /** `handleMFA` succeeds exactly on the test code; any other code stays on
      the code step with nothing changed. */
  lemma SubmitCodeIff(s: LoginState)
    requires s.step == MfaStep
    ensures Apply(s, SubmitCode).step == SuccessStep <==> s.mfaCode == TestCode
    ensures s.mfaCode != TestCode ==> Apply(s, SubmitCode) == s
  {
  }

  /** A sequence of user actions; actions the current step does not render
      cannot be performed and are skipped. */
  function Run(s: LoginState, actions: seq<Action>): LoginState
    decreases |actions|
  {
    if |actions| == 0 then s
    else
      var s' := if Available(s.step, actions[0]) then Apply(s, actions[0]) else s;
      Run(s', actions[1..])
  }

  /** What holds of every state the page can reach: past the credentials
      form both credentials are filled in, and in success the code entered is
      the test code. */
  predicate Reachable(s: LoginState) {
    (s.step != LoginStep ==> s.email != "" && s.password != "")
    && (s.step == SuccessStep ==> s.mfaCode == TestCode)
  }

  lemma {:induction false} RunKeepsReachable(s: LoginState, actions: seq<Action>)
    requires Reachable(s)
    ensures Reachable(Run(s, actions))
    decreases |actions|
  {
    if |actions| > 0 {
      var s' := if Available(s.step, actions[0]) then Apply(s, actions[0]) else s;
      RunKeepsReachable(s', actions[1..]);
    }
  }

  /** No sequence of actions reaches success without both credentials and
      the test code. */
  lemma SuccessNeedsCredentialsAndCode(actions: seq<Action>)
    ensures var s := Run(InitialLogin(), actions);
            s.step == SuccessStep ==> s.email != "" && s.password != "" && s.mfaCode == TestCode
  {
    RunKeepsReachable(InitialLogin(), actions);
  }

  /** Success is terminal: no sequence of actions leaves it or changes
      anything in it. */
  lemma {:induction false} SuccessIsTerminal(s: LoginState, actions: seq<Action>)
    requires s.step == SuccessStep
    ensures Run(s, actions) == s
    decreases |actions|
  {
    if |actions| > 0 {
      SuccessIsTerminal(s, actions[1..]);
    }
  }

  /** The page state, with one method per handler. Each handler requires the
      step in which the page renders it. */
  class LoginPage {
    var step: Step
    var mfaMethod: MfaMethod
    var email: string
    var password: string
    var mfaCode: string

    function State(): LoginState
      reads this
    {
      LoginState(step, mfaMethod, email, password, mfaCode)
    }

    constructor ()
      ensures State() == InitialLogin()
    {
      step := LoginStep;
      mfaMethod := Sms;
      email := "";
      password := "";
      mfaCode := "";
    }

    method HandleLogin()
      requires step == LoginStep
      modifies this
      ensures State() == Apply(old(State()), SubmitLogin)
    {
      if email != "" && password != "" {
        step := MfaStep;
      }
    }

    method HandleMfa()
      requires step == MfaStep
      modifies this
      ensures State() == Apply(old(State()), SubmitCode)
    {
      if mfaCode == TestCode {
        step := SuccessStep;
      }
    }

    /** "Retour à la connexion": the credentials and the code are kept. */
    method Back()
      requires step == MfaStep
      modifies this
      ensures State() == Apply(old(State()), BackToLogin)
      ensures email == old(email) && password == old(password) && mfaCode == old(mfaCode)
    {
      step := LoginStep;
    }

    /** The SMS / Email buttons: the step and the code are kept. */
    method SetMfaMethod(m: MfaMethod)
      requires step == MfaStep
      modifies this
      ensures State() == Apply(old(State()), ChooseMethod(m))
      ensures step == old(step) && mfaCode == old(mfaCode)
    {
      mfaMethod := m;
    }

    method SetEmail(v: string)
      requires step == LoginStep
      modifies this
      ensures State() == Apply(old(State()), TypeEmail(v))
    {
      email := v;
    }

    method SetPassword(v: string)
      requires step == LoginStep
      modifies this
      ensures State() == Apply(old(State()), TypePassword(v))
    {
      password := v;
    }

    method SetMfaCode(v: string)
      requires step == MfaStep && |v| <= CodeMaxLength
      modifies this
      ensures State() == Apply(old(State()), TypeCode(v))
    {
      mfaCode := v;
    }
  }
}

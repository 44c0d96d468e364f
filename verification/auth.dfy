/** The sign-in page: its login/sign-up mode, the form rules, the texts that
    depend on the mode, and where each backend answer sends the user. */
module Auth {

  import opened Wrappers
  import opened Effects
  import Text

  datatype Mode = Login | Signup

  /** The mode the page opens in. */
  const InitialMode := Login

  /** The spelling of a mode in the `mode` query parameter. */
  function ModeName(m: Mode): (name: string)
    ensures name == "login" <==> m == Login
    ensures name == "signup" <==> m == Signup
  {
    match m
    case Login => "login"
    case Signup => "signup"
  }

  /** The `mode` query parameter switches the mode only when it names one
      exactly; anything else, or no parameter, keeps the current mode. */
  function ModeFromQuery(current: Mode, query: Option<string>): (m: Mode)
    ensures query == Some("signup") ==> m == Signup
    ensures query == Some("login") ==> m == Login
    ensures query != Some("signup") && query != Some("login") ==> m == current
  {
    if query == Some("signup") then Signup
    else if query == Some("login") then Login
    else current
  }

  /** A mode written into the query parameter is read back as itself, from
      any starting mode. */
  lemma ModeQueryRoundTrip(current: Mode, m: Mode)
    ensures ModeFromQuery(current, Some(ModeName(m))) == m
  {
  }

  /** The link under the form flips the mode. */
  function ToggleMode(m: Mode): (t: Mode)
    ensures t != m
  {
    if m == Signup then Login else Signup
  }

  /** Two clicks on the link cancel out. */
  lemma ToggleModeTwice(m: Mode)
    ensures ToggleMode(ToggleMode(m)) == m
  {
  }

  /** The page heading: in sign-up mode it repeats the button's call to
      action, in login mode it is a greeting instead. */
  function Title(m: Mode): (t: string)
    ensures t == Cta(m) <==> m == Signup
  {
    if m == Signup then "Criar conta" else "Bem-vindo(a) de volta"
  }

  /** The submit button's text when idle. */
  function Cta(m: Mode): (t: string)
    ensures t != []
  {
    if m == Signup then "Criar conta" else "Entrar"
  }

  /** The mode-switch link's text: a question followed by the call to
      action of the mode the link switches to. */
  function SwitchText(m: Mode): (t: string)
    ensures Text.EndsWith(t, Cta(ToggleMode(m)))
    ensures t != Cta(m)
  {
    if m == Signup then
      assert "Já tem conta? Entrar" == "Já tem conta? " + Cta(Login);
      "Já tem conta? Entrar"
    else
      assert "Novo por aqui? Criar conta" == "Novo por aqui? " + Cta(Signup);
      "Novo por aqui? Criar conta"
  }

  /** The submit button's text: the call to action, or a progress text while
      a request is in flight. */
  function SubmitLabel(m: Mode, submitting: bool): (text: string)
    ensures !submitting ==> text == Cta(m)
    ensures submitting ==> text != Cta(m)
  {
    if !submitting then Cta(m)
    else if m == Signup then "Cadastrando..." else "Entrando..."
  }

  /** Every mode-dependent text tells the modes apart. */
  lemma TextsFollowMode(m1: Mode, m2: Mode)
    ensures Title(m1) == Title(m2) <==> m1 == m2
    ensures Cta(m1) == Cta(m2) <==> m1 == m2
    ensures SwitchText(m1) == SwitchText(m2) <==> m1 == m2
    ensures SubmitLabel(m1, true) == SubmitLabel(m2, true) <==> m1 == m2
  {
  }

  const MinPassword := 6
  const EmailMessage := "Informe um e-mail válido."
  const PasswordMessage := "Mínimo de 6 caracteres."

  datatype FormErrors = FormErrors(email: Option<string>, password: Option<string>)

  /** The form schema: a valid e-mail address (judged by `isEmail`) and a
      password of at least six characters. */
  function Validate(email: string, password: string, isEmail: string -> bool): (e: FormErrors)
    ensures e.email.None? <==> isEmail(email)
    ensures e.email.Some? ==> e.email.value == EmailMessage
    ensures e.password.None? <==> |password| >= MinPassword
    ensures e.password.Some? ==> e.password.value == PasswordMessage
  {
    FormErrors(if isEmail(email) then None else Some(EmailMessage),
               if |password| < MinPassword then Some(PasswordMessage) else None)
  }

  const CredentialsPhrase := "Invalid login credentials"
  const CredentialsText := "Credenciais inválidas."
  const DefaultErrorText := "Falha na autenticação."

  /** The toast text for a failed submission: the backend's wrong-password
      message is translated, any other non-empty message is shown as it is,
      and a missing or empty one gives the default text. */
  function ErrorText(message: Option<string>): (text: string)
    ensures message.Some? && Text.Contains(message.value, CredentialsPhrase) ==> text == CredentialsText
    ensures message.Some? && !Text.Contains(message.value, CredentialsPhrase) && message.value != [] ==> text == message.value
    ensures !Text.Truthy(message) ==> text == DefaultErrorText
  {
    if message.Some? && Text.Contains(message.value, CredentialsPhrase) then CredentialsText
    else if Text.Truthy(message) then message.value
    else DefaultErrorText
  }

  /** The error toast is never blank, and it echoes the backend's message
      exactly when that message is non-empty and does not mention the
      credentials. */
  lemma ErrorTextShape(message: Option<string>)
    ensures ErrorText(message) != []
    ensures ErrorText(message) == CredentialsText || ErrorText(message) == DefaultErrorText
            || (message.Some? && ErrorText(message) == message.value)
    ensures Text.Truthy(message) && !Text.Contains(message.value, CredentialsPhrase)
            ==> ErrorText(message) == message.value
    ensures message.Some? && Text.OccursAt(message.value, CredentialsPhrase, 0)
            ==> ErrorText(message) == CredentialsText
  {
  }

  /** What the page does after a submission settles. `retrySignIn` is the
      extra sign-in a sign-up without a session makes; its outcome is not
      looked at. */
  datatype AuthEffect = AuthEffect(retrySignIn: bool, notice: Option<Notice>, navigation: Option<Navigation>)

  /** How `signUp` answered. */
  datatype SignupRun = SignupRejected(message: Option<string>) | SignedUp(hasSession: bool)

  /** How the login path went: the sign-in was rejected, no user came back,
      the profile query failed, or it returned `onboarded` (`None` for a
      missing row or a null column). */
  datatype LoginRun =
    | LoginRejected(message: Option<string>)
    | UserMissing
    | ProfileQueryFailed
    | ProfileLoaded(onboarded: Option<bool>)

  /** A sign-up that went through always continues to onboarding. */
  function SignupOutcome(run: SignupRun): (e: AuthEffect)
    ensures run.SignedUp? ==> e.navigation == Some(Push("/onboarding"))
    ensures run.SignedUp? ==> e.retrySignIn == !run.hasSession
    ensures run.SignupRejected? ==> e.navigation.None? && !e.retrySignIn
    ensures run.SignupRejected? ==> e.notice == Some(Failure(ErrorText(run.message)))
  {
    match run
    case SignupRejected(m) => AuthEffect(false, Some(Failure(ErrorText(m))), None)
    case SignedUp(session) =>
      AuthEffect(!session, Some(Success("Conta criada! Vamos personalizar seu feed.")), Some(Push("/onboarding")))
  }

  /** Where a successful login lands. */
  function LoginOutcome(run: LoginRun): (e: AuthEffect)
    ensures !e.retrySignIn
    ensures run.LoginRejected? ==> e.navigation.None? && e.notice == Some(Failure(ErrorText(run.message)))
    ensures run.UserMissing? ==> e.navigation == Some(Push("/auth")) && e.notice.None?
  {
    match run
    case LoginRejected(m) => AuthEffect(false, Some(Failure(ErrorText(m))), None)
    case UserMissing => AuthEffect(false, None, Some(Push("/auth")))
    case ProfileQueryFailed => AuthEffect(false, Some(Info("Login ok. Redirecionando…")), Some(Push("/")))
    case ProfileLoaded(onboarded) =>
      if onboarded == Some(true) then
        AuthEffect(false, Some(Success("Login realizado. Bem-vindo(a) de volta!")), Some(Push("/")))
      else
        AuthEffect(false, Some(Info("Vamos terminar sua personalização rapidinho.")), Some(Push("/onboarding")))
  }

  /** After a login the user reaches onboarding exactly when the profile was
      read and is not marked onboarded; a failed profile query, like an
      onboarded profile, goes to the home page. */
  lemma LoginDestination(run: LoginRun)
    ensures LoginOutcome(run).navigation == Some(Push("/onboarding"))
            <==> run.ProfileLoaded? && run.onboarded != Some(true)
    ensures LoginOutcome(run).navigation == Some(Push("/"))
            <==> run.ProfileQueryFailed? || (run.ProfileLoaded? && run.onboarded == Some(true))
  {
  }

  /** The visit-time check: a signed-in user is sent on by the profile's
      `onboarded` flag, which reads as absent when the query fails. */
  function SessionRedirect(signedIn: bool, onboarded: Option<bool>): (nav: Option<Navigation>)
    ensures !signedIn ==> nav.None?
    ensures signedIn && onboarded == Some(true) ==> nav == Some(Replace("/"))
    ensures signedIn && onboarded != Some(true) ==> nav == Some(Replace("/onboarding"))
  {
    if !signedIn then None
    else if onboarded == Some(true) then Some(Replace("/"))
    else Some(Replace("/onboarding"))
  }

  /** When the profile was read, the visit-time check and the login path
      pick the same page. */
  lemma SessionAndLoginAgree(onboarded: Option<bool>)
    ensures SessionRedirect(true, onboarded).value.path
            == LoginOutcome(ProfileLoaded(onboarded)).navigation.value.path
  {
  }

  /** `onSubmit`: the mode decides which backend flow ran. */
  function Submit(m: Mode, signup: SignupRun, login: LoginRun): (e: AuthEffect)
    ensures m == Signup ==> e == SignupOutcome(signup)
    ensures m == Login ==> e == LoginOutcome(login)
  {
    if m == Signup then SignupOutcome(signup) else LoginOutcome(login)
  }
}

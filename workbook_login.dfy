// The workbook's entry page: the login and sign-up forms with their
// validation, the messages after each attempt, and where the page goes.

module WorkbookLogin {

  import opened Strings
  import Contacts
  import WorkbookResponses

  datatype Field = NameField | EmailField | PasswordField | ConfirmField

  /** A validation message attached to a form field. */
  datatype Issue = Issue(field: Field, message: string)

  const InvalidEmail := "Email inválido"
  const ShortPassword := "Senha deve ter pelo menos 6 caracteres"
  const ShortName := "Nome deve ter pelo menos 2 caracteres"
  const Mismatch := "Senhas não coincidem"

  predicate ValidEmail(email: string) {
    Contacts.IsEmailLike(email)
  }

  /** `loginSchema`: an e-mail and a password of six characters or more,
    * counted as `length` counts them (UTF-16 code units); the issues come
    * in field order. */
  function LoginIssues(email: string, password: string): (r: seq<Issue>)
    ensures r == [] <==> ValidEmail(email) && JsLength(password) >= 6
    ensures Issue(EmailField, InvalidEmail) in r <==> !ValidEmail(email)
    ensures Issue(PasswordField, ShortPassword) in r <==> JsLength(password) < 6
    ensures |r| <= 2
  {
    (if ValidEmail(email) then [] else [Issue(EmailField, InvalidEmail)]) +
    (if JsLength(password) >= 6 then [] else [Issue(PasswordField, ShortPassword)])
  }

  /** `signupSchema`: the field checks in field order (the phone is free),
    * then the refinement, which also runs when a field check failed and
    * puts its message on the confirmation field. */
  function SignupIssues(name: string, email: string, phone: Option<string>,
                        password: string, confirmPassword: string): (r: seq<Issue>)
    ensures r == [] <==> JsLength(name) >= 2 && ValidEmail(email) && JsLength(password) >= 6 && password == confirmPassword
    ensures Issue(ConfirmField, Mismatch) in r <==> password != confirmPassword
    ensures (exists i :: 0 <= i < |r| && r[i].field == ConfirmField) <==> password != confirmPassword
    ensures Issue(NameField, ShortName) in r <==> JsLength(name) < 2
    ensures Issue(EmailField, InvalidEmail) in r <==> !ValidEmail(email)
    ensures Issue(PasswordField, ShortPassword) in r <==> JsLength(password) < 6
  {
    var fields :=
      (if JsLength(name) >= 2 then [] else [Issue(NameField, ShortName)]) +
      (if ValidEmail(email) then [] else [Issue(EmailField, InvalidEmail)]) +
      (if JsLength(password) >= 6 then [] else [Issue(PasswordField, ShortPassword)]);
    assert forall i :: 0 <= i < |fields| ==> fields[i].field != ConfirmField;
    fields + (if password == confirmPassword then [] else [Issue(ConfirmField, Mismatch)])
  }

  /** A name of one emoji is long enough: its `length` is two. */
  lemma EmojiNameLongEnough(email: string, phone: Option<string>, password: string, confirmPassword: string)
    ensures Issue(NameField, ShortName) !in SignupIssues("\U{1F338}", email, phone, password, confirmPassword)
  {
    assert JsLength("\U{1F338}") == 2 by { assert "\U{1F338}"[..0] == []; }
  }

  /** The phone never decides whether the sign-up form is valid. */
  lemma PhoneIgnored(name: string, email: string, p: Option<string>, q: Option<string>,
                     password: string, confirmPassword: string)
    ensures SignupIssues(name, email, p, password, confirmPassword) == SignupIssues(name, email, q, password, confirmPassword)
  {
  }

  /** A sign-up form that passes also passes as a login form with the same
    * e-mail and password. */
  lemma SignupValidLoginValid(name: string, email: string, phone: Option<string>,
                              password: string, confirmPassword: string)
    requires SignupIssues(name, email, phone, password, confirmPassword) == []
    ensures LoginIssues(email, password) == []
  {
  }

  // ---------------------------------------------------------------------
  // After an attempt

  datatype Toast = Toast(title: string, description: string, destructive: bool)

  /** What an attempt leads to: one toast, and a navigation on success. */
  datatype Outcome = Outcome(toast: Toast, navigate: Option<string>)

  const DashboardPath := "/caderno/dashboard"
  const AlreadyRegistered := "Este email já está cadastrado. Faça login."
  const CouldNotCreate := "Não foi possível criar sua conta"

  /** `handleLogin` once `signIn` answered. */
  function AfterLogin(failed: bool): (r: Outcome)
    ensures r.navigate.Some? <==> !failed
    ensures r.navigate.Some? ==> r.navigate.value == DashboardPath
    ensures r.toast.destructive <==> failed
  {
    if failed then Outcome(Toast("Erro ao entrar", "Email ou senha incorretos", true), None)
    else Outcome(Toast("Bem-vinda de volta! ✨", "Vamos continuar sua jornada", false), Some(DashboardPath))
  }

  /** The sign-up error's description: the "already registered" text when
    * the backend's message says so, the generic one otherwise. */
  function SignupErrorMessage(message: string): (r: string)
    ensures r == AlreadyRegistered <==> Contains(message, "already registered")
    ensures r == CouldNotCreate <==> !Contains(message, "already registered")
  {
    if Contains(message, "already registered") then AlreadyRegistered else CouldNotCreate
  }

  /** `handleSignup` once `signUp` answered. */
  function AfterSignup(error: Option<string>): (r: Outcome)
    ensures r.navigate.Some? <==> error.None?
    ensures r.navigate.Some? ==> r.navigate.value == DashboardPath
    ensures r.toast.destructive <==> error.Some?
    ensures error.Some? ==> r.toast.description == SignupErrorMessage(error.value)
  {
    if error.Some? then Outcome(Toast("Erro ao criar conta", SignupErrorMessage(error.value), true), None)
    else Outcome(Toast("Conta criada com sucesso! 🎉", "Seja bem-vinda ao Caderno de Atividades EMPODHERA", false),
                 Some(DashboardPath))
  }

  /** A "User already registered" reply tells the person to log in. */
  lemma AlreadyRegisteredReply(prefix: string, suffix: string)
    ensures AfterSignup(Some(prefix + "already registered" + suffix)).toast.description == AlreadyRegistered
  {
    ContainsInfix(prefix, "already registered", suffix);
  }

  /** The page leaves for the dashboard once auth has loaded with someone
    * signed in. */
  function AutoRedirect(authLoading: bool, hasUser: bool): (r: Option<string>)
    ensures r.Some? <==> !authLoading && hasUser
    ensures r.Some? ==> r.value == DashboardPath
  {
    if !authLoading && hasUser then Some(DashboardPath) else None
  }

  /** Submitting the sign-up form: with issues nothing is sent and no toast
    * shows; otherwise `signUp` runs with the form's values and its error
    * decides the outcome. */
  function SubmitSignup(origin: string, name: string, email: string, phone: Option<string>,
                        password: string, confirmPassword: string,
                        reply: WorkbookResponses.SignUpReply): (r: (seq<WorkbookResponses.SignUpEffect>, Option<Outcome>))
    ensures SignupIssues(name, email, phone, password, confirmPassword) != [] ==> r.0 == [] && r.1.None?
    ensures SignupIssues(name, email, phone, password, confirmPassword) == [] ==>
              r.1 == Some(AfterSignup(reply.error)) &&
              r.0 == WorkbookResponses.SignUp(origin, email, password, name, phone, reply).0
  {
    if SignupIssues(name, email, phone, password, confirmPassword) != [] then ([], None)
    else
      var (effects, error) := WorkbookResponses.SignUp(origin, email, password, name, phone, reply);
      (effects, Some(AfterSignup(error)))
  }

  /** A valid form whose account is created goes to the dashboard after the
    * account, the contact, the waiting-list entry and the welcome e-mail
    * were requested; a taken e-mail creates nothing else and stays. */
  lemma SignupJourney(origin: string, name: string, email: string, phone: Option<string>,
                      password: string, reply: WorkbookResponses.SignUpReply)
    requires SignupIssues(name, email, phone, password, password) == []
    ensures var r := SubmitSignup(origin, name, email, phone, password, password, reply);
            r.1.Some? && (r.1.value.navigate == Some(DashboardPath) <==> reply.error.None?) &&
            (reply.error.None? && reply.userReturned ==>
               |r.0| == 4 && r.0[3] == WorkbookResponses.InvokeWelcome(email, name)) &&
            (reply.error.Some? ==> |r.0| == 1)
  {
  }

  /** A mistyped confirmation blocks the sign-up before anything is sent. */
  lemma MismatchSendsNothing(origin: string, name: string, email: string, phone: Option<string>,
                             password: string, confirmPassword: string,
                             reply: WorkbookResponses.SignUpReply)
    requires password != confirmPassword
    ensures SubmitSignup(origin, name, email, phone, password, confirmPassword, reply) == ([], None)
  {
  }
}

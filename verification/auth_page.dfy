/**
 * The login / sign-up page: the two form schemas, the mapping from the
 * authentication service's error text to the message shown, the sign-up
 * success state, and the mode toggle. The email-format check and the
 * authentication service are inputs.
 */
module AuthPage {
  import opened Wrappers
  import opened Text

  datatype Field = FullName | Email | Password | ConfirmPassword

  datatype LoginForm = LoginForm(email: string, password: string)

  datatype SignupForm = SignupForm(fullName: string, email: string, password: string, confirmPassword: string)

  const MinPassword: nat := 6

  /** The fields `loginSchema` reports as invalid. */
  function LoginErrors(f: LoginForm, isEmail: string -> bool): (errs: set<Field>)
    ensures errs <= {Email, Password}
    ensures Password in errs <==> |f.password| < 6
    ensures Email in errs <==> !isEmail(f.email)
  {
    (if isEmail(f.email) then {} else {Email}) + (if |f.password| >= MinPassword then {} else {Password})
  }

  /**
   * The fields `signupSchema` reports as invalid. The password-match rule is
   * reported on the confirmation field, which has no rule of its own.
   */
  function SignupErrors(f: SignupForm, isEmail: string -> bool): (errs: set<Field>)
    ensures FullName in errs <==> |f.fullName| < 3
    ensures Email in errs <==> !isEmail(f.email)
    ensures Password in errs <==> |f.password| < 6
    ensures ConfirmPassword in errs <==> f.confirmPassword != f.password
  {
    (if |f.fullName| >= 3 then {} else {FullName})
    + (if isEmail(f.email) then {} else {Email})
    + (if |f.password| >= MinPassword then {} else {Password})
    + (if f.password == f.confirmPassword then {} else {ConfirmPassword})
  }

  /** A sign-up form is accepted exactly when the name has 3+ characters, the email is well formed, and both passwords agree with 6+ characters. */
  lemma SignupAcceptedIff(f: SignupForm, isEmail: string -> bool)
    ensures SignupErrors(f, isEmail) == {} <==>
      |f.fullName| >= 3 && isEmail(f.email) && |f.password| >= 6 && f.confirmPassword == f.password
  {
    if SignupErrors(f, isEmail) == {} {
      assert FullName !in SignupErrors(f, isEmail);
      assert ConfirmPassword !in SignupErrors(f, isEmail);
    }
  }

  const InvalidCredentialsText := "Email atau password salah"
  const NotConfirmedText := "Email belum dikonfirmasi. Silakan cek inbox Anda"
  const LoginFailedText := "Terjadi kesalahan saat login"
  const AlreadyRegisteredText := "Email sudah terdaftar. Silakan login"
  const SignupFailedText := "Terjadi kesalahan saat mendaftar"

  /** The message shown for a failed login, from the service's error text. */
  function LoginErrorMessage(error: string): (m: string)
    ensures Contains(error, "Invalid login credentials") ==> m == InvalidCredentialsText
    ensures !Contains(error, "Invalid login credentials") && Contains(error, "Email not confirmed") ==> m == NotConfirmedText
    ensures m == LoginFailedText <==> !Contains(error, "Invalid login credentials") && !Contains(error, "Email not confirmed")
  {
    if Contains(error, "Invalid login credentials") then InvalidCredentialsText
    else if Contains(error, "Email not confirmed") then NotConfirmedText
    else LoginFailedText
  }

  /** The message shown for a failed sign-up. */
  function SignupErrorMessage(error: string): (m: string)
    ensures m == AlreadyRegisteredText <==> Contains(error, "User already registered")
    ensures m == SignupFailedText <==> !Contains(error, "User already registered")
  {
    if Contains(error, "User already registered") then AlreadyRegisteredText else SignupFailedText
  }

  /** The page's own state. */
  datatype AuthState = AuthState(
    isLogin: bool,
    isLoading: bool,
    showPassword: bool,
    showConfirmPassword: bool,
    showVerificationReminder: bool,
    registeredEmail: string)

  const InitialState: AuthState := AuthState(true, false, false, false, false, "")

  const EmptySignupForm := SignupForm("", "", "", "")

  /** What the page does after a login attempt. */
  datatype LoginOutcome = LoginToast(message: string) | WelcomeAndGoHome

  /** `handleLogin` once the service has answered (`error` is its error text, if any). */
  function HandleLogin(s: AuthState, error: Option<string>): (r: (AuthState, LoginOutcome))
    ensures r.0 == s.(isLoading := false)
    ensures r.1 == WelcomeAndGoHome <==> error.None?
    ensures error.Some? ==> r.1.message == LoginErrorMessage(error.value)
  {
    match error
    case Some(e) => (s.(isLoading := false), LoginToast(LoginErrorMessage(e)))
    case None => (s.(isLoading := false), WelcomeAndGoHome)
  }

  /** What the page shows after a sign-up attempt: an error toast or the reminder. */
  datatype SignupOutcome = SignupToast(message: string) | Reminder

  /**
   * `handleSignup` once the service has answered: the state after it, the
   * form values after it, and what is shown.
   */
  function HandleSignup(s: AuthState, f: SignupForm, error: Option<string>): (r: (AuthState, SignupForm, SignupOutcome))
    ensures !r.0.isLoading && r.0.isLogin == s.isLogin
    ensures error.None? ==> r.2 == Reminder && r.0.showVerificationReminder && r.0.registeredEmail == f.email && r.1 == EmptySignupForm
    ensures error.Some? ==> r.2 == SignupToast(SignupErrorMessage(error.value)) && r.0 == s.(isLoading := false) && r.1 == f
  {
    match error
    case Some(e) => (s.(isLoading := false), f, SignupToast(SignupErrorMessage(e)))
    case None => (s.(isLoading := false, registeredEmail := f.email, showVerificationReminder := true), EmptySignupForm, Reminder)
  }

  /** The mode toggle: flips login/sign-up and clears the reminder, the stored email, loading and both show flags. */
  function ToggleMode(s: AuthState): (r: AuthState)
    ensures r.isLogin == !s.isLogin
    ensures !r.showVerificationReminder && r.registeredEmail == "" && !r.isLoading
    ensures !r.showPassword && !r.showConfirmPassword
  {
    AuthState(!s.isLogin, false, false, false, false, "")
  }

  /** Toggling twice returns to the original mode with everything else cleared. */
  lemma ToggleTwice(s: AuthState)
    ensures ToggleMode(ToggleMode(s)) == InitialState.(isLogin := s.isLogin)
  {
  }
}

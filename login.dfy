/** The login page, src/pages/Login.tsx: what the page shows for a session
    snapshot, how a failed login's error becomes a message, and the effect of
    a submission and of the demo-account buttons on the page state. The
    outcome of the remote `login` call is a parameter. */
module Login {
  import opened Common
  import opened Text

  datatype LoginView = RedirectToDashboard | Spinner | LoginForm

  /** A signed-in user is sent to the dashboard before the loading check. */
  function View(hasUser: bool, isLoading: bool): (v: LoginView)
    ensures v == RedirectToDashboard <==> hasUser
    ensures v == Spinner <==> !hasUser && isLoading
    ensures v == LoginForm <==> !hasUser && !isLoading
  {
    if hasUser then RedirectToDashboard
    else if isLoading then Spinner
    else LoginForm
  }

  const DefaultError := "Please check your credentials and try again."
  const InvalidCredentials := "Invalid email or password. Make sure you've signed up first!"
  const NotConfirmed := "Please check your email and confirm your account before signing in."

  /** The toast text for a thrown error whose `message` may be missing. */
  function ErrorMessage(message: Option<string>): (m: string)
    ensures m == DefaultError || m == InvalidCredentials || m == NotConfirmed
    ensures m == InvalidCredentials <==>
              message.Some? && Includes(message.value, "Invalid login credentials")
    ensures m == NotConfirmed <==>
              message.Some? && !Includes(message.value, "Invalid login credentials")
              && Includes(message.value, "Email not confirmed")
  {
    if message.Some? && Includes(message.value, "Invalid login credentials") then InvalidCredentials
    else if message.Some? && Includes(message.value, "Email not confirmed") then NotConfirmed
    else DefaultError
  }

  /** A message mentioning both problems reports the credentials, and one
      mentioning neither (or no message) gets the default text. */
  lemma ErrorMessagePrecedence(message: Option<string>)
    ensures message.Some? && Includes(message.value, "Invalid login credentials")
              && Includes(message.value, "Email not confirmed")
            ==> ErrorMessage(message) == InvalidCredentials
    ensures (message.None? || (!Includes(message.value, "Invalid login credentials")
                               && !Includes(message.value, "Email not confirmed")))
            <==> ErrorMessage(message) == DefaultError
  {
  }

  datatype Toast = Toast(title: string, description: string, destructive: bool)

  const WelcomeToast := Toast("Welcome back!", "You have successfully logged in.", false)

  function FailureToast(message: Option<string>): Toast
  {
    Toast("Login Failed", ErrorMessage(message), true)
  }

  /** The remote call either returns or throws an error, whose `message`
      property may be absent. */
  datatype LoginOutcome = Succeeded | Failed(message: Option<string>)

  class LoginPage {
    var email: string
    var password: string
    var isSubmitting: bool

    constructor()
      ensures email == "" && password == "" && !isSubmitting
    {
      email := "";
      password := "";
      isSubmitting := false;
    }

    /** Submitting: a welcome toast and a move to the dashboard on success,
        a destructive toast and no navigation on failure; either way the
        submitting flag is cleared and the fields are kept. */
    method HandleSubmit(outcome: LoginOutcome) returns (toast: Toast, navigateTo: Option<string>)
      modifies this
      ensures !isSubmitting && email == old(email) && password == old(password)
      ensures outcome.Succeeded? ==> toast == WelcomeToast && navigateTo == Some("/dashboard")
      ensures outcome.Failed? ==> toast == FailureToast(outcome.message) && navigateTo == None
    {
      isSubmitting := true;
      match outcome {
        case Succeeded =>
          toast := WelcomeToast;
          navigateTo := Some("/dashboard");
        case Failed(message) =>
          var errorMessage := DefaultError;
          if message.Some? && Includes(message.value, "Invalid login credentials") {
            errorMessage := InvalidCredentials;
          } else if message.Some? && Includes(message.value, "Email not confirmed") {
            errorMessage := NotConfirmed;
          }
          toast := Toast("Login Failed", errorMessage, true);
          navigateTo := None;
      }
      isSubmitting := false;
    }

    /** A demo-account button fills in the two fields and submits nothing. */
    method HandleDemoLogin(demoEmail: string, demoPassword: string)
      modifies this
      ensures email == demoEmail && password == demoPassword
      ensures isSubmitting == old(isSubmitting)
    {
      email := demoEmail;
      password := demoPassword;
    }
  }
}

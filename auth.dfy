/** The favorites migrator's authentication module: the login state of an
    `AuthModule`, its field checks, the step indicator and the translation
    of error messages. The Feedbin client is reduced to the credentials it
    was given, and its `testAuth` answer is a parameter. */
module Auth {
  import opened Wrappers
  import opened Strings
  import opened Validation
  import opened Controls

  datatype Credentials = Credentials(email: string, password: string)

  /** A Feedbin client after `setCredentials(email, password)`. */
  datatype FeedbinClient = FeedbinClient(credentials: Credentials)

  /** How `testAuth()` settled: resolved with a flag, or rejected. */
  datatype AuthAnswer = Answered(ok: bool) | Threw(message: string)

  /* ---------- field checks ---------- */

  const EmailRequired := "Email required"
  const InvalidEmail := "Invalid email format"
  const PasswordRequired := "Password required"

  /** `validateEmail(input)`: the trimmed value must be non-empty and match
      `/^[^\s@]+@[^\s@]+\.[^\s@]+$/`. */
  function CheckEmail(value: string): (r: FieldCheck)
    ensures r == Passed <==> EmailPattern(Trim(value))
    ensures r == FieldError(EmailRequired) <==> Trim(value) == []
    ensures r.FieldError? ==> r.message == EmailRequired || r.message == InvalidEmail
  {
    var email := Trim(value);
    if email == [] then FieldError(EmailRequired)
    else if !EmailPattern(email) then FieldError(InvalidEmail)
    else Passed
  }

  /** `validatePassword(input)`: any non-empty password passes. */
  function CheckPassword(value: string): (r: FieldCheck)
    ensures r == Passed <==> value != []
    ensures r != Passed ==> r == FieldError(PasswordRequired)
  {
    if value == [] then FieldError(PasswordRequired)
    else if |value| < 1 then FieldError(PasswordRequired)
    else Passed
  }

  /** The login form and the validation module accept the same emails;
      only their messages differ. */
  lemma CheckEmailAgrees(value: string)
    ensures CheckEmail(value).Passed? <==> Validation.ValidateEmail(value).Passed?
    ensures CheckPassword(value).Passed? <==> Validation.ValidatePassword(value).Passed?
  {
  }

  /* ---------- error messages ---------- */

  /** The messages `showError` translates. */
  const ErrorMessages: map<string, string> := map[
    "Invalid credentials" := "Email ou mot de passe incorrect. Vérifiez vos identifiants Feedbin.",
    "Network error" := "Problème de connexion. Vérifiez votre connexion internet.",
    "Rate limit exceeded" := "Trop de requêtes. Veuillez attendre quelques minutes.",
    "File format error" := "Format de fichier invalide. Utilisez un fichier JSON exporté depuis FreshRSS.",
    "Authentication failed" := "Échec de l'authentification. Vérifiez vos identifiants Feedbin.",
    "Not authenticated" := "Session expirée. Veuillez vous reconnecter.",
    "Missing data to start migration" := "Veuillez d'abord charger un fichier FreshRSS et analyser Feedbin.",
    "Invalid FreshRSS file format" := "Le fichier doit contenir un tableau \"items\" avec vos favoris FreshRSS.",
    "Unable to retrieve Feedbin subscriptions" := "Vérifiez vos identifiants Feedbin et votre connexion internet."
  ]

  /** `errorMessages[message] || message`: the text `showError` displays. */
  function UserMessage(message: string): (r: string)
    ensures message in ErrorMessages ==> r == ErrorMessages[message]
    ensures message !in ErrorMessages ==> r == message
  {
    if message in ErrorMessages && ErrorMessages[message] != [] then ErrorMessages[message] else message
  }

  /** No translation is itself a known message. */
  lemma TranslationsAreNotKeys()
    ensures forall m :: m in ErrorMessages ==> ErrorMessages[m] !in ErrorMessages
  {
  }

  /** A message is changed exactly when it is one of the known ones, and
      translating twice is translating once. */
  lemma UserMessageIdempotent(message: string)
    ensures UserMessage(message) != message <==> message in ErrorMessages
    ensures UserMessage(UserMessage(message)) == UserMessage(message)
  {
    TranslationsAreNotKeys();
  }

  /* ---------- login ---------- */

  const ApiMissingMessage := "FeedbinAPI module not loaded"

  /** The banners a failed login can end with. */
  datatype LoginError = Rejected | CorsBlocked | ConnectionFailed

  /** The text handed to `showError` for each banner (which displays
      `UserMessage` of it). */
  function LoginErrorText(e: LoginError): string {
    match e
    case Rejected => "Échec de l'authentification. Vérifiez vos identifiants Feedbin."
    case CorsBlocked => "Erreur CORS: L'API Feedbin ne permet peut-être pas l'accès direct depuis le navigateur. Un proxy peut être nécessaire."
    case ConnectionFailed => "Erreur de connexion. Vérifiez votre connexion internet et vos identifiants."
  }

  /** What a login attempt shows: an error under one of the two fields, a
      `showError` banner, or the success banner `Connexion réussie !`. */
  datatype LoginNotice = EmailFieldError(text: string) | PasswordFieldError(text: string) | ErrorBanner(error: LoginError) | SuccessBanner

  /** The banner for an exception thrown during the login call. */
  function ThrownError(message: string): LoginError {
    if Contains(message, "CORS") then CorsBlocked else ConnectionFailed
  }

  /** The notice `handleLogin` ends with, given the raw field values,
      whether the Feedbin client is loaded and how `testAuth` settled. */
  function LoginOutcome(emailValue: string, passwordValue: string, apiLoaded: bool, answer: AuthAnswer): LoginNotice {
    var emailCheck := CheckEmail(emailValue);
    var passwordCheck := CheckPassword(passwordValue);
    if emailCheck.FieldError? then EmailFieldError(emailCheck.message)
    else if passwordCheck.FieldError? then PasswordFieldError(passwordCheck.message)
    else if !apiLoaded then ErrorBanner(ThrownError(ApiMissingMessage))
    else match answer
      case Answered(true) => SuccessBanner
      case Answered(false) => ErrorBanner(Rejected)
      case Threw(message) => ErrorBanner(ThrownError(message))
  }

  /** The email is checked first, then the password; the login succeeds
      only when both pass, the client is loaded and `testAuth` resolves
      true. */
  lemma LoginOutcomeCases(emailValue: string, passwordValue: string, apiLoaded: bool, answer: AuthAnswer)
    ensures LoginOutcome(emailValue, passwordValue, apiLoaded, answer).SuccessBanner? <==>
      CheckEmail(emailValue).Passed? && passwordValue != [] && apiLoaded && answer == Answered(true)
    ensures LoginOutcome(emailValue, passwordValue, apiLoaded, answer).EmailFieldError? <==> !CheckEmail(emailValue).Passed?
    ensures LoginOutcome(emailValue, passwordValue, apiLoaded, answer).PasswordFieldError? <==>
      CheckEmail(emailValue).Passed? && passwordValue == []
  {
  }

  /** A missing Feedbin client counts as a connection failure. */
  lemma ApiMissingIsConnectionFailure()
    ensures ThrownError(ApiMissingMessage) == ConnectionFailed
  {
    if Contains(ApiMissingMessage, "CORS") {
      ContainsHead(ApiMissingMessage, "CORS");
      assert false;
    }
  }

  /** `AuthModule`: the login state of the page. */
  class AuthModule {
    var credentials: Option<Credentials>
    var feedbinApi: Option<FeedbinClient>
    var isAuthenticated: bool

    /** A fresh module is logged out. */
    constructor()
      ensures credentials.None? && feedbinApi.None? && !isAuthenticated
    {
      credentials := None;
      feedbinApi := None;
      isAuthenticated := false;
    }

    /** `handleLogin(event)`: the email is checked before the password,
        and the state changes only when `testAuth` resolves true. The login
        button is set loading around the call and released afterwards. */
    method HandleLogin(emailValue: string, passwordValue: string, apiLoaded: bool, answer: AuthAnswer, loginButton: Button)
      returns (success: bool, notice: LoginNotice)
      modifies this, loginButton
      ensures notice == LoginOutcome(emailValue, passwordValue, apiLoaded, answer)
      ensures success <==> notice.SuccessBanner?
      ensures success ==>
        credentials == Some(Credentials(Trim(emailValue), passwordValue)) &&
        feedbinApi == Some(FeedbinClient(Credentials(Trim(emailValue), passwordValue))) &&
        isAuthenticated
      ensures !success ==> unchanged(this)
      ensures notice.EmailFieldError? || notice.PasswordFieldError? ==> unchanged(loginButton)
      ensures !(notice.EmailFieldError? || notice.PasswordFieldError?) ==> !loginButton.loading && !loginButton.disabled
    {
      var email := Trim(emailValue);
      var emailCheck := CheckEmail(emailValue);
      if emailCheck.FieldError? {
        return false, EmailFieldError(emailCheck.message);
      }
      var passwordCheck := CheckPassword(passwordValue);
      if passwordCheck.FieldError? {
        return false, PasswordFieldError(passwordCheck.message);
      }
      loginButton.SetLoading(true);
      if !apiLoaded {
        success, notice := false, ErrorBanner(ThrownError(ApiMissingMessage));
      } else {
        var client := FeedbinClient(Credentials(email, passwordValue));
        match answer {
          case Answered(ok) =>
            if ok {
              credentials := Some(Credentials(email, passwordValue));
              feedbinApi := Some(client);
              isAuthenticated := true;
              success, notice := true, SuccessBanner;
            } else {
              success, notice := false, ErrorBanner(Rejected);
            }
          case Threw(message) =>
            success, notice := false, ErrorBanner(ThrownError(message));
        }
      }
      loginButton.SetLoading(false);
    }

    /** `getFeedbinAPI()`: the client, or `Not authenticated`. */
    function GetFeedbinApi(): (r: Result<FeedbinClient, string>)
      reads this
      ensures r.Ok? <==> isAuthenticated && feedbinApi.Some?
      ensures r.Ok? ==> r.value == feedbinApi.value
      ensures r.Err? ==> r.error == "Not authenticated"
    {
      if !isAuthenticated || feedbinApi.None? then Err("Not authenticated") else Ok(feedbinApi.value)
    }

    /** `logout()`: back to the state of a fresh module. */
    method Logout()
      modifies this
      ensures credentials.None? && feedbinApi.None? && !isAuthenticated
      ensures GetFeedbinApi().Err?
    {
      credentials := None;
      feedbinApi := None;
      isAuthenticated := false;
    }

    /** `updateStepStatus(n, status)` on the step element, when it exists. */
    method UpdateStepStatus(step: Step?, status: string)
      modifies step
      ensures step != null ==> step.classes == WithStatus(old(step.classes), status)
    {
      if step != null {
        step.classes := WithStatus(step.classes, status);
      }
    }
  }

  /* ---------- step indicator ---------- */

  /** A step element's class list. */
  class Step {
    var classes: set<string>

    constructor(classes: set<string>)
      ensures this.classes == classes
    {
      this.classes := classes;
    }
  }

  const StepStates: set<string> := {"completed", "current", "blocked", "pending"}

  /** The four state classes removed, then the requested one added when it
      is one of them. */
  function WithStatus(classes: set<string>, status: string): (r: set<string>)
    ensures r - StepStates == classes - StepStates
    ensures r * StepStates == (if status in StepStates then {status} else {})
  {
    (classes - StepStates) + (if status in StepStates then {status} else {})
  }

  /** A step never carries two states, and it carries the requested one
      when that is a state. */
  lemma WithStatusExclusive(classes: set<string>, status: string)
    ensures |WithStatus(classes, status) * StepStates| <= 1
    ensures status in StepStates ==> status in WithStatus(classes, status)
  {
  }
}

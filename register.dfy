/**
 * The two sign-up screens, `frontend/src/components/auth/RegisterForm.tsx` and
 * `frontend/src/pages/RegisterPage.tsx`. Both carry the same schema and the same values; on
 * submit they drop `confirmPassword` and send the rest for registration (the form through the
 * auth store's `registerUser`, the page by posting `/auth/register` itself). On success the
 * form calls its `onSuccess` callback when it was given one and otherwise, like the page,
 * moves to `/login` with a notice; on failure both show the error's message.
 */
module Registration {
  import opened Wrappers
  import opened Text
  import opened Validation
  import opened Forms
  import AuthController
  import UserModel
  import Roles

  const FullNameRequired := "Full name is required"
  const UsernameTooShort := "Username must be at least 3 characters"
  const UsernameRequired := "Username is required"
  const InvalidEmail := "Invalid email address"
  const EmailRequired := "Email is required"
  const PasswordTooShort := "Password must be at least 8 characters"
  const PasswordRequired := "Password is required"
  const PasswordsMustMatch := "Passwords must match"
  const ConfirmRequired := "Confirm password is required"
  const RegistrationFallback := "Registration failed. Please try again."
  const SuccessNotice := "Registration successful! Please log in."
  const LoginPath := "/login"
  const RegisterPath := "/auth/register"
  const MinUsername: nat := 3
  const MinPassword: nat := 8

  datatype RegisterValues = RegisterValues(
    fullName: string, username: string, email: string, password: string, confirmPassword: string)

  const InitialValues := RegisterValues("", "", "", "", "")

  predicate RegisterAcceptable(v: RegisterValues, isEmail: string -> bool) {
    && v.fullName != ""
    && |v.username| >= MinUsername
    && v.email != "" && isEmail(v.email)
    && |v.password| >= MinPassword
    && v.confirmPassword == v.password
  }

  /**
   * The sign-up schema's issues, one per path at most; `isEmail` is the schema library's
   * email test. `confirmPassword` must be given and equal `password`; an empty password counts
   * as undefined, which no given confirmation equals.
   */
  function RegisterIssues(v: RegisterValues, isEmail: string -> bool): (issues: seq<Issue>)
    ensures issues == [] <==> RegisterAcceptable(v, isEmail)
    ensures |issues| <= 5
  {
    Check(v.fullName != "", "fullName", FullNameRequired)
      + (if v.username == "" then [Issue("username", UsernameRequired)]
         else Check(|v.username| >= MinUsername, "username", UsernameTooShort))
      + (if v.email == "" then [Issue("email", EmailRequired)] else Check(isEmail(v.email), "email", InvalidEmail))
      + (if v.password == "" then [Issue("password", PasswordRequired)]
         else Check(|v.password| >= MinPassword, "password", PasswordTooShort))
      + (if v.confirmPassword == "" then [Issue("confirmPassword", ConfirmRequired)]
         else Check(v.confirmPassword == v.password, "confirmPassword", PasswordsMustMatch))
  }

  /** A confirmation that differs from the password is refused, whatever else the form holds. */
  lemma MismatchRefused(v: RegisterValues, isEmail: string -> bool)
    requires v.confirmPassword != v.password
    ensures RegisterIssues(v, isEmail) != []
    ensures v.confirmPassword != "" ==> Issue("confirmPassword", PasswordsMustMatch) in RegisterIssues(v, isEmail)
  {
    var tail := if v.confirmPassword == "" then [Issue("confirmPassword", ConfirmRequired)]
                else Check(false, "confirmPassword", PasswordsMustMatch);
    var issues := RegisterIssues(v, isEmail);
    assert issues[|issues| - |tail|..] == tail;
    assert issues[|issues| - 1] == tail[|tail| - 1];
  }

  /** `const { confirmPassword, ...registerData } = values`: the request body, which names no role. */
  function Payload(v: RegisterValues): (b: AuthController.RegisterBody)
    ensures b.role.None?
    ensures b.username == Some(v.username) && b.fullName == Some(v.fullName)
    ensures b.email == Some(v.email) && b.password == Some(v.password)
  {
    AuthController.RegisterBody(Some(v.username), Some(v.fullName), Some(v.email), Some(v.password), None)
  }

  /** The page's request: a POST of the payload to `/auth/register`. */
  function PageRequest(v: RegisterValues): (req: Request<AuthController.RegisterBody>)
    ensures req.verb == Post && req.url == RegisterPath
    ensures req.body == Some(Payload(v)) && req.body.value.role.None?
  {
    Request(Post, RegisterPath, Some(Payload(v)))
  }

  /** The password of an accepted sign-up passes the server's password rule. */
  lemma AcceptedPasswordPassesServer(v: RegisterValues, isEmail: string -> bool)
    requires RegisterIssues(v, isEmail) == []
    ensures UserModel.PasswordIssues(Payload(v).password.value) == []
  {
  }

  /** An account created from either screen is a plain User: the body names no role. */
  lemma SignUpCreatesUser(v: RegisterValues, docs: seq<UserModel.User>, id: string, salt: string,
                          crypto: UserModel.Crypto, expiry: Option<string>)
    requires AuthController.RegisterStep(docs, Payload(v), id, salt, crypto, expiry).reply.Success?
    ensures AuthController.RegisterStep(docs, Payload(v), id, salt, crypto, expiry).docs[|docs|].role == Roles.User
  {
    AuthController.RegisterHonoursRole(docs, Payload(v), id, salt, crypto, expiry);
  }

  /** A sign-up whose username is padded with a space; the client counts the space. */
  const PaddedExample := RegisterValues("Jo", " ab", "jo@mail.com", "password1", "password1")

  /** The form accepts the padded example: " ab" has the three characters the length rule asks for. */
  lemma PaddedUsernameAcceptedByForm()
    ensures RegisterIssues(PaddedExample, _ => true) == []
  {
  }

  /** Trimming drops the leading space, so the trimmed username has two characters. */
  lemma PaddedUsernameTrimsShort()
    ensures |Trim(" ab")| < MinUsername
  {
    var t := " ab";
    assert IsJsSpace(t[0]);
    assert TrimStart(t) == TrimStart(t[1..]);
  }

  /**
   * The server trims the username before it checks its length, while the form counts the
   * padding: every sign-up whose trimmed username is shorter than three characters is refused
   * by the schema, whatever the form said of it.
   */
  lemma ShortTrimmedUsernameRefused(v: RegisterValues, id: string)
    requires |Trim(v.username)| < MinUsername
    ensures !UserModel.ValidUser(AuthController.RegisterDoc(Payload(v), id))
  {
    var u := AuthController.RegisterDoc(Payload(v), id);
    assert u.username == Normalize(v.username);
  }

  /** The padded example is such a sign-up: the form accepts it and the server refuses it. */
  lemma PaddedUsernameRefusedByServer(id: string)
    ensures RegisterIssues(PaddedExample, _ => true) == []
    ensures !UserModel.ValidUser(AuthController.RegisterDoc(Payload(PaddedExample), id))
  {
    PaddedUsernameAcceptedByForm();
    PaddedUsernameTrimsShort();
    ShortTrimmedUsernameRefused(PaddedExample, id);
  }

  /** Where a successful sign-up leads. */
  datatype Navigation = CallOnSuccess | Navigate(path: string, notice: string)

  /** A sign-up screen's state: its values, the error it shows, and where it has led. */
  class RegisterScreen {
    var values: RegisterValues
    var error: Option<string>
    var navigation: Option<Navigation>
    /** Whether the screen was given an `onSuccess` callback (never, for the page). */
    const hasOnSuccess: bool

    constructor (onSuccess: bool)
      ensures values == InitialValues && error.None? && navigation.None? && hasOnSuccess == onSuccess
    {
      values := InitialValues;
      error := None;
      navigation := None;
      hasOnSuccess := onSuccess;
    }

    method Change(next: RegisterValues)
      modifies this
      ensures values == next && error == old(error) && navigation == old(navigation)
    {
      values := next;
    }

    /** Submitting: nothing happens unless the schema reports no issue; then the error is cleared and the payload goes out. */
    method Submit(isEmail: string -> bool) returns (body: Option<AuthController.RegisterBody>)
      modifies this
      ensures body.Some? <==> RegisterAcceptable(values, isEmail)
      ensures body.Some? ==> body.value == Payload(values) && error.None?
      ensures body.Some? ==> UserModel.PasswordIssues(body.value.password.value) == []
      ensures body.None? ==> error == old(error)
      ensures values == old(values) && navigation == old(navigation)
    {
      if RegisterIssues(values, isEmail) == [] {
        error := None;
        AcceptedPasswordPassesServer(values, isEmail);
        body := Some(Payload(values));
      } else {
        body := None;
      }
    }

    /** Registration succeeded: the callback when there is one, the login page with a notice otherwise. */
    method Succeeded()
      modifies this
      ensures navigation == Some(if hasOnSuccess then CallOnSuccess else Navigate(LoginPath, SuccessNotice))
      ensures values == old(values) && error == old(error)
    {
      if hasOnSuccess {
        navigation := Some(CallOnSuccess);
      } else {
        navigation := Some(Navigate(LoginPath, SuccessNotice));
      }
    }

    /** Registration failed: `apiError.message || fallback` is shown and the screen stays. */
    method Failed(message: Option<string>)
      modifies this
      ensures error == Some(TextOr(message, RegistrationFallback)) && error.value != ""
      ensures values == old(values) && navigation == old(navigation)
    {
      error := Some(TextOr(message, RegistrationFallback));
    }
  }
}

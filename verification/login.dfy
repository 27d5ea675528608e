/** The sign-in form (components/auth/LoginSection.tsx): the empty-field
    guard, routing by role after sign-in, and the forgot-password guard. */
module Login {
  import opened Models
  import Global

  const MSG_FILL: string := "Please fill out username and password!"
  const MSG_WRONG: string := "Wrong login information!"
  const MSG_FAILED: string := "An error occurred during login."
  const MSG_NEED_EMAIL: string := "Please enter your email!"

  const PATH_ACCOUNT: string := "/account"
  const PATH_ADMIN: string := "/admin/manage-user"

  /** What signIn and the session read after it gave: a throw, or a response
      with or without an error and the session's role. */
  datatype SignInResponse = SignInThrew | SignInReturned(error: bool, sessionRole: Option<int>)

  /** What the handler leaves behind: the form error, whether signIn was
      called, the pop-up message and where the router goes. */
  datatype LoginOutcome = LoginOutcome(
    formError: string,
    signInCalled: bool,
    popup: Option<string>,
    navigate: Option<string>)

  /** The page a signed-in role is sent to; other roles stay put. */
  function HomeOfRole(role: Option<int>): (path: Option<string>)
    ensures path.Some? <==> role == Some(ROLE_USER) || role == Some(ROLE_ADMIN)
    ensures role == Some(ROLE_USER) ==> path == Some(PATH_ACCOUNT)
    ensures role == Some(ROLE_ADMIN) ==> path == Some(PATH_ADMIN)
  {
    if role == Some(1) then Some(PATH_ACCOUNT)
    else if role == Some(0) then Some(PATH_ADMIN)
    else None
  }

  /** handleLoginWithEmailPassword. */
  function HandleLogin(username: string, password: string, response: SignInResponse): (o: LoginOutcome)
    ensures username == "" || password == "" ==> o == LoginOutcome(MSG_FILL, false, None, None)
    ensures username != "" && password != "" ==> o.signInCalled
    ensures o.navigate.Some? <==>
      username != "" && password != "" && response.SignInReturned? && !response.error
      && HomeOfRole(response.sessionRole).Some?
    ensures o.navigate.Some? ==> o.navigate == HomeOfRole(response.sessionRole)
    ensures o.popup == Some(MSG_WRONG) <==>
      username != "" && password != "" && response.SignInReturned? && response.error
    ensures o.formError == MSG_FAILED <==> username != "" && password != "" && response.SignInThrew?
  {
    if username == "" || password == "" then LoginOutcome(MSG_FILL, false, None, None)
    else
      match response
      case SignInThrew => LoginOutcome(MSG_FAILED, true, None, None)
      case SignInReturned(error, role) =>
        if error then LoginOutcome("", true, Some(MSG_WRONG), None)
        else LoginOutcome("", true, Some("Login successfully"), HomeOfRole(role))
  }

  /** The customer and the administrator land on different pages, and a
      failed sign-in never moves the browser. */
  lemma LoginRouting(username: string, password: string)
    requires username != "" && password != ""
    ensures HandleLogin(username, password, SignInReturned(false, Some(ROLE_USER))).navigate == Some(PATH_ACCOUNT)
    ensures HandleLogin(username, password, SignInReturned(false, Some(ROLE_ADMIN))).navigate == Some(PATH_ADMIN)
    ensures forall role :: HandleLogin(username, password, SignInReturned(true, role)).navigate.None?
  {
  }

  /** What the forgot-password request gave: a throw, or the server's message
      and the new password. */
  datatype ForgotCall = ForgotThrew(error: Global.ErrorValue) | ForgotAnswered(message: string, newPassword: string)

  datatype ForgotOutcome = ForgotOutcome(
    requestSent: bool,
    popup: Option<string>,
    newPassword: Option<string>,
    modalOpen: bool)

  /** handleForgotPassword: an empty email sends nothing and keeps the
      dialog open; an answer shows the new password and closes it. */
  function HandleForgotPassword(email: string, call: ForgotCall): (o: ForgotOutcome)
    ensures email == "" ==> o == ForgotOutcome(false, Some(MSG_NEED_EMAIL), None, true)
    ensures email != "" ==> o.requestSent
    ensures o.newPassword.Some? <==> email != "" && call.ForgotAnswered?
    ensures o.newPassword.Some? ==> o.newPassword.value == call.newPassword
    ensures !o.modalOpen <==> o.newPassword.Some?
  {
    if email == "" then ForgotOutcome(false, Some(MSG_NEED_EMAIL), None, true)
    else
      match call
      case ForgotThrew(e) => ForgotOutcome(true, Some(Global.ToastError(e)), None, true)
      case ForgotAnswered(message, newPassword) => ForgotOutcome(true, Some(message), Some(newPassword), false)
  }

  /** Without an email the call never happens, so its outcome is irrelevant;
      with one, a thrown request leaves the dialog open with the error
      toasted and no password, so a retry is possible, and an answered retry
      shows the password and closes it. */
  lemma ForgotPasswordGuard(email: string, c1: ForgotCall, c2: ForgotCall, e: Global.ErrorValue,
                            message: string, newPassword: string)
    ensures HandleForgotPassword("", c1) == HandleForgotPassword("", c2)
    ensures email != "" ==>
      HandleForgotPassword(email, ForgotThrew(e)) == ForgotOutcome(true, Some(Global.ToastError(e)), None, true)
    ensures email != "" ==>
      HandleForgotPassword(email, ForgotAnswered(message, newPassword)) == ForgotOutcome(true, Some(message), Some(newPassword), false)
  {
  }
}

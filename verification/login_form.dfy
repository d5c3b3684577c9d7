/**
 * The sign-in flow shared by the login and registration pages: the request
 * is an abstract effect (`api`) that answers with the session tokens or
 * with whatever it threw.
 */
module SignIn {
  import opened Wrappers
  import opened JsValues
  import opened ErrorMessages
  import opened Domain
  import opened AuthSession

  /** What a submit leaves behind: the request sent (if any), the session, the message shown and the navigation. */
  datatype Submission<P> = Submission(request: Option<P>, session: Session, errMsg: string, navigate: Option<string>)

  /** A request was sent and answered: log in and go to the recommendations, or show the error's message. */
  function Answered<P>(ss: Session, routes: Routes, request: P, answer: Result<AuthResponse, JsValue>,
                       stringify: UserDetails -> string): (r: Submission<P>)
    ensures r.request == Some(request)
    ensures answer.Success? ==>
      var a := answer.value;
      r.session == Login(ss, a.accessToken, a.refreshToken, a.userDetails, stringify) &&
      r.errMsg == "" && r.navigate == Some(routes.recommend)
    ensures answer.Failure? ==>
      r.session == ss && r.errMsg == GetErrorMessage(answer.error) && r.navigate.None?
  {
    match answer
    case Success(a) =>
      Submission(Some(request), Login(ss, a.accessToken, a.refreshToken, a.userDetails, stringify), "", Some(routes.recommend))
    case Failure(e) => Submission(Some(request), ss, GetErrorMessage(e), None)
  }
}

/** The login page (app/login/page). */
module LoginForm {
  import opened Wrappers
  import opened Text
  import opened JsValues
  import opened Domain
  import opened AuthSession
  import opened SignIn

  datatype LoginPayload = LoginPayload(identifier: string, password: string)

  const MissingCredentials := "Please enter your identifier and password."

  /**
   * `handleSubmit`: blank credentials are refused without a request; else
   * the identifier is sent trimmed and the password exactly as typed.
   */
  function HandleSubmit(ss: Session, routes: Routes, identifier: string, password: string,
                        api: LoginPayload -> Result<AuthResponse, JsValue>,
                        stringify: UserDetails -> string): (r: Submission<LoginPayload>)
    ensures r.request.None? <==> AllSpace(identifier) || AllSpace(password)
    ensures r.request.None? ==> r.errMsg == MissingCredentials && r.session == ss && r.navigate.None?
    ensures r.request.Some? ==> r.request.value == LoginPayload(Trim(identifier), password)
    ensures r.request.Some? ==> r == Answered(ss, routes, r.request.value, api(r.request.value), stringify)
  {
    TrimEmptyIff(identifier);
    TrimEmptyIff(password);
    if Trim(identifier) == "" || Trim(password) == "" then Submission(None, ss, MissingCredentials, None)
    else
      var payload := LoginPayload(Trim(identifier), password);
      Answered(ss, routes, payload, api(payload), stringify)
  }

  /** A password of spaces is refused even though passwords are never trimmed when sent. */
  lemma BlankPasswordRefused(ss: Session, routes: Routes, identifier: string, n: nat,
                             api: LoginPayload -> Result<AuthResponse, JsValue>, stringify: UserDetails -> string)
    ensures HandleSubmit(ss, routes, identifier, seq(n, _ => ' '), api, stringify).request.None?
  {
  }
}

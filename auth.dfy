/** The session state of frontend/js/contexts/AuthContext.tsx: the provider
    holds the current user (the parsed body of the session probe, `null` when
    signed out) and a loading flag, and its actions change them according to
    what the server answers. Each `fetch` answer is an input. */
module Auth {
  import opened Wrappers
  import opened Json
  import opened Cookies
  import opened ApiRequest

  /** What an action ends in: a navigation, nothing, or a thrown error. */
  datatype Outcome = Navigated(path: string) | Stayed | Threw(message: string)

  /** A `fetch` the provider makes: URL, method (none is GET), form fields (none
      means no body) and the X-CSRFToken header, if any. Credentials are always
      included. */
  datatype Sent = Sent(url: string, httpMethod: Option<string>, form: Option<seq<(string, string)>>, csrfHeader: Option<string>)

  const ProbeUrl := "/api/auth/user/"
  const LoginUrl := "/accounts/login/"
  const SignupUrl := "/accounts/signup/"
  const LogoutUrl := "/accounts/logout/"
  const NoProviderError := "useAuth must be used within AuthProvider"

  /** `getCookie('csrftoken') || ''`. */
  function CsrfField(cookie: string): (t: string)
    ensures t == "" <==> GetCookie(cookie, CsrfCookieName).None?
    ensures t != "" ==> Some(t) == GetCookie(cookie, CsrfCookieName)
  {
    GetCookie(cookie, CsrfCookieName).GetOr("")
  }

  /** The user `checkAuth` stores: the parsed body of an ok probe, otherwise null
      (a failed probe, a network error and an unreadable body alike). */
  function ProbeUser(answer: Fetched): (u: Json)
    ensures u != JNull ==> answer.Received? && answer.response.Ok() && answer.response.body == Parsed(u)
    ensures answer.Received? && answer.response.Ok() && answer.response.body.Parsed? ==> u == answer.response.body.json
  {
    match answer
    case NetworkFailure(_) => JNull
    case Received(r) =>
      if !r.Ok() then JNull
      else match r.body
        case Parsed(j) => j
        case Unparseable(_) => JNull
  }

  /** `response.ok || response.redirected`. */
  predicate Accepted(answer: Fetched) {
    answer.Received? && (answer.response.Ok() || answer.response.redirected)
  }

  /** How a login or signup POST ends: a network error propagates, an accepted
      answer navigates home, anything else throws the response text, or
      `fallback` when that text is empty. */
  function FormOutcome(answer: Fetched, fallback: string): (o: Outcome)
    ensures o.Navigated? <==> Accepted(answer)
    ensures o.Navigated? ==> o.path == "/"
    ensures answer.NetworkFailure? ==> o == Threw(answer.message)
    ensures answer.Received? && !Accepted(answer) ==>
      o == Threw(if answer.response.text == "" then fallback else answer.response.text)
  {
    match answer
    case NetworkFailure(m) => Threw(m)
    case Received(r) =>
      if r.Ok() || r.redirected then Navigated("/")
      else Threw(if r.text == "" then fallback else r.text)
  }

  /** How `logout` ends: a network error propagates, an accepted answer
      navigates home, anything else does nothing and raises nothing. */
  function LogoutOutcome(answer: Fetched): (o: Outcome)
    ensures o.Navigated? <==> Accepted(answer)
    ensures o.Navigated? ==> o.path == "/"
    ensures o.Threw? <==> answer.NetworkFailure?
    ensures answer.Received? && !Accepted(answer) ==> o == Stayed
  {
    match answer
    case NetworkFailure(m) => Threw(m)
    case Received(r) => if r.Ok() || r.redirected then Navigated("/") else Stayed
  }

  /** `useAuth()`: the provider's value, or the error thrown outside a provider. */
  function UseAuth<C>(context: Option<C>): (r: Result<C, string>)
    ensures r.Success? <==> context.Some?
    ensures r.Success? ==> r.value == context.value
    ensures r.Failure? ==> r.error == NoProviderError
  {
    match context
    case Some(c) => Success(c)
    case None => Failure(NoProviderError)
  }

  /** `AuthProvider`'s state and actions. */
  class AuthProvider {
    var user: Json
    var isLoading: bool

    /** `useState(null)` and `useState(true)`. */
    constructor ()
      ensures user == JNull && isLoading
    {
      user := JNull;
      isLoading := true;
    }

    /** `checkAuth`: never throws, always ends the loading state. */
    method CheckAuth(answer: Fetched) returns (sent: Sent)
      modifies this
      ensures sent == Sent(ProbeUrl, None, None, None)
      ensures user == ProbeUser(answer) && !isLoading
    {
      sent := Sent(ProbeUrl, None, None, None);
      if answer.Received? && answer.response.Ok() {
        match answer.response.body
        case Parsed(j) => user := j;
        case Unparseable(_) => user := JNull;  // the catch block
      } else {
        user := JNull;
      }
      isLoading := false;
    }

    /** The shared shape of `login` and `signup`: post the form, and on an
        accepted answer probe the session; `probe` is the probe's answer. */
    method SubmitForm(url: string, form: seq<(string, string)>, fallback: string,
                      cookie: string, answer: Fetched, probe: Fetched)
      returns (sent: Sent, outcome: Outcome)
      modifies this
      ensures sent == Sent(url, Some("POST"), Some(form), Some(CsrfField(cookie)))
      ensures outcome == FormOutcome(answer, fallback)
      ensures Accepted(answer) ==> user == ProbeUser(probe) && !isLoading
      ensures !Accepted(answer) ==> user == old(user) && isLoading == old(isLoading)
    {
      sent := Sent(url, Some("POST"), Some(form), Some(CsrfField(cookie)));
      outcome := FormOutcome(answer, fallback);
      if Accepted(answer) {
        var _ := CheckAuth(probe);
      }
    }

    /** `login(username, password)`: the stored user comes from the probe, not
        from the login response. */
    method Login(username: string, password: string, cookie: string, answer: Fetched, probe: Fetched)
      returns (sent: Sent, outcome: Outcome)
      modifies this
      ensures sent == Sent(LoginUrl, Some("POST"), Some([("login", username), ("password", password)]), Some(CsrfField(cookie)))
      ensures outcome == FormOutcome(answer, "Login failed")
      ensures Accepted(answer) ==> user == ProbeUser(probe) && !isLoading
      ensures !Accepted(answer) ==> user == old(user) && isLoading == old(isLoading)
    {
      sent, outcome := SubmitForm(LoginUrl, [("login", username), ("password", password)],
                                  "Login failed", cookie, answer, probe);
    }

    /** `signup(username, email, password1, password2)`. */
    method Signup(username: string, email: string, password1: string, password2: string,
                  cookie: string, answer: Fetched, probe: Fetched)
      returns (sent: Sent, outcome: Outcome)
      modifies this
      ensures sent == Sent(SignupUrl, Some("POST"),
        Some([("username", username), ("email", email), ("password1", password1), ("password2", password2)]),
        Some(CsrfField(cookie)))
      ensures outcome == FormOutcome(answer, "Signup failed")
      ensures Accepted(answer) ==> user == ProbeUser(probe) && !isLoading
      ensures !Accepted(answer) ==> user == old(user) && isLoading == old(isLoading)
    {
      sent, outcome := SubmitForm(SignupUrl,
        [("username", username), ("email", email), ("password1", password1), ("password2", password2)],
        "Signup failed", cookie, answer, probe);
    }

    /** `logout()`: clears the user only on an accepted answer. */
    method Logout(cookie: string, answer: Fetched) returns (sent: Sent, outcome: Outcome)
      modifies this
      ensures sent == Sent(LogoutUrl, Some("POST"), None, Some(CsrfField(cookie)))
      ensures outcome == LogoutOutcome(answer)
      ensures Accepted(answer) ==> user == JNull
      ensures !Accepted(answer) ==> user == old(user)
      ensures isLoading == old(isLoading)
    {
      sent := Sent(LogoutUrl, Some("POST"), None, Some(CsrfField(cookie)));
      outcome := LogoutOutcome(answer);
      if Accepted(answer) {
        user := JNull;
      }
    }
  }

  // ------------------------------------------------------------ properties

  /** A rejected login never reports success and always says why. */
  lemma RejectedLoginMessage(answer: Fetched)
    requires answer.Received? && !Accepted(answer)
    ensures FormOutcome(answer, "Login failed").Threw?
    ensures FormOutcome(answer, "Login failed").message != ""
  {
  }

  /** The probe stores a user only for a 2xx answer with a JSON body. */
  lemma ProbeUserOnlyFromOk(answer: Fetched)
    ensures ProbeUser(answer) != JNull ==> answer.Received? && 200 <= answer.response.status <= 299
    ensures answer.Received? && !answer.response.Ok() ==> ProbeUser(answer) == JNull
  {
  }
}

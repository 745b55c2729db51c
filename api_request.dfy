/** `apiRequest` of frontend/js/hooks/api/utils.ts: the headers and
    options it hands to `fetch`, and how it turns the answer into a value
    or a thrown message. The network call itself is an input: a `Fetched`
    value says what `fetch` produced. */
module ApiRequest {
  import opened Wrappers
  import opened Text
  import opened Json
  import opened Cookies

  type Headers = map<string, string>

  /** The `RequestInit` fields the client sets. `headers` is the caller's
      header list in the order a `Headers` object iterates it; none is `[]`. */
  datatype RequestInit = RequestInit(
    httpMethod: Option<string>,
    headers: seq<(string, string)>,
    body: Option<Json>,
    credentials: Option<string>)

  /** A response body as `response.json()` sees it. */
  datatype Body = Parsed(json: Json) | Unparseable(syntaxError: string)

  /** A received response; `body` is its text read as JSON, `text` the raw text. */
  datatype Response = Response(status: nat, redirected: bool, body: Body, text: string) {
    /** `response.ok`. */
    predicate Ok() { 200 <= status <= 299 }
  }

  /** What `fetch` settles to: a rejection with its message, or a response. */
  datatype Fetched = NetworkFailure(message: string) | Received(response: Response)

  const ContentType := "Content-Type"
  const JsonContentType := "application/json"
  const CsrfHeader := "X-CSRFToken"
  const CsrfCookieName := "csrftoken"
  const StateChangingMethods: seq<string> := ["POST", "PUT", "PATCH", "DELETE"]

  predicate IsStateChanging(m: Option<string>) {
    m.Some? && m.value in StateChangingMethods
  }

  // ------------------------------------------------------------ header names

  /** A name that starts with a capital is never a stored header name. */
  lemma LowerNeverCapitalised(s: string, t: string)
    requires t != "" && 'A' <= t[0] <= 'Z'
    ensures Lower(s) != t
  {
    if |s| > 0 {
      assert Lower(s)[0] == LowerChar(s[0]);
    }
  }

  /** The names the caller's headers end up under. */
  function HeaderNames(ps: seq<(string, string)>): set<string> {
    set i | 0 <= i < |ps| :: Lower(ps[i].0)
  }

  /** `headers[key] = value` for each caller header in turn. */
  function Assign(h: Headers, ps: seq<(string, string)>): (r: Headers)
    decreases |ps|
    ensures r.Keys == h.Keys + HeaderNames(ps)
    ensures forall k :: k in h && k !in HeaderNames(ps) ==> r[k] == h[k]
  {
    if ps == [] then h
    else
      var init := ps[..|ps| - 1];
      var last := ps[|ps| - 1];
      assert HeaderNames(ps) == HeaderNames(init) + {Lower(last.0)} by {
        assert forall i | 0 <= i < |init| :: init[i] == ps[i];
      }
      Assign(h, init)[Lower(last.0) := last.1]
  }

  /** The last caller header with a given name sets its value. */
  lemma {:induction false} AssignLastWins(h: Headers, ps: seq<(string, string)>, i: nat)
    requires i < |ps|
    requires forall j :: i < j < |ps| ==> Lower(ps[j].0) != Lower(ps[i].0)
    ensures Assign(h, ps)[Lower(ps[i].0)] == ps[i].1
  {
    if i < |ps| - 1 {
      var init := ps[..|ps| - 1];
      assert init[i] == ps[i];
      assert forall j :: i < j < |init| ==> init[j] == ps[j];
      AssignLastWins(h, init, i);
    }
  }

  /** The token `apiRequest` adds: only for a state-changing method, and only
      when the cookie holds one. */
  function CsrfToken(options: RequestInit, cookie: string): (t: Option<string>)
    ensures t.Some? <==> IsStateChanging(options.httpMethod) && GetCookie(cookie, CsrfCookieName).Some?
    ensures t.Some? ==> t == GetCookie(cookie, CsrfCookieName)
  {
    if IsStateChanging(options.httpMethod) then GetCookie(cookie, CsrfCookieName) else None
  }

  /** The headers `apiRequest` sends: the JSON content type, the caller's headers
      under their lower-case names, then the CSRF header when there is a token.
      A caller's header never replaces the two capitalised ones. */
  function RequestHeaders(options: RequestInit, cookie: string): (h: Headers)
    ensures h.Keys == {ContentType} + HeaderNames(options.headers)
                      + (if CsrfToken(options, cookie).Some? then {CsrfHeader} else {})
    ensures h[ContentType] == JsonContentType
    ensures CsrfHeader in h <==> CsrfToken(options, cookie).Some?
    ensures CsrfToken(options, cookie).Some? ==> h[CsrfHeader] == CsrfToken(options, cookie).value
  {
    var ps := options.headers;
    assert ContentType !in HeaderNames(ps) && CsrfHeader !in HeaderNames(ps) by {
      forall i | 0 <= i < |ps| ensures Lower(ps[i].0) != ContentType && Lower(ps[i].0) != CsrfHeader {
        LowerNeverCapitalised(ps[i].0, ContentType);
        LowerNeverCapitalised(ps[i].0, CsrfHeader);
      }
    }
    var merged := Assign(map[ContentType := JsonContentType], ps);
    match CsrfToken(options, cookie)
    case None => merged
    case Some(t) => merged[CsrfHeader := t]
  }

  /** The options `fetch` receives. */
  datatype FetchInit = FetchInit(httpMethod: Option<string>, headers: Headers, body: Option<Json>, credentials: string)

  /** Builds the `fetch` options the way `apiRequest` does: a `headers`
      dictionary filled in place, then `{...options, headers, credentials: 'include'}`. */
  method PrepareFetch(options: RequestInit, cookie: string) returns (init: FetchInit)
    ensures init == FetchInit(options.httpMethod, RequestHeaders(options, cookie), options.body, "include")
  {
    var ps := options.headers;
    var headers: Headers := map[ContentType := JsonContentType];
    for i := 0 to |ps|
      invariant headers == Assign(map[ContentType := JsonContentType], ps[..i])
    {
      assert ps[..i + 1][..i] == ps[..i];
      headers := headers[Lower(ps[i].0) := ps[i].1];
    }
    assert ps[..|ps|] == ps;
    if IsStateChanging(options.httpMethod) {
      var token := GetCookie(cookie, CsrfCookieName);
      if token.Some? {
        headers := headers[CsrfHeader := token.value];
      }
    }
    init := FetchInit(options.httpMethod, headers, options.body, "include");
  }

  /** The fallback message of a failed response without a better one; the
      status can be read back from it. */
  function HttpErrorFallback(status: nat): (m: string)
    ensures |m| > 11 && m[..11] == "HTTP error " && IsDigits(m[11..])
    ensures ParseDecimal(m[11..]) == status
  {
    var d := Decimal(status);
    ParseDecimalOfDecimal(status);
    assert ("HTTP error " + d)[11..] == d;
    "HTTP error " + d
  }

  /** The message `apiRequest` throws for a non-ok response; an unreadable body
      counts as `{}`, and a `null` body throws the TypeError of `null.detail`. */
  function ErrorMessage(response: Response): (m: string)
    ensures response.body.Unparseable? ==> m == HttpErrorFallback(response.status)
    ensures response.body == Parsed(JNull) ==> m == NullDetailError
  {
    var data := match response.body
      case Parsed(j) => j
      case Unparseable(_) => JObj([]);
    match ErrorText(data, HttpErrorFallback(response.status))
    case Success(m) => m
    case Failure(e) => e
  }

  /** What the promise of `apiRequest` settles to. */
  function Outcome(answer: Fetched): (r: Result<Json, string>)
    ensures answer.NetworkFailure? ==> r == Failure(answer.message)
    ensures answer.Received? && !answer.response.Ok() ==> r == Failure(ErrorMessage(answer.response))
    ensures answer.Received? && answer.response.Ok() ==>
      match answer.response.body
      case Parsed(j) => r == Success(j)
      case Unparseable(e) => r == Failure(e)
  {
    match answer
    case NetworkFailure(m) => Failure(m)
    case Received(response) =>
      if !response.Ok() then Failure(ErrorMessage(response))
      else match response.body
        case Parsed(j) => Success(j)
        case Unparseable(e) => Failure(e)
  }

  /** What `response.json()` rejects with on an empty body (the V8 wording). */
  const EmptyJsonError := "Unexpected end of JSON input"

  /** A response whose recorded body agrees with its text: empty text never
      parses. */
  predicate Consistent(response: Response) {
    response.text == "" ==> response.body.Unparseable?
  }

  /** As written, a 2xx answer with an empty body, such as the 204 No Content
      of a successful delete, rejects instead of resolving. */
  lemma NoContentRejected(status: nat)
    requires 200 <= status <= 299
    ensures Outcome(Received(Response(status, false, Unparseable(EmptyJsonError), ""))) == Failure(EmptyJsonError)
  {
  }

  /** The evidently intended settlement: a 2xx answer with an empty body
      resolves to no value (`null` here); every other answer as `Outcome`. */
  function IntendedOutcome(answer: Fetched): (r: Result<Json, string>)
    ensures answer.Received? && answer.response.Ok() && answer.response.text == "" ==> r == Success(JNull)
    ensures !(answer.Received? && answer.response.Ok() && answer.response.text == "") ==> r == Outcome(answer)
  {
    if answer.Received? && answer.response.Ok() && answer.response.text == "" then Success(JNull)
    else Outcome(answer)
  }

  /** The correction turns exactly the rejections of empty 2xx answers into
      successes: every success of the code is kept, every error answer still
      rejects with the same message, and a 2xx always resolves. */
  lemma IntendedOutcomeOnlyFixesEmptySuccess(answer: Fetched)
    requires answer.Received? ==> Consistent(answer.response)
    ensures Outcome(answer).Success? ==> IntendedOutcome(answer) == Outcome(answer)
    ensures IntendedOutcome(answer) != Outcome(answer) <==>
      answer.Received? && answer.response.Ok() && answer.response.text == ""
    ensures answer.Received? && !answer.response.Ok() ==> IntendedOutcome(answer) == Failure(ErrorMessage(answer.response))
    ensures answer.Received? && answer.response.Ok() && (answer.response.body.Parsed? || answer.response.text == "") ==>
      IntendedOutcome(answer).Success?
  {
    if answer.Received? && answer.response.Ok() && answer.response.text == "" {
      assert Outcome(answer).Failure?;
    }
  }

  /** `apiRequest(url, options)` given what `fetch` answers: the options it
      sends and what it resolves or rejects with, as written (an empty 2xx
      body rejects with the parse error). */
  method Request(options: RequestInit, cookie: string, answer: Fetched)
    returns (sent: FetchInit, result: Result<Json, string>)
    ensures sent == FetchInit(options.httpMethod, RequestHeaders(options, cookie), options.body, "include")
    ensures result == Outcome(answer)
  {
    sent := PrepareFetch(options, cookie);
    result := Outcome(answer);
  }

  /** `apiRequest` with the evidently intended settlement: the same request,
      and an empty 2xx body resolving to no value. */
  method RequestIntended(options: RequestInit, cookie: string, answer: Fetched)
    returns (sent: FetchInit, result: Result<Json, string>)
    ensures sent == FetchInit(options.httpMethod, RequestHeaders(options, cookie), options.body, "include")
    ensures result == IntendedOutcome(answer)
  {
    sent := PrepareFetch(options, cookie);
    if answer.Received? && answer.response.Ok() && answer.response.text == "" {
      result := Success(JNull);
    } else {
      result := Outcome(answer);
    }
  }

  // ----------------------------------------------------------- properties

  /** A GET, or a request with no method, never carries the CSRF header. */
  lemma NoCsrfWithoutStateChange(options: RequestInit, cookie: string)
    requires options.httpMethod.None? || options.httpMethod == Some("GET")
    ensures CsrfHeader !in RequestHeaders(options, cookie)
  {
  }

  /** The last caller header with a given name is sent under its lower-case name. */
  lemma CallerHeaderSent(options: RequestInit, cookie: string, i: nat)
    requires i < |options.headers|
    requires forall j :: i < j < |options.headers| ==> Lower(options.headers[j].0) != Lower(options.headers[i].0)
    ensures RequestHeaders(options, cookie)[Lower(options.headers[i].0)] == options.headers[i].1
  {
    var ps := options.headers;
    AssignLastWins(map[ContentType := JsonContentType], ps, i);
    LowerNeverCapitalised(ps[i].0, CsrfHeader);
  }

  /** A caller's "Content-Type" is stored as "content-type" beside the default
      one, not in its place. */
  lemma CallerContentTypeAdded(options: RequestInit, cookie: string, value: string)
    requires options.headers == [("Content-Type", value)]
    ensures RequestHeaders(options, cookie)[ContentType] == JsonContentType
    ensures "content-type" in RequestHeaders(options, cookie)
    ensures RequestHeaders(options, cookie)["content-type"] == value
  {
    assert Lower("Content-Type") == "content-type";
    assert Lower(options.headers[0].0) in HeaderNames(options.headers);
    CallerHeaderSent(options, cookie, 0);
  }

  /** A body that is not JSON gives the generic message with the status code. */
  lemma UnparseableErrorBody(response: Response)
    requires response.body.Unparseable?
    ensures ErrorMessage(response) == "HTTP error " + Decimal(response.status)
  {
    assert Values(JObj([])) == [];
  }

  /** A non-empty string `detail` is the message, whatever else the body holds. */
  lemma DetailFirst(response: Response, fields: seq<(string, Json)>, detail: string)
    requires response.body == Parsed(JObj(fields))
    requires Lookup(fields, "detail") == Some(JStr(detail)) && detail != ""
    ensures ErrorMessage(response) == detail
  {
  }

  /** A field-keyed validation error without `detail` shows all its messages
      joined by ", ", or the generic message when that text is empty. */
  lemma FieldErrorsShown(response: Response, errors: seq<(string, seq<string>)>)
    requires response.body == Parsed(FieldErrorsBody(errors))
    requires forall i :: 0 <= i < |errors| ==> errors[i].0 != "detail"
    ensures var text := Join(AllMessages(errors), ", ");
      ErrorMessage(response) == if text == "" then HttpErrorFallback(response.status) else text
  {
    FieldErrorsMessage(errors, HttpErrorFallback(response.status));
  }
}

/** The shortening form of frontend/js/pages/Home.tsx: the form state, the
    payload of the `shorten` POST, and how the answer sets `shortUrl`, the
    inputs and the error line. What `fetch` answers is an input; the success
    toast is returned rather than shown. */
module HomePage {
  import opened Wrappers
  import opened Text
  import opened Json
  import opened Cookies
  import opened ApiRequest
  import opened Toasts
  import opened ShortUrlModel
  import opened ShortUrlSerializers

  const ShortenApiUrl := "/api/short-urls/shorten/"
  const ShortenFailedMessage := "Failed to shorten URL"
  const ShortenedToast := ToastRequest(Some("Success!"), Some("URL shortened successfully"), None)

  /** `JSON.stringify({original_url: url, custom_code: customCode || undefined})`
      as the server reads it: an empty code leaves the key out. */
  function Payload(url: string, customCode: string): (p: Json)
    ensures p.JObj? && |p.fields| == (if customCode == "" then 1 else 2)
    ensures Lookup(p.fields, "original_url") == Some(JStr(url))
    ensures Lookup(p.fields, "custom_code").Some? <==> customCode != ""
    ensures customCode != "" ==> Lookup(p.fields, "custom_code") == Some(JStr(customCode))
    ensures Lookup(p.fields, "expires_at").None?
  {
    if customCode == "" then JObj([("original_url", JStr(url))])
    else JObj([("original_url", JStr(url)), ("custom_code", JStr(customCode))])
  }

  /** The options of the `shorten` fetch. */
  function ShortenFetch(url: string, customCode: string, cookie: string): (init: FetchInit)
    ensures init.httpMethod == Some("POST") && init.credentials == "include"
    ensures init.headers == map[ContentType := JsonContentType, CsrfHeader := GetCookie(cookie, CsrfCookieName).GetOr("")]
    ensures init.body == Some(Payload(url, customCode))
  {
    FetchInit(Some("POST"), map[ContentType := JsonContentType, CsrfHeader := GetCookie(cookie, CsrfCookieName).GetOr("")],
              Some(Payload(url, customCode)), "include")
  }

  /** The new `shortUrl`, or the message the `catch` stores in `error`. A
      non-ok answer throws its `detail`, its flattened values or the fallback;
      an unreadable body throws its SyntaxError, a `null` body a TypeError. */
  function SubmitResult(answer: Fetched): (r: Result<Json, string>)
    ensures r.Success? <==> answer.Received? && answer.response.Ok() && answer.response.body.Parsed?
    ensures r.Success? ==> r.value == answer.response.body.json
    ensures answer.NetworkFailure? ==> r == Failure(answer.message)
    ensures answer.Received? && answer.response.body.Unparseable? ==> r == Failure(answer.response.body.syntaxError)
    ensures answer.Received? && !answer.response.Ok() && answer.response.body.Parsed? ==>
      var e := ErrorText(answer.response.body.json, ShortenFailedMessage);
      r == Failure(if e.Success? then e.value else e.error)
  {
    match answer
    case NetworkFailure(m) => Failure(m)
    case Received(resp) =>
      match resp.body
      case Unparseable(e) => Failure(e)
      case Parsed(data) =>
        if resp.Ok() then Success(data)
        else match ErrorText(data, ShortenFailedMessage)
          case Success(m) => Failure(m)
          case Failure(t) => Failure(t)
  }

  /** The page's state. `shortUrl` is the last created record, `null` at first. */
  class HomeForm {
    var url: string
    var customCode: string
    var shortUrl: Json
    var isLoading: bool
    var error: string

    constructor ()
      ensures url == "" && customCode == "" && shortUrl == JNull && !isLoading && error == ""
    {
      url, customCode, shortUrl, isLoading, error := "", "", JNull, false, "";
    }

    /** The URL input's `onChange`. */
    method SetUrl(value: string)
      modifies this
      ensures url == value
      ensures customCode == old(customCode) && shortUrl == old(shortUrl) && isLoading == old(isLoading) && error == old(error)
    {
      url := value;
    }

    /** The custom-code input's `onChange`. */
    method SetCustomCode(value: string)
      modifies this
      ensures customCode == value
      ensures url == old(url) && shortUrl == old(shortUrl) && isLoading == old(isLoading) && error == old(error)
    {
      customCode := value;
    }

    /** `handleSubmit`: clears the error, posts the form, then either keeps the
        new record and empties both inputs, or stores the error and keeps
        everything else. Loading ends on both paths. */
    method HandleSubmit(cookie: string, answer: Fetched) returns (sent: FetchInit, toast: Option<ToastRequest>)
      modifies this
      ensures sent == ShortenFetch(old(url), old(customCode), cookie)
      ensures !isLoading
      ensures SubmitResult(answer).Success? ==>
        && shortUrl == SubmitResult(answer).value && url == "" && customCode == "" && error == ""
        && toast == Some(ShortenedToast)
      ensures SubmitResult(answer).Failure? ==>
        && error == SubmitResult(answer).error && toast.None?
        && shortUrl == old(shortUrl) && url == old(url) && customCode == old(customCode)
    {
      sent := ShortenFetch(url, customCode, cookie);
      error := "";
      isLoading := true;
      toast := Settle(SubmitResult(answer));
      isLoading := false;
    }

    /** The rest of the `try` block and its `catch`: the new record empties
        both inputs and toasts; a thrown message goes to the error line. */
    method Settle(result: Result<Json, string>) returns (toast: Option<ToastRequest>)
      modifies this
      ensures isLoading == old(isLoading)
      ensures result.Success? ==>
        && shortUrl == result.value && url == "" && customCode == "" && error == old(error)
        && toast == Some(ShortenedToast)
      ensures result.Failure? ==>
        && error == result.error && toast.None?
        && shortUrl == old(shortUrl) && url == old(url) && customCode == old(customCode)
    {
      match result {
        case Success(data) =>
          shortUrl := data;
          url, customCode := "", "";
          toast := Some(ShortenedToast);
        case Failure(m) =>
          error := m;
          toast := None;
      }
    }
  }

  // ----------------------------------------------------------- properties

  /** What the server reads from the payload: the URL, the code only when one
      was typed, and no expiry. */
  lemma PayloadFields(url: string, customCode: string, existing: set<string>, parseDateTime: string -> Option<int>)
    ensures customCode == "" ==> CustomCodeField(Lookup(Payload(url, customCode).fields, "custom_code"), existing) == Success(None)
    ensures ExpiresAtField(Lookup(Payload(url, customCode).fields, "expires_at"), parseDateTime) == Success(None)
  {
  }

  /** Submitting a code that is already in use, with an acceptable URL, puts the
      serializer's "already taken" message in the page's error line. */
  lemma TakenCodeShown(url: string, code: string, existing: set<string>,
                       isValidUrl: string -> bool, parseDateTime: string -> Option<int>, text: string)
    requires code != "" && code == Trim(code) && |code| <= MaxCodeLength && '\0' !in code && code in existing
    requires OriginalUrlField(Some(JStr(url)), isValidUrl).Success?
    ensures var v := ValidateCreate(Payload(url, code).fields, existing, isValidUrl, parseDateTime);
      && v.Failure?
      && SubmitResult(Received(Response(400, false, Parsed(FieldErrorsBody(v.error)), text))) == Failure(TakenMessage)
  {
    TakenCodePayload(url, code, existing, isValidUrl, parseDateTime);
    TakenMessageShown(text);
  }

  lemma TakenCodePayload(url: string, code: string, existing: set<string>,
                         isValidUrl: string -> bool, parseDateTime: string -> Option<int>)
    requires code != "" && code == Trim(code) && |code| <= MaxCodeLength && '\0' !in code && code in existing
    requires OriginalUrlField(Some(JStr(url)), isValidUrl).Success?
    ensures ValidateCreate(Payload(url, code).fields, existing, isValidUrl, parseDateTime)
      == Failure([("custom_code", [TakenMessage])])
  {
    var fields := Payload(url, code).fields;
    assert Lookup(fields, "custom_code") == Some(JStr(code));
    assert Lookup(fields, "original_url") == Some(JStr(url));
    TakenCodeReported(fields, existing, isValidUrl, parseDateTime, code);
  }

  lemma TakenMessageShown(text: string)
    ensures SubmitResult(Received(Response(400, false, Parsed(FieldErrorsBody([("custom_code", [TakenMessage])])), text)))
      == Failure(TakenMessage)
  {
    var errors := [("custom_code", [TakenMessage])];
    assert AllMessages(errors) == [TakenMessage] by {
      assert errors[1..] == [];
    }
    assert Join(AllMessages(errors), ", ") == TakenMessage;
    FieldErrorsMessage(errors, ShortenFailedMessage);
  }
}

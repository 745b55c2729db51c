/** The sign-up form of frontend/js/pages/Signup.tsx: the form state, the
    password check before anything is sent, the POST to the sign-up endpoint
    and the toast each answer ends in. The toast is returned rather than shown;
    what `fetch` answers is an input. */
module SignupPage {
  import opened Wrappers
  import opened Text
  import opened Json
  import opened Cookies
  import opened ApiRequest
  import opened Toasts

  const SignupApiUrl := "/api/auth/signup/"
  const LoginPath := "/login"
  const MismatchMessage := "Passwords do not match."
  const CreateFailedMessage := "Failed to create account."
  const RequestFailedMessage := "Failed to create account. Please try again."

  /** Thrown by `Object.entries(null)` (the V8 wording). */
  const NullEntriesError := "Cannot convert undefined or null to object"

  const SuccessToast := ToastRequest(Some("Success!"), Some("Your account has been created. You can now login."), None)

  function ErrorToast(description: string): ToastRequest {
    ToastRequest(Some("Error"), Some(description), Some(Destructive))
  }

  // -------------------------------------------------------- error flattening

  /** What one entry's value adds to `errorMessages`: an array is spread, a
      string pushed, anything else dropped. */
  function Contribution(v: Json): seq<Json> {
    match v
    case JArr(xs) => xs
    case JStr(_) => [v]
    case _ => []
  }

  /** `errorMessages` after the `forEach` over `entries`. */
  function Collected(entries: seq<(string, Json)>): seq<Json>
    decreases |entries|
  {
    if entries == [] then []
    else Collected(entries[..|entries| - 1]) + Contribution(entries[|entries| - 1].1)
  }

  /** Collecting distributes over concatenation: each entry contributes on its own, in order. */
  lemma {:induction false} CollectedAppend(a: seq<(string, Json)>, b: seq<(string, Json)>)
    decreases |b|
    ensures Collected(a + b) == Collected(a) + Collected(b)
  {
    if b == [] {
      assert a + b == a;
    } else {
      var init := b[..|b| - 1];
      assert (a + b)[..|a + b| - 1] == a + init;
      assert (a + b)[|a + b| - 1] == b[|b| - 1];
      CollectedAppend(a, init);
    }
  }

  /** Only arrays and strings contribute: a body without either collects nothing. */
  lemma {:induction false} CollectedDropsOthers(entries: seq<(string, Json)>)
    requires forall i :: 0 <= i < |entries| ==> !entries[i].1.JArr? && !entries[i].1.JStr?
    ensures Collected(entries) == []
  {
    if entries != [] {
      CollectedDropsOthers(entries[..|entries| - 1]);
    }
  }

  /** A field-keyed validation error collects every field's messages, field by field. */
  lemma {:induction false} CollectedFieldErrors(errors: seq<(string, seq<string>)>)
    ensures Collected(FieldErrorsBody(errors).fields) == Strs(AllMessages(errors))
  {
    if errors != [] {
      var fs := FieldErrorsBody(errors).fields;
      var rest := FieldErrorsBody(errors[1..]).fields;
      assert fs[1..] == rest;
      assert fs == [fs[0]] + rest;
      CollectedAppend([fs[0]], rest);
      assert Collected([fs[0]]) == Strs(errors[0].1) by {
        assert [fs[0]][..0] == [];
      }
      CollectedFieldErrors(errors[1..]);
      StrsAppend(errors[0].1, AllMessages(errors[1..]));
    }
  }

  /** The `forEach` over `Object.entries(data)`, pushing into `errorMessages`. */
  method CollectErrors(entries: seq<(string, Json)>) returns (messages: seq<Json>)
    ensures messages == Collected(entries)
  {
    messages := [];
    for i := 0 to |entries|
      invariant messages == Collected(entries[..i])
    {
      assert entries[..i + 1][..i] == entries[..i];
      var v := entries[i].1;
      if v.JArr? {
        messages := messages + v.items;
      } else if v.JStr? {
        messages := messages + [v];
      }
    }
    assert entries[..|entries|] == entries;
  }

  /** `errorMessages.join(' ') || 'Failed to create account.'` for a non-null body. */
  function FailureDescription(data: Json): (d: string)
    ensures d != ""
    ensures var text := JoinValues(Collected(Entries(data)), " ");
      d == (if text == "" then CreateFailedMessage else text)
  {
    var text := JoinValues(Collected(Entries(data)), " ");
    if text == "" then CreateFailedMessage else text
  }

  /** `error.message || 'Failed to create account. Please try again.'`. */
  function CaughtDescription(message: string): (d: string)
    ensures d != ""
    ensures message != "" ==> d == message
    ensures message == "" ==> d == RequestFailedMessage
  {
    if message == "" then RequestFailedMessage else message
  }

  // ---------------------------------------------------------- the request

  /** The options of the sign-up `fetch`; no `credentials` means the browser's
      "same-origin". */
  function SignupFetch(formData: map<string, string>, cookie: string): (init: FetchInit)
    requires "username" in formData && "email" in formData && "password1" in formData && "password2" in formData
    ensures init.httpMethod == Some("POST") && init.credentials == "same-origin"
    ensures init.headers == map[ContentType := JsonContentType, CsrfHeader := SignupCsrfToken(cookie)]
    ensures init.body == Some(JObj([("username", JStr(formData["username"])), ("email", JStr(formData["email"])),
                                    ("password1", JStr(formData["password1"])), ("password2", JStr(formData["password2"]))]))
  {
    FetchInit(Some("POST"), map[ContentType := JsonContentType, CsrfHeader := SignupCsrfToken(cookie)],
              Some(JObj([("username", JStr(formData["username"])), ("email", JStr(formData["email"])),
                         ("password1", JStr(formData["password1"])), ("password2", JStr(formData["password2"]))])),
              "same-origin")
  }

  /** The toast a sent request ends in, and where the page goes. */
  datatype Settled = Settled(toast: ToastRequest, navigation: Option<string>)

  /** How a sent request ends: the body is read as JSON before `ok` is looked
      at, so an unreadable body is an error even on a 2xx answer. */
  function Settle(answer: Fetched): (s: Settled)
    ensures s.navigation.Some? <==> answer.Received? && answer.response.Ok() && answer.response.body.Parsed?
    ensures s.navigation.Some? ==> s.navigation.value == LoginPath && s.toast == SuccessToast
    ensures s.navigation.None? ==>
      && s.toast.title == Some("Error") && s.toast.variant == Some(Destructive)
      && s.toast.description.Some? && s.toast.description.value != ""
    ensures answer.NetworkFailure? ==> s.toast == ErrorToast(CaughtDescription(answer.message))
    ensures answer.Received? && answer.response.body.Unparseable? ==>
      s.toast == ErrorToast(CaughtDescription(answer.response.body.syntaxError))
    ensures answer.Received? && !answer.response.Ok() && answer.response.body == Parsed(JNull) ==>
      s.toast == ErrorToast(NullEntriesError)
    ensures answer.Received? && !answer.response.Ok() && answer.response.body.Parsed? && answer.response.body.json != JNull ==>
      s.toast == ErrorToast(FailureDescription(answer.response.body.json))
  {
    match answer
    case NetworkFailure(m) => Settled(ErrorToast(CaughtDescription(m)), None)
    case Received(r) =>
      match r.body
      case Unparseable(e) => Settled(ErrorToast(CaughtDescription(e)), None)
      case Parsed(data) =>
        if r.Ok() then Settled(SuccessToast, Some(LoginPath))
        else if data.JNull? then Settled(ErrorToast(CaughtDescription(NullEntriesError)), None)
        else Settled(ErrorToast(FailureDescription(data)), None)
  }

  // ------------------------------------------------------------ the page

  /** The page's state: `loading`, `showComingSoon` and `formData`. */
  class SignupForm {
    var loading: bool
    var showComingSoon: bool
    var formData: map<string, string>

    ghost predicate Valid()
      reads this
    {
      "username" in formData && "email" in formData && "password1" in formData && "password2" in formData
    }

    constructor ()
      ensures !loading && !showComingSoon && Valid()
      ensures formData == map["username" := "", "email" := "", "password1" := "", "password2" := ""]
    {
      loading := false;
      showComingSoon := false;
      formData := map["username" := "", "email" := "", "password1" := "", "password2" := ""];
    }

    /** `handleChange`: the input's id names the field it sets. */
    method HandleChange(id: string, value: string)
      requires Valid()
      modifies this
      ensures formData == old(formData)[id := value] && Valid()
      ensures loading == old(loading) && showComingSoon == old(showComingSoon)
    {
      formData := formData[id := value];
    }

    /** `handleSubmit`: unequal passwords stop before any request; otherwise
        the POST is sent and its answer settles the toast and navigation.
        Every path ends with `loading` false. */
    method HandleSubmit(cookie: string, answer: Fetched)
      returns (sent: Option<FetchInit>, toast: ToastRequest, navigation: Option<string>)
      requires Valid()
      modifies this
      ensures formData == old(formData) && showComingSoon == old(showComingSoon) && !loading && Valid()
      ensures sent.None? <==> formData["password1"] != formData["password2"]
      ensures sent.None? ==> toast == ErrorToast(MismatchMessage) && navigation.None?
      ensures sent.Some? ==> sent.value == SignupFetch(formData, cookie) && Settled(toast, navigation) == Settle(answer)
    {
      loading := true;
      if formData["password1"] != formData["password2"] {
        toast := ErrorToast(MismatchMessage);
        sent, navigation := None, None;
        loading := false;
        return;
      }
      sent := Some(SignupFetch(formData, cookie));
      navigation := None;
      match answer {
      case NetworkFailure(m) =>
        toast := ErrorToast(CaughtDescription(m));
      case Received(r) =>
        match r.body
        case Unparseable(e) =>
          toast := ErrorToast(CaughtDescription(e));
        case Parsed(data) =>
          if r.Ok() {
            toast := SuccessToast;
            navigation := Some(LoginPath);
          } else if data.JNull? {
            toast := ErrorToast(CaughtDescription(NullEntriesError));
          } else {
            var messages := CollectErrors(Entries(data));
            var text := JoinValues(messages, " ");
            toast := ErrorToast(if text == "" then CreateFailedMessage else text);
          }
      }
      loading := false;
    }
  }

  // ----------------------------------------------------------- properties

  /** A rejected sign-up with field-keyed errors lists all their messages,
      separated by single spaces, or says the account could not be created. */
  lemma FieldErrorsToast(response: Response, errors: seq<(string, seq<string>)>)
    requires !response.Ok() && response.body == Parsed(FieldErrorsBody(errors))
    ensures var text := Join(AllMessages(errors), " ");
      Settle(Received(response)).toast == ErrorToast(if text == "" then CreateFailedMessage else text)
  {
    var ms := AllMessages(errors);
    var data := FieldErrorsBody(errors);
    assert Entries(data) == data.fields;
    CollectedFieldErrors(errors);
    var xs := Collected(Entries(data));
    assert xs == Strs(ms);
    JoinValuesOfStrs(ms, " ");
  }

  /** A body whose values are neither arrays nor strings gives the fallback. */
  lemma OpaqueErrorBody(response: Response, fields: seq<(string, Json)>)
    requires !response.Ok() && response.body == Parsed(JObj(fields))
    requires forall i :: 0 <= i < |fields| ==> !fields[i].1.JArr? && !fields[i].1.JStr?
    ensures Settle(Received(response)).toast == ErrorToast(CreateFailedMessage)
  {
    CollectedDropsOthers(fields);
  }
}

/** The route error page of frontend/js/components/ErrorBoundary.tsx: which
    message, title and description it shows for the value the router caught. */
module ErrorBoundary {
  import opened Wrappers
  import opened Text
  import opened Json

  /** What `useRouteError()` can return: a route error response (status,
      status text and payload), an `Error`, a string, or any other value. */
  datatype RouteError =
    | RouteErrorResponse(status: int, statusText: string, data: Json)
    | ErrorInstance(message: string)
    | StringError(text: string)
    | OtherValue(value: Json)

  const DefaultResponseMessage := "An error occurred"
  const UnknownErrorMessage := "Unknown error"
  const GenericTitle := "Oops! Something went wrong"
  const NotFoundDescription := "The page you are looking for does not exist."
  const GenericDescription := "An unexpected error has occurred."

  /** `error.statusText || error.data?.message || 'An error occurred'`. */
  function ResponseMessage(statusText: string, data: Json): (m: string)
    ensures statusText != "" ==> m == statusText
    ensures statusText == "" && Get(data, "message").Some? && Truthy(Get(data, "message").value) ==>
      m == ToJsString(Get(data, "message").value)
    ensures statusText == "" && (Get(data, "message").None? || !Truthy(Get(data, "message").value)) ==>
      m == DefaultResponseMessage
  {
    if statusText != "" then statusText
    else match Get(data, "message")
      case Some(v) => if Truthy(v) then ToJsString(v) else DefaultResponseMessage
      case None => DefaultResponseMessage
  }

  /** The two locals the if/else chain assigns. */
  datatype Caught = Caught(message: string, status: Option<int>)

  function Classify(error: RouteError): (c: Caught)
    ensures c.status.Some? <==> error.RouteErrorResponse?
    ensures error.RouteErrorResponse? ==> c == Caught(ResponseMessage(error.statusText, error.data), Some(error.status))
    ensures error.ErrorInstance? ==> c.message == error.message
    ensures error.StringError? ==> c.message == error.text
    ensures error.OtherValue? ==> c.message == UnknownErrorMessage
  {
    match error
    case RouteErrorResponse(s, t, d) => Caught(ResponseMessage(t, d), Some(s))
    case ErrorInstance(m) => Caught(m, None)
    case StringError(t) => Caught(t, None)
    case OtherValue(_) => Caught(UnknownErrorMessage, None)
  }

  /** What the page shows. */
  datatype Page = Page(title: string, description: string, message: string)

  /** The rendered card: "Error <status>" for a truthy status, the not-found
      description for 404 only. */
  function Render(error: RouteError): (p: Page)
    ensures p.message == Classify(error).message
    ensures error.RouteErrorResponse? && error.status != 0 ==> p.title == "Error " + IntToString(error.status)
    ensures !(error.RouteErrorResponse? && error.status != 0) ==> p.title == GenericTitle
    ensures p.description == NotFoundDescription <==> error.RouteErrorResponse? && error.status == 404
    ensures p.description != NotFoundDescription ==> p.description == GenericDescription
  {
    var c := Classify(error);
    var title := if c.status.Some? && c.status.value != 0 then "Error " + IntToString(c.status.value) else GenericTitle;
    var description := if c.status == Some(404) then NotFoundDescription else GenericDescription;
    Page(title, description, c.message)
  }

  /** The status title never coincides with the generic one, so the title
      tells a route error response with a status apart from every other case. */
  lemma TitleShowsStatus(error: RouteError)
    ensures Render(error).title != GenericTitle <==> error.RouteErrorResponse? && error.status != 0
  {
    if error.RouteErrorResponse? && error.status != 0 {
      assert Render(error).title[0] == 'E' != GenericTitle[0];
    }
  }

  /** A 404 response reads "Error 404" with the not-found description. */
  lemma NotFoundPage(statusText: string, data: Json)
    ensures Render(RouteErrorResponse(404, statusText, data)) ==
      Page("Error 404", NotFoundDescription, ResponseMessage(statusText, data))
  {
    assert Decimal(404) == "404" by {
      assert Decimal(4) == "4" && Decimal(40) == "40";
    }
  }

  /** A thrown `Error` with an empty message shows nothing as its message,
      unlike a response without status text, which falls back. */
  lemma EmptyMessages(data: Json, status: int)
    requires Get(data, "message").None?
    ensures Render(ErrorInstance("")).message == ""
    ensures Render(RouteErrorResponse(status, "", data)).message == DefaultResponseMessage
  {
  }
}

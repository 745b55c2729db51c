# URL shortener: a Dafny model

This project models the core of a Django + React URL shortener:

- The **backend** is the `ShortURL` record. Creating one assigns a random code when no custom code is given. Following the public short URL counts a click and redirects, unless the URL has expired. The create serializer validates the body and returns field-keyed errors. The view set decides who sees which rows, who may call which action, and what the `shorten`, `stats` and redirect endpoints answer.
- The **browser client** has these parts:
  - the request helper, which adds the JSON content type, the caller's headers and the CSRF token, and turns error bodies into messages;
  - the query keys and the cache effects of the create, update and delete hooks;
  - the session provider, with its sign-in, sign-up and log-out actions;
  - the numbered toast queue;
  - the sign-up and home forms;
  - the route error page.

Each source file is one module, named after what it holds:
- `ShortUrlModel`, `ShortUrlSerializers` and `ShortUrlViews` are the backend.
- `ApiRequest`, `QueryCache`, `Auth`, `Toasts`, `SignupPage`, `HomePage` and `ErrorBoundary` are the client.
- Four shared modules support them:
  - `Wrappers` holds `Option` and `Result`.
  - `Text` holds JavaScript and Python string operations.
  - `Json` holds parsed JSON values, with JavaScript truthiness, `String()`, `Object.values`/`entries`, `flat` and `join`.
  - `Cookies` holds the `getCookie` helper, of which the source has three copies, and the sign-up page's own cookie reading.

How state is modelled:
- **Classes.** Objects whose state the source updates step by step are classes with `modifies` clauses on their methods:
  - the database table;
  - the `QueryClient`;
  - the `AuthProvider`;
  - the toast counter and provider;
  - the two form pages.
- **Loops.** The source's loops are methods with `for`/`while` loops, proved against specification functions:
  - the header-merge loop;
  - the code-assignment loop;
  - code generation;
  - the error-flattening `forEach`.
- **Parameters.** These are inputs to the model:
  - what `fetch` answers (a `Fetched` value);
  - the cookie string;
  - the clock (`now`);
  - the random draws of `generate_short_code`;
  - `settings.DEBUG`;
  - the current `Site`;
  - Django's URL validator and date-time parser.

Where the code departs from the documented API contract, the model follows the code:
- **Log-in and sign-up** in the session provider post form data and accept a redirect as success.
- **An unreadable error body:**
  - The home page propagates the parse error for an unreadable error body.
  - Only the shared request helper falls back to "HTTP error <status>".
- **The sign-up page** posts to its own endpoint and then navigates to `/login` without signing in.

One behaviour of the code looks unintended. It is listed under "## Findings". The model keeps that behaviour as written and models the correction separately, under its own names; the correction does not replace the code anywhere.

## Model

| member | source | states |
|---|---|---|
| Cookies.GetCookie | frontend/js/hooks/api/utils.ts:8-13 | a found value is non-empty and holds no ';'; a name whose `"; name="` does not occur gives null (the copies at frontend/js/contexts/AuthContext.tsx:130-135 and frontend/js/pages/Home.tsx:187-192 are the same function) |
| Cookies.GetCookieByIndex | frontend/js/hooks/api/utils.ts:9-12 | the split-based lookup equals the index-based reading: the only `"; name="`, then the value up to the next ';', with "" as null |
| Cookies.GetCookieNullOnDuplicate | frontend/js/hooks/api/utils.ts:11 | a name that occurs twice gives three or more parts and therefore null |
| Cookies.GetCookieIgnoresLongerName | frontend/js/hooks/api/utils.ts:9-10 | a single cookie is read under a name only when it starts with that name and '=': a longer name ending in it does not match, because of the leading "; " |
| Cookies.CsrfIgnoresLongerName | frontend/js/hooks/api/utils.ts:9-10 | `xcsrftoken=abc` gives no `csrftoken` |
| Cookies.FindRow | frontend/js/pages/Signup.tsx:57-59 | `find` stops at the first row with the prefix, or finds none |
| Cookies.CsrfRowSplit | frontend/js/pages/Signup.tsx:60 | the second '='-part of a `csrftoken=` row is its value up to the next '=' |
| Cookies.SignupCsrfToken | frontend/js/pages/Signup.tsx:57-60 | the token is the first `csrftoken=` row's value up to the next '=', never contains '=', and is "" without such a row |
| Json.Entries | frontend/js/pages/Signup.tsx:81 | `Object.entries`: an object's fields in order; an array's elements and a string's characters, each under its decimal index; nothing for booleans and numbers |
| Json.Values | frontend/js/hooks/api/utils.ts:52 | `Object.values` is the entries' values, in order |
| Json.Flat | frontend/js/hooks/api/utils.ts:52 | `flat()` changes nothing when no element is an array |
| Json.FlatOfFieldErrors | frontend/js/hooks/api/utils.ts:52 | flattening a field-keyed error object lists every message, field by field |
| Json.ErrorText | frontend/js/hooks/api/utils.ts:50-53 | the message is a truthy `detail`; otherwise the flattened values joined by ", "; otherwise the fallback; a null body throws the TypeError of `null.detail` (the same chain is used by the home page, with the fallback 'Failed to shorten URL') |
| Json.FieldErrorsMessage | frontend/js/hooks/api/utils.ts:50-53 | a field-keyed error body without `detail` gives all its messages joined by ", ", or the fallback when that text is empty |
| Text.Lower | frontend/js/hooks/api/utils.ts:28 | a `Headers` object stores each name in ASCII lower case, character by character (the same lowering gives `urlsplit`'s scheme) |
| ApiRequest.LowerNeverCapitalised | frontend/js/hooks/api/utils.ts:22-31 | a stored caller header name never equals a capitalised default name |
| ApiRequest.Assign | frontend/js/hooks/api/utils.ts:27-31 | merging adds exactly the caller's lower-cased names and leaves every header it does not name unchanged |
| ApiRequest.AssignLastWins | frontend/js/hooks/api/utils.ts:29-31 | the last caller header with a given name sets that header's value |
| ApiRequest.CsrfToken | frontend/js/hooks/api/utils.ts:35-40 | a token is added iff the method is POST, PUT, PATCH or DELETE and the cookie holds one |
| ApiRequest.RequestHeaders | frontend/js/hooks/api/utils.ts:22-40 | the header names are the JSON content type, the caller's names and X-CSRFToken when there is a token; the content type is always JSON; the token is the cookie's value |
| ApiRequest.PrepareFetch | frontend/js/hooks/api/utils.ts:22-46 | the header-building loop yields the options `{...options, headers, credentials: 'include'}` with the headers above |
| ApiRequest.Outcome | frontend/js/hooks/api/utils.ts:48-57 | as the code is written: a network error rejects with its message; a non-ok answer rejects with the error message; an ok answer resolves with its body, or rejects when the body does not parse |
| ApiRequest.NoContentRejected | frontend/js/hooks/api/utils.ts:57 | as the code is written, a 2xx answer with an empty body rejects with the JSON parse error |
| ApiRequest.IntendedOutcome | frontend/js/hooks/api/utils.ts:48-57 | corrected: a 2xx answer with an empty body resolves to no value; every other answer settles as the code does |
| ApiRequest.IntendedOutcomeOnlyFixesEmptySuccess | frontend/js/hooks/api/utils.ts:48-57 | the correction keeps every success and every error message of the code, and differs exactly on empty 2xx answers |
| ApiRequest.Request | frontend/js/hooks/api/utils.ts:18-58 | `apiRequest` as written: sends the prepared options and settles as `Outcome`, so an empty 2xx body rejects |
| ApiRequest.RequestIntended | frontend/js/hooks/api/utils.ts:18-58 | corrected: the same options, settling as `IntendedOutcome`, so an empty 2xx body resolves to no value |
| ApiRequest.NoCsrfWithoutStateChange | frontend/js/hooks/api/utils.ts:35 | a GET, or a request without a method, never carries X-CSRFToken |
| ApiRequest.CallerHeaderSent | frontend/js/hooks/api/utils.ts:27-31 | a caller header not overridden by a later one is sent under its lower-case name with its value |
| ApiRequest.CallerContentTypeAdded | frontend/js/hooks/api/utils.ts:22-31 | a caller's "Content-Type" arrives as "content-type" beside the JSON default, not in its place |
| ApiRequest.UnparseableErrorBody | frontend/js/hooks/api/utils.ts:49-53 | an unreadable error body gives "HTTP error <status>" |
| ApiRequest.DetailFirst | frontend/js/hooks/api/utils.ts:50-51 | a non-empty string `detail` is the message, whatever else the body holds |
| ApiRequest.HttpErrorFallback | frontend/js/hooks/api/utils.ts:53 | the fallback is "HTTP error " followed by the status's digits, from which the status reads back |
| ApiRequest.ErrorMessage | frontend/js/hooks/api/utils.ts:48-54 | an unreadable error body is read as `{}` and gives the "HTTP error <status>" fallback; a `null` body throws the TypeError of `null.detail` |
| ApiRequest.FieldErrorsShown | frontend/js/hooks/api/utils.ts:50-53 | a field-keyed error body lists all its messages joined by ", ", or "HTTP error <status>" when that text is empty |
| QueryCache.Lists | frontend/js/hooks/api/useShortUrls.ts:14 | `lists()` extends `all` by 'list' |
| QueryCache.List | frontend/js/hooks/api/useShortUrls.ts:15 | `list(filters)` extends `lists()` by the filters |
| QueryCache.Details | frontend/js/hooks/api/useShortUrls.ts:16 | `details()` extends `all` by 'detail' |
| QueryCache.Detail | frontend/js/hooks/api/useShortUrls.ts:17 | `detail(id)` extends `details()` by the id |
| QueryCache.Stats | frontend/js/hooks/api/useShortUrls.ts:18 | `stats(id)` sits directly under `all`, as 'stats' and then the id |
| QueryCache.DetailInjective | frontend/js/hooks/api/useShortUrls.ts:17 | two ids have the same detail key iff they are equal |
| QueryCache.StatsInjective | frontend/js/hooks/api/useShortUrls.ts:18 | two ids have the same stats key iff they are equal |
| QueryCache.KeysDisjoint | frontend/js/hooks/api/useShortUrls.ts:12-19 | detail and stats keys are not under `lists()`; stats keys are not under `details()` or any detail key; a detail key is under another only for the same id |
| QueryCache.Invalidated | frontend/js/hooks/api/useShortUrls.ts:74 | invalidation keeps every entry and its data, and marks stale exactly the entries under the prefix |
| QueryCache.Removed | frontend/js/hooks/api/useShortUrls.ts:115 | removal drops exactly the entries under the prefix and keeps the rest unchanged |
| QueryCache.WithData | frontend/js/hooks/api/useShortUrls.ts:94 | `setQueryData` stores fresh data under the key and changes no other entry |
| QueryCache.InvalidateIdempotent | frontend/js/hooks/api/useShortUrls.ts:74 | invalidating twice is the same as invalidating once |
| QueryCache.AfterCreate | frontend/js/hooks/api/useShortUrls.ts:72-75 | definition: the create's `onSuccess` invalidates `lists()`; its effects are stated by CreateEffects |
| QueryCache.AfterUpdate | frontend/js/hooks/api/useShortUrls.ts:92-97 | definition: the update's `onSuccess` sets `detail(id)`, then invalidates `lists()`; its effects are stated by UpdateEffects |
| QueryCache.AfterDelete | frontend/js/hooks/api/useShortUrls.ts:113-118 | definition: the delete's `onSuccess` removes `detail(id)`, then invalidates `lists()`; its effects are stated by DeleteEffects |
| QueryCache.CreateEffects | frontend/js/hooks/api/useShortUrls.ts:72-75 | a create marks stale exactly the list entries and leaves every detail and stats entry as it was |
| QueryCache.ListQueryInvalidated | frontend/js/hooks/api/useShortUrls.ts:62-120 | every successful mutation marks the list query of `useShortUrls` stale |
| QueryCache.UpdateEffects | frontend/js/hooks/api/useShortUrls.ts:92-97 | an update stores the answer under `detail(id)`, marks the lists stale and leaves other details and all stats entries unchanged |
| QueryCache.DeleteEffects | frontend/js/hooks/api/useShortUrls.ts:113-118 | a delete drops exactly `detail(id)`, keeps other details and all stats entries, and marks the lists stale |
| QueryCache.ItemUrl | frontend/js/hooks/api/useShortUrls.ts:40 | definition: `/api/short-urls/${id}/` |
| QueryCache.ListCall | frontend/js/hooks/api/useShortUrls.ts:27-29 | definition: a GET of `/api/short-urls/` with no options |
| QueryCache.DetailCall | frontend/js/hooks/api/useShortUrls.ts:39-41 | definition: a GET of the item URL with no options |
| QueryCache.StatsCall | frontend/js/hooks/api/useShortUrls.ts:52-54 | definition: a GET of the item URL followed by `stats/` |
| QueryCache.CreateCall | frontend/js/hooks/api/useShortUrls.ts:66-71 | definition: a POST of the data to `/api/short-urls/shorten/` |
| QueryCache.UpdateCall | frontend/js/hooks/api/useShortUrls.ts:86-91 | definition: a PATCH of the data to the item URL |
| QueryCache.DeleteCall | frontend/js/hooks/api/useShortUrls.ts:108-112 | definition: a DELETE of the item URL, without a body |
| QueryCache.CsrfOnMutationsOnly | frontend/js/hooks/api/useShortUrls.ts:24-120 | each mutation carries the CSRF header exactly when the cookie holds a token; the three queries never do |
| QueryCache.QueryClient.constructor | frontend/js/hooks/api/useShortUrls.ts:63 | the shared client starts with an empty cache |
| QueryCache.QueryClient.InvalidateQueries | frontend/js/hooks/api/useShortUrls.ts:74 | the client's cache becomes the invalidated cache |
| QueryCache.QueryClient.SetQueryData | frontend/js/hooks/api/useShortUrls.ts:94 | the client's cache holds the new data under the key |
| QueryCache.QueryClient.RemoveQueries | frontend/js/hooks/api/useShortUrls.ts:115 | the client's cache loses the entries under the prefix |
| QueryCache.CreateShortUrl | frontend/js/hooks/api/useShortUrls.ts:62-77 | POSTs to the shorten endpoint and settles as `apiRequest` does; only a success invalidates the lists; a failure leaves the cache unchanged |
| QueryCache.UpdateShortUrl | frontend/js/hooks/api/useShortUrls.ts:82-99 | PATCHes the item and settles as `apiRequest` does; a success stores the answer under `detail(id)` and invalidates the lists; a failure changes nothing |
| QueryCache.DeleteShortUrl | frontend/js/hooks/api/useShortUrls.ts:104-120 | DELETEs the item and settles as `apiRequest` does; a success removes `detail(id)` and invalidates the lists; a failure changes nothing, so an unparseable 2xx answer (the empty 204 of a delete) rejects and the deleted row stays cached |
| QueryCache.DeleteShortUrlIntended | frontend/js/hooks/api/useShortUrls.ts:104-120 | corrected: over `RequestIntended`, an empty 2xx answer resolves to no value and the cleanup of `onSuccess` runs |
| Auth.CsrfField | frontend/js/contexts/AuthContext.tsx:70 | the header value is the cookie's token, or "" exactly when there is none |
| Auth.ProbeUser | frontend/js/contexts/AuthContext.tsx:37-54 | the stored user is the parsed body of an ok probe; every other outcome stores null |
| Auth.FormOutcome | frontend/js/contexts/AuthContext.tsx:74-80 | an ok or redirected answer navigates to '/'; any other answer throws its text, or the fallback when the text is empty; a network error propagates |
| Auth.LogoutOutcome | frontend/js/contexts/AuthContext.tsx:117-120 | an accepted answer navigates to '/'; a rejected one does nothing and throws nothing |
| Auth.UseAuth | frontend/js/contexts/AuthContext.tsx:24-30 | outside a provider `useAuth` throws 'useAuth must be used within AuthProvider'; inside one it returns the context |
| Auth.AuthProvider.constructor | frontend/js/contexts/AuthContext.tsx:33-34 | no user, and loading |
| Auth.AuthProvider.CheckAuth | frontend/js/contexts/AuthContext.tsx:37-54 | probes the user endpoint, stores `ProbeUser` and always ends loading |
| Auth.AuthProvider.SubmitForm | frontend/js/contexts/AuthContext.tsx:60-106 | posts the form with the CSRF header; only an accepted answer runs the probe; otherwise the state is unchanged |
| Auth.AuthProvider.Login | frontend/js/contexts/AuthContext.tsx:60-81 | posts `login` and `password`; the user comes from the probe, not from the login answer |
| Auth.AuthProvider.Signup | frontend/js/contexts/AuthContext.tsx:83-106 | posts the four sign-up fields; same shape as log-in, with the fallback 'Signup failed' |
| Auth.AuthProvider.Logout | frontend/js/contexts/AuthContext.tsx:108-121 | only an accepted answer clears the user; loading is untouched |
| Auth.RejectedLoginMessage | frontend/js/contexts/AuthContext.tsx:77-79 | a rejected log-in always throws a non-empty message |
| Auth.ProbeUserOnlyFromOk | frontend/js/contexts/AuthContext.tsx:43-48 | a non-null user comes only from a 2xx probe; a non-ok probe stores null |
| Toasts.NewToast | frontend/js/hooks/use-toast.tsx:22-24 | the id is the decimal of the pre-incremented counter; title and description are kept; the variant defaults to 'default' |
| Toasts.IdsDistinct | frontend/js/hooks/use-toast.tsx:23 | rising numeric ids are distinct |
| Toasts.AppendKeepsIds | frontend/js/hooks/use-toast.tsx:23-25 | appending a new toast keeps the ids rising, bounded by the counter |
| Toasts.SameRequestTwice | frontend/js/hooks/use-toast.tsx:22-25 | the same request twice gives two toasts that differ only in their ids |
| Toasts.WithoutId | frontend/js/hooks/use-toast.tsx:28 | the filter keeps exactly the toasts with other ids, and changes nothing when the id is absent |
| Toasts.WithoutIdAppend | frontend/js/hooks/use-toast.tsx:28 | filtering distributes over concatenation, so order is kept |
| Toasts.WithoutIdKeepsIds | frontend/js/hooks/use-toast.tsx:28 | filtering keeps the ids rising |
| Toasts.ToastCounter.constructor | frontend/js/hooks/use-toast.tsx:17 | the shared counter starts at 0 |
| Toasts.ToastProvider.constructor | frontend/js/hooks/use-toast.tsx:20 | a provider starts with no toasts |
| Toasts.ToastProvider.Toast | frontend/js/hooks/use-toast.tsx:22-25 | bumps the shared counter, appends the new toast and returns its id; ids stay rising |
| Toasts.ToastProvider.Expire | frontend/js/hooks/use-toast.tsx:27-29 | the timer drops the toasts with that id; ids stay rising |
| Toasts.Shown | frontend/js/hooks/use-toast.tsx:35-45 | outside a provider the list is empty, inside one it is the provider's |
| Toasts.Emit | frontend/js/hooks/use-toast.tsx:35-45 | outside a provider `toast` does nothing, not even counting; inside one it is the provider's `toast` |
| ShortUrlModel.AlphabetIsAlnum | backend/urlshortener/models.py:13 | the alphabet has 62 characters, exactly the ASCII letters and digits |
| ShortUrlModel.GenerateShortCode | backend/urlshortener/models.py:11-14 | a generated code has the requested length and only alphabet characters |
| ShortUrlModel.FirstUnused | backend/urlshortener/models.py:61-65 | the loop stops at the first draw not in use |
| ShortUrlModel.AssignShortCode | backend/urlshortener/models.py:59-65 | the `while True` loop returns `FirstUnused` of the draws |
| ShortUrlModel.SavedCode | backend/urlshortener/models.py:57-66 | `save` keeps a given non-empty code; otherwise the code is an unused draw |
| ShortUrlModel.Protocol | backend/urlshortener/models.py:84 | definition: "http" under DEBUG, else "https" |
| ShortUrlModel.Domain | backend/urlshortener/models.py:78-82 | definition: the current site's domain, or 'localhost:8000' when there is no site |
| ShortUrlModel.ShortUrlString | backend/urlshortener/models.py:73-85 | the URL is protocol, "://", the domain (or 'localhost:8000'), '/', code; it starts with "https://" iff not DEBUG |
| ShortUrlModel.ProtocolPrefix | backend/urlshortener/models.py:84 | the URL starts with "https://" iff DEBUG is off |
| ShortUrlModel.ShortUrlRoundTrip | backend/urlshortener/models.py:85 | the code is read back from its short URL as the last path segment |
| ShortUrlModel.ShortUrlTable.constructor | backend/urlshortener/models.py:17-43 | an empty table whose first key is 1 |
| ShortUrlModel.ShortUrlTable.Create | backend/urlshortener/models.py:57-66 | the new row has the next key, the saved code, no clicks and is active, and is appended; it fails exactly for a given code that is taken (IntegrityError) or over 20 characters, and then nothing changes |
| ShortUrlModel.ShortUrlTable.IncrementClickCount | backend/urlshortener/models.py:68-71 | that row's count rises by one; nothing else changes |
| ShortUrlSerializers.ValidateCustomCode | backend/urlshortener/serializers.py:49-58 | "" passes; a taken code fails with the taken message first; then a code that is not `isalnum` (ASCII or Latin-1 letters and numerals) fails with the format message; every other code passes |
| Text.IsAlnumChar | backend/urlshortener/serializers.py:56 | definition: the characters up to U+00FF for which `str.isalnum` holds, namely the ASCII letters and digits, ª µ º, À–Ö, Ø–ö, ø–ÿ and ² ³ ¹ ¼ ½ ¾ |
| Text.AlnumIsStripped | backend/urlshortener/serializers.py:41-56 | an `isalnum` text is non-empty, has nothing for `strip` to remove and holds no NUL |
| ShortUrlSerializers.FieldText | backend/urlshortener/serializers.py:40-46 | strings and integers are read as text; anything else fails with the field's `invalid` message |
| ShortUrlSerializers.TextValidators | backend/urlshortener/serializers.py:40-46 | no message iff within the length bound, free of NUL and, for the URL field, a valid URL |
| ShortUrlSerializers.TextField | backend/urlshortener/serializers.py:40-46 | null and blank fail first; a container or boolean fails with the field's `invalid` message alone; otherwise the stripped text is accepted iff it passes every validator, and a failure lists exactly the failing validators' messages |
| ShortUrlSerializers.OriginalUrlField | backend/urlshortener/serializers.py:40 | required: absence, null and blank each give their message; a string is accepted as its stripped text iff that is NUL-free and a valid URL, and a NUL-free invalid one gives 'Enter a valid URL.' alone; a boolean, array or object also gives 'Enter a valid URL.', the `invalid` message of a `URLField` |
| ShortUrlSerializers.CleanUrlAccepted | backend/urlshortener/serializers.py:40 | a stripped valid URL is accepted as it is |
| ShortUrlSerializers.CustomCodeField | backend/urlshortener/serializers.py:41-58 | optional; absent gives no code, null fails, a boolean, array or object is 'Not a valid string.'; an accepted code is "" or an unused `isalnum` code of at most 20 characters |
| ShortUrlSerializers.CustomCodeOfString | backend/urlshortener/serializers.py:41-58 | a blank string is kept as ""; otherwise the stripped code is accepted iff at most 20 characters, NUL-free, unused and `isalnum` (ASCII or Latin-1 letters and numerals); a long or NUL code gets the validators' messages, a taken one the taken message, a non-alphanumeric one the format message |
| ShortUrlSerializers.CleanCodeAccepted | backend/urlshortener/serializers.py:41-58 | a free alphanumeric code of at most 20 characters is accepted as it is |
| ShortUrlSerializers.LatinCodeAccepted | backend/urlshortener/serializers.py:56 | a free code with a Latin-1 letter, "café", is accepted as `str.isalnum` accepts it |
| ShortUrlSerializers.BlankCodeKept | backend/urlshortener/serializers.py:41 | an empty code is accepted as "" |
| ShortUrlSerializers.ExpiresAtField | backend/urlshortener/serializers.py:47 | optional and nullable; a parseable string gives its instant; it fails, with the date-time format message, exactly for a present non-null value that is not a parseable string |
| ShortUrlSerializers.Combine | backend/urlshortener/serializers.py:37-47 | valid iff all three fields are; errors are listed per failing field, in field order |
| ShortUrlSerializers.ValidateCreate | backend/urlshortener/serializers.py:37-58 | validated data has a non-empty, NUL-free, valid URL and a code that is "" or free, alphanumeric and at most 20 long; the code and the expiry are absent iff the body omits them; a body without `original_url` fails with 'This field is required.' first; errors are never empty and name only the three fields |
| ShortUrlSerializers.WellFormedBodyValidates | backend/urlshortener/serializers.py:37-58 | a body with a stripped valid URL, an absent, empty or free alphanumeric code of at most 20 characters, and an absent or null expiry validates to exactly those values |
| ShortUrlSerializers.TakenCodeReported | backend/urlshortener/serializers.py:49-54 | a taken code in an otherwise valid body is reported under `custom_code` with the taken message alone |
| ShortUrlSerializers.CustomCodeTaken | backend/urlshortener/serializers.py:53-54 | a clean taken code fails its field with the taken message |
| ShortUrlSerializers.CleanCodeRead | backend/urlshortener/serializers.py:41 | a stripped short NUL-free code is read as it is |
| ShortUrlSerializers.CreateOwner | backend/urlshortener/serializers.py:62-63 | the owner is the requester when signed in, and none otherwise |
| ShortUrlSerializers.CreateRecord | backend/urlshortener/serializers.py:60-74 | creates a row with the owner, URL, expiry and saved code; fails exactly as the table does |
| ShortUrlSerializers.ValidatedCreateSucceeds | backend/urlshortener/serializers.py:37-74 | data that `ValidateCreate` accepted against the codes in use never meets the table's failure condition |
| ShortUrlSerializers.ModelCreateOwner | backend/urlshortener/serializers.py:29-34 | a signed-in requester becomes the owner; otherwise the given user stands |
| ShortUrlSerializers.ApplyUpdate | backend/urlshortener/serializers.py:6-27 | read-only fields are unchanged; original_url, user, is_active and expires_at take the given values |
| ShortUrlSerializers.ReadOnlyPatchIsNoOp | backend/urlshortener/serializers.py:27 | an update naming only read-only fields changes nothing |
| ShortUrlViews.GetPermission | backend/urlshortener/views.py:35-41 | sign-in is required iff the action is list, retrieve, destroy, update or partial_update |
| ShortUrlViews.HasPermission | backend/urlshortener/views.py:35-41 | definition: the request passes when the action needs no sign-in, or when the requester is signed in; AnonymousAccess states what follows |
| ShortUrlViews.AnonymousAccess | backend/urlshortener/views.py:35-41 | anonymous requests reach every action but those five; create, shorten and stats are open, list is not |
| ShortUrlViews.Where | backend/urlshortener/views.py:26 | a filter keeps exactly the rows that pass |
| ShortUrlViews.GetQueryset | backend/urlshortener/views.py:20-33 | a signed-in user sees their own active rows; an anonymous request sees every active row, or none under list |
| ShortUrlViews.FindById | backend/urlshortener/views.py:62 | `get_object` finds a row with that key, or reports that there is none |
| ShortUrlViews.IsExpired | backend/urlshortener/views.py:76 | no expiry gives null; otherwise expired iff now is strictly after the expiry |
| ShortUrlViews.Stats | backend/urlshortener/views.py:59-77 | 404 iff the queryset has no such row; 403, with its detail, iff the row has an owner other than the requester; otherwise the five statistics |
| ShortUrlViews.SignedInNeverForbidden | backend/urlshortener/views.py:59-77 | a signed-in requester never gets 403; their statistics are of their own active row |
| ShortUrlViews.UnownedStatsHiddenFromSignedIn | backend/urlshortener/views.py:20-77 | an active unowned row is a 404 for a signed-in user but open to an anonymous request |
| ShortUrlViews.AnonymousForbiddenOnlyForOwned | backend/urlshortener/views.py:65-69 | an anonymous request gets 403 exactly for an owned row |
| ShortUrlViews.Shorten | backend/urlshortener/views.py:49-57 | invalid data gives 400 with the serializer's errors and no row; valid data gives 201 with the appended row, which has the owner, URL, expiry and saved code |
| ShortUrlViews.FindActiveByCode | backend/urlshortener/views.py:82 | finds an active row with that code, or reports that there is none |
| ShortUrlViews.Redirect | backend/urlshortener/views.py:80-91 | an unknown or inactive code is 404; an expired row redirects to "/?error=expired" without counting; otherwise the click is counted and then `HttpResponseRedirect` either redirects to the original URL or, for a disallowed scheme, answers 400 |
| ShortUrlViews.UrlScheme | backend/urlshortener/views.py:91 | a scheme is the lower-cased text before the first ':'; a URL without ':' has none |
| ShortUrlViews.SchemeOfPrefix | backend/urlshortener/views.py:91 | a letter-led name of scheme characters before ':' is read as the scheme, lower-cased |
| ShortUrlViews.RedirectResponseTo | backend/urlshortener/views.py:91 | redirects iff the URL has no scheme or http, https or ftp; otherwise 400 naming the scheme |
| ShortUrlViews.AllowedSchemeRedirects | backend/urlshortener/views.py:91 | a URL with an allowed scheme, in any case, is redirected to as it is |
| ShortUrlViews.HttpsRedirects | backend/urlshortener/views.py:91 | an `https:` URL is redirected to |
| ShortUrlViews.FtpsRefused | backend/urlshortener/views.py:91 | an `ftps:` URL, which the URL validator accepts, is refused with 400 |
| ShortUrlViews.ShortUrlLeadsToRow | backend/urlshortener/views.py:80-82 | following a row's short URL reaches that row |
| ShortUrlViews.FindActiveByUniqueCode | backend/urlshortener/views.py:82 | with unique codes, the lookup finds the one row holding the code |
| SignupPage.CollectedAppend | frontend/js/pages/Signup.tsx:81-87 | each entry contributes on its own, in order |
| SignupPage.CollectedDropsOthers | frontend/js/pages/Signup.tsx:81-87 | values that are neither arrays nor strings contribute nothing |
| SignupPage.CollectedFieldErrors | frontend/js/pages/Signup.tsx:80-87 | a field-keyed error body collects every message, field by field |
| SignupPage.CollectErrors | frontend/js/pages/Signup.tsx:80-87 | the `forEach` loop collects `Collected` of the entries |
| SignupPage.FailureDescription | frontend/js/pages/Signup.tsx:88 | the messages joined by ' ', or 'Failed to create account.' when that is empty; never empty |
| SignupPage.CaughtDescription | frontend/js/pages/Signup.tsx:98 | the error's message when non-empty, and exactly the retry fallback when it is empty |
| SignupPage.SignupFetch | frontend/js/pages/Signup.tsx:53-68 | POST with the JSON content type, the page's CSRF token and the four fields as a JSON body |
| SignupPage.Settle | frontend/js/pages/Signup.tsx:51-103 | navigates to /login with the success toast iff the answer is ok and parses; every other path shows a destructive 'Error' toast with a non-empty description |
| SignupPage.SignupForm.constructor | frontend/js/pages/Signup.tsx:27-34 | not loading, dialog closed, four empty fields |
| SignupPage.SignupForm.HandleChange | frontend/js/pages/Signup.tsx:106-111 | sets the field named by the input's id |
| SignupPage.SignupForm.HandleSubmit | frontend/js/pages/Signup.tsx:36-104 | unequal passwords send nothing and toast 'Passwords do not match.'; otherwise it sends the POST and settles as `Settle`; loading is false on every path |
| SignupPage.FieldErrorsToast | frontend/js/pages/Signup.tsx:80-93 | a field-keyed rejection toasts all its messages joined by ' ', or the fallback |
| SignupPage.OpaqueErrorBody | frontend/js/pages/Signup.tsx:80-88 | a rejection whose values are neither arrays nor strings toasts the fallback |
| HomePage.Payload | frontend/js/pages/Home.tsx:41-44 | the body has `original_url`; `custom_code` only when one was typed; no expiry |
| HomePage.ShortenFetch | frontend/js/pages/Home.tsx:34-44 | POST with the JSON content type, the cookie's CSRF token or "", credentials included |
| HomePage.SubmitResult | frontend/js/pages/Home.tsx:47-61 | success iff the answer is ok and parses; otherwise the message of the detail/values/fallback chain, or the thrown parse, network or TypeError message |
| HomePage.HomeForm.constructor | frontend/js/pages/Home.tsx:21-25 | empty inputs, no record, not loading, no error |
| HomePage.HomeForm.SetUrl | frontend/js/pages/Home.tsx:110 | sets the URL input only |
| HomePage.HomeForm.SetCustomCode | frontend/js/pages/Home.tsx:137 | sets the code input only |
| HomePage.HomeForm.HandleSubmit | frontend/js/pages/Home.tsx:28-65 | success stores the record, empties both inputs, clears the error and toasts; failure stores the message and keeps everything else; loading ends on both paths |
| HomePage.HomeForm.Settle | frontend/js/pages/Home.tsx:52-61 | a new record is stored, both inputs emptied and the success toast returned; a thrown message goes to the error line and nothing else changes |
| HomePage.PayloadFields | frontend/js/pages/Home.tsx:41-44 | an empty code reaches the server as an absent field, which validates to no custom code; the expiry is absent and validates to none |
| HomePage.TakenCodePayload | frontend/js/pages/Home.tsx:41-44 | a typed code that is taken fails the server's validation with the taken message alone |
| HomePage.TakenMessageShown | frontend/js/pages/Home.tsx:47-49 | that 400 answer becomes the taken message as the page's error |
| HomePage.TakenCodeShown | frontend/js/pages/Home.tsx:28-61 | submitting a taken code shows "This short code is already taken." |
| ErrorBoundary.ResponseMessage | frontend/js/components/ErrorBoundary.tsx:20 | the status text, else a truthy `data.message`, else 'An error occurred' |
| ErrorBoundary.Classify | frontend/js/components/ErrorBoundary.tsx:18-29 | a status is recorded iff the error is a route error response; otherwise the message is the Error's message, the string, or 'Unknown error' |
| ErrorBoundary.Render | frontend/js/components/ErrorBoundary.tsx:37-45 | the title is "Error <status>" for a truthy status, else the generic one; only 404 gets the not-found description |
| ErrorBoundary.TitleShowsStatus | frontend/js/components/ErrorBoundary.tsx:38 | the title differs from the generic one iff a route error response has a non-zero status |
| ErrorBoundary.NotFoundPage | frontend/js/components/ErrorBoundary.tsx:38-44 | a 404 shows "Error 404" with the not-found description |
| ErrorBoundary.EmptyMessages | frontend/js/components/ErrorBoundary.tsx:20-23 | an Error with an empty message shows nothing; a response without status text falls back to 'An error occurred' |

## Findings

| source | as written | input that shows it | evidently intended | confidence | as-written member | corrected member |
|---|---|---|---|---|---|---|
| frontend/js/hooks/api/utils.ts:57 | `return response.json()` for every 2xx answer | a successful `DELETE /api/short-urls/<id>/`, answered with 204 No Content and an empty body: `json()` rejects, so `useDeleteShortUrl` reports an error and its `onSuccess` never purges the cache | an empty 2xx body resolves to no value, and the delete's cache cleanup runs | high (not executed) | ApiRequest.NoContentRejected | ApiRequest.IntendedOutcome |

`ApiRequest.Request` and the three mutations of `QueryCache` settle as the code is written, so `QueryCache.DeleteShortUrl` shows the failure on the cache: the deleted row stays. `ApiRequest.RequestIntended` and `QueryCache.DeleteShortUrlIntended` carry the correction.

## Left out

- Network, clock, randomness and browser state are inputs: the `fetch` answer, the cookie string, `now`, the random draws, `settings.DEBUG` and the current `Site`.
- Django's URL validator and date-time parser are parameters (`isValidUrl`, `parseDateTime`), because they are library code.
- ShortUrlModel.AssignShortCode: the `while True` loop is modelled over a finite sequence of draws, with a precondition that one draw is unused. The model does not capture a loop that never ends.
- Strings are sequences of code points. `str.isalnum` (Text.IsAlnumChar), `str.strip` and whitespace are modelled for ASCII and Latin-1, up to U+00FF; UTF-16 surrogates are not covered.
- ShortUrlSerializers.ValidateCustomCode: a letter or numeral above U+00FF, as in "日本" or "Ω", counts as not alphanumeric, so such a free code gets the format message where `str.isalnum` accepts it. Python's full Unicode character database is not modelled.
- ShortUrlSerializers.CustomCodeField and ShortUrlSerializers.CustomCodeOfString share that gap: a code with letters or numerals above U+00FF is refused with the format message.
- ShortUrlSerializers.ValidateCreate shares it too, through `custom_code`.
- ShortUrlModel.ShortUrlTable.Create does not enforce the `max_length=2048` of `original_url`. The serializer's `URLField` declares no length, so a longer URL is kept out only where Django's URL validator, the parameter `isValidUrl`, refuses it; what the database does with a longer value depends on the backend.
- ShortUrlViews.RedirectResponseTo keeps the URL as it is. `HttpResponseRedirect` sets `Location` to `iri_to_uri(url)`, which percent-encodes non-ASCII characters; that encoding is not modelled.
- JSON numbers are integers; fractional and exponent forms are not modelled.
- ShortUrlSerializers.ValidateCreate reads the fields of a JSON object body. A body that is not an object, and form-encoded bodies, are not modelled.
- `created` and `modified` are set to `now` on create. The timestamp base class (common/models.py) is not part of this model, and `modified` is not refreshed by later saves.
- The `-created` ordering of the table and of list responses is not modelled; rows are kept in insertion order.
- The JSON rendering of a record by `ShortURLSerializer` is not modelled. This covers `short_url`, `user_email` and the 201 body field by field, as well as DRF's 404 body and its `list`/`retrieve`/`update`/`destroy` handlers.
- ShortUrlSerializers.ApplyUpdate does not validate the values of the writable fields.
- TanStack Query's refetching, staleness timers, deduplication and the `enabled` flag are library behaviour. Only the cache effects of the mutations are modelled.
- A `Headers` object joins duplicate names with ", "; the model keeps the last value.
- Concurrency is not modelled: two saves racing for a code, lost click-count updates, and overlapping form submissions.
- React rendering, the disabled-button guard, the coming-soon dialog, clipboard copying and `console.error` are not modelled.
- The three-second toast timer is the explicit `Expire` step.
- The dashboard and log-in pages, the layout and the routes are callers of this core and are not modelled.
- ShortUrlViews.GetQueryset: the empty queryset for an anonymous `list` is modelled. That request is refused by the permissions before the queryset is built, so the branch is not reached in practice.
- Json.Entries gives no entries for null, where `Object.entries(null)` throws. Every caller tests for null first and models that throw itself.
- Json.Entries keeps an object's fields in their parsed order. JavaScript lists integer-like keys first, in ascending order; that reordering is not modelled.
- Json.Lookup takes the first field with a given key. `JSON.parse` and Python keep the last one; parsed objects are taken to have unique keys.
- ShortUrlModel.ShortUrlTable.IncrementClickCount: the count is unbounded. The database's limit of 2147483647 for a positive integer column, and the error past it, are not modelled, because they depend on the database backend.
- ShortUrlViews.UrlScheme: `urlsplit` first strips leading control characters and spaces and removes tabs and newlines. That is not modelled, because stored URLs have already been stripped by the serializer.
- ErrorBoundary.ResponseMessage: a truthy `message` that is not a string is shown as its `String()` text. React would render an array's elements without commas and refuse a plain object; that is not modelled.
- The text of TypeErrors and SyntaxErrors (`null.detail`, `Object.entries(null)`, an empty JSON body) is V8's wording.

/** The views of backend/urlshortener/views.py: which rows a request sees
    (`get_queryset`), which actions need a signed-in user (`get_permissions`),
    the `shorten` and `stats` actions, and the public redirect. The clock
    (`timezone.now()`) is a parameter. */
module ShortUrlViews {
  import opened Wrappers
  import opened Text
  import opened Json
  import opened ShortUrlModel
  import opened ShortUrlSerializers

  // ------------------------------------------------------------- permissions

  const ProtectedActions: seq<string> := ["list", "retrieve", "destroy", "update", "partial_update"]

  datatype Permission = AllowAny | IsAuthenticated

  /** `get_permissions()` for the view's `action`. */
  function GetPermission(action: string): (p: Permission)
    ensures p == IsAuthenticated <==> action in ProtectedActions
  {
    if action in ProtectedActions then IsAuthenticated else AllowAny
  }

  /** Whether the permission check lets the request through. */
  predicate HasPermission(action: string, requester: Requester) {
    GetPermission(action) == AllowAny || requester.Authenticated?
  }

  /** Anonymous requests reach every action except the five protected ones;
      in particular `create`, `shorten` and `stats` are open. */
  lemma AnonymousAccess(action: string)
    ensures HasPermission(action, Anonymous) <==> action !in ProtectedActions
    ensures HasPermission("create", Anonymous) && HasPermission("shorten", Anonymous) && HasPermission("stats", Anonymous)
    ensures !HasPermission("list", Anonymous)
  {
  }

  // --------------------------------------------------------------- querysets

  /** `queryset.filter(...)`: the rows that pass, in their order. */
  function Where(rows: seq<ShortUrl>, keep: ShortUrl -> bool): (r: seq<ShortUrl>)
    ensures |r| <= |rows|
    ensures forall x :: x in r <==> x in rows && keep(x)
  {
    if rows == [] then []
    else if keep(rows[0]) then [rows[0]] + Where(rows[1..], keep)
    else Where(rows[1..], keep)
  }

  /** `get_queryset()`: a signed-in user's own rows, or for an anonymous
      request every row except under `list`; active rows only. */
  function GetQueryset(rows: seq<ShortUrl>, requester: Requester, action: string): (r: seq<ShortUrl>)
    ensures forall x :: x in r ==> x in rows && x.isActive
    ensures requester.Authenticated? ==>
      forall x :: x in r <==> x in rows && x.isActive && x.user == Some(requester.userId)
    ensures requester.Anonymous? && action == "list" ==> r == []
    ensures requester.Anonymous? && action != "list" ==> forall x :: x in r <==> x in rows && x.isActive
  {
    var q := match requester
      case Authenticated(id) => Where(rows, (x: ShortUrl) => x.user == Some(id))
      case Anonymous => if action == "list" then [] else rows;
    Where(q, (x: ShortUrl) => x.isActive)
  }

  /** `queryset.get(pk=pk)`, with `None` for DoesNotExist. */
  function FindById(rows: seq<ShortUrl>, pk: nat): (r: Option<ShortUrl>)
    ensures r.Some? ==> r.value in rows && r.value.id == pk
    ensures r.None? <==> forall x :: x in rows ==> x.id != pk
  {
    if rows == [] then None
    else if rows[0].id == pk then Some(rows[0])
    else FindById(rows[1..], pk)
  }

  predicate UniqueIds(rows: seq<ShortUrl>) {
    forall i, j :: 0 <= i < |rows| && 0 <= j < |rows| && rows[i].id == rows[j].id ==> i == j
  }

  // ------------------------------------------------------------------ stats

  /** `short_url.expires_at and timezone.now() > short_url.expires_at`. */
  function IsExpired(expiresAt: Option<int>, now: int): (r: Option<bool>)
    ensures r.None? <==> expiresAt.None?
    ensures r.Some? ==> (r.value <==> now > expiresAt.value)
  {
    match expiresAt
    case None => None
    case Some(t) => Some(now > t)
  }

  datatype StatsBody = StatsBody(shortCode: string, originalUrl: string, clickCount: nat, created: int, isExpired: Option<bool>)

  datatype StatsResponse = StatsNotFound | StatsForbidden(detail: string) | StatsOk(body: StatsBody)

  const StatsForbiddenDetail := "You do not have permission to view this."

  /** The `stats` action on primary key `pk`: 404 when `get_object` finds
      nothing, 403 when the row has an owner other than the requester. */
  function Stats(rows: seq<ShortUrl>, requester: Requester, pk: nat, now: int): (r: StatsResponse)
    ensures r.StatsNotFound? <==> FindById(GetQueryset(rows, requester, "stats"), pk).None?
    ensures r.StatsForbidden? <==>
      var found := FindById(GetQueryset(rows, requester, "stats"), pk);
      found.Some? && found.value.user.Some? && requester != Authenticated(found.value.user.value)
    ensures r.StatsForbidden? ==> r.detail == StatsForbiddenDetail
    ensures r.StatsOk? ==>
      var row := FindById(GetQueryset(rows, requester, "stats"), pk).value;
      r.body == StatsBody(row.shortCode, row.originalUrl, row.clickCount, row.created, IsExpired(row.expiresAt, now))
  {
    match FindById(GetQueryset(rows, requester, "stats"), pk)
    case None => StatsNotFound
    case Some(row) =>
      if row.user.Some? && requester != Authenticated(row.user.value) then StatsForbidden(StatsForbiddenDetail)
      else StatsOk(StatsBody(row.shortCode, row.originalUrl, row.clickCount, row.created, IsExpired(row.expiresAt, now)))
  }

  /** A signed-in user is never refused with 403: their queryset holds only
      their own rows, so another owner's row is a 404. */
  lemma SignedInNeverForbidden(rows: seq<ShortUrl>, id: nat, pk: nat, now: int)
    ensures !Stats(rows, Authenticated(id), pk, now).StatsForbidden?
    ensures Stats(rows, Authenticated(id), pk, now).StatsOk? ==>
      exists x :: x in rows && x.id == pk && x.isActive && x.user == Some(id)
  {
  }

  /** The signed-in user gets 404 for an active unowned row too, although an
      anonymous request sees its statistics. */
  lemma UnownedStatsHiddenFromSignedIn(rows: seq<ShortUrl>, k: nat, id: nat, now: int)
    requires UniqueIds(rows) && k < |rows|
    requires rows[k].isActive && rows[k].user.None?
    ensures Stats(rows, Authenticated(id), rows[k].id, now) == StatsNotFound
    ensures Stats(rows, Anonymous, rows[k].id, now).StatsOk?
  {
    var q := GetQueryset(rows, Authenticated(id), "stats");
    forall x | x in q ensures x.id != rows[k].id {
      var i :| 0 <= i < |rows| && rows[i] == x;
    }
    var a := GetQueryset(rows, Anonymous, "stats");
    assert rows[k] in a;
    var found := FindById(a, rows[k].id);
    var j :| 0 <= j < |rows| && rows[j] == found.value;
  }

  /** An anonymous request is refused with 403 exactly for an owned row. */
  lemma AnonymousForbiddenOnlyForOwned(rows: seq<ShortUrl>, pk: nat, now: int)
    ensures Stats(rows, Anonymous, pk, now).StatsForbidden? <==>
      var found := FindById(GetQueryset(rows, Anonymous, "stats"), pk);
      found.Some? && found.value.user.Some?
  {
  }

  // ---------------------------------------------------------------- shorten

  datatype ShortenResponse = Created(record: ShortUrl) | BadRequest(errors: FieldErrors) {
    function Status(): nat {
      if Created? then 201 else 400
    }
  }

  /** The `shorten` action: validate the body against the codes in use, then
      create; 201 with the new row, or 400 with the validation errors. `draws`
      are the codes `generate_short_code()` would return in turn. */
  method Shorten(table: ShortUrlTable, requester: Requester, data: seq<(string, Json)>,
                 isValidUrl: string -> bool, parseDateTime: string -> Option<int>,
                 now: int, draws: seq<string>)
    returns (resp: ShortenResponse)
    requires table.Valid()
    requires forall i :: 0 <= i < |draws| ==> IsGeneratedCode(draws[i], DefaultCodeLength)
    requires exists i :: 0 <= i < |draws| && draws[i] !in table.Codes()
    modifies table
    ensures table.Valid()
    ensures var v := ValidateCreate(data, old(table.Codes()), isValidUrl, parseDateTime);
      && (v.Failure? ==> resp == BadRequest(v.error) && table.rows == old(table.rows))
      && (v.Success? ==>
            && resp.Created? && table.rows == old(table.rows) + [resp.record]
            && resp.record.user == CreateOwner(requester)
            && resp.record.originalUrl == v.value.originalUrl
            && resp.record.expiresAt == (if v.value.expiresAt.Some? then v.value.expiresAt.value else None)
            && resp.record.shortCode == SavedCode(v.value.customCode, draws, old(table.Codes()))
            && resp.record.clickCount == 0 && resp.record.isActive)
    ensures resp.Status() == 201 <==> resp.Created?
  {
    var v := ValidateCreate(data, table.Codes(), isValidUrl, parseDateTime);
    if v.Failure? {
      return BadRequest(v.error);
    }
    ValidatedCreateSucceeds(data, table.Codes(), isValidUrl, parseDateTime, v.value);
    var r := CreateRecord(table, v.value, requester, now, draws);
    assert r.Success?;
    resp := Created(r.value);
  }

  // ------------------------------------------------------------- redirect

  /** What `redirect_view` answers: 404, a 302 to a location, or the 400 that
      Django returns when `HttpResponseRedirect` raises `DisallowedRedirect`
      for a location whose scheme it does not allow. */
  datatype RedirectResponse = NotFound | RedirectTo(location: string) | DisallowedRedirect(scheme: string) {
    function Status(): nat {
      match this
      case NotFound => 404
      case RedirectTo(_) => 302
      case DisallowedRedirect(_) => 400
    }
  }

  const ExpiredLocation := "/?error=expired"

  /** `HttpResponseRedirect.allowed_schemes`. */
  const AllowedSchemes: seq<string> := ["http", "https", "ftp"]

  /** A character `urlsplit` allows in a scheme. */
  predicate IsSchemeChar(c: char) {
    IsAsciiAlnum(c) || c == '+' || c == '-' || c == '.'
  }

  /** The scheme `urlsplit(url)` reports: the text before the first ':' when
      it starts with an ASCII letter and holds only scheme characters, in lower
      case; otherwise none (""). */
  function UrlScheme(url: string): (scheme: string)
    ensures scheme != "" ==> exists i :: 0 < i < |url| && url[i] == ':' && ':' !in url[..i] && scheme == Lower(url[..i])
    ensures ':' !in url ==> scheme == ""
  {
    var n := TakeUntil(url, ':');
    if |n| < |url| && |n| > 0 && IsAsciiLetter(url[0]) && forall k :: 0 <= k < |n| ==> IsSchemeChar(n[k]) then
      Lower(n)
    else ""
  }

  /** A name of scheme characters that starts with a letter, followed by ':',
      is read as the scheme, in lower case. */
  lemma SchemeOfPrefix(name: string, rest: string)
    requires name != "" && IsAsciiLetter(name[0])
    requires forall k :: 0 <= k < |name| ==> IsSchemeChar(name[k])
    ensures UrlScheme(name + ":" + rest) == Lower(name)
  {
    var url := name + ":" + rest;
    var n := TakeUntil(url, ':');
    assert url[|name|] == ':';
    assert n == url[..|name|] == name;
  }

  /** A location with an allowed scheme, in any case, is redirected to as it
      is. */
  lemma AllowedSchemeRedirects(name: string, rest: string)
    requires name != "" && IsAsciiLetter(name[0])
    requires forall k :: 0 <= k < |name| ==> IsSchemeChar(name[k])
    requires Lower(name) in AllowedSchemes
    ensures RedirectResponseTo(name + ":" + rest) == RedirectTo(name + ":" + rest)
  {
    SchemeOfPrefix(name, rest);
  }

  /** An `https` location is redirected to. */
  lemma HttpsRedirects(rest: string)
    ensures RedirectResponseTo("https:" + rest) == RedirectTo("https:" + rest)
  {
    LowerScheme("https");
    SchemeOfPrefix("https", rest);
    assert "https" + ":" + rest == "https:" + rest;
  }

  /** A lower-case scheme name of letters is read as itself. */
  lemma LowerScheme(name: string)
    requires name != "" && forall k :: 0 <= k < |name| ==> 'a' <= name[k] <= 'z'
    ensures IsAsciiLetter(name[0]) && forall k :: 0 <= k < |name| ==> IsSchemeChar(name[k])
    ensures Lower(name) == name
  {
    LowerKeeps(name);
  }

  /** An `ftps` location, which `URLValidator` accepts, is refused. */
  lemma FtpsRefused(rest: string)
    ensures RedirectResponseTo("ftps:" + rest) == DisallowedRedirect("ftps")
  {
    LowerScheme("ftps");
    SchemeOfPrefix("ftps", rest);
    assert "ftps" + ":" + rest == "ftps:" + rest;
  }

  /** The location `HttpResponseRedirect(url)` accepts: no scheme, or an
      allowed one. */
  predicate RedirectAllowed(url: string) {
    UrlScheme(url) == "" || UrlScheme(url) in AllowedSchemes
  }

  /** `HttpResponseRedirect(url)`. */
  function RedirectResponseTo(url: string): (resp: RedirectResponse)
    ensures resp.RedirectTo? <==> RedirectAllowed(url)
    ensures resp.RedirectTo? ==> resp.location == url
    ensures resp.DisallowedRedirect? ==> resp.scheme == UrlScheme(url) && resp.scheme !in AllowedSchemes
  {
    if RedirectAllowed(url) then RedirectTo(url) else DisallowedRedirect(UrlScheme(url))
  }

  /** `get_object_or_404(ShortURL, short_code=code, is_active=True)`: the index
      of the active row with that code. */
  function FindActiveByCode(rows: seq<ShortUrl>, code: string): (r: Option<nat>)
    ensures r.Some? ==> r.value < |rows| && rows[r.value].shortCode == code && rows[r.value].isActive
    ensures r.None? <==> forall i :: 0 <= i < |rows| ==> !(rows[i].shortCode == code && rows[i].isActive)
  {
    if rows == [] then None
    else if rows[0].shortCode == code && rows[0].isActive then Some(0)
    else match FindActiveByCode(rows[1..], code)
      case None =>
        assert forall i :: 1 <= i < |rows| ==> rows[i] == rows[1..][i - 1];
        None
      case Some(k) => Some(k + 1)
  }

  /** `redirect_view(request, code)`: 404 for an unknown or inactive code; an
      expired row redirects to the expiry notice without counting; otherwise
      the click is counted and the client goes to the original URL. */
  method Redirect(table: ShortUrlTable, code: string, now: int) returns (resp: RedirectResponse)
    requires table.Valid()
    modifies table
    ensures table.Valid() && table.nextId == old(table.nextId)
    ensures FindActiveByCode(old(table.rows), code).None? ==> resp == NotFound && table.rows == old(table.rows)
    ensures var found := FindActiveByCode(old(table.rows), code);
      found.Some? && IsExpired(old(table.rows)[found.value].expiresAt, now) == Some(true) ==>
        resp == RedirectTo(ExpiredLocation) && table.rows == old(table.rows)
    ensures var found := FindActiveByCode(old(table.rows), code);
      found.Some? && IsExpired(old(table.rows)[found.value].expiresAt, now) != Some(true) ==>
        var row := old(table.rows)[found.value];
        && resp == RedirectResponseTo(row.originalUrl)
        && table.rows == old(table.rows)[found.value := row.(clickCount := row.clickCount + 1)]
  {
    var found := FindActiveByCode(table.rows, code);
    if found.None? {
      return NotFound;
    }
    var k := found.value;
    var row := table.rows[k];
    if IsExpired(row.expiresAt, now) == Some(true) {
      return RedirectTo(ExpiredLocation);
    }
    table.IncrementClickCount(k);
    resp := RedirectResponseTo(row.originalUrl);
  }

  /** Following a row's short URL reaches that row: the last path segment is its
      code, and codes are unique. */
  lemma ShortUrlLeadsToRow(rows: seq<ShortUrl>, k: nat, debug: bool, site: Option<string>)
    requires k < |rows| && rows[k].isActive && '/' !in rows[k].shortCode
    requires forall i, j :: 0 <= i < j < |rows| ==> rows[i].shortCode != rows[j].shortCode
    ensures FindActiveByCode(rows, AfterLastSlash(ShortUrlString(debug, site, rows[k].shortCode))) == Some(k)
  {
    ShortUrlRoundTrip(debug, site, rows[k].shortCode);
    FindActiveByUniqueCode(rows, k);
  }

  lemma FindActiveByUniqueCode(rows: seq<ShortUrl>, k: nat)
    requires k < |rows| && rows[k].isActive
    requires forall i, j :: 0 <= i < j < |rows| ==> rows[i].shortCode != rows[j].shortCode
    ensures FindActiveByCode(rows, rows[k].shortCode) == Some(k)
  {
    assert FindActiveByCode(rows, rows[k].shortCode).Some?;
  }
}

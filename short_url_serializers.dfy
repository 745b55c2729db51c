/** The serializers of backend/urlshortener/serializers.py. Input validation
    follows Django REST framework's field pipeline: a missing or null value is
    handled first, then the text is read and stripped of surrounding
    whitespace, a blank text short-circuits, then the field's validators run
    and all of their messages are collected, and then `validate_<field>`
    runs. URL syntax and date-time parsing are Django's own routines and are
    parameters here. */
module ShortUrlSerializers {
  import opened Wrappers
  import opened Text
  import opened Json
  import opened ShortUrlModel

  /** Who sends the request. */
  datatype Requester = Anonymous | Authenticated(userId: nat)

  const TakenMessage := "This short code is already taken."
  const AlnumMessage := "Short code must contain only letters and numbers."
  const RequiredMessage := "This field is required."
  const NullMessage := "This field may not be null."
  const BlankMessage := "This field may not be blank."
  const NotStringMessage := "Not a valid string."
  const InvalidUrlMessage := "Enter a valid URL."
  const NullCharacterMessage := "Null characters are not allowed."
  const CodeTooLongMessage := "Ensure this field has no more than 20 characters."
  const DateTimeFormatMessage := "Datetime has wrong format. Use one of these formats instead: YYYY-MM-DDThh:mm[:ss[.uuuuuu]][+HH:MM|-HH:MM|Z]."

  /** Messages per field, in the serializer's field order. */
  type FieldErrors = seq<(string, seq<string>)>

  // ------------------------------------------------------ validate_custom_code

  /** `validate_custom_code(value)`: a non-empty code must be unused and then
      alphanumeric; the uniqueness check comes first. */
  function ValidateCustomCode(value: string, existing: set<string>): (r: Result<string, string>)
    ensures r.Success? <==> value == "" || (value !in existing && IsAlnum(value))
    ensures r.Success? ==> r.value == value
    ensures value != "" && value in existing ==> r == Failure(TakenMessage)
    ensures value != "" && value !in existing && !IsAlnum(value) ==> r == Failure(AlnumMessage)
  {
    if value == "" then Success(value)
    else if value in existing then Failure(TakenMessage)
    else if !IsAlnum(value) then Failure(AlnumMessage)
    else Success(value)
  }

  // ----------------------------------------------------------- text fields

  /** `CharField.to_internal_value` before stripping: strings as they are,
      integers as their decimal text, booleans and containers refused with the
      field's `invalid` message ('Not a valid string.' for a `CharField`,
      'Enter a valid URL.' for a `URLField`, which replaces it). */
  function FieldText(j: Json, invalidMessage: string): (r: Result<string, string>)
    ensures r.Success? <==> j.JStr? || j.JNum?
    ensures j.JStr? ==> r == Success(j.s)
    ensures r.Failure? ==> r.error == invalidMessage
  {
    match j
    case JStr(s) => Success(s)
    case JNum(n) => Success(IntToString(n))
    case _ => Failure(invalidMessage)
  }

  /** A text field's validators on the stripped value, every failing one
      reporting: an optional length bound, the null-character check, and for a
      URL field the URL check last. */
  function TextValidators(v: string, maxLength: Option<nat>, urlCheck: Option<string -> bool>): (errors: seq<string>)
    ensures errors == [] <==>
      (maxLength.Some? ==> |v| <= maxLength.value) && '\0' !in v && (urlCheck.Some? ==> urlCheck.value(v))
  {
    (if maxLength.Some? && |v| > maxLength.value then [CodeTooLongMessage] else [])
    + (if '\0' in v then [NullCharacterMessage] else [])
    + (if urlCheck.Some? && !urlCheck.value(v) then [InvalidUrlMessage] else [])
  }

  /** The message list of a failed text field that is present in the input. */
  function TextField(j: Json, invalidMessage: string, allowBlank: bool, maxLength: Option<nat>, urlCheck: Option<string -> bool>): (r: Result<string, seq<string>>)
    ensures j.JNull? ==> r == Failure([NullMessage])
    ensures j.JStr? && Trim(j.s) == "" ==> r == (if allowBlank then Success("") else Failure([BlankMessage]))
    ensures r.Success? ==> j.JStr? || j.JNum?
    ensures r.Success? && r.value != "" ==>
      r.value == Trim(FieldText(j, invalidMessage).value) && TextValidators(r.value, maxLength, urlCheck) == []
    ensures r.Success? && r.value == "" ==> allowBlank
    ensures !j.JNull? && !j.JStr? && !j.JNum? ==> r == Failure([invalidMessage])
    ensures (j.JStr? || j.JNum?) && !(j.JStr? && Trim(j.s) == "") ==>
      var v := Trim(FieldText(j, invalidMessage).value);
      (r.Success? <==> TextValidators(v, maxLength, urlCheck) == [])
      && (r.Success? ==> r.value == v)
      && (r.Failure? ==> r.error == TextValidators(v, maxLength, urlCheck))
  {
    if j.JStr? && Trim(j.s) == "" then
      if allowBlank then Success("") else Failure([BlankMessage])
    else if j.JNull? then Failure([NullMessage])
    else match FieldText(j, invalidMessage)
      case Failure(e) => Failure([e])
      case Success(text) =>
        var v := Trim(text);
        var errors := TextValidators(v, maxLength, urlCheck);
        if errors == [] then Success(v) else Failure(errors)
  }

  // ------------------------------------------------ ShortURLCreateSerializer

  /** `original_url = URLField(required=True)`. */
  function OriginalUrlField(given: Option<Json>, isValidUrl: string -> bool): (r: Result<string, seq<string>>)
    ensures given.None? ==> r == Failure([RequiredMessage])
    ensures r.Success? ==> r.value != "" && isValidUrl(r.value) && '\0' !in r.value
    ensures given == Some(JNull) ==> r == Failure([NullMessage])
    ensures given.Some? && given.value.JStr? ==> var u := Trim(given.value.s);
      && (u == "" ==> r == Failure([BlankMessage]))
      && (u != "" ==> (r.Success? <==> '\0' !in u && isValidUrl(u)) && (r.Success? ==> r.value == u))
      && (u != "" && '\0' !in u && !isValidUrl(u) ==> r == Failure([InvalidUrlMessage]))
    ensures given.Some? && !given.value.JNull? && !given.value.JStr? && !given.value.JNum? ==>
      r == Failure([InvalidUrlMessage])
  {
    match given
    case None => Failure([RequiredMessage])
    case Some(j) =>
      UrlValidators(if j.JStr? then Trim(j.s) else "", isValidUrl);
      TextField(j, InvalidUrlMessage, false, None, Some(isValidUrl))
  }

  lemma UrlValidators(u: string, isValidUrl: string -> bool)
    ensures '\0' !in u ==> TextValidators(u, None, Some(isValidUrl)) == (if isValidUrl(u) then [] else [InvalidUrlMessage])
  {
  }

  /** `custom_code = CharField(max_length=20, required=False, allow_blank=True)`
      followed by `validate_custom_code`; `None` is an absent field. */
  function CustomCodeField(given: Option<Json>, existing: set<string>): (r: Result<Option<string>, seq<string>>)
    ensures given.None? ==> r == Success(None)
    ensures r.Success? && r.value.Some? ==> var c := r.value.value;
      c == "" || (|c| <= MaxCodeLength && IsAlnum(c) && c !in existing)
    ensures given.Some? <==> r.Failure? || r.value.Some?
    ensures given == Some(JNull) ==> r == Failure([NullMessage])
    ensures given.Some? && !given.value.JNull? && !given.value.JStr? && !given.value.JNum? ==>
      r == Failure([NotStringMessage])
  {
    match given
    case None => Success(None)
    case Some(j) =>
      match TextField(j, NotStringMessage, true, Some(MaxCodeLength), None)
      case Failure(e) => Failure(e)
      case Success(v) =>
        match ValidateCustomCode(v, existing)
        case Failure(e) => Failure([e])
        case Success(c) => Success(Some(c))
  }

  /** A string code: a blank one is kept as "", otherwise the stripped text
      is accepted exactly when it passes the field's validators and
      `validate_custom_code`, and each failure carries its own messages. */
  lemma CustomCodeOfString(s: string, existing: set<string>)
    ensures var r := CustomCodeField(Some(JStr(s)), existing); var c := Trim(s);
      && (c == "" ==> r == Success(Some("")))
      && (c != "" ==> (r.Success? <==> |c| <= MaxCodeLength && '\0' !in c && c !in existing && IsAlnum(c))
                      && (r.Success? ==> r.value == Some(c)))
      && (c != "" && |c| <= MaxCodeLength && '\0' !in c && c in existing ==> r == Failure([TakenMessage]))
      && (c != "" && |c| <= MaxCodeLength && '\0' !in c && c !in existing && !IsAlnum(c) ==> r == Failure([AlnumMessage]))
      && (c != "" && TextValidators(c, Some(MaxCodeLength), None) != [] ==>
            r == Failure(TextValidators(c, Some(MaxCodeLength), None)))
  {
    var c := Trim(s);
    if c != "" {
      var errors := TextValidators(c, Some(MaxCodeLength), None);
      CodeTextOfString(s);
      var r := CustomCodeField(Some(JStr(s)), existing);
      if errors == [] {
        assert r == (match ValidateCustomCode(c, existing)
                     case Failure(e) => Failure([e])
                     case Success(x) => Success(Some(x)));
      } else {
        assert r == Failure(errors);
      }
    }
  }

  lemma CodeTextOfString(s: string)
    requires Trim(s) != ""
    ensures var errors := TextValidators(Trim(s), Some(MaxCodeLength), None);
      TextField(JStr(s), NotStringMessage, true, Some(MaxCodeLength), None) == (if errors == [] then Success(Trim(s)) else Failure(errors))
  {
  }

  /** `expires_at = DateTimeField(required=False, allow_null=True)`: absent is
      `None`, null is `Some(None)`. */
  function ExpiresAtField(given: Option<Json>, parseDateTime: string -> Option<int>): (r: Result<Option<Option<int>>, seq<string>>)
    ensures given.None? ==> r == Success(None)
    ensures given == Some(JNull) ==> r == Success(Some(None))
    ensures r.Failure? ==> r.error == [DateTimeFormatMessage]
    ensures given.Some? && given.value.JStr? && parseDateTime(given.value.s).Some? ==>
      r == Success(Some(parseDateTime(given.value.s)))
    ensures r.Failure? <==>
      given.Some? && !given.value.JNull? && !(given.value.JStr? && parseDateTime(given.value.s).Some?)
  {
    if given.None? then Success(None)
    else if given.value.JNull? then Success(Some(None))
    else if given.value.JStr? && parseDateTime(given.value.s).Some? then Success(Some(parseDateTime(given.value.s)))
    else Failure([DateTimeFormatMessage])
  }

  /** The validated data of a `ShortURLCreateSerializer`. */
  datatype CreateData = CreateData(originalUrl: string, customCode: Option<string>, expiresAt: Option<Option<int>>)

  function ErrorsOf<T>(field: string, r: Result<T, seq<string>>): (e: FieldErrors)
    ensures r.Success? ==> e == []
    ensures r.Failure? ==> e == [(field, r.error)]
  {
    if r.Failure? then [(field, r.error)] else []
  }

  /** The fields of `ShortURLCreateSerializer`, in order. */
  const FieldNames: seq<string> := ["original_url", "custom_code", "expires_at"]

  /** The serializer's verdict from its three fields' verdicts, in field order. */
  function Combine(url: Result<string, seq<string>>, code: Result<Option<string>, seq<string>>,
                   exp: Result<Option<Option<int>>, seq<string>>): (r: Result<CreateData, FieldErrors>)
    ensures r.Success? <==> url.Success? && code.Success? && exp.Success?
    ensures r.Success? ==> r.value == CreateData(url.value, code.value, exp.value)
    ensures r.Failure? ==> r.error == ErrorsOf("original_url", url) + ErrorsOf("custom_code", code) + ErrorsOf("expires_at", exp)
    ensures r.Failure? ==> r.error != []
    ensures r.Failure? ==> forall k :: 0 <= k < |r.error| ==> r.error[k].0 in FieldNames
  {
    if url.Success? && code.Success? && exp.Success? then
      Success(CreateData(url.value, code.value, exp.value))
    else
      Failure(ErrorsOf("original_url", url) + ErrorsOf("custom_code", code) + ErrorsOf("expires_at", exp))
  }

  /** `is_valid()` and `validated_data` / `errors` on a JSON object body. */
  function ValidateCreate(data: seq<(string, Json)>, existing: set<string>,
                          isValidUrl: string -> bool, parseDateTime: string -> Option<int>)
    : (r: Result<CreateData, FieldErrors>)
    ensures r.Success? ==>
      && r.value.originalUrl != "" && '\0' !in r.value.originalUrl && isValidUrl(r.value.originalUrl)
      && (r.value.customCode.Some? ==> var c := r.value.customCode.value;
            c == "" || (|c| <= MaxCodeLength && IsAlnum(c) && c !in existing))
      && (r.value.customCode.None? <==> Lookup(data, "custom_code").None?)
      && (r.value.expiresAt.None? <==> Lookup(data, "expires_at").None?)
    ensures Lookup(data, "original_url").None? ==>
      r.Failure? && r.error != [] && r.error[0] == ("original_url", [RequiredMessage])
    ensures r.Failure? ==> r.error != [] && forall k :: 0 <= k < |r.error| ==> r.error[k].0 in FieldNames
  {
    Combine(OriginalUrlField(Lookup(data, "original_url"), isValidUrl),
            CustomCodeField(Lookup(data, "custom_code"), existing),
            ExpiresAtField(Lookup(data, "expires_at"), parseDateTime))
  }

  /** A taken custom code in an otherwise valid body is reported under
      `custom_code` with the "already taken" message alone. */
  lemma TakenCodeReported(data: seq<(string, Json)>, existing: set<string>,
                          isValidUrl: string -> bool, parseDateTime: string -> Option<int>, code: string)
    requires Lookup(data, "custom_code") == Some(JStr(code))
    requires code != "" && code == Trim(code) && |code| <= MaxCodeLength && '\0' !in code && code in existing
    requires OriginalUrlField(Lookup(data, "original_url"), isValidUrl).Success?
    requires ExpiresAtField(Lookup(data, "expires_at"), parseDateTime).Success?
    ensures ValidateCreate(data, existing, isValidUrl, parseDateTime) == Failure([("custom_code", [TakenMessage])])
  {
    var url := OriginalUrlField(Lookup(data, "original_url"), isValidUrl);
    var c := CustomCodeField(Lookup(data, "custom_code"), existing);
    var e := ExpiresAtField(Lookup(data, "expires_at"), parseDateTime);
    CustomCodeTaken(code, existing);
    OnlyCodeFails(url, c, e);
  }

  lemma OnlyCodeFails(url: Result<string, seq<string>>, code: Result<Option<string>, seq<string>>,
                      exp: Result<Option<Option<int>>, seq<string>>)
    requires url.Success? && exp.Success? && code == Failure([TakenMessage])
    ensures Combine(url, code, exp) == Failure([("custom_code", [TakenMessage])])
  {
    assert ErrorsOf("original_url", url) + ErrorsOf("custom_code", code) + ErrorsOf("expires_at", exp)
      == [("custom_code", [TakenMessage])];
  }

  lemma CustomCodeTaken(code: string, existing: set<string>)
    requires code != "" && code == Trim(code) && |code| <= MaxCodeLength && '\0' !in code && code in existing
    ensures CustomCodeField(Some(JStr(code)), existing) == Failure([TakenMessage])
  {
    CleanCodeRead(code);
  }

  /** A free alphanumeric code of at most 20 characters is accepted as it is. */
  lemma CleanCodeAccepted(code: string, existing: set<string>)
    requires IsAlnum(code) && |code| <= MaxCodeLength && code !in existing
    ensures CustomCodeField(Some(JStr(code)), existing) == Success(Some(code))
  {
    AlnumIsStripped(code);
    CustomCodeFree(code, existing);
  }

  /** Letters beyond ASCII count as `str.isalnum` counts them: a free "café"
      is accepted as it is. */
  lemma LatinCodeAccepted(existing: set<string>)
    requires "café" !in existing
    ensures CustomCodeField(Some(JStr("café")), existing) == Success(Some("café"))
  {
    assert IsAlnumChar("café"[3]);
    CleanCodeAccepted("café", existing);
  }

  lemma CustomCodeFree(code: string, existing: set<string>)
    requires code != "" && code == Trim(code) && |code| <= MaxCodeLength && '\0' !in code
    requires code !in existing && IsAlnum(code)
    ensures CustomCodeField(Some(JStr(code)), existing) == Success(Some(code))
  {
    CleanCodeRead(code);
  }

  /** A well-formed body validates to exactly what it gives: a stripped valid
      URL, an absent, blank or free alphanumeric code of at most 20
      characters, and an absent or null expiry. */
  lemma WellFormedBodyValidates(data: seq<(string, Json)>, existing: set<string>,
                                isValidUrl: string -> bool, parseDateTime: string -> Option<int>,
                                url: string, code: Option<string>)
    requires Lookup(data, "original_url") == Some(JStr(url))
    requires url != "" && url == Trim(url) && '\0' !in url && isValidUrl(url)
    requires code.None? ==> Lookup(data, "custom_code").None?
    requires code.Some? ==>
      && Lookup(data, "custom_code") == Some(JStr(code.value))
      && (code.value == "" || (IsAlnum(code.value) && |code.value| <= MaxCodeLength && code.value !in existing))
    requires Lookup(data, "expires_at").None? || Lookup(data, "expires_at") == Some(JNull)
    ensures ValidateCreate(data, existing, isValidUrl, parseDateTime) ==
      Success(CreateData(url, code, if Lookup(data, "expires_at").None? then None else Some(None)))
  {
    CleanUrlAccepted(url, isValidUrl);
    if code.Some? && code.value != "" {
      CleanCodeAccepted(code.value, existing);
    } else if code.Some? {
      BlankCodeKept(existing);
    }
  }

  /** The stripped text of a valid URL is accepted as it is. */
  lemma CleanUrlAccepted(url: string, isValidUrl: string -> bool)
    requires url != "" && url == Trim(url) && '\0' !in url && isValidUrl(url)
    ensures OriginalUrlField(Some(JStr(url)), isValidUrl) == Success(url)
  {
  }

  lemma BlankCodeKept(existing: set<string>)
    ensures CustomCodeField(Some(JStr("")), existing) == Success(Some(""))
  {
    assert TextField(JStr(""), NotStringMessage, true, Some(MaxCodeLength), None) == Success("");
    assert ValidateCustomCode("", existing) == Success("");
  }

  /** A stripped, short, non-empty code without NUL is read as it is. */
  lemma CleanCodeRead(code: string)
    requires code != "" && code == Trim(code) && |code| <= MaxCodeLength && '\0' !in code
    ensures TextField(JStr(code), NotStringMessage, true, Some(MaxCodeLength), None) == Success(code)
  {
    CleanCodeValidates(code);
    assert Trim(code) != "";
  }

  lemma CleanCodeValidates(code: string)
    requires |code| <= MaxCodeLength && '\0' !in code
    ensures TextValidators(code, Some(MaxCodeLength), None) == []
  {
  }

  /** The owner of a record `ShortURLCreateSerializer.create` makes. */
  function CreateOwner(requester: Requester): (owner: Option<nat>)
    ensures owner.Some? <==> requester.Authenticated?
    ensures owner.Some? ==> owner.value == requester.userId
  {
    match requester
    case Authenticated(id) => Some(id)
    case Anonymous => None
  }

  /** `ShortURLCreateSerializer.create`: the custom code (absent, "" or a code)
      goes through as the short code, absent and null expiry alike as none. */
  method CreateRecord(table: ShortUrlTable, data: CreateData, requester: Requester, now: int, draws: seq<string>)
    returns (r: Result<ShortUrl, DbError>)
    requires table.Valid()
    requires forall i :: 0 <= i < |draws| ==> IsGeneratedCode(draws[i], DefaultCodeLength)
    requires (data.customCode.None? || data.customCode == Some("")) ==>
      exists i :: 0 <= i < |draws| && draws[i] !in table.Codes()
    modifies table
    ensures table.Valid()
    ensures r.Failure? <==>
      && data.customCode.Some? && data.customCode.value != ""
      && (data.customCode.value in old(table.Codes()) || |data.customCode.value| > MaxCodeLength)
    ensures r.Failure? ==> table.rows == old(table.rows)
    ensures r.Success? ==>
      && r.value.user == CreateOwner(requester)
      && r.value.originalUrl == data.originalUrl
      && r.value.expiresAt == (if data.expiresAt.Some? then data.expiresAt.value else None)
      && r.value.shortCode == SavedCode(data.customCode, draws, old(table.Codes()))
      && r.value.clickCount == 0 && r.value.isActive
      && table.rows == old(table.rows) + [r.value]
  {
    var expiresAt := if data.expiresAt.Some? then data.expiresAt.value else None;
    r := table.Create(data.originalUrl, data.customCode, CreateOwner(requester), expiresAt, now, draws);
  }

  /** A create that passed validation against the codes in use never meets a
      database error: its code is then free and at most 20 characters. */
  lemma ValidatedCreateSucceeds(body: seq<(string, Json)>, used: set<string>,
                                isValidUrl: string -> bool, parseDateTime: string -> Option<int>, data: CreateData)
    requires ValidateCreate(body, used, isValidUrl, parseDateTime) == Success(data)
    ensures !(data.customCode.Some? && data.customCode.value != ""
              && (data.customCode.value in used || |data.customCode.value| > MaxCodeLength))
  {
  }

  // ------------------------------------------------------ ShortURLSerializer

  /** `ShortURLSerializer.create`: the requester owns the record when signed in;
      otherwise whatever `user` the input gave stands. */
  function ModelCreateOwner(requester: Requester, given: Option<nat>): (owner: Option<nat>)
    ensures requester.Authenticated? ==> owner == Some(requester.userId)
    ensures requester.Anonymous? ==> owner == given
  {
    if requester.Authenticated? then Some(requester.userId) else given
  }

  /** The fields an update may name; `None` means not given. */
  datatype ShortUrlPatch = ShortUrlPatch(
    id: Option<nat>,
    originalUrl: Option<string>,
    shortCode: Option<string>,
    user: Option<Option<nat>>,
    clickCount: Option<nat>,
    isActive: Option<bool>,
    expiresAt: Option<Option<int>>,
    created: Option<int>,
    modified: Option<int>)

  /** An update through `ShortURLSerializer`: the read-only fields are ignored,
      the writable ones (original_url, user, is_active, expires_at) take the
      given value when there is one. */
  function ApplyUpdate(row: ShortUrl, patch: ShortUrlPatch): (r: ShortUrl)
    ensures r.id == row.id && r.shortCode == row.shortCode && r.clickCount == row.clickCount
    ensures r.created == row.created && r.modified == row.modified
    ensures r.originalUrl == patch.originalUrl.GetOr(row.originalUrl)
    ensures r.user == patch.user.GetOr(row.user)
    ensures r.isActive == patch.isActive.GetOr(row.isActive)
    ensures r.expiresAt == patch.expiresAt.GetOr(row.expiresAt)
  {
    row.(originalUrl := patch.originalUrl.GetOr(row.originalUrl),
         user := patch.user.GetOr(row.user),
         isActive := patch.isActive.GetOr(row.isActive),
         expiresAt := patch.expiresAt.GetOr(row.expiresAt))
  }

  /** Naming only read-only fields changes nothing. */
  lemma ReadOnlyPatchIsNoOp(row: ShortUrl, patch: ShortUrlPatch)
    requires patch.originalUrl.None? && patch.user.None? && patch.isActive.None? && patch.expiresAt.None?
    ensures ApplyUpdate(row, patch) == row
  {
  }
}

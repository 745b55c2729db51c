/** Reading a cookie out of `document.cookie`, the `"; "`-joined
    `name=value` list of the Cookie header (section 5.4 of RFC 6265).
    `GetCookie` is the `getCookie` helper that frontend/js/hooks/api/utils.ts,
    frontend/js/contexts/AuthContext.tsx and frontend/js/pages/Home.tsx each
    carry a copy of; `SignupCsrfToken` is the inline variant of the Signup page. */
module Cookies {
  import opened Wrappers
  import opened Text

  /** The text `getCookie` splits on. */
  function Separator(name: string): string {
    "; " + name + "="
  }

  /** `getCookie(name)`: split `"; " + cookie` on `"; name="`; with exactly two
      parts, the second part up to its first ';', with "" turned into null. */
  function GetCookie(cookie: string, name: string): (r: Option<string>)
    ensures r.Some? ==> r.value != "" && ';' !in r.value
    ensures IndexOf("; " + cookie, Separator(name)).None? ==> r.None?
  {
    var v := "; " + cookie;
    var sep := Separator(name);
    var parts := Split(v, sep);
    SplitSingle(v, sep);
    if |parts| == 2 then
      // parts.pop()?.split(';').shift()
      var first := Split(parts[1], ";")[0];
      assert first == TakeUntil(parts[1], ';');
      if first == "" then None else Some(first)
    else None
  }

  /** A reference reading of the same lookup by index: the first `"; name="`,
      which must be the only one, followed by a non-empty value that ends at
      the next ';' or at the end. */
  function CookieValueByIndex(cookie: string, name: string): Option<string> {
    var v := "; " + cookie;
    var sep := Separator(name);
    match IndexOf(v, sep)
    case None => None
    case Some(i) =>
      var after := v[i + |sep|..];
      if IndexOf(after, sep).Some? then None
      else if TakeUntil(after, ';') == "" then None
      else Some(TakeUntil(after, ';'))
  }

  lemma GetCookieByIndex(cookie: string, name: string)
    ensures GetCookie(cookie, name) == CookieValueByIndex(cookie, name)
  {
    var v := "; " + cookie;
    var sep := Separator(name);
    match IndexOf(v, sep)
    case None =>
    case Some(i) =>
      var after := v[i + |sep|..];
      assert Split(v, sep) == [v[..i]] + Split(after, sep);
      SplitSingle(after, sep);
      if IndexOf(after, sep).None? {
        assert Split(after, sep) == [after];
        assert Split(after, ";")[0] == TakeUntil(after, ';');
      }
  }

  /** A name that occurs twice (without overlap) yields null. */
  lemma GetCookieNullOnDuplicate(cookie: string, name: string, i: nat, j: nat)
    requires OccursAt("; " + cookie, Separator(name), i)
    requires OccursAt("; " + cookie, Separator(name), j)
    requires i + |Separator(name)| <= j
    ensures GetCookie(cookie, name).None?
  {
    SplitTwoOccurrences("; " + cookie, Separator(name), i, j);
  }

  /** A single cookie is read only under its whole name: `xcsrftoken=abc` is
      not `csrftoken`, because the separator needs the leading "; ". */
  lemma GetCookieIgnoresLongerName(cookie: string, name: string)
    requires ';' !in cookie && !StartsWith(cookie, name + "=")
    ensures GetCookie(cookie, name).None?
  {
    var v := "; " + cookie;
    var sep := Separator(name);
    forall j: nat | j + |sep| <= |v|
      ensures !OccursAt(v, sep, j)
    {
      var w := v[j..j + |sep|];
      if j == 0 {
        assert w[2..] == cookie[..|name| + 1] && sep[2..] == name + "=";
      } else if j == 1 {
        assert w[0] == ' ' && sep[0] == ';';
      } else {
        assert w[0] == cookie[j - 2] && sep[0] == ';';
      }
    }
    assert IndexOf(v, sep).None?;
  }

  /** The case of `csrftoken` itself. */
  lemma CsrfIgnoresLongerName()
    ensures GetCookie("xcsrftoken=abc", "csrftoken").None?
  {
    assert "xcsrftoken=abc"[..10][0] == 'x';
    GetCookieIgnoresLongerName("xcsrftoken=abc", "csrftoken");
  }

  // ------------------------------------------------ the Signup page variant

  const CsrfRowPrefix := "csrftoken="

  /** The index `rows.find(row => row.startsWith(prefix))` stops at. */
  function FindRow(rows: seq<string>, prefix: string): (r: Option<nat>)
    ensures r.Some? ==> r.value < |rows| && StartsWith(rows[r.value], prefix)
    ensures r.Some? ==> forall j :: 0 <= j < r.value ==> !StartsWith(rows[j], prefix)
    ensures r.None? <==> forall j :: 0 <= j < |rows| ==> !StartsWith(rows[j], prefix)
  {
    if rows == [] then None
    else if StartsWith(rows[0], prefix) then Some(0)
    else
      match FindRow(rows[1..], prefix)
      case None => None
      case Some(k) => Some(k + 1)
  }

  /** A row that starts with "csrftoken=" has its first '=' at index 9, so its
      second '='-separated part is the text after that '=' up to the next one. */
  lemma CsrfRowSplit(row: string)
    requires StartsWith(row, CsrfRowPrefix)
    ensures |Split(row, "=")| >= 2
    ensures Split(row, "=")[1] == TakeUntil(row[|CsrfRowPrefix|..], '=')
  {
    assert IndexOf(row, "=") == Some(9) by {
      assert row[..10] == "csrftoken=";
      assert row[..9] == "csrftoken=" [..9];
      assert "csrftoken=" [..9] == "csrftoken";
      assert '=' !in "csrftoken";
      forall j | 0 <= j < 9 ensures !OccursAt(row, "=", j) {
        assert row[j..j + 1] == [row[j]];
        assert row[j] == row[..9][j];
      }
      assert row[9] == "csrftoken=" [9] == '=';
      assert row[9..10] == "=";
      assert OccursAt(row, "=", 9);
    }
    assert Split(row, "=") == [row[..9]] + Split(row[10..], "=");
  }

  /** `document.cookie.split('; ').find(row => row.startsWith('csrftoken='))?.split('=')[1] || ''`. */
  function SignupCsrfToken(cookie: string): (r: string)
    ensures '=' !in r
    ensures FindRow(Split(cookie, "; "), CsrfRowPrefix).None? ==> r == ""
    ensures var rows := Split(cookie, "; ");
      FindRow(rows, CsrfRowPrefix).Some? ==>
        r == TakeUntil(rows[FindRow(rows, CsrfRowPrefix).value][|CsrfRowPrefix|..], '=')
  {
    var rows := Split(cookie, "; ");
    match FindRow(rows, CsrfRowPrefix)
    case None => ""
    case Some(k) =>
      CsrfRowSplit(rows[k]);
      Split(rows[k], "=")[1]
  }
}

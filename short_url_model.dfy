/** The `ShortURL` model of backend/urlshortener/models.py: the record and its
    field defaults, random code generation, code assignment on save, click
    counting and the public short-URL string. The database table is a class
    holding the rows in insertion order; the clock is a parameter. */
module ShortUrlModel {
  import opened Wrappers
  import opened Text

  /** One `ShortURL` row. Times are instants as integers. */
  datatype ShortUrl = ShortUrl(
    id: nat,
    originalUrl: string,
    shortCode: string,
    user: Option<nat>,
    clickCount: nat,
    isActive: bool,
    expiresAt: Option<int>,
    created: int,
    modified: int)

  const MaxCodeLength := 20
  const DefaultCodeLength := 8

  // --------------------------------------------------------- code generation

  const LowerLetters: string := seq(26, i requires 0 <= i < 26 => ('a' as int + i) as char)
  const UpperLetters: string := seq(26, i requires 0 <= i < 26 => ('A' as int + i) as char)
  const Digits: string := seq(10, i requires 0 <= i < 10 => ('0' as int + i) as char)

  /** `string.ascii_letters + string.digits`. */
  const Alphabet: string := LowerLetters + UpperLetters + Digits

  /** The alphabet has 62 characters: exactly the ASCII letters and digits. */
  lemma AlphabetIsAlnum(c: char)
    ensures |Alphabet| == 62
    ensures c in Alphabet <==> IsAsciiAlnum(c)
  {
    if 'a' <= c <= 'z' {
      assert Alphabet[c as int - 'a' as int] == c;
    } else if 'A' <= c <= 'Z' {
      assert Alphabet[26 + c as int - 'A' as int] == c;
    } else if '0' <= c <= '9' {
      assert Alphabet[52 + c as int - '0' as int] == c;
    }
    if c in Alphabet {
      var k :| 0 <= k < |Alphabet| && Alphabet[k] == c;
      if k < 26 {
        assert Alphabet[k] == LowerLetters[k];
      } else if k < 52 {
        assert Alphabet[k] == UpperLetters[k - 26];
      } else {
        assert Alphabet[k] == Digits[k - 52];
      }
    }
  }

  /** What `generate_short_code` can return for `length`. */
  predicate IsGeneratedCode(code: string, length: nat) {
    |code| == length && forall i :: 0 <= i < |code| ==> IsAsciiAlnum(code[i])
  }

  /** `generate_short_code(length)`: `length` independent choices from the
      alphabet; `secrets.choice` is a nondeterministic pick. */
  method GenerateShortCode(length: nat) returns (code: string)
    ensures IsGeneratedCode(code, length)
    ensures length > 0 ==> IsAlnum(code)
  {
    code := "";
    for n := 0 to length
      invariant IsGeneratedCode(code, n)
    {
      assert Alphabet[0] in Alphabet;
      var c :| c in Alphabet;
      AlphabetIsAlnum(c);
      code := code + [c];
    }
  }

  /** The code the `while True` loop of `save` stops at, given the codes
      `generate_short_code()` returns in turn: the first one not in use. */
  function FirstUnused(draws: seq<string>, used: set<string>): (code: string)
    requires exists i :: 0 <= i < |draws| && draws[i] !in used
    ensures code !in used && code in draws
    ensures exists i :: 0 <= i < |draws| && draws[i] == code && forall j :: 0 <= j < i ==> draws[j] in used
  {
    if draws[0] !in used then draws[0]
    else
      assert forall i :: 1 <= i < |draws| ==> draws[i] == draws[1..][i - 1];
      var c := FirstUnused(draws[1..], used);
      assert forall i :: 0 <= i < |draws[1..]| ==> draws[1..][i] == draws[i + 1];
      c
  }

  /** The loop itself: draw until the code is unused. */
  method AssignShortCode(draws: seq<string>, used: set<string>) returns (code: string)
    requires exists i :: 0 <= i < |draws| && draws[i] !in used
    ensures code == FirstUnused(draws, used)
  {
    var n := 0;
    while draws[n] in used
      invariant 0 <= n < |draws|
      invariant forall j :: 0 <= j < n ==> draws[j] in used
      invariant FirstUnused(draws, used) == FirstUnused(draws[n..], used)
      decreases |draws| - n
    {
      assert draws[n..][0] == draws[n];
      assert draws[n..][1..] == draws[n + 1..];
      n := n + 1;
    }
    assert draws[n..][0] == draws[n];
    code := draws[n];
  }

  /** The code `save` stores: a given non-empty code as it is, otherwise the
      first unused draw. */
  function SavedCode(given: Option<string>, draws: seq<string>, used: set<string>): (code: string)
    requires (given.None? || given == Some("")) ==> exists i :: 0 <= i < |draws| && draws[i] !in used
    ensures given.Some? && given.value != "" ==> code == given.value
    ensures given.None? || given == Some("") ==> code !in used && code in draws
  {
    if given.Some? && given.value != "" then given.value else FirstUnused(draws, used)
  }

  // ------------------------------------------------------------ short_url

  const FallbackDomain := "localhost:8000"

  /** `"https" if not settings.DEBUG else "http"`. */
  function Protocol(debug: bool): string {
    if debug then "http" else "https"
  }

  /** The domain of the current `Site`, or the fallback when there is none. */
  function Domain(site: Option<string>): string {
    site.GetOr(FallbackDomain)
  }

  /** The `short_url` property. */
  function ShortUrlString(debug: bool, site: Option<string>, code: string): (s: string)
    ensures StartsWith(s, "https://") <==> !debug
    ensures s == Protocol(debug) + "://" + Domain(site) + "/" + code
  {
    var rest := Domain(site) + "/" + code;
    ProtocolPrefix(debug, rest);
    Protocol(debug) + "://" + rest
  }

  lemma ProtocolPrefix(debug: bool, rest: string)
    ensures StartsWith(Protocol(debug) + "://" + rest, "https://") <==> !debug
  {
    var s := Protocol(debug) + "://" + rest;
    if debug {
      assert s == "http://" + rest;
      assert s[4] == ':';
    } else {
      assert s == "https://" + rest;
      assert s[..8] == "https://";
    }
  }

  /** The text after the last '/'. */
  function AfterLastSlash(s: string): (r: string)
    ensures '/' !in r
  {
    if s == "" then ""
    else if s[|s| - 1] == '/' then ""
    else AfterLastSlash(s[..|s| - 1]) + [s[|s| - 1]]
  }

  lemma {:induction false} AfterLastSlashOfSuffix(p: string, code: string)
    requires p != "" && p[|p| - 1] == '/'
    requires '/' !in code
    ensures AfterLastSlash(p + code) == code
  {
    if code == "" {
      assert p + code == p;
    } else {
      var s := p + code;
      assert s[..|s| - 1] == p + code[..|code| - 1];
      AfterLastSlashOfSuffix(p, code[..|code| - 1]);
      assert code == code[..|code| - 1] + [code[|code| - 1]];
    }
  }

  /** A code without '/' (every alphanumeric code) is read back from its short
      URL as the last path segment, whatever the protocol and domain. */
  lemma ShortUrlRoundTrip(debug: bool, site: Option<string>, code: string)
    requires '/' !in code
    ensures AfterLastSlash(ShortUrlString(debug, site, code)) == code
  {
    var p := Protocol(debug) + "://" + Domain(site) + "/";
    assert ShortUrlString(debug, site, code) == p + code;
    AfterLastSlashOfSuffix(p, code);
  }

  // ------------------------------------------------------------ the table

  /** A database error `save` can raise. */
  datatype DbError = IntegrityError | DataError

  /** The `ShortURL` table: rows in insertion order and the next primary key. */
  class ShortUrlTable {
    var rows: seq<ShortUrl>
    var nextId: nat

    /** The table's constraints: primary keys and short codes are unique, codes
        are non-empty and at most 20 characters, every key is below `nextId`. */
    ghost predicate Valid()
      reads this
    {
      && (forall i :: 0 <= i < |rows| ==> rows[i].id < nextId && rows[i].shortCode != "" && |rows[i].shortCode| <= MaxCodeLength)
      && (forall i, j :: 0 <= i < j < |rows| ==> rows[i].id != rows[j].id && rows[i].shortCode != rows[j].shortCode)
    }

    function Codes(): set<string>
      reads this
    {
      set i | 0 <= i < |rows| :: rows[i].shortCode
    }

    constructor ()
      ensures rows == [] && nextId == 1 && Valid()
    {
      rows := [];
      nextId := 1;
    }

    /** `ShortURL.objects.create(...)`: `save` assigns a code when none is given,
        the new row takes the defaults (no clicks, active) and the next key; a
        given code that is taken or too long is refused by the database. */
    method Create(originalUrl: string, shortCode: Option<string>, user: Option<nat>,
                  expiresAt: Option<int>, now: int, draws: seq<string>)
      returns (r: Result<ShortUrl, DbError>)
      requires Valid()
      requires forall i :: 0 <= i < |draws| ==> IsGeneratedCode(draws[i], DefaultCodeLength)
      requires (shortCode.None? || shortCode == Some("")) ==> exists i :: 0 <= i < |draws| && draws[i] !in Codes()
      modifies this
      ensures Valid()
      ensures r.Failure? <==>
        shortCode.Some? && shortCode.value != "" && (shortCode.value in old(Codes()) || |shortCode.value| > MaxCodeLength)
      ensures r.Failure? ==> rows == old(rows) && nextId == old(nextId)
      ensures r.Failure? && shortCode.Some? && shortCode.value in old(Codes()) ==> r.error == IntegrityError
      ensures r.Success? ==>
        && r.value == ShortUrl(old(nextId), originalUrl, SavedCode(shortCode, draws, old(Codes())),
                               user, 0, true, expiresAt, now, now)
        && rows == old(rows) + [r.value]
        && nextId == old(nextId) + 1
    {
      var code: string;
      if shortCode.Some? && shortCode.value != "" {
        code := shortCode.value;
      } else {
        code := AssignShortCode(draws, Codes());
      }
      if code in Codes() {
        return Failure(IntegrityError);
      }
      if |code| > MaxCodeLength {
        return Failure(DataError);
      }
      var row := ShortUrl(nextId, originalUrl, code, user, 0, true, expiresAt, now, now);
      assert forall i :: 0 <= i < |rows| ==> rows[i].shortCode in Codes();
      rows := rows + [row];
      nextId := nextId + 1;
      r := Success(row);
    }

    /** `increment_click_count` on row `k`: its count rises by one and nothing
        else of the table changes. */
    method IncrementClickCount(k: nat)
      requires Valid() && k < |rows|
      modifies this
      ensures rows == old(rows)[k := old(rows)[k].(clickCount := old(rows)[k].clickCount + 1)]
      ensures nextId == old(nextId)
      ensures Valid()
    {
      rows := rows[k := rows[k].(clickCount := rows[k].clickCount + 1)];
    }
  }
}

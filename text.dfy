/** String operations the client and the server rely on: JavaScript's
    `indexOf`/`split`/`join`/`startsWith`, number-to-decimal conversion,
    and Python's `str.strip` and `str.isalnum` restricted to the
    characters this model covers. */
module Text {
  import opened Wrappers

  /** `sep` occurs in `s` starting at index `i`. */
  predicate OccursAt(s: string, sep: string, i: nat) {
    i + |sep| <= |s| && s[i..i + |sep|] == sep
  }

  predicate StartsWith(s: string, prefix: string) {
    |prefix| <= |s| && s[..|prefix|] == prefix
  }

  /** The first index at or after `from` where `sep` occurs. */
  function IndexOfFrom(s: string, sep: string, from: nat): (r: Option<nat>)
    decreases |s| - from
    ensures r.Some? ==> from <= r.value && OccursAt(s, sep, r.value)
    ensures r.Some? ==> forall j :: from <= j < r.value ==> !OccursAt(s, sep, j)
    ensures r.None? ==> forall j :: from <= j ==> !OccursAt(s, sep, j)
  {
    if from + |sep| > |s| then None
    else if s[from..from + |sep|] == sep then Some(from)
    else IndexOfFrom(s, sep, from + 1)
  }

  /** `s.indexOf(sep)`, with `None` for -1. */
  function IndexOf(s: string, sep: string): Option<nat> {
    IndexOfFrom(s, sep, 0)
  }

  /** No occurrence of `sep` starts before `i`, so the prefix `s[..i]` holds none. */
  lemma NoOccurrenceInPrefix(s: string, sep: string, i: nat)
    requires sep != "" && i <= |s|
    requires forall j :: 0 <= j < i ==> !OccursAt(s, sep, j)
    ensures IndexOf(s[..i], sep).None?
  {
    var r := IndexOf(s[..i], sep);
    if r.Some? {
      var j := r.value;
      assert s[..i][j..j + |sep|] == s[j..j + |sep|];
      assert OccursAt(s, sep, j);
    }
  }

  /** The text before the first occurrence of `sep`, or all of `s`. */
  function Before(s: string, sep: string): (r: string)
    requires sep != ""
    ensures StartsWith(s, r)
    ensures IndexOf(r, sep).None?
    ensures |r| < |s| ==> OccursAt(s, sep, |r|)
  {
    match IndexOf(s, sep)
    case None => s
    case Some(i) => NoOccurrenceInPrefix(s, sep, i); s[..i]
  }

  /** `parts.join(sep)`. */
  function Join(parts: seq<string>, sep: string): string {
    if parts == [] then ""
    else if |parts| == 1 then parts[0]
    else parts[0] + sep + Join(parts[1..], sep)
  }

  /** `s.split(sep)` for a non-empty separator. */
  function Split(s: string, sep: string): (parts: seq<string>)
    requires sep != ""
    decreases |s|
    ensures |parts| >= 1
    ensures Join(parts, sep) == s
    ensures forall k :: 0 <= k < |parts| ==> IndexOf(parts[k], sep).None?
    ensures parts[0] == Before(s, sep)
  {
    match IndexOf(s, sep)
    case None => [s]
    case Some(i) =>
      NoOccurrenceInPrefix(s, sep, i);
      var rest := Split(s[i + |sep|..], sep);
      assert s == s[..i] + sep + s[i + |sep|..] by {
        assert s == s[..i] + s[i..i + |sep|] + s[i + |sep|..];
      }
      assert ([s[..i]] + rest)[1..] == rest;
      [s[..i]] + rest
  }

  /** Splitting yields a single part exactly when the separator does not occur. */
  lemma SplitSingle(s: string, sep: string)
    requires sep != ""
    ensures |Split(s, sep)| == 1 <==> IndexOf(s, sep).None?
  {
    match IndexOf(s, sep)
    case None =>
    case Some(i) =>
      assert Split(s, sep) == [s[..i]] + Split(s[i + |sep|..], sep);
  }

  /** Two occurrences that do not overlap give at least three parts. */
  lemma {:induction false} SplitTwoOccurrences(s: string, sep: string, i: nat, j: nat)
    requires sep != ""
    requires OccursAt(s, sep, i) && OccursAt(s, sep, j) && i + |sep| <= j
    ensures |Split(s, sep)| >= 3
  {
    var f := IndexOf(s, sep).value;
    assert f <= i;
    var rest := s[f + |sep|..];
    var j' := j - f - |sep|;
    assert rest[j'..j' + |sep|] == s[j..j + |sep|];
    assert OccursAt(rest, sep, j');
    SplitSingle(rest, sep);
    assert Split(s, sep) == [s[..f]] + Split(rest, sep);
  }

  /** Text before the first `c`: `s.split(c)[0]` for a single character. */
  function TakeUntil(s: string, c: char): (r: string)
    ensures StartsWith(s, r) && c !in r
    ensures |r| == |s| || s[|r|] == c
  {
    var r := Before(s, [c]);
    assert c !in r by {
      if c in r {
        var k :| 0 <= k < |r| && r[k] == c;
        assert r[k..k + 1] == [c];
        assert OccursAt(r, [c], k);
      }
    }
    r
  }

  // ---------------------------------------------------------------- numbers

  predicate IsDigit(c: char) { '0' <= c <= '9' }

  predicate IsDigits(s: string) { forall i :: 0 <= i < |s| ==> IsDigit(s[i]) }

  function DigitChar(d: nat): (c: char)
    requires d < 10
    ensures IsDigit(c)
  {
    ('0' as int + d) as char
  }

  function DigitValue(c: char): (d: nat)
    requires IsDigit(c)
    ensures d < 10 && DigitChar(d) == c
  {
    c as int - '0' as int
  }

  /** `n.toString()` / `str(n)` for a natural number. */
  function Decimal(n: nat): (s: string)
    ensures |s| >= 1 && IsDigits(s)
    ensures s[0] == '0' ==> n == 0
  {
    if n < 10 then [DigitChar(n)] else Decimal(n / 10) + [DigitChar(n % 10)]
  }

  /** Reads a string of digits back as a number. */
  function ParseDecimal(s: string): nat
    requires IsDigits(s)
  {
    if s == "" then 0 else 10 * ParseDecimal(s[..|s| - 1]) + DigitValue(s[|s| - 1])
  }

  lemma {:induction false} ParseDecimalOfDecimal(n: nat)
    ensures ParseDecimal(Decimal(n)) == n
  {
    if n >= 10 {
      var s := Decimal(n);
      assert s[..|s| - 1] == Decimal(n / 10);
      ParseDecimalOfDecimal(n / 10);
    }
  }

  /** Distinct numbers have distinct decimal strings. */
  lemma DecimalInjective(a: nat, b: nat)
    ensures Decimal(a) == Decimal(b) <==> a == b
  {
    ParseDecimalOfDecimal(a);
    ParseDecimalOfDecimal(b);
  }

  /** JavaScript's `String(n)` for an integral number. */
  function IntToString(n: int): (s: string)
    ensures n >= 0 ==> s == Decimal(n)
    ensures n < 0 ==> s == "-" + Decimal(-n)
  {
    if n < 0 then "-" + Decimal(-n) else Decimal(n)
  }

  // ----------------------------------------------------- Python string tests

  /** Python's `str.isspace` on one character, for the Latin-1 range. */
  predicate IsSpace(c: char) {
    var x := c as int;
    (9 <= x <= 13) || (28 <= x <= 32) || x == 0x85 || x == 0xA0
  }

  function TrimStart(s: string): (r: string)
    ensures |r| <= |s| && r == s[|s| - |r|..]
    ensures r != "" ==> !IsSpace(r[0])
    ensures forall i :: 0 <= i < |s| - |r| ==> IsSpace(s[i])
  {
    if s != "" && IsSpace(s[0]) then TrimStart(s[1..]) else s
  }

  function TrimEnd(s: string): (r: string)
    ensures |r| <= |s| && r == s[..|r|]
    ensures r != "" ==> !IsSpace(r[|r| - 1])
    ensures forall i :: |r| <= i < |s| ==> IsSpace(s[i])
  {
    if s != "" && IsSpace(s[|s| - 1]) then TrimEnd(s[..|s| - 1]) else s
  }

  /** Python's `s.strip()`. */
  function Trim(s: string): (r: string)
    ensures r == "" <==> forall i :: 0 <= i < |s| ==> IsSpace(s[i])
    ensures r != "" ==> !IsSpace(r[0]) && !IsSpace(r[|r| - 1])
    ensures |r| <= |s|
  {
    var t := TrimStart(s);
    var r := TrimEnd(t);
    r
  }

  function LowerChar(c: char): char {
    if 'A' <= c <= 'Z' then (c as int + 32) as char else c
  }

  /** ASCII lower case, as a `Headers` object stores a header name and as
      `urlsplit` reports a scheme. */
  function Lower(s: string): (r: string)
    ensures |r| == |s| && forall i :: 0 <= i < |s| ==> r[i] == LowerChar(s[i])
  {
    seq(|s|, i requires 0 <= i < |s| => LowerChar(s[i]))
  }

  /** Text with no capital letter is its own lower case. */
  lemma LowerKeeps(s: string)
    requires forall k :: 0 <= k < |s| ==> IsLowerOrOther(s[k])
    ensures Lower(s) == s
  {
  }

  predicate IsLowerOrOther(c: char) {
    !('A' <= c <= 'Z')
  }

  predicate IsAsciiLetter(c: char) {
    ('a' <= c <= 'z') || ('A' <= c <= 'Z')
  }

  predicate IsAsciiAlnum(c: char) {
    ('a' <= c <= 'z') || ('A' <= c <= 'Z') || ('0' <= c <= '9')
  }

  /** Python's `str.isalnum` on one character of the Latin-1 range: the ASCII
      letters and digits, the Latin-1 letters (ª, µ, º, À to Ö, Ø to ö, ø to ÿ)
      and the Latin-1 numerals (², ³, ¹, ¼, ½, ¾). */
  predicate IsAlnumChar(c: char) {
    var x := c as int;
    || IsAsciiAlnum(c)
    || x == 0xAA || x == 0xB5 || x == 0xBA
    || (0xC0 <= x <= 0xD6) || (0xD8 <= x <= 0xF6) || (0xF8 <= x <= 0xFF)
    || x == 0xB2 || x == 0xB3 || x == 0xB9 || (0xBC <= x <= 0xBE)
  }

  /** Python's `s.isalnum()`: non-empty, letters and numerals only. */
  predicate IsAlnum(s: string) {
    |s| > 0 && forall i :: 0 <= i < |s| ==> IsAlnumChar(s[i])
  }

  /** Stripping leaves text without whitespace at either end as it is. */
  lemma TrimKeeps(s: string)
    requires s == "" || (!IsSpace(s[0]) && !IsSpace(s[|s| - 1]))
    ensures Trim(s) == s
  {
    assert TrimStart(s) == s;
    assert TrimEnd(s) == s;
  }

  /** An alphanumeric text is already stripped and holds no NUL. */
  lemma AlnumIsStripped(s: string)
    requires IsAlnum(s)
    ensures s != "" && Trim(s) == s && '\0' !in s
  {
    AlnumCharIsPlain(s[0]);
    AlnumCharIsPlain(s[|s| - 1]);
    TrimKeeps(s);
    forall i | 0 <= i < |s|
      ensures s[i] != '\0'
    {
      AlnumCharIsPlain(s[i]);
    }
  }

  /** A letter or numeral is neither whitespace nor NUL. */
  lemma AlnumCharIsPlain(c: char)
    requires IsAlnumChar(c)
    ensures !IsSpace(c) && c != '\0'
  {
  }
}

/** Parsed JSON values as the browser sees them, with the JavaScript
    conversions the client applies to them: truthiness, `String(v)`,
    property access, `Object.values`/`Object.entries`, `Array.prototype.flat`
    and `Array.prototype.join`. */
module Json {
  import opened Wrappers
  import opened Text

  /** A value `JSON.parse` can produce. Numbers are integral here. */
  datatype Json =
    | JNull
    | JBool(b: bool)
    | JNum(n: int)
    | JStr(s: string)
    | JArr(items: seq<Json>)
    | JObj(fields: seq<(string, Json)>)

  /** JavaScript truthiness. */
  predicate Truthy(j: Json) {
    match j
    case JNull => false
    case JBool(b) => b
    case JNum(n) => n != 0
    case JStr(s) => s != ""
    case JArr(_) => true
    case JObj(_) => true
  }

  /** `String(j)`; an array is its elements joined by "," with null shown as "". */
  function ToJsString(j: Json): string
    decreases j
  {
    match j
    case JNull => "null"
    case JBool(b) => if b then "true" else "false"
    case JNum(n) => IntToString(n)
    case JStr(s) => s
    case JArr(xs) =>
      Join(seq(|xs|, i requires 0 <= i < |xs| => if xs[i].JNull? then "" else ToJsString(xs[i])), ",")
    case JObj(_) => "[object Object]"
  }

  /** How `Array.prototype.join` shows one element. */
  function ElementString(x: Json): string {
    if x.JNull? then "" else ToJsString(x)
  }

  /** `xs.join(sep)`. */
  function JoinValues(xs: seq<Json>, sep: string): string {
    Join(seq(|xs|, i requires 0 <= i < |xs| => ElementString(xs[i])), sep)
  }

  /** The first field named `key`. */
  function Lookup(fields: seq<(string, Json)>, key: string): (r: Option<Json>)
    ensures r.Some? ==> exists k :: 0 <= k < |fields| && fields[k] == (key, r.value)
    ensures r.None? <==> forall k :: 0 <= k < |fields| ==> fields[k].0 != key
  {
    if fields == [] then None
    else if fields[0].0 == key then Some(fields[0].1)
    else
      var r := Lookup(fields[1..], key);
      assert forall k :: 1 <= k < |fields| ==> fields[k] == fields[1..][k - 1];
      r
  }

  /** `j[key]` on a non-null value; `None` is `undefined`. */
  function Get(j: Json, key: string): (r: Option<Json>)
    ensures !j.JObj? ==> r.None?
  {
    match j
    case JObj(fs) => Lookup(fs, key)
    case _ => None
  }

  /** `Object.entries(j)` on a non-null value. */
  function Entries(j: Json): (r: seq<(string, Json)>)
    ensures j.JObj? ==> r == j.fields
    ensures j.JArr? ==> |r| == |j.items| && forall i :: 0 <= i < |r| ==> r[i] == (Decimal(i), j.items[i])
    ensures j.JStr? ==> |r| == |j.s| && forall i :: 0 <= i < |r| ==> r[i] == (Decimal(i), JStr([j.s[i]]))
    ensures j.JNull? || j.JBool? || j.JNum? ==> r == []
  {
    match j
    case JObj(fs) => fs
    case JArr(xs) => seq(|xs|, i requires 0 <= i < |xs| => (Decimal(i), xs[i]))
    case JStr(s) => seq(|s|, i requires 0 <= i < |s| => (Decimal(i), JStr([s[i]])))
    case _ => []
  }

  /** `Object.values(j)` on a non-null value: the entries' values, in order. */
  function Values(j: Json): (r: seq<Json>)
    ensures |r| == |Entries(j)|
    ensures forall i :: 0 <= i < |r| ==> r[i] == Entries(j)[i].1
  {
    var es := Entries(j);
    seq(|es|, i requires 0 <= i < |es| => es[i].1)
  }

  /** `xs.flat()`: array elements are spread one level, other values kept. */
  function Flat(xs: seq<Json>): (r: seq<Json>)
    ensures (forall i :: 0 <= i < |xs| ==> !xs[i].JArr?) ==> r == xs
  {
    if xs == [] then []
    else if xs[0].JArr? then xs[0].items + Flat(xs[1..])
    else [xs[0]] + Flat(xs[1..])
  }

  /** Thrown by `data.detail` when `data` is `null` (the V8 wording). */
  const NullDetailError := "Cannot read properties of null (reading 'detail')"

  /** `Object.values(data).flat().join(', ')`. */
  function FlatValuesText(data: Json): string {
    JoinValues(Flat(Values(data)), ", ")
  }

  predicate HasTruthyDetail(data: Json) {
    var d := Get(data, "detail");
    d.Some? && Truthy(d.value)
  }

  /** The message of `new Error(data.detail || Object.values(data).flat().join(', ') || fallback)`;
      a `Failure` is the TypeError thrown when `data` is null. */
  function ErrorText(data: Json, fallback: string): (r: Result<string, string>)
    ensures r.Failure? <==> data.JNull?
    ensures r.Failure? ==> r.error == NullDetailError
    ensures !data.JNull? && HasTruthyDetail(data) ==> r.value == ToJsString(Get(data, "detail").value)
    ensures !data.JNull? && !HasTruthyDetail(data) && FlatValuesText(data) != "" ==> r.value == FlatValuesText(data)
    ensures !data.JNull? && !HasTruthyDetail(data) && FlatValuesText(data) == "" ==> r.value == fallback
  {
    if data.JNull? then Failure(NullDetailError)
    else if HasTruthyDetail(data) then Success(ToJsString(Get(data, "detail").value))
    else if FlatValuesText(data) != "" then Success(FlatValuesText(data))
    else Success(fallback)
  }

  // ------------------------------------------- field-keyed validation errors

  /** Strings as JSON string values. */
  function Strs(ms: seq<string>): (r: seq<Json>)
    ensures |r| == |ms| && forall k :: 0 <= k < |ms| ==> r[k] == JStr(ms[k])
  {
    seq(|ms|, k requires 0 <= k < |ms| => JStr(ms[k]))
  }

  /** A `{field: [message, ...], ...}` error object. */
  function FieldErrorsBody(errors: seq<(string, seq<string>)>): (r: Json)
    ensures r.JObj? && |r.fields| == |errors|
    ensures forall i :: 0 <= i < |errors| ==> r.fields[i] == (errors[i].0, JArr(Strs(errors[i].1)))
  {
    JObj(seq(|errors|, i requires 0 <= i < |errors| => (errors[i].0, JArr(Strs(errors[i].1)))))
  }

  /** All messages of a field-keyed error object, field by field. */
  function AllMessages(errors: seq<(string, seq<string>)>): seq<string> {
    if errors == [] then [] else errors[0].1 + AllMessages(errors[1..])
  }

  lemma {:induction false} FlatOfFieldErrors(errors: seq<(string, seq<string>)>)
    ensures Flat(Values(FieldErrorsBody(errors))) == Strs(AllMessages(errors))
  {
    if errors != [] {
      var head := JArr(Strs(errors[0].1));
      var vs' := Values(FieldErrorsBody(errors[1..]));
      ValuesOfFieldErrorsCons(errors);
      FlatCons(head, vs');
      FlatOfFieldErrors(errors[1..]);
      StrsAppend(errors[0].1, AllMessages(errors[1..]));
    }
  }

  lemma ValuesOfFieldErrorsCons(errors: seq<(string, seq<string>)>)
    requires errors != []
    ensures Values(FieldErrorsBody(errors)) == [JArr(Strs(errors[0].1))] + Values(FieldErrorsBody(errors[1..]))
  {
    var vs := Values(FieldErrorsBody(errors));
    var vs' := Values(FieldErrorsBody(errors[1..]));
    assert |vs| == 1 + |vs'|;
    forall i | 0 <= i < |vs'| ensures vs[i + 1] == vs'[i] {
      assert errors[1..][i] == errors[i + 1];
    }
  }

  lemma FlatCons(x: Json, xs: seq<Json>)
    requires x.JArr?
    ensures Flat([x] + xs) == x.items + Flat(xs)
  {
    assert ([x] + xs)[1..] == xs;
  }

  lemma StrsAppend(a: seq<string>, b: seq<string>)
    ensures Strs(a + b) == Strs(a) + Strs(b)
  {
  }

  /** For an error object without a `detail` field, the message lists every
      field's messages in order, separated by ", ", or is the fallback when
      that text is empty. */
  lemma FieldErrorsMessage(errors: seq<(string, seq<string>)>, fallback: string)
    requires forall i :: 0 <= i < |errors| ==> errors[i].0 != "detail"
    ensures var text := Join(AllMessages(errors), ", ");
      ErrorText(FieldErrorsBody(errors), fallback) == Success(if text == "" then fallback else text)
  {
    NoDetailField(errors);
    FlatValuesTextOfFieldErrors(errors);
  }

  lemma NoDetailField(errors: seq<(string, seq<string>)>)
    requires forall i :: 0 <= i < |errors| ==> errors[i].0 != "detail"
    ensures !HasTruthyDetail(FieldErrorsBody(errors))
  {
    var body := FieldErrorsBody(errors);
    forall k | 0 <= k < |body.fields| ensures body.fields[k].0 != "detail" {
      assert body.fields[k].0 == errors[k].0;
    }
  }

  lemma FlatValuesTextOfFieldErrors(errors: seq<(string, seq<string>)>)
    ensures FlatValuesText(FieldErrorsBody(errors)) == Join(AllMessages(errors), ", ")
  {
    var ms := AllMessages(errors);
    FlatOfFieldErrors(errors);
    JoinValuesOfStrs(ms, ", ");
  }

  lemma JoinValuesOfStrs(ms: seq<string>, sep: string)
    ensures JoinValues(Strs(ms), sep) == Join(ms, sep)
  {
    var xs := Strs(ms);
    var parts := seq(|xs|, i requires 0 <= i < |xs| => ElementString(xs[i]));
    assert parts == ms;
    assert JoinValues(xs, sep) == Join(parts, sep);
  }
}

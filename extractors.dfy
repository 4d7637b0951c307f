/**
 * The metadata extraction combinators of src/lib/metadata/extractors.ts.
 *
 * A transform of the source returns a value or `null`, and `null` means
 * "nothing found". For the generic combinators (`findAndExtract`, `find`)
 * `null` is `None`; for transforms whose results are JSON values it is the
 * JSON value `Null`. The DOM, `JSON.parse`, `JSON.stringify` and the jsonpath
 * library are outside this model: what they deliver is a parameter.
 */
module Extractors {

  import opened Wrappers
  import opened Json

  // ---------------------------------------------------------------------------
  // findAndExtract
  // ---------------------------------------------------------------------------

  /** The first non-null extraction in `xs`, or null when there is none. */
  function FirstExtracted<T, R>(extract: T -> Option<R>, xs: seq<T>): (r: Option<R>)
    ensures r.None? <==> forall j :: 0 <= j < |xs| ==> extract(xs[j]).None?
    ensures r.Some? ==> exists i :: 0 <= i < |xs| && extract(xs[i]) == r
                                   && forall j :: 0 <= j < i ==> extract(xs[j]).None?
  {
    if xs == [] then None
    else if extract(xs[0]).Some? then extract(xs[0])
    else FirstExtracted(extract, xs[1..])
  }

  /** `findAndExtract(extract)(value)`: a `for` loop that returns the first non-null extraction. */
  method FindAndExtract<T, R>(extract: T -> Option<R>, value: seq<T>) returns (r: Option<R>)
    ensures r == FirstExtracted(extract, value)
  {
    for i := 0 to |value|
      invariant FirstExtracted(extract, value[i..]) == FirstExtracted(extract, value)
    {
      var result := extract(value[i]);
      if result.Some? {
        return result;
      }
      assert value[i..][1..] == value[i + 1..];
    }
    assert value[|value|..] == [];
    return None;
  }

  /** The result is the extraction of the element at the smallest position whose extraction is non-null. */
  lemma {:induction false} FirstExtractedAt<T, R>(extract: T -> Option<R>, xs: seq<T>, i: nat)
    requires i < |xs| && extract(xs[i]).Some?
    requires forall j :: 0 <= j < i ==> extract(xs[j]).None?
    ensures FirstExtracted(extract, xs) == extract(xs[i])
  {
    if i > 0 {
      FirstExtractedAt(extract, xs[1..], i - 1);
    }
  }

  /** Once an element has extracted to a value, later elements are never consulted. */
  lemma {:induction false} FirstExtractedIgnoresRest<T, R>(extract: T -> Option<R>, xs: seq<T>, rest: seq<T>)
    requires FirstExtracted(extract, xs).Some?
    ensures FirstExtracted(extract, xs + rest) == FirstExtracted(extract, xs)
  {
    if extract(xs[0]).None? {
      assert (xs + rest)[1..] == xs[1..] + rest;
      FirstExtractedIgnoresRest(extract, xs[1..], rest);
    }
  }

  // ---------------------------------------------------------------------------
  // find
  // ---------------------------------------------------------------------------

  /** `find(p)(value)`: `value.find(p) ?? null`. */
  function Find<T>(p: T -> bool, xs: seq<T>): (r: Option<T>)
    ensures r.None? <==> forall j :: 0 <= j < |xs| ==> !p(xs[j])
    ensures r.Some? ==> exists i :: 0 <= i < |xs| && xs[i] == r.value && p(xs[i])
                                   && forall j :: 0 <= j < i ==> !p(xs[j])
  {
    if xs == [] then None
    else if p(xs[0]) then Some(xs[0])
    else Find(p, xs[1..])
  }

  /** `find(p)` is `findAndExtract` with the extraction "the element itself when it satisfies p, else null". */
  lemma {:induction false} FindIsFirstExtracted<T>(p: T -> bool, xs: seq<T>)
    ensures Find(p, xs) == FirstExtracted(x => if p(x) then Some(x) else None, xs)
  {
    if xs != [] {
      FindIsFirstExtracted(p, xs[1..]);
    }
  }

  // ---------------------------------------------------------------------------
  // jsonQuery
  // ---------------------------------------------------------------------------

  /**
   * `jsonQuery(selector)(value)` as evidently intended: the first of the
   * values the selector matches (in jsonpath's order), or null when it
   * matches none.
   */
  function JsonQuery(matches: seq<JsonValue>): (r: JsonValue)
    ensures |matches| > 0 ==> r == matches[0]
    ensures |matches| == 0 ==> r == Null
  {
    if |matches| > 0 then matches[0] else Null
  }

  /** Outcome of a JavaScript expression on a JSON value: a value, or a thrown `TypeError`. */
  datatype JsOutcome = Value(v: JsonValue) | TypeError | NotModelled

  /** jsonpath's `value(obj, selector)`: the first match itself, or `undefined` when nothing matches. */
  function JsonPathValue(matches: seq<JsonValue>): Option<JsonValue> {
    if |matches| > 0 then Some(matches[0]) else None
  }

  /**
   * The intended `jsonQuery` is jsonpath's single value with a missing match
   * turned into null (`jp.value(value, selector) ?? null`): it is one of the
   * matches or null, and matches after the first never change it.
   */
  lemma JsonQueryIsValueOrNull(matches: seq<JsonValue>, later: seq<JsonValue>)
    ensures JsonQuery(matches) == (match JsonPathValue(matches) case None => Null case Some(v) => v)
    ensures JsonQuery(matches) == Null || JsonQuery(matches) in matches
    ensures matches != [] ==> JsonQuery(matches + later) == JsonQuery(matches)
  {
    if matches != [] {
      assert (matches + later)[0] == matches[0];
    }
  }

  /**
   * `jsonQuery` as written: `values = jp.value(value, selector)` is a single
   * match, not the list of matches, and `values.length > 0 ? values[0] : null`
   * then reads the match's own `length` and element or character 0.
   */
  function JsonQueryAsWritten(matches: seq<JsonValue>): JsOutcome {
    match JsonPathValue(matches)
    case None => TypeError                   // undefined.length
    case Some(Null) => TypeError             // null.length
    case Some(Str(s)) => if |s| > 0 then Value(Str([s[0]])) else Value(Null)
    case Some(Arr(items)) => if |items| > 0 then Value(items[0]) else Value(Null)
    case Some(Obj(members)) =>
      if "length" !in Keys(members) then Value(Null)   // undefined > 0 is false
      else NotModelled                               // a record with its own "length" member
    case Some(_) => Value(Null)                      // numbers and booleans have no length
  }

  /**
   * The discrepancy: on `{"name": "Alice"}` the selector `$.name` matches the
   * single string "Alice"; the evident intent returns "Alice", the code as
   * written returns its first character "A".
   */
  lemma JsonQueryTruncatesStrings()
    ensures JsonQuery([Str("Alice")]) == Str("Alice")
    ensures JsonQueryAsWritten([Str("Alice")]) == Value(Str("A"))
  {
  }

  /** And when nothing matches, the code as written throws instead of returning null. */
  lemma JsonQueryThrowsOnNoMatch()
    ensures JsonQuery([]) == Null
    ensures JsonQueryAsWritten([]) == TypeError
  {
  }

  /**
   * For every list of matches: the code as written throws exactly when nothing
   * matches or the first match is null, and it departs from the intended
   * result whenever the first match is a string of two or more characters, a
   * number or a boolean.
   */
  lemma JsonQueryAsWrittenDiffers(matches: seq<JsonValue>)
    ensures JsonQueryAsWritten(matches) == TypeError <==> matches == [] || matches[0] == Null
    ensures forall s :: matches != [] && matches[0] == Str(s) && |s| >= 2 ==>
      JsonQueryAsWritten(matches) != Value(JsonQuery(matches))
    ensures matches != [] && (matches[0].Num? || matches[0].Bool?) ==>
      JsonQueryAsWritten(matches) == Value(Null) != Value(JsonQuery(matches))
  {
    if matches != [] && matches[0].Str? {
      var s := matches[0].s;
      if |s| >= 2 {
        assert [s[0]] != s by { assert |[s[0]]| == 1; }
      }
    }
  }

  // ---------------------------------------------------------------------------
  // stringify
  // ---------------------------------------------------------------------------

  /** `stringify`: strings unchanged, every other value through `JSON.stringify` (the `serialize` parameter). */
  function Stringify(serialize: JsonValue -> string, value: JsonValue): (r: string)
    ensures value.Str? ==> r == value.s
    ensures !value.Str? ==> r == serialize(value)
  {
    if value.Str? then value.s else serialize(value)
  }

  /** Stringifying the string `stringify` produced changes nothing. */
  lemma StringifyIdempotent(serialize: JsonValue -> string, value: JsonValue)
    ensures forall s :: Stringify(serialize, Str(s)) == s
    ensures Stringify(serialize, Str(Stringify(serialize, value))) == Stringify(serialize, value)
  {
  }

  // ---------------------------------------------------------------------------
  // innerHTML, textContent: trim, and empty becomes null
  // ---------------------------------------------------------------------------

  /** The characters `String.prototype.trim` removes: ECMAScript WhiteSpace and LineTerminator. */
  predicate IsWhiteSpace(c: char) {
    || c == '\t' || c == '\n' || c == '\U{000B}' || c == '\U{000C}' || c == '\r' || c == ' '
    || c == '\U{00A0}' || c == '\U{1680}' || ('\U{2000}' <= c <= '\U{200A}')
    || c == '\U{2028}' || c == '\U{2029}' || c == '\U{202F}' || c == '\U{205F}'
    || c == '\U{3000}' || c == '\U{FEFF}'
  }

  /** `s` without its leading white space. */
  function TrimStart(s: string): (r: string)
    ensures |r| <= |s| && r == s[|s| - |r|..]
    ensures forall k :: 0 <= k < |s| - |r| ==> IsWhiteSpace(s[k])
    ensures r != [] ==> !IsWhiteSpace(r[0])
  {
    if s != [] && IsWhiteSpace(s[0]) then TrimStart(s[1..]) else s
  }

  /** `s` without its trailing white space. */
  function TrimEnd(s: string): (r: string)
    ensures |r| <= |s| && r == s[..|r|]
    ensures forall k :: |r| <= k < |s| ==> IsWhiteSpace(s[k])
    ensures r != [] ==> !IsWhiteSpace(r[|r| - 1])
  {
    if s != [] && IsWhiteSpace(s[|s| - 1]) then TrimEnd(s[..|s| - 1]) else s
  }

  /** `s.trim()`. */
  function Trim(s: string): string {
    TrimEnd(TrimStart(s))
  }

  /** The number of white-space characters `trim()` removes from the front of `s`. */
  function Leading(s: string): nat {
    |s| - |TrimStart(s)|
  }

  /** `trim()` removes white space at both ends and nothing else. */
  lemma TrimSpec(s: string)
    ensures Leading(s) + |Trim(s)| <= |s| && Trim(s) == s[Leading(s)..Leading(s) + |Trim(s)|]
    ensures forall k :: 0 <= k < Leading(s) ==> IsWhiteSpace(s[k])
    ensures forall k :: Leading(s) + |Trim(s)| <= k < |s| ==> IsWhiteSpace(s[k])
    ensures Trim(s) != [] ==> !IsWhiteSpace(Trim(s)[0]) && !IsWhiteSpace(Trim(s)[|Trim(s)| - 1])
  {
    var u := TrimStart(s);
    var i := Leading(s);
    var t := Trim(s);
    assert t == u[..|t|];
    assert t == s[i..i + |t|];
    forall k | i + |t| <= k < |s| ensures IsWhiteSpace(s[k]) {
      assert s[k] == u[k - i];
    }
  }

  /** `text.trim() || null`: the trimmed text, or null when nothing but white space is left. */
  function TrimOrNull(text: string): (r: Option<string>)
    ensures r.None? <==> forall k :: 0 <= k < |text| ==> IsWhiteSpace(text[k])
    ensures r.Some? ==> r.value == Trim(text) && r.value != ""
  {
    TrimEmptyIffWhiteSpace(text);
    var t := Trim(text);
    if t == "" then None else Some(t)
  }

  /** A string trims to "" exactly when it is all white space. */
  lemma TrimEmptyIffWhiteSpace(s: string)
    ensures Trim(s) == "" <==> forall k :: 0 <= k < |s| ==> IsWhiteSpace(s[k])
  {
    var u := TrimStart(s);
    if u != [] {
      assert !IsWhiteSpace(s[|s| - |u|]);
    }
  }

  /** `innerHTML` of an element whose markup is `html`. */
  function InnerHtml(html: string): (r: Option<string>)
    ensures r.None? <==> forall k :: 0 <= k < |html| ==> IsWhiteSpace(html[k])
    ensures r.Some? ==> r.value == Trim(html) && r.value != ""
  {
    TrimOrNull(html)
  }

  /** `textContent` of an element whose `textContent` is `text` (null for documents and doctypes). */
  function TextContent(text: Option<string>): (r: Option<string>)
    ensures text.None? ==> r.None?
    ensures text.Some? ==> (r.None? <==> forall k :: 0 <= k < |text.value| ==> IsWhiteSpace(text.value[k]))
    ensures r.Some? ==> text.Some? && r.value == Trim(text.value) && r.value != ""
  {
    match text
    case None => None
    case Some(t) => TrimOrNull(t)
  }

  // ---------------------------------------------------------------------------
  // fromJSON
  // ---------------------------------------------------------------------------

  /** `fromJSON`: `JSON.parse` (the `parse` parameter, `None` when it throws), with a failure turned into null. */
  function FromJson(parse: string -> Option<JsonValue>, text: string): (r: JsonValue)
    ensures parse(text).None? ==> r == Null
    ensures parse(text).Some? ==> r == parse(text).value
  {
    match parse(text)
    case None => Null
    case Some(v) => v
  }

  /**
   * A parse failure gives null rather than an error, a successful parse gives
   * the parsed value, and so a null result means the text did not parse or
   * parsed to the JSON `null`.
   */
  lemma FromJsonNull(parse: string -> Option<JsonValue>, text: string)
    ensures parse(text).None? ==> FromJson(parse, text) == Null
    ensures parse(text).Some? ==> FromJson(parse, text) == parse(text).value
    ensures FromJson(parse, text) == Null <==> parse(text) == None || parse(text) == Some(Null)
  {
  }
}

/**
 * JavaScript values as they reach the audit log and the server's JSON
 * bodies, with the two conversions the application applies to them:
 * `JSON.stringify` (section 25.5.2 of ECMA-262) and `String(v)`.
 * Numbers are integers here; fractional numbers are not modelled.
 */
module Json {
  import opened Wrappers
  import opened JsStrings

  datatype Json =
    | JUndefined
    | JNull
    | JBool(b: bool)
    | JNumber(n: int)
    | JString(s: string)
    | JArray(elems: seq<Json>)
    | JObject(members: seq<(string, Json)>)

  /** `typeof v` */
  function TypeOf(v: Json): string {
    match v
    case JUndefined => "undefined"
    case JNull => "object"
    case JBool(_) => "boolean"
    case JNumber(_) => "number"
    case JString(_) => "string"
    case JArray(_) => "object"
    case JObject(_) => "object"
  }

  function HexDigit(d: nat): char
    requires d < 16
  {
    "0123456789abcdef"[d]
  }

  /** One code unit inside a JSON string literal (QuoteJSONString) */
  function EscapeChar(c: char): string {
    if c == '"' then "\\\""
    else if c == '\\' then "\\\\"
    else if c == '\U{0008}' then "\\b"
    else if c == '\t' then "\\t"
    else if c == '\n' then "\\n"
    else if c == '\U{000C}' then "\\f"
    else if c == '\r' then "\\r"
    else if (c as int) < 0x20 then "\\u00" + [HexDigit((c as int) / 16), HexDigit((c as int) % 16)]
    else [c]
  }

  function EscapeString(s: string): string
    decreases |s|
  {
    if |s| == 0 then "" else EscapeChar(s[0]) + EscapeString(s[1..])
  }

  function Quote(s: string): string {
    "\"" + EscapeString(s) + "\""
  }

  /** `JSON.stringify(v)` for a value that is not `undefined`; `undefined`
      array elements print as `null` and `undefined` members are dropped. */
  function Stringify(v: Json): (r: string)
    requires !v.JUndefined?
    ensures |r| > 0
    decreases v
  {
    match v
    case JNull => "null"
    case JBool(b) => if b then "true" else "false"
    case JNumber(n) => IntToString(n)
    case JString(s) => Quote(s)
    case JArray(elems) =>
      "[" + Join(seq(|elems|, i requires 0 <= i < |elems| =>
                       if elems[i].JUndefined? then "null" else Stringify(elems[i])), ",") + "]"
    case JObject(members) =>
      var kept := Defined(members);
      "{" + Join(seq(|kept|, i requires 0 <= i < |kept| =>
                       Quote(kept[i].0) + ":" + Stringify(kept[i].1)), ",") + "}"
  }

  /** The members `JSON.stringify` prints, in order: those not `undefined` */
  function Defined(members: seq<(string, Json)>): (kept: seq<(string, Json)>)
    ensures forall k :: 0 <= k < |kept| ==> kept[k] in members && !kept[k].1.JUndefined?
    decreases |members|
  {
    if |members| == 0 then []
    else if members[0].1.JUndefined? then Defined(members[1..])
    else [members[0]] + Defined(members[1..])
  }

  /** An object with one defined member prints as that member alone. */
  lemma StringifyOneMember(key: string, v: Json)
    requires !v.JUndefined?
    ensures Stringify(JObject([(key, v)])) == "{" + Quote(key) + ":" + Stringify(v) + "}"
  {
    var members := [(key, v)];
    assert members[1..] == [];
    assert Defined(members) == members;
    var items := seq(1, i requires 0 <= i < 1 => Quote(members[i].0) + ":" + Stringify(members[i].1));
    assert items == [Quote(key) + ":" + Stringify(v)];
  }

  /** An object whose only member is `undefined` prints as `{}`. */
  lemma StringifyUndefinedMember(key: string)
    ensures Stringify(JObject([(key, JUndefined)])) == "{}"
  {
    var members := [(key, JUndefined)];
    assert members[1..] == [];
    assert Defined(members) == [];
  }

  /** `String(v)` */
  function ToJsString(v: Json): (r: string)
    ensures v.JString? ==> r == v.s
    ensures v.JNumber? ==> ParseInt(r) == Some(v.n)
    decreases v
  {
    match v
    case JUndefined => "undefined"
    case JNull => "null"
    case JBool(b) => if b then "true" else "false"
    case JNumber(n) => ParseIntOfIntToString(n); IntToString(n)
    case JString(s) => s
    case JArray(elems) =>
      Join(seq(|elems|, i requires 0 <= i < |elems| =>
                 if elems[i].JUndefined? || elems[i].JNull? then "" else ToJsString(elems[i])), ",")
    case JObject(_) => "[object Object]"
  }
}

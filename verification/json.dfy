/**
 * JSON values as `JSON.parse` produces them, and the JavaScript coercions the
 * client applies to them: truthiness, `String(value)` and `Object.entries`.
 *
 * Parsing itself is never modelled: every operation that parses takes the
 * parser as a parameter `parse: string -> Option<Json>` (None = it throws).
 */
module Json {
  import opened Wrappers
  import opened Text

  /**
   * A JSON value. A number is held as the text JavaScript's `String()` gives it
   * (`1.0` parses to the number printed `1`); objects list their own entries in
   * enumeration order, with distinct keys.
   */
  datatype Json =
    | JNull
    | JBool(b: bool)
    | JNum(repr: string)
    | JStr(s: string)
    | JArr(items: seq<Json>)
    | JObj(members: seq<Member>)

  datatype Member = Member(key: string, value: Json)

  /** Reading `value[key]`: the first member with that key, `undefined` (None) otherwise. */
  function Get(j: Json, key: string): (r: Option<Json>)
    ensures r.Some? ==> j.JObj? && exists i | 0 <= i < |j.members| :: j.members[i] == Member(key, r.value)
    ensures r.None? ==> !j.JObj? || forall i | 0 <= i < |j.members| :: j.members[i].key != key
  {
    if j.JObj? then Find(j.members, key) else None
  }

  function Find(ms: seq<Member>, key: string): (r: Option<Json>)
    ensures r.Some? ==> exists i | 0 <= i < |ms| :: ms[i] == Member(key, r.value)
    ensures r.None? ==> forall i | 0 <= i < |ms| :: ms[i].key != key
  {
    if |ms| == 0 then None
    else if ms[0].key == key then Some(ms[0].value)
    else Find(ms[1..], key)
  }

  /** Field read on an optional value; reading through `undefined` is modelled as `undefined`. */
  function GetOpt(o: Option<Json>, key: string): Option<Json> {
    if o.Some? then Get(o.value, key) else None
  }

  /** JavaScript truthiness of a JSON value (JSON has no NaN and prints -0 as "0"). */
  predicate Truthy(j: Json) {
    match j
    case JNull => false
    case JBool(b) => b
    case JNum(repr) => repr != "0"
    case JStr(s) => s != ""
    case JArr(_) => true
    case JObj(_) => true
  }

  /** Truthiness of a value that may be `undefined`. */
  predicate TruthyOpt(o: Option<Json>) {
    o.Some? && Truthy(o.value)
  }

  /** `String(value)`: arrays join their elements with "," (null as ""), objects print "[object Object]". */
  function ToStr(j: Json): string
    decreases j
  {
    match j
    case JNull => "null"
    case JBool(b) => if b then "true" else "false"
    case JNum(repr) => repr
    case JStr(s) => s
    case JObj(_) => "[object Object]"
    case JArr(items) => JoinWithComma(seq(|items|, i requires 0 <= i < |items| => if items[i] == JNull then "" else ToStr(items[i])))
  }

  /** `String(value)` where `undefined` prints as "undefined" (template literals and `+`). */
  function ToStrOpt(o: Option<Json>): string {
    if o.Some? then ToStr(o.value) else "undefined"
  }

  /** `Array.prototype.join(sep)` over strings. */
  function Join(parts: seq<string>, sep: string): string {
    if |parts| == 0 then ""
    else if |parts| == 1 then parts[0]
    else parts[0] + sep + Join(parts[1..], sep)
  }

  function JoinWithComma(parts: seq<string>): string {
    Join(parts, ",")
  }

  /** `Object.entries(value)` for a non-null value: own enumerable string-keyed entries. */
  function Entries(j: Json): (r: seq<(string, Json)>)
    ensures j.JObj? ==> |r| == |j.members| && forall i | 0 <= i < |r| :: r[i] == (j.members[i].key, j.members[i].value)
    ensures j.JNull? || j.JBool? || j.JNum? ==> r == []
  {
    match j
    case JObj(ms) => seq(|ms|, i requires 0 <= i < |ms| => (ms[i].key, ms[i].value))
    case JArr(items) => seq(|items|, i requires 0 <= i < |items| => (NatToString(i), items[i]))
    case JStr(s) => seq(|s|, i requires 0 <= i < |s| => (NatToString(i), JStr([s[i]])))
    case _ => []
  }

  /** What a decoded frame carries: the parsed JSON value, or the raw text when parsing failed. */
  datatype Payload = Parsed(json: Json) | Raw(text: string)

  /** `payload.field` as the client reads it; a string primitive has none of the fields read here. */
  function Field(p: Payload, key: string): Option<Json> {
    match p
    case Parsed(j) => Get(j, key)
    case Raw(_) => None
  }

  /** `String(payload)`. */
  function PayloadToStr(p: Payload): string {
    match p
    case Parsed(j) => ToStr(j)
    case Raw(s) => s
  }
}

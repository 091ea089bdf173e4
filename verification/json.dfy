/** JSON values as JavaScript sees them after `JSON.parse`, the few JavaScript
    coercions the app applies to them, and the JSON codec as an uninterpreted
    pair of functions. */
module JsonModel {
  import opened Wrappers
  import opened Text

  /** Numbers are integers here; the app never does arithmetic on parsed JSON. */
  datatype Json =
    | JNull
    | JBool(b: bool)
    | JNum(n: int)
    | JStr(s: string)
    | JArr(items: seq<Json>)
    | JObj(fields: map<string, Json>)

  /** JavaScript truthiness. The only falsy JSON values are `null`, `false`, `0` and `""`. */
  predicate Truthy(j: Json) {
    match j
    case JNull => false
    case JBool(b) => b
    case JNum(n) => n != 0
    case JStr(s) => s != []
    case JArr(_) => true
    case JObj(_) => true
  }

  /** Truthiness of a property read; a missing property reads as `undefined`, which is falsy. */
  predicate TruthyRead(v: Option<Json>) {
    v.Some? && Truthy(v.value)
  }

  /** `typeof j === 'object'`: true of `null`, arrays and objects. */
  predicate TypeofObject(j: Json) {
    j.JNull? || j.JArr? || j.JObj?
  }

  /** `j.key` on a value that is not `null`. The property names the app reads
      (`sessions`, `topic`, `actionId`, ...) are never array indices, `length`
      or prototype members, so only an object's own fields answer them. */
  function Field(j: Json, key: string): (r: Option<Json>)
    ensures r.Some? <==> j.JObj? && key in j.fields
    ensures r.Some? ==> r.value == j.fields[key]
  {
    match j
    case JObj(m) => if key in m then Some(m[key]) else None
    case _ => None
  }

  function DigitChar(d: nat): (c: char)
    requires d < 10
    ensures '0' <= c <= '9'
  {
    ['0', '1', '2', '3', '4', '5', '6', '7', '8', '9'][d]
  }

  /** Decimal digits of a natural number, most significant first. */
  function NatToString(n: nat): (r: string)
    ensures r != []
    ensures forall k :: 0 <= k < |r| ==> '0' <= r[k] <= '9'
  {
    if n < 10 then [DigitChar(n)] else NatToString(n / 10) + [DigitChar(n % 10)]
  }

  /** `String(n)` for an integer. */
  function IntToString(n: int): (r: string)
    ensures r != [] && !IsSpace(r[0])
  {
    if n < 0 then "-" + NatToString(-n) else NatToString(n)
  }

  /** `String(j)`. Arrays print their elements joined by `,`, with `null`
      elements printed as the empty string. */
  function ToJsString(j: Json): string
    decreases j, 1
  {
    match j
    case JNull => "null"
    case JBool(b) => if b then "true" else "false"
    case JNum(n) => IntToString(n)
    case JStr(s) => s
    case JArr(items) => JoinElements(items)
    case JObj(_) => "[object Object]"
  }

  /** `items.join(',')`. */
  function JoinElements(items: seq<Json>): string
    decreases items, 0
  {
    if items == [] then []
    else
      var head := if items[0].JNull? then [] else ToJsString(items[0]);
      if |items| == 1 then head else head + "," + JoinElements(items[1..])
  }

  /** A string as a JSON value. */
  function StringJson(x: string): Json {
    JStr(x)
  }

  /** `JSON.parse` and `JSON.stringify(value, null, indent)`: library code the
      model does not reimplement. `parse` fails with the exception's message. */
  datatype Codec = Codec(parse: string -> Result<Json, string>, stringify: (Json, nat) -> string)

  /** Whatever `stringify` writes is non-empty text that `parse` reads back as
      the same value. */
  ghost predicate Faithful(c: Codec) {
    forall j: Json, indent: nat :: c.parse(c.stringify(j, indent)) == Ok(j) && c.stringify(j, indent) != []
  }
}

/** Decoded JSON values, and the few JavaScript and Gson operations on them
    that the protocol code relies on: `typeof`, the `in` operator, property
    reads that may throw, truthiness, string conversion, and Gson's
    "parse as JsonObject". */
module Json {
  import opened Wrappers

  /** A decoded JSON value. Numbers are integers: every number the protocol
      carries is a millisecond timestamp or a count. Objects map each key to
      its value; a duplicated key in the text keeps its last value, as
      `JSON.parse` does. */
  datatype JsonValue =
    | JNull
    | JBool(b: bool)
    | JNum(n: int)
    | JStr(str: string)
    | JArr(elems: seq<JsonValue>)
    | JObj(fields: map<string, JsonValue>)

  /** A JavaScript value as seen by property reads: `undefined` or a decoded
      JSON value. */
  datatype JsRef = Undefined | Val(v: JsonValue)

  /** The thrown error of a property read on `null` or `undefined`. */
  datatype JsError = TypeError

  /** The property names the browser code reads. None of them is `length`, an
      array index, or a member of `Object.prototype`, `Array.prototype` or
      `String.prototype`, so for them `key in v` and `v[key]` only see the
      value's own JSON fields. */
  const ReadKeys: set<string> :=
    {"type", "payload", "uuid", "history", "component", "server", "name", "timestamp"}

  /** JavaScript `typeof` on a decoded JSON value (`null` and arrays are "object"). */
  function TypeOf(v: JsonValue): (t: string)
    ensures t == "object" <==> (v.JNull? || v.JArr? || v.JObj?)
  {
    match v
    case JNull => "object"
    case JBool(_) => "boolean"
    case JNum(_) => "number"
    case JStr(_) => "string"
    case JArr(_) => "object"
    case JObj(_) => "object"
  }

  /** The `key in v` operator. JavaScript throws on a primitive right operand,
      so it is only defined on objects and arrays. */
  predicate HasProperty(v: JsonValue, key: string)
    requires v.JObj? || v.JArr?
    requires key in ReadKeys
  {
    match v
    case JObj(fields) => key in fields
    case JArr(_) => false
  }

  /** A value whose properties can be read: anything but `null` and
      `undefined`, on which a property read throws a `TypeError`. */
  predicate Readable(r: JsRef) {
    !(r.Undefined? || r.v.JNull?)
  }

  /** The property read `r[key]` on a readable value: the field of an
      object, `undefined` when it is missing or the value is not an object. */
  function ReadProperty(r: JsRef, key: string): (res: JsRef)
    requires Readable(r)
    requires key in ReadKeys
    ensures res.Val? <==> r.v.JObj? && key in r.v.fields
    ensures res.Val? ==> res.v == r.v.fields[key]
  {
    match r.v
    case JObj(fields) => if key in fields then Val(fields[key]) else Undefined
    case _ => Undefined
  }

  /** JavaScript truthiness. */
  predicate Truthy(r: JsRef) {
    match r
    case Undefined => false
    case Val(JNull) => false
    case Val(JBool(b)) => b
    case Val(JNum(n)) => n != 0
    case Val(JStr(s)) => s != ""
    case Val(JArr(_)) => true
    case Val(JObj(_)) => true
  }

  function Digit(d: nat): (c: char)
    requires d < 10
    ensures '0' <= c <= '9'
  {
    "0123456789"[d]
  }

  /** Decimal notation of a natural number, without leading zeros. */
  function NatToString(n: nat): (s: string)
    ensures |s| >= 1
    ensures forall i :: 0 <= i < |s| ==> '0' <= s[i] <= '9'
    ensures |s| > 1 ==> s[0] != '0'
  {
    if n < 10 then [Digit(n)] else NatToString(n / 10) + [Digit(n % 10)]
  }

  /** Decimal notation of an integer, as Java's `Long.toString` and
      JavaScript's `String` (for integers below 10^21) write it. */
  function DecimalString(n: int): (s: string)
    ensures |s| >= 1
    ensures s[0] == '-' <==> n < 0
  {
    if n < 0 then "-" + NatToString(-n) else NatToString(n)
  }

  /** JavaScript `String(v)`, which a template literal applies to each
      substituted value. */
  function ToJsString(v: JsonValue): (text: string)
    decreases v, 1
  {
    match v
    case JNull => "null"
    case JBool(b) => if b then "true" else "false"
    case JNum(n) => DecimalString(n)
    case JStr(s) => s
    case JArr(elems) => JoinArray(elems)
    case JObj(_) => "[object Object]"
  }

  /** `Array.prototype.join(",")`: null elements print as the empty string. */
  function JoinArray(elems: seq<JsonValue>): (joined: string)
    decreases elems, 0
  {
    if |elems| == 0 then ""
    else
      var head := if elems[0].JNull? then "" else ToJsString(elems[0]);
      if |elems| == 1 then head else head + "," + JoinArray(elems[1..])
  }

  /** The largest magnitude of a valid JavaScript time value, in
      milliseconds: 8.64 * 10^15 (`TimeClip` in ECMA-262). */
  const MaxTimeValue: int := 8_640_000_000_000_000

  /** `new Date(v)` holds a valid time, so `toISOString` does not throw:
      `undefined` converts to NaN, `null` and booleans to 0 or 1, a number
      must lie within `MaxTimeValue`, and text goes through `Date.parse`,
      whose verdict `parsesAsDate` stands for. Objects and arrays are
      converted to their string first. */
  predicate ValidTime(v: JsRef, parsesAsDate: string -> bool) {
    match v
    case Undefined => false
    case Val(JNull) => true
    case Val(JBool(_)) => true
    case Val(JNum(n)) => -MaxTimeValue <= n <= MaxTimeValue
    case Val(JStr(text)) => parsesAsDate(text)
    case Val(other) => parsesAsDate(ToJsString(other))
  }

  /** An abstract JSON text codec: `encode` is Gson's `toString` of a tree,
      `decode` is a JSON parser that yields `None` on malformed text. */
  datatype JsonCodec = JsonCodec(encode: JsonValue -> string, decode: string -> Option<JsonValue>)

  /** The codec writes non-empty text for `v` and reads `v` back from it. */
  predicate RoundTrips(codec: JsonCodec, v: JsonValue) {
    codec.decode(codec.encode(v)) == Some(v) && !GsonBlank(codec.encode(v))
  }

  /** The failure of Gson's `fromJson(text, JsonObject.class)`. */
  datatype GsonError = JsonSyntaxException

  /** Text Gson's reader finds empty: nothing but JSON white space. For
      such text `fromJson` returns Java `null` instead of throwing. */
  predicate GsonBlank(text: string) {
    forall i :: 0 <= i < |text| ==> text[i] in {' ', '\t', '\n', '\r'}
  }

  /** Gson's `fromJson(text, JsonObject.class)` followed by `JsonObject.add`:
      empty text gives Java `null`, which `add` stores as `JsonNull`; an
      object is returned as is; any other value (JSON `null` included, which
      Gson reads as a `JsonNull` that is no `JsonObject`) or malformed text
      throws. */
  function GsonObjectFromJson(codec: JsonCodec, text: string): (r: Result<JsonValue, GsonError>)
    ensures GsonBlank(text) ==> r == Success(JNull)
    ensures !GsonBlank(text) ==> (r.Success? <==> codec.decode(text).Some? && codec.decode(text).value.JObj?)
    ensures !GsonBlank(text) && r.Success? ==> Some(r.value) == codec.decode(text)
    ensures r.Success? ==> r.value.JObj? || r.value.JNull?
  {
    if GsonBlank(text) then Success(JNull)
    else
      match codec.decode(text)
      case Some(JObj(fields)) => Success(JObj(fields))
      case _ => Failure(JsonSyntaxException)
  }
}

/**
 * The slice of JavaScript's value semantics the application relies on:
 * values produced by `JSON.parse` (plus `undefined`), property access with and
 * without optional chaining, truthiness, `||`, and the string conversion that
 * `+=` on a string applies to its right operand.
 */
module JsValues {

  datatype Option<T> = None | Some(value: T)

  /** A JavaScript value as it can come out of `JSON.parse`, plus `undefined`,
      which is what reading a missing property yields. Numbers are integers. */
  datatype Json =
    | JUndef
    | JNull
    | JBool(b: bool)
    | JNum(n: int)
    | JStr(s: string)
    | JArr(elems: seq<Json>)
    | JObj(fields: map<string, Json>)

  /** `JSON.parse`, left abstract: `None` stands for the SyntaxError it throws. */
  type Parser = string -> Option<Json>

  /** An exception. `Thrown(m)` is `new Error(m)` raised by the application;
      `EngineError` is one raised by the JavaScript engine or the browser
      (a TypeError from reading a property of `null`, a SyntaxError from
      `JSON.parse`, a rejected `fetch`), whose message text the model leaves open. */
  datatype Failure = Thrown(message: string) | EngineError

  datatype Result<T> = Ok(value: T) | Err(error: Failure)

  predicate Nullish(v: Json) {
    v.JUndef? || v.JNull?
  }

  /** JavaScript truthiness: `undefined`, `null`, `false`, `0` and `""` are falsy. */
  predicate Truthy(v: Json) {
    match v
    case JUndef => false
    case JNull => false
    case JBool(b) => b
    case JNum(n) => n != 0
    case JStr(s) => s != ""
    case JArr(_) => true
    case JObj(_) => true
  }

  /** `a || b` */
  function Or(a: Json, b: Json): (r: Json)
    ensures r == a || r == b
    ensures Truthy(r) <==> Truthy(a) || Truthy(b)
  {
    if Truthy(a) then a else b
  }

  /** `(a || b) || c` and `a || (b || c)` pick the same value, so a chain of
      `||` is the first truthy operand, or the last one. */
  lemma OrAssociative(a: Json, b: Json, c: Json)
    ensures Or(Or(a, b), c) == Or(a, Or(b, c))
  {
  }

  /** `v.key` (also `v[key]`) for a key that is not a built-in property name:
      `None` is the TypeError thrown for a `null` or `undefined` receiver; an
      object yields its field or `undefined`, every other value `undefined`. */
  function Get(v: Json, key: string): (r: Option<Json>)
    ensures r.None? <==> Nullish(v)
  {
    match v
    case JUndef => None
    case JNull => None
    case JObj(fields) => Some(if key in fields then fields[key] else JUndef)
    case _ => Some(JUndef)
  }

  /** `v?.key`: `undefined` for a `null` or `undefined` receiver, never throws. */
  function OptGet(v: Json, key: string): Json
  {
    if Nullish(v) then JUndef else Get(v, key).value
  }

  /** `v[0]`: an array's first element, a string's first character, an
      object's field "0"; `undefined` when there is none; `None` is the
      TypeError thrown for a `null` or `undefined` receiver. */
  function AtZero(v: Json): (r: Option<Json>)
    ensures r.None? <==> Nullish(v)
  {
    match v
    case JUndef => None
    case JNull => None
    case JArr(elems) => Some(if |elems| > 0 then elems[0] else JUndef)
    case JStr(s) => Some(if |s| > 0 then JStr([s[0]]) else JUndef)
    case JObj(fields) => Some(if "0" in fields then fields["0"] else JUndef)
    case _ => Some(JUndef)
  }

  function DigitChar(d: nat): char
    requires d < 10
  {
    "0123456789"[d]
  }

  function NatToDecimal(n: nat): (r: string)
    ensures |r| >= 1
  {
    if n < 10 then [DigitChar(n)] else NatToDecimal(n / 10) + [DigitChar(n % 10)]
  }

  /** Whether JavaScript's ToString throws a TypeError on `v`. `JSON.parse`
      can give an object an own `toString` property but never a callable one,
      so such an object hides `Object.prototype.toString` and has no usable
      conversion; an array converts through `join`, which converts every
      element that is not `null` or `undefined`. */
  predicate ConversionThrows(v: Json)
  {
    match v
    case JArr(elems) => exists i :: 0 <= i < |elems| && ConversionThrows(elems[i])
    case JObj(fields) => "toString" in fields
    case _ => false
  }

  /** JavaScript's ToString, as `str += v` applies it: arrays are joined with
      "," (with `null` and `undefined` elements as ""), plain objects turn into
      "[object Object]"; `None` is the TypeError it throws. */
  function ToJsString(v: Json): (r: Option<string>)
    ensures r.None? <==> ConversionThrows(v)
  {
    match v
    case JUndef => Some("undefined")
    case JNull => Some("null")
    case JBool(b) => Some(if b then "true" else "false")
    case JNum(n) => Some(if n < 0 then "-" + NatToDecimal(-n) else NatToDecimal(n))
    case JStr(s) => Some(s)
    case JArr(elems) =>
      var parts := seq(|elems|, i requires 0 <= i < |elems| =>
        if Nullish(elems[i]) then Some("") else ToJsString(elems[i]));
      assert forall i :: 0 <= i < |elems| ==> (parts[i].None? <==> ConversionThrows(elems[i]));
      JoinWithComma(parts)
    case JObj(fields) => if "toString" in fields then None else Some("[object Object]")
  }

  /** `join(",")` over converted elements: `None` once a conversion threw. */
  function JoinWithComma(parts: seq<Option<string>>): (r: Option<string>)
    ensures r.None? <==> exists i :: 0 <= i < |parts| && parts[i].None?
  {
    if |parts| == 0 then Some("")
    else if parts[0].None? then None
    else if |parts| == 1 then parts[0]
    else
      match JoinWithComma(parts[1..])
      case None => None
      case Some(rest) => Some(parts[0].value + "," + rest)
  }
}

// JavaScript values as they reach the scripts from JSON (API responses and
// imported files), with the coercions the scripts apply to them: truthiness,
// `||`, `??`, Number(...) and String(...). A record is a map from field name
// to value, so object spread `{ ...a, ...b }` is map union `a + b`.

module Js {
  import opened Text
  import opened Numbers

  /** A JSON scalar, or `undefined` for a field that is absent. */
  datatype Value = Undefined | Null | Bool(b: bool) | Num(n: real) | Str(s: string)

  /** A JSON object whose fields are scalars. */
  type Record = map<string, Value>

  /** Property access `r.k`: an absent field reads as undefined. */
  function Get(r: Record, k: string): Value {
    if k in r then r[k] else Undefined
  }

  /** JavaScript truthiness: undefined, null, false, 0 and "" are falsy. */
  predicate Truthy(v: Value) {
    match v
    case Undefined => false
    case Null => false
    case Bool(b) => b
    case Num(n) => n != 0.0
    case Str(s) => s != ""
  }

  /** `a || b`. */
  function Or(a: Value, b: Value): Value {
    if Truthy(a) then a else b
  }

  /** `a ?? b`: only undefined and null fall through. */
  function Coalesce(a: Value, b: Value): Value {
    if a.Undefined? || a.Null? then b else a
  }

  /** Number(v). */
  function ToNumber(v: Value): Number {
    match v
    case Undefined => NaN
    case Null => Finite(0.0)
    case Bool(b) => Finite(if b then 1.0 else 0.0)
    case Num(n) => Finite(n)
    case Str(s) => ParseNumber(s)
  }

  /** String(v). A number is written by its integer part (see README, Left out). */
  function ToStr(v: Value): string {
    match v
    case Undefined => "undefined"
    case Null => "null"
    case Bool(b) => if b then "true" else "false"
    case Num(n) => IntToDecimal(Trunc(n))
    case Str(s) => s
  }

  /** The text of `(v || "")` where the scripts go on to call a string method on it. */
  function TextOf(v: Value): string {
    match v
    case Str(s) => s
    case _ => ""
  }
}

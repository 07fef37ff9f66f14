/**
 * The few pieces of JavaScript semantics the renderer depends on: the values a record
 * field can hold as far as template interpolation and truthiness tests are concerned,
 * `Array.prototype.join`, and the exceptions a property access can raise.
 */
module Js {

  /** A scalar field of a parsed record: missing, JSON `null`, or a string. */
  datatype JsText = Undefined | Null | Text(s: string)

  /** JavaScript truthiness of such a field: only a non-empty string is truthy. */
  predicate Truthy(v: JsText)
  {
    v.Text? && v.s != ""
  }

  /** What a template literal prints for `${v}`. */
  function Interpolate(v: JsText): string
  {
    match v
    case Undefined => "undefined"
    case Null => "null"
    case Text(s) => s
  }

  /** The TypeErrors the renderer can raise. */
  datatype TypeError =
    | NotAFunction     // calling `.filter` on a truthy value that is not an array
    | ReadOfNull       // reading a property of a `null` array element
    | ReadOfUndefined  // indexing `undefined`

  /** A computation that either returns a value or throws. */
  datatype Result<+T> = Ok(value: T) | Throw(error: TypeError)

  /** `parts.join(separator)` over strings. */
  function Join(parts: seq<string>, separator: string): string
  {
    if |parts| == 0 then ""
    else if |parts| == 1 then parts[0]
    else parts[0] + separator + Join(parts[1..], separator)
  }

  predicate StartsWith(s: string, prefix: string)
  {
    |prefix| <= |s| && s[..|prefix|] == prefix
  }

  predicate EndsWith(s: string, suffix: string)
  {
    |suffix| <= |s| && s[|s| - |suffix|..] == suffix
  }
}

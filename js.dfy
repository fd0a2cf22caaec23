/** JavaScript values as the front end and the Express handlers see them in
    parsed JSON bodies and in loosely-typed product records, with the
    truthiness rules behind `||`, `!x` and `if (x)`. */
module Js {
  import opened Text

  /** A JavaScript number: `NaN` or a finite value (infinities and IEEE
      rounding are not modelled; values are exact rationals). */
  datatype Number = NaN | Num(v: real)

  /** A JavaScript value. Objects are opaque here: no handler in the core
      looks inside an object it does not name a field of. */
  datatype Js =
    | Undefined
    | Null
    | Bool(b: bool)
    | Numb(n: Number)
    | Str(s: string)
    | Arr(elems: seq<Js>)
    | Obj

  /** `!!v`: false for `undefined`, `null`, `false`, `NaN`, `0` and `""`. */
  predicate Truthy(v: Js)
  {
    match v
    case Undefined => false
    case Null => false
    case Bool(b) => b
    case Numb(n) => n.Num? && n.v != 0.0
    case Str(s) => s != ""
    case Arr(_) => true
    case Obj => true
  }

  /** `v || d`. */
  function Or(v: Js, d: Js): (r: Js)
    ensures Truthy(v) ==> r == v
    ensures !Truthy(v) ==> r == d
  {
    if Truthy(v) then v else d
  }

  /** `Array.isArray(v) && v.length > 0`. */
  predicate IsNonEmptyArray(v: Js)
  {
    v.Arr? && |v.elems| > 0
  }

  /** `String(v)`, as a template literal `${v}` converts it. The rendering
      of a finite number is `numText`, the engine's `Number.prototype.toString`.
      Arrays render their elements joined by commas, with `null` and
      `undefined` elements rendered empty. */
  function ToText(v: Js, numText: real -> string): string
    decreases v
  {
    match v
    case Undefined => "undefined"
    case Null => "null"
    case Bool(b) => if b then "true" else "false"
    case Numb(n) => if n.NaN? then "NaN" else numText(n.v)
    case Str(s) => s
    case Arr(es) => Join(seq(|es|, k requires 0 <= k < |es| =>
                      if es[k].Undefined? || es[k].Null? then "" else ToText(es[k], numText)), ",")
    case Obj => "[object Object]"
  }
}

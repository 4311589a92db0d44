/** The JavaScript values `JSON.parse` can hand back, and the three JavaScript
    operations the endpoints apply to them: truthiness (`!x`, `x || y`), property
    lookup (`x.name`) and `String(x)`. */
module Json {
  import opened Wrappers
  import opened JsStrings

  /** An IEEE double as far as the endpoints look at it. `JSON.parse` yields a finite
      value or, for a literal too large to represent, an infinity. */
  datatype Number = Finite(value: real) | PosInfinity | NegInfinity | NaN

  /** A parsed JSON value. Keys are unique, as in the object `JSON.parse` builds;
      the order of keys is not modelled. */
  datatype Json =
    | JNull
    | JBool(b: bool)
    | JNum(n: Number)
    | JStr(s: JsString)
    | JArr(items: seq<Json>)
    | JObj(fields: map<JsString, Json>)

  /** JavaScript truthiness: `null`, `false`, `0`, `-0`, `NaN` and `""` are falsy. */
  predicate Truthy(v: Json) {
    match v
    case JNull => false
    case JBool(b) => b
    case JNum(n) => n != NaN && n != Finite(0.0)
    case JStr(s) => s != []
    case JArr(_) => true
    case JObj(_) => true
  }

  /** `v.key`: an own property of an object, `undefined` (None) for every other key
      and every other kind of value (none of the keys the endpoints read is inherited
      from a prototype). Reading a property of `null` throws; callers handle that. */
  function Get(v: Json, key: JsString): (r: Option<Json>)
    ensures r.Some? <==> v.JObj? && key in v.fields
    ensures r.Some? ==> r.value == v.fields[key]
  {
    if v.JObj? && key in v.fields then Some(v.fields[key]) else None
  }

  /** `x >= bound` on a number: false for NaN, true for +Infinity. */
  predicate AtLeast(n: Number, bound: real) {
    match n
    case Finite(x) => x >= bound
    case PosInfinity => true
    case NegInfinity => false
    case NaN => false
  }

  /** `x <= bound` on a number: false for NaN, true for -Infinity. */
  predicate AtMost(n: Number, bound: real) {
    match n
    case Finite(x) => x <= bound
    case PosInfinity => false
    case NegInfinity => true
    case NaN => false
  }

  /** A number that passes both `x >= lo` and `x <= hi` is a finite value in `[lo, hi]`. */
  lemma BetweenIsFinite(n: Number, lo: real, hi: real)
    requires AtLeast(n, lo) && AtMost(n, hi)
    ensures n.Finite? && lo <= n.value <= hi
  {
  }

  /** `String(x)` for the values `JSON.parse` yields. How a finite double is printed
      (`Number.prototype.toString`) is a parameter; everything else is spelled out:
      `null`, the booleans, the non-finite numbers, strings unchanged, arrays joined
      with `,` (with `null` elements as empty text) and objects as `[object Object]`. */
  function ToJsString(v: Json, finiteToString: real -> JsString): (r: JsString)
    ensures v.JStr? ==> r == v.s
    decreases v
  {
    match v
    case JNull => Lit("null")
    case JBool(b) => if b then Lit("true") else Lit("false")
    case JNum(n) =>
      (match n
       case Finite(x) => finiteToString(x)
       case PosInfinity => Lit("Infinity")
       case NegInfinity => Lit("-Infinity")
       case NaN => Lit("NaN"))
    case JStr(s) => s
    case JArr(xs) =>
      Join(seq(|xs|, i requires 0 <= i < |xs| =>
             if xs[i] == JNull then [] else ToJsString(xs[i], finiteToString)), Comma)
    case JObj(_) => Lit("[object Object]")
  }
}

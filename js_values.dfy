/**
 * The JavaScript values that reach the ledger from request bodies, route
 * parameters and headers, abstracted to what the ledger's checks look at:
 * `typeof`, truthiness, strict equality and the number `Number()` reads.
 * Numbers are integers; the text of a numeric string is not parsed, its
 * numeric reading travels with it.
 */
module JsValues {
  import opened Wrappers

  /**
   * A JavaScript value. `Str(s, numeric)` is a string together with what
   * `Number(s)` gives for it (`None` when that is NaN).
   */
  datatype JsValue =
    | Undefined
    | Null
    | Num(n: int)
    | NaN
    | Str(s: string, numeric: Option<int>)
    | Arr(elems: seq<JsValue>)

  /** The answers of `typeof` that the ledger compares against. */
  datatype JsType = TUndefined | TObject | TNumber | TString

  /** A JavaScript object: absent keys read as `undefined`. */
  type Record = map<string, JsValue>

  function TypeOf(v: JsValue): (t: JsType)
    ensures t == TNumber <==> v.Num? || v.NaN?
    ensures t == TString <==> v.Str?
    ensures t == TUndefined <==> v.Undefined?
  {
    match v
    case Undefined => TUndefined
    case Null => TObject
    case Num(_) => TNumber
    case NaN => TNumber
    case Str(_, _) => TString
    case Arr(_) => TObject
  }

  /** `r.k` on a JavaScript object. */
  function Field(r: Record, k: string): JsValue {
    if k in r then r[k] else Undefined
  }

  /** JavaScript truthiness: `undefined`, `null`, `0`, `NaN` and `""` are falsy. */
  predicate Truthy(v: JsValue) {
    match v
    case Undefined => false
    case Null => false
    case Num(n) => n != 0
    case NaN => false
    case Str(s, _) => |s| > 0
    case Arr(_) => true
  }

  /** A value of TypeScript type `number`. */
  predicate IsNumber(v: JsValue) {
    v.Num? || v.NaN?
  }

  /**
   * `Number(v)`. An array reads as 0 when empty, as its only element when
   * it has one (`null` and `undefined` inside read as the empty string, 0),
   * and as NaN otherwise.
   */
  function ToNumber(v: JsValue): (r: JsValue)
    ensures IsNumber(r)
    ensures IsNumber(v) ==> r == v
  {
    match v
    case Undefined => NaN
    case Null => Num(0)
    case Num(n) => v
    case NaN => NaN
    case Str(_, numeric) => if numeric.Some? then Num(numeric.value) else NaN
    case Arr(elems) =>
      if |elems| == 0 then Num(0)
      else if |elems| == 1 then
        (if elems[0].Undefined? || elems[0].Null? then Num(0) else ToNumber(elems[0]))
      else NaN
  }

  /** `isNaN(v)`, which coerces its argument with `Number()` first. */
  predicate IsNaN(v: JsValue) {
    ToNumber(v).NaN?
  }

  /** `v >= 0` for a value compared with a number (NaN compares false). */
  predicate NonNegative(v: JsValue) {
    ToNumber(v).Num? && ToNumber(v).n >= 0
  }

  /**
   * `a === b`: primitives compare by value; NaN equals nothing; two arrays
   * are distinct objects.
   */
  predicate StrictEquals(a: JsValue, b: JsValue) {
    match (a, b)
    case (Undefined, Undefined) => true
    case (Null, Null) => true
    case (Num(x), Num(y)) => x == y
    case (Str(s, _), Str(t, _)) => s == t
    case _ => false
  }

  /** Decimal text of an integer, as JavaScript's `String(n)` writes it. */
  function IntToString(n: int): (s: string)
    ensures |s| > 0
  {
    if n < 0 then "-" + NatToString(-n) else NatToString(n)
  }

  function NatToString(n: nat): (s: string)
    ensures |s| > 0
    ensures forall i :: 0 <= i < |s| ==> '0' <= s[i] <= '9'
    decreases n
  {
    var d := [(('0' as int) + n % 10) as char];
    if n < 10 then d else NatToString(n / 10) + d
  }
}

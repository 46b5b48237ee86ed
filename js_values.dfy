/** Values as the JavaScript code sees them: a value that may be absent
    (`undefined` or `null`), floating-point numbers that the model keeps
    opaque, and JavaScript truthiness, which decides every `||` fallback
    and every `&&` guard of the dashboard. */
module JsValues {

  /** A value that may be absent: `None` stands for `undefined` or `null`. */
  datatype Option<+T> = None | Some(value: T)

  /** A JavaScript number. Its magnitude is never inspected by the model;
      only whether it is zero or NaN matters, because both are falsy. */
  datatype Num = Finite(x: real) | NaN

  /** JavaScript truthiness of a number: 0, -0 and NaN are falsy. */
  predicate NumTruthy(n: Num) {
    n.Finite? && n.x != 0.0
  }

  /** JavaScript truthiness of a string: only the empty string is falsy. */
  predicate TextTruthy(s: string) {
    s != ""
  }

  /** JavaScript truthiness of a value that may be absent. */
  predicate PresentNum(v: Option<Num>) {
    v.Some? && NumTruthy(v.value)
  }

  predicate PresentText(v: Option<string>) {
    v.Some? && TextTruthy(v.value)
  }

  /** `a || b` on possibly-absent numbers: `a` when it is truthy, else `b`. */
  function OrNum(a: Option<Num>, b: Option<Num>): (r: Option<Num>)
    ensures r == a || r == b
    ensures r == a <== PresentNum(a)
    ensures !PresentNum(a) ==> r == b
  {
    if PresentNum(a) then a else b
  }

  /** `a || b` on possibly-absent strings: `a` when it is a non-empty
      string, else `b`. */
  function OrText(a: Option<string>, b: Option<string>): (r: Option<string>)
    ensures r == a || r == b
    ensures r == a <== PresentText(a)
    ensures !PresentText(a) ==> r == b
  {
    if PresentText(a) then a else b
  }

  /** What a template literal `${v}` prints for a string that may be
      `undefined`. */
  function Interpolate(v: Option<string>): (s: string)
    ensures v.Some? ==> s == v.value
    ensures v.None? ==> s == "undefined"
  {
    match v
    case None => "undefined"
    case Some(t) => t
  }
}

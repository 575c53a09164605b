/**
 * The JavaScript values the request handlers inspect, the `type-check`
 * wrapper of util/typeCheck.util.ts, JavaScript truthiness and `||`, and the
 * coercions `Number(x)`, `String(x)` and `new Date(x)` applied to query and
 * body values. Parsing of number and date text is foreign and is passed in
 * as `Parsers`.
 */
module JsValues {
  /** A JavaScript number: `NaN`, a finite value, or `Infinity` / `-Infinity`. */
  datatype JsNumber = NaN | Num(value: real) | Inf(negative: bool)

  /** JavaScript `n > 0`. */
  predicate Positive(n: JsNumber) {
    n == Inf(false) || (n.Num? && n.value > 0.0)
  }

  /** JavaScript `n < 0`. */
  predicate Below0(n: JsNumber) {
    n == Inf(true) || (n.Num? && n.value < 0.0)
  }

  /** A `Date` object: `Invalid Date` or a valid time in milliseconds. */
  datatype JsDate = InvalidDate | ValidDate(time: int)

  /** The values a query or JSON body field, or a coercion of one, can hold here. */
  datatype Value = Undefined | Str(s: string) | NumberValue(n: JsNumber) | DateValue(d: JsDate)

  /** The type names `typeCheckUtil` is called with. */
  datatype TypeName = StringType | NumberType | DateType

  /** How text becomes a number (`Number(s)`) and a date (`new Date(s)`). */
  datatype Parsers = Parsers(number: string -> JsNumber, date: string -> JsDate)

  /**
   * Whether `type-check` accepts `v` for `t`: "Number" is a number other
   * than `NaN` (the infinities pass); "Date" is a `Date` with a valid time.
   */
  predicate HasType(t: TypeName, v: Value) {
    match t
    case StringType => v.Str?
    case NumberType => v.NumberValue? && !v.n.NaN?
    case DateType => v.DateValue? && v.d.ValidDate?
  }

  /** `typeCheckUtil(type, value)`: the value itself when it has the type, else `undefined`. */
  function TypeCheckUtil(t: TypeName, v: Value): (r: Value)
    ensures r == v || r == Undefined
    ensures r != Undefined <==> v != Undefined && HasType(t, v)
  {
    if HasType(t, v) then v else Undefined
  }

  /** JavaScript truthiness: `undefined`, `""`, `NaN` and `0` are falsy; the infinities and every object are truthy. */
  predicate Truthy(v: Value) {
    match v
    case Undefined => false
    case Str(s) => s != ""
    case NumberValue(n) => !n.NaN? && n != Num(0.0)
    case DateValue(_) => true
  }

  /** JavaScript `a || b`. */
  function Or(a: Value, b: Value): (r: Value)
    ensures Truthy(a) ==> r == a
    ensures !Truthy(a) ==> r == b
  {
    if Truthy(a) then a else b
  }

  /** `Number(v)`. */
  function ToNumber(v: Value, p: Parsers): JsNumber {
    match v
    case Undefined => NaN
    case Str(s) => p.number(s)
    case NumberValue(n) => n
    case DateValue(d) => if d.ValidDate? then Num(d.time as real) else NaN
  }

  /** `String(v)` for the values a query parameter can hold. */
  function QueryText(v: Value): string
    requires v.Undefined? || v.Str?
  {
    if v.Undefined? then "undefined" else v.s
  }

  /** The largest magnitude of a `Date`'s time value: 8.64e15 ms, 100 million days either side of the epoch. */
  const MaxTime: int := 8640000000000000

  /** `x` rounded toward zero, as `ToIntegerOrInfinity` rounds. */
  function Trunc(x: real): (t: int)
    ensures 0.0 <= x ==> t as real <= x < t as real + 1.0
    ensures x < 0.0 ==> t as real - 1.0 < x <= t as real
  {
    if x >= 0.0 then x.Floor else -((-x).Floor)
  }

  /**
   * `new Date(v)` for a body value: text is parsed; a number is a time in
   * milliseconds, valid when its magnitude is at most `MaxTime` and then
   * rounded toward zero (TimeClip); `NaN`, the infinities and anything larger
   * give `Invalid Date`.
   */
  function ToDate(v: Value, p: Parsers): (d: JsDate)
    ensures v.NumberValue? ==> (d.ValidDate? <==> v.n.Num? && -(MaxTime as real) <= v.n.value <= MaxTime as real)
    ensures v.NumberValue? && d.ValidDate? ==> -MaxTime <= d.time <= MaxTime && (d.time as real - v.n.value) * (d.time as real - v.n.value) < 1.0
    ensures v.NumberValue? && d.ValidDate? ==> (0.0 <= v.n.value ==> d.time >= 0) && (v.n.value <= 0.0 ==> d.time <= 0)
  {
    match v
    case Undefined => InvalidDate
    case Str(s) => p.date(s)
    case NumberValue(n) =>
      if n.Num? && -(MaxTime as real) <= n.value <= MaxTime as real then ValidDate(Trunc(n.value)) else InvalidDate
    case DateValue(d) => d
  }

  /** What JavaScript does with the text `"undefined"`, which `String(undefined)` yields. */
  predicate ParsesUndefinedAsInvalid(p: Parsers) {
    p.date("undefined") == InvalidDate && p.number("undefined") == NaN
  }

  // ---------------------------------------------------------------------
  // Properties of the wrapper
  // ---------------------------------------------------------------------

  /** Checking twice is checking once, and whatever is returned is `undefined` or of the type. */
  lemma TypeCheckIdempotent(t: TypeName, v: Value)
    ensures TypeCheckUtil(t, TypeCheckUtil(t, v)) == TypeCheckUtil(t, v)
    ensures TypeCheckUtil(t, v) == Undefined || HasType(t, TypeCheckUtil(t, v))
  {
  }

  /** Every number but `NaN` passes the "Number" check, the infinities included; `NaN` and text never do. */
  lemma NumberCheck(n: JsNumber, s: string)
    ensures n != NaN ==> TypeCheckUtil(NumberType, NumberValue(n)) == NumberValue(n)
    ensures TypeCheckUtil(NumberType, NumberValue(NaN)) == Undefined
    ensures TypeCheckUtil(NumberType, NumberValue(Inf(false))) == NumberValue(Inf(false))
    ensures TypeCheckUtil(NumberType, Str(s)) == Undefined
  {
  }

  /** A date passes the "Date" check exactly when it is valid, and the passing value is truthy. */
  lemma DateCheck(d: JsDate)
    ensures Truthy(TypeCheckUtil(DateType, DateValue(d))) <==> d.ValidDate?
  {
  }
}

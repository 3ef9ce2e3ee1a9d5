/**
 * The JavaScript values the controllers and models inspect, already coerced:
 * numbers as produced by `Number(...)`, and object properties that may be
 * absent, null or present.
 */
module Js {
  import opened Wrappers

  /** The result of `Number(x)`: a finite number, NaN or an infinity. */
  datatype Num = Finite(x: real) | NaN | Infinite

  /** `Number.isFinite(n)`. */
  predicate IsFinite(n: Num) {
    n.Finite?
  }

  /** `Number.isInteger(n)`: finite and without a fractional part. */
  predicate IsInteger(n: Num) {
    n.Finite? && n.x == n.x.Floor as real
  }

  /** JavaScript truthiness of a number: everything but 0 and NaN. */
  predicate Truthy(n: Num) {
    !(n.NaN? || (n.Finite? && n.x == 0.0))
  }

  /** Truthiness of an optional number (`undefined`/`null` are falsy). */
  predicate TruthyNum(n: Option<Num>) {
    n.Some? && Truthy(n.value)
  }

  /** Truthiness of an optional integer (a token claim, a database id). */
  predicate TruthyInt(n: Option<int>) {
    n.Some? && n.value != 0
  }

  /** Truthiness of an optional string: present and non-empty. */
  predicate TruthyStr(s: Option<string>) {
    s.Some? && s.value != ""
  }

  /** `x || null` on an optional string. */
  function OrNull(s: Option<string>): (r: Option<string>)
    ensures r.Some? <==> TruthyStr(s)
    ensures r.Some? ==> r == s
  {
    if TruthyStr(s) then s else None
  }

  /** An integer seen as a JavaScript number. */
  function OfInt(i: int): Num {
    Finite(i as real)
  }

  /**
   * The integer row key a bound number can match: a number that is not
   * an integer matches no row of a NUMBER id column.
   */
  function AsId(n: Num): (r: Option<int>)
    ensures r.Some? <==> IsInteger(n)
    ensures r.Some? ==> OfInt(r.value) == n
  {
    if IsInteger(n) then Some(n.x.Floor) else None
  }

  /** A property of a request body or payload: absent (`undefined`), `null`, or a value. */
  datatype Field<+T> = Absent | Null | Value(v: T)

  /** `x ?? null`: absent and null both become null. */
  function OrNullField<T>(f: Field<T>): (r: Option<T>)
    ensures r.Some? <==> f.Value?
    ensures r.Some? ==> r.value == f.v
  {
    match f
    case Value(v) => Some(v)
    case _ => None
  }

  /** `err.message || fallback`: an error's message, or the fallback when it is empty. */
  function MessageOr(message: string, fallback: string): (r: string)
    ensures r != "" ==> r == message || r == fallback
    ensures message != "" ==> r == message
  {
    if message != "" then message else fallback
  }
}

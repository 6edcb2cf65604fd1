/**
 * Optional values, and the slots of the numeric arrays in the statistics file:
 * JavaScript's `undefined` and `null` beside a present value.
 */
module Wrappers {
  datatype Option<T> = None | Some(value: T)

  /** One slot of a JSON array as read by destructuring: a number, `null`, or past the end. */
  datatype Field = Num(value: real) | Null | Missing

  /** The slot at `i` as destructuring reads it: `undefined` past the end. */
  function At(arr: seq<Field>, i: nat): (f: Field)
    ensures i >= |arr| ==> f == Missing
  {
    if i < |arr| then arr[i] else Missing
  }

  /** `f ?? 0`, and equally `f || 0` on a slot: a number stays, `null` and `undefined` become 0. */
  function OrZero(f: Field): (v: real)
    ensures f.Num? ==> v == f.value
    ensures !f.Num? ==> v == 0.0
  {
    if f.Num? then f.value else 0.0
  }

  /**
   * `f / d` on a raw slot: `null` converts to 0, `undefined` to NaN, here `None`.
   */
  function DivSlot(f: Field, d: real): (q: Option<real>)
    requires d != 0.0
    ensures q.None? <==> f.Missing?
    ensures q.Some? ==> q.value * d == OrZero(f)
  {
    match f
    case Num(v) => Some(v / d)
    case Null => Some(0.0)
    case Missing => None
  }
}

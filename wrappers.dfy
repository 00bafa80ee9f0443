/** Optional values: the model's stand-in for `T | null` and for the
    `data` field of a query result, which is absent when the query fails. */
module Wrappers {

  datatype Option<+T> = None | Some(value: T)

  /** JavaScript's `s || fallback` on a string: the empty string is falsy. */
  function OrElse(s: string, fallback: string): string
  {
    if s == "" then fallback else s
  }

  /** JavaScript's `x || 0` on an integer-valued number. Zero is the only
      falsy number here (NaN is not modelled), so this is `x` itself; it is
      kept so the fallback in the program stays visible. */
  function OrZeroInt(x: int): int
  {
    if x == 0 then 0 else x
  }

  /** JavaScript's `x || 0` on a number. Zero is the only falsy number
      here (NaN is not modelled), so this is `x` itself; it is kept so the
      fallback in the program stays visible. */
  function OrZero(x: real): real
  {
    if x == 0.0 then 0.0 else x
  }
}

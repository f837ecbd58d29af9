/** Optional values, used wherever the source has `Option` or a `NO_IDX` sentinel. */
module Wrappers {
  datatype Option<+T> = None | Some(value: T)

  /** `Ok` or the single `InvalidParam` error of the source's fallible helpers. */
  datatype Result<+T> = Ok(value: T) | Err

  /** Unsigned saturation at `max`, the source's `saturating_add` once the width is given. */
  function SatAdd(a: nat, b: nat, max: nat): nat {
    if a + b <= max then a + b else max
  }

  function SatSub(a: nat, b: nat): nat {
    if a >= b then a - b else 0
  }

  function Max(a: nat, b: nat): nat {
    if a >= b then a else b
  }
}

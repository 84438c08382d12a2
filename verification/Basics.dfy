/** Arithmetic and small datatypes shared by the models. */
module Basics {

  datatype Option<+T> = None | Some(value: T)

  const U64_MAX: nat := 0xFFFF_FFFF_FFFF_FFFF
  const U8_MAX: nat := 255

  function Min(a: int, b: int): int { if a <= b then a else b }
  function Max(a: int, b: int): int { if a >= b then a else b }
  function MinReal(a: real, b: real): real { if a <= b then a else b }
  function MaxReal(a: real, b: real): real { if a >= b then a else b }

  /** Subtraction that stops at zero. */
  function Monus(a: nat, b: nat): nat { if a >= b then a - b else 0 }

  function Clamp(x: nat, lo: nat, hi: nat): nat
    requires lo <= hi
  {
    if x < lo then lo else if x > hi then hi else x
  }

  // Durations are nanoseconds, instants are nanoseconds on one clock.

  const SECOND: nat := 1_000_000_000
  const MILLISECOND: nat := 1_000_000

  /** Time from `earlier` to `now`, zero if the clock says otherwise. */
  function Since(now: int, earlier: int): nat { if now >= earlier then now - earlier else 0 }

  function Seconds(ns: nat): real { ns as real / 1_000_000_000.0 }
}

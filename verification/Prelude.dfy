/** Shared vocabulary: optional values, fallible results and the machine integers of the
    original, whose checked operations answer `None` instead of wrapping. */
module Prelude {

  datatype Option<+T> = None | Some(value: T)

  datatype Result<+R, +E> = Ok(value: R) | Err(error: E)

  /** A list built front to back by a fallible process. */
  function Prepend<T, E>(front: seq<T>, r: Result<seq<T>, E>): Result<seq<T>, E> {
    match r case Ok(rest) => Ok(front + rest) case Err(e) => Err(e)
  }

  lemma PrependNothing<T, E>(r: Result<seq<T>, E>)
    ensures Prepend([], r) == r
  {
    if r.Ok? { assert [] + r.value == r.value; }
  }

  lemma PrependTwice<T, E>(a: seq<T>, b: seq<T>, r: Result<seq<T>, E>)
    ensures Prepend(a, Prepend(b, r)) == Prepend(a + b, r)
  {
    if r.Ok? { assert a + (b + r.value) == (a + b) + r.value; }
  }

  const I128_MAX: int := 0x7fff_ffff_ffff_ffff_ffff_ffff_ffff_ffff
  const I128_MIN: int := -0x8000_0000_0000_0000_0000_0000_0000_0000
  const I64_MAX: int := 0x7fff_ffff_ffff_ffff
  const I64_MIN: int := -0x8000_0000_0000_0000
  const U64_MAX: int := 0xffff_ffff_ffff_ffff
  const USIZE_MAX: int := U64_MAX

  type I128 = x: int | I128_MIN <= x <= I128_MAX
  type I64 = x: int | I64_MIN <= x <= I64_MAX
  type U64 = x: int | 0 <= x <= U64_MAX
  type Usize = x: int | 0 <= x <= USIZE_MAX

  predicate FitsI128(x: int) { I128_MIN <= x <= I128_MAX }

  /** The value when it is representable, `None` on overflow. */
  function Checked128(x: int): Option<I128> {
    if FitsI128(x) then Some(x) else None
  }

  function CheckedSub64(a: I64, b: I64): Option<I64> {
    if I64_MIN <= a - b <= I64_MAX then Some(a - b) else None
  }

  /** Division that truncates toward zero, as the original's `/` does; `b` is not zero. */
  function TruncDiv(a: int, b: int): int
    requires b != 0
  {
    if a >= 0 then a / b else -((-a) / b)
  }

  /** `checked_div`: `None` for a zero divisor and for the one quotient that overflows. */
  function CheckedDiv128(a: I128, b: I128): Option<I128> {
    if b == 0 then None else Checked128(TruncDiv(a, b))
  }
}

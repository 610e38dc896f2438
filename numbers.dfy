/** Machine integer widths used by the interpreters.
    Rust: `i32` values and `usize` indices, where a debug build traps on overflow.
    Go: `int` is 64 bits wide and wraps around silently; `%` truncates toward zero. */
module Numbers {

  const I32_MIN: int := -0x8000_0000
  const I32_MAX: int := 0x7fff_ffff
  type i32 = x: int | I32_MIN <= x <= I32_MAX

  /** One past the largest `usize` on a 64-bit target. */
  const USIZE_BOUND: int := 0x1_0000_0000_0000_0000
  type usize = x: int | 0 <= x < USIZE_BOUND

  /** Rust's `v as usize` for a signed value: sign extension to 64 bits, that is,
      the value modulo 2^64. */
  function AsUsize(v: int): (u: usize)
    ensures 0 <= v < USIZE_BOUND ==> u == v
    ensures -USIZE_BOUND <= v < 0 ==> u == v + USIZE_BOUND
  {
    v % USIZE_BOUND
  }

  const INT64_MIN: int := -0x8000_0000_0000_0000
  const INT64_MAX: int := 0x7fff_ffff_ffff_ffff
  type int64 = x: int | INT64_MIN <= x <= INT64_MAX

  /** Go's two's-complement wrap-around of an exact result into `int`. */
  function Wrap64(x: int): (w: int64)
    ensures INT64_MIN <= x <= INT64_MAX ==> w == x
    ensures (w - x) % USIZE_BOUND == 0
  {
    (x - INT64_MIN) % USIZE_BOUND + INT64_MIN
  }

  /** Go's `a % b`: the remainder of division truncated toward zero, so it takes
      the sign of `a`. */
  function GoRem(a: int, b: int): (r: int)
    requires b != 0
    ensures a >= 0 ==> 0 <= r < Abs(b)
    ensures a < 0 ==> -(Abs(b) as int) < r <= 0
  {
    if a >= 0 then a % Abs(b) else -((-a) % Abs(b))
  }

  function Abs(x: int): nat { if x < 0 then -x else x }
}

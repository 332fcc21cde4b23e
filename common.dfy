/** Value types shared by the renderer and the visualizer: an optional value and the
    C++ `int` (32-bit, two's complement) arithmetic the source relies on. */
module Common {

  datatype Option<T> = None | Some(value: T)

  const MinInt32: int := -0x8000_0000
  const MaxInt32: int := 0x7fff_ffff

  /** A C++ `int` / `int32_t` value. */
  type Int32 = x: int | -0x8000_0000 <= x <= 0x7fff_ffff

  /** The two's-complement wrap-around of an out-of-range `int` result. */
  function WrapInt32(a: int): (r: Int32)
    ensures MinInt32 <= a <= MaxInt32 ==> r == a
    ensures MaxInt32 < a <= MaxInt32 - MinInt32 ==> r == a - 0x1_0000_0000
  {
    (a - MinInt32) % 0x1_0000_0000 + MinInt32
  }

  /** C++ integer division: the quotient is truncated toward zero. */
  function TruncDiv(a: int, b: int): (q: int)
    requires b > 0
    ensures 0 <= a ==> 0 <= q && q * b <= a < q * b + b
    ensures a < 0 ==> q <= 0 && q * b >= a > q * b - b
  {
    if a >= 0 then
      FloorDivBounds(a, b);
      a / b
    else
      FloorDivBounds(-a, b);
      NegateProduct(-a / b, b);
      -((-a) / b)
  }

  lemma FloorDivBounds(n: int, b: int)
    requires 0 <= n && 0 < b
    ensures 0 <= n / b && (n / b) * b <= n < (n / b) * b + b
  {
    assert n == (n / b) * b + n % b;
  }

  lemma NegateProduct(p: int, b: int)
    ensures (-p) * b == -(p * b)
  {
  }
}

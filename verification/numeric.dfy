/** Numeric conventions shared by the reconstruction and the post-processing. */
module Numeric {

  /** Values of numpy's uint8 column type. */
  type UInt8 = x: int | 0 <= x < 256

  /** 2^n as a real. */
  function Pow2(n: nat): (r: real)
    ensures r >= 1.0
  {
    if n == 0 then 1.0 else 2.0 * Pow2(n - 1)
  }

  /** np.finfo(float).max, the largest finite IEEE double: (2^53 - 1) * 2^971. */
  const FloatMax: real := 9007199254740991.0 * Pow2(971)

  function Abs(x: real): (r: real)
    ensures r >= 0.0
    ensures r == x || r == -x
  {
    if x < 0.0 then -x else x
  }

  /** The conversion of an integer to uint8 (numpy's wrap-around cast). */
  function ToUInt8(x: int): (r: UInt8)
    ensures 0 <= x < 256 ==> r == x
    ensures (r - x) % 256 == 0
  {
    x % 256
  }
}

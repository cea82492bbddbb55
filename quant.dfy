/** Affine quantization of scores, and the numeric collaborators that the
    model does not define: the uint8 re-quantizer and the exponential. */
module Quant {

  type uint8 = x: int | 0 <= x < 0x100
  type uint16 = x: int | 0 <= x < 0x1_0000

  /** The real value a raw score stands for: scale * (raw - zero point). */
  function Dequantize(raw: uint8, scale: real, zeroPoint: int): real {
    scale * (raw - zeroPoint) as real
  }

  /** With a positive scale, raw order and dequantized order agree, so a
      comparison of raw scores decides the same as one of real scores. */
  lemma DequantizeOrder(a: uint8, b: uint8, scale: real, zeroPoint: int)
    requires scale > 0.0
    ensures a <= b <==> Dequantize(a, scale, zeroPoint) <= Dequantize(b, scale, zeroPoint)
  {
    var d := (b - a) as real;
    assert Dequantize(b, scale, zeroPoint) - Dequantize(a, scale, zeroPoint) == scale * d;
    if a <= b {
      assert scale * d >= 0.0;
    } else {
      assert scale * d < 0.0;
    }
  }

  /** The two numeric routines the operator calls but this model does not
      define: re-quantization of a real score to uint8 (scale, zero point,
      value), and the exponential used by Gaussian soft-NMS. */
  datatype Numerics = Numerics(quantize: (real, int, real) -> uint8, exp: real -> real)

  /** The exponential's range on non-positive arguments. */
  ghost predicate ExpDecays(num: Numerics) {
    forall x: real :: x <= 0.0 ==> 0.0 < num.exp(x) <= 1.0
  }
}

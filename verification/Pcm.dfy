/**
 From a sample in [-1, 1] to a 16-bit integer, as the recorder worker does it
 for WAV files and as the page does it for streaming. A Float32 sample times
 0x8000 or 0x7FFF is exact in a double, so exact reals lose nothing here.
 */
module Pcm {

  type int16 = x: int | -0x8000 <= x < 0x8000

  function Trunc(x: real): int {
    if x >= 0.0 then x.Floor else -((-x).Floor)
  }

  /** What a 16-bit slot stores: truncation toward zero, then wrap-around. */
  function ToInt16(x: real): int16 {
    var m := Trunc(x) % 0x1_0000;
    if m < 0x8000 then m else m - 0x1_0000
  }

  function Min(x: real, y: real): real {
    if x < y then x else y
  }

  function Max(x: real, y: real): real {
    if x < y then y else x
  }

  function Clamp(x: real): real {
    Max(-1.0, Min(1.0, x))
  }

  function Scaled(x: real): real {
    var s := Clamp(x);
    if s < 0.0 then s * 32768.0 else s * 32767.0
  }

  /** floatTo16BitPCM on one sample. */
  function Quantise(x: real): int16 {
    ToInt16(Scaled(x))
  }

  /** The streaming conversion on one sample: no lower clamp, one scale for both signs. */
  function StreamQuantise(x: real): int16 {
    ToInt16(Min(1.0, x) * 32767.0)
  }

  /** A 16-bit slot keeps the truncated value exactly when the real lies strictly between -32769 and 32768. */
  lemma StoredWithoutWrap(x: real)
    ensures ToInt16(x) == Trunc(x) <==> -32769.0 < x < 32768.0
  {
  }

  lemma TruncIsMonotone(x: real, y: real)
    requires x <= y
    ensures Trunc(x) <= Trunc(y)
  {
  }

  lemma ScaledIsMonotone(x: real, y: real)
    requires x <= y
    ensures -32768.0 <= Scaled(x) <= Scaled(y) <= 32767.0
  {
  }

  /** The WAV quantiser never wraps and never reverses two samples. */
  lemma QuantiseIsMonotone(x: real, y: real)
    requires x <= y
    ensures Quantise(x) == Trunc(Scaled(x))
    ensures Quantise(x) <= Quantise(y)
  {
    ScaledIsMonotone(x, y);
    StoredWithoutWrap(Scaled(x));
    StoredWithoutWrap(Scaled(y));
    TruncIsMonotone(Scaled(x), Scaled(y));
  }

  /** The stored value is within one step of the clamped input, on the side of zero. */
  lemma QuantiseError(x: real)
    ensures Clamp(x) >= 0.0 ==> 0.0 <= Clamp(x) - Quantise(x) as real / 32767.0 < 1.0 / 32767.0
    ensures Clamp(x) < 0.0 ==> 0.0 <= Quantise(x) as real / 32768.0 - Clamp(x) < 1.0 / 32768.0
  {
    QuantiseIsMonotone(x, x);
  }

  /** Every 16-bit value is reached: quantising the level it stands for gives it back. */
  lemma QuantiseIsOnto(k: int16)
    ensures Quantise(k as real / if k < 0 then 32768.0 else 32767.0) == k
  {
    var x := k as real / if k < 0 then 32768.0 else 32767.0;
    assert Clamp(x) == x;
    assert Scaled(x) == k as real;
    StoredWithoutWrap(k as real);
  }

  /** On inputs from -1 up, the two conversions differ by at most one step, and not at all from 0 up. */
  lemma StreamAgrees(x: real)
    requires x >= -1.0
    ensures -1 <= Quantise(x) - StreamQuantise(x) <= 0
    ensures x >= 0.0 ==> Quantise(x) == StreamQuantise(x)
  {
    QuantiseIsMonotone(x, x);
    StoredWithoutWrap(Min(1.0, x) * 32767.0);
  }

  /** The streaming conversion wraps exactly on inputs at or below -32769/32767. */
  lemma StreamWrapsBelow(x: real)
    ensures StreamQuantise(x) == Trunc(Min(1.0, x) * 32767.0) <==> x > -32769.0 / 32767.0
  {
    StoredWithoutWrap(Min(1.0, x) * 32767.0);
  }

  /** Twice full scale below zero is stored as a small positive number. */
  lemma StreamCanWrap()
    ensures StreamQuantise(-2.0) == 2 && Quantise(-2.0) == -32768
  {
    assert Trunc(-65534.0) % 0x1_0000 == 2;
  }
}

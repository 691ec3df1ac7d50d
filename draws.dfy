/**
 The random-range helper `get_random` of psdd.c. The C library's `rand()`
 is not modelled; its value is passed in as the non-negative raw draw `r`.
 */
module Draws {

  function Abs(x: int): nat
  {
    if x < 0 then -x else x
  }

  /** `min + rand() % (max - min + 1)`. For a non-negative dividend C's
      truncating `%` and Dafny's Euclidean `%` agree, whatever the divisor's
      sign, so the body is the C expression unchanged. The only thing the C
      code needs of its caller is a divisor that is not zero. */
  function GetRandom(min: int, max: int, r: nat): (v: int)
    requires max - min + 1 != 0
    ensures min <= v < min + Abs(max - min + 1)
    ensures min <= max ==> v <= max
  {
    min + r % (max - min + 1)
  }

  /** Every value of a well-formed range is the image of some raw draw. */
  lemma GetRandomCovers(min: int, max: int, v: int)
    requires min <= v <= max
    ensures GetRandom(min, max, v - min) == v
  {
  }

  /** A draw in [0, 99] has the parity of the raw value, because 100 is even. */
  lemma PercentParity(r: nat)
    ensures GetRandom(0, 99, r) % 2 == r % 2
  {
    var q := r / 100;
    assert r == 100 * q + r % 100;
    assert 100 * q == 2 * (50 * q);
  }
}

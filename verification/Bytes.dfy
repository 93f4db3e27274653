/** Numbers as bytes: two's complement, least significant byte first. */
module Bytes {

  import opened Arithmetic

  type Byte = x: int | 0 <= x < 256

  function Power256(n: nat): (p: int)
    ensures p > 0
  {
    if n == 0 then 1 else 256 * Power256(n - 1)
  }

  /** The n bytes of a number in two's complement, least significant first. */
  function Stored(v: int, n: nat): (s: seq<Byte>)
    ensures |s| == n
    decreases n
  {
    if n == 0 then [] else [v % 256] + Stored(v / 256, n - 1)
  }

  lemma Doubled(p: int)
    requires PowerOfTwo(p) && p > 0
    ensures PowerOfTwo(2 * p)
  {
    assert 2 * p / 2 == p;
  }

  lemma {:induction false} Power256IsPower(n: nat)
    ensures PowerOfTwo(Power256(n))
  {
    if n > 0 {
      var p := Power256(n - 1);
      Power256IsPower(n - 1);
      Doubled(p);
      Doubled(2 * p);
      Doubled(4 * p);
      Doubled(8 * p);
      Doubled(16 * p);
      Doubled(32 * p);
      Doubled(64 * p);
      Doubled(128 * p);
    }
  }
}

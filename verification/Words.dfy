/** Arithmetic of 64-bit words. */
module Words {
  const TWO64: nat := 0x1_0000_0000_0000_0000

  lemma ModShift(x: int, k: int)
    ensures (x + TWO64 * k) % TWO64 == x % TWO64
  {
    var q, r := x / TWO64, x % TWO64;
    assert x + TWO64 * k == TWO64 * (q + k) + r;
  }
}

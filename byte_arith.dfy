/** Python's integer-to-byte arithmetic: the driver masks unbounded
    integers (command codes, character code points) with `& 0xF0` and
    `& 0x0F` before they reach the bus.
 */
module ByteArith {

  /** mask when bit log2(weight) of x, in two's complement, is set. Dafny's
      `/` and `%` by a positive divisor round towards minus infinity, as
      Python's do, so negative x are covered too. */
  function BitOf(x: int, weight: nat, mask: bv8): bv8
    requires weight > 0
  {
    if (x / weight) % 2 == 1 then mask else 0
  }

  /** Python's `x & 0xFF`: the low byte of an integer, bit by bit. */
  function ToByte(x: int): bv8
  {
    BitOf(x, 128, 0x80) | (BitOf(x, 64, 0x40) | (BitOf(x, 32, 0x20) | (BitOf(x, 16, 0x10)
      | (BitOf(x, 8, 0x08) | (BitOf(x, 4, 0x04) | (BitOf(x, 2, 0x02) | BitOf(x, 1, 0x01)))))))
  }

  lemma DivShift(x: int, q: int, w: nat, k: nat)
    requires w > 0 && w * k == 256
    ensures (x + 256 * q) / w == x / w + k * q
  {
  }

  lemma ParityShift(a: int, m: int)
    ensures (a + 2 * m) % 2 == a % 2
  {
  }

  lemma BitOfShift(x: int, q: int, w: nat, k: nat, mask: bv8)
    requires w > 0 && w * k == 256 && k % 2 == 0
    ensures BitOf(x + 256 * q, w, mask) == BitOf(x, w, mask)
  {
    DivShift(x, q, w, k);
    assert k * q == 2 * ((k / 2) * q);
    ParityShift(x / w, (k / 2) * q);
  }

  /** The low byte ignores multiples of 256 ... */
  lemma ToByteShift(x: int, q: int)
    ensures ToByte(x + 256 * q) == ToByte(x)
  {
    BitOfShift(x, q, 128, 2, 0x80);
    BitOfShift(x, q, 64, 4, 0x40);
    BitOfShift(x, q, 32, 8, 0x20);
    BitOfShift(x, q, 16, 16, 0x10);
    BitOfShift(x, q, 8, 32, 0x08);
    BitOfShift(x, q, 4, 64, 0x04);
    BitOfShift(x, q, 2, 128, 0x02);
    BitOfShift(x, q, 1, 256, 0x01);
  }

  /** ... so it is determined by x modulo 256, negative x included. */
  lemma ToByteModulo(x: int)
    ensures ToByte(x) == ToByte(x % 256)
  {
    ToByteShift(x % 256, x / 256);
  }

  /** As in Python, a negative integer contributes its two's-complement
      low byte, and higher bits are dropped. */
  lemma ToByteExamples()
    ensures ToByte(-1) == 0xFF && ToByte(-0x40) == 0xC0
    ensures ToByte(0x141) == 0x41 && ToByte(0x33) == 0x33
  {
  }

  /** Python's `x & mask` for an integer x and a mask in 0..255. */
  function AndByte(x: int, mask: bv8): bv8
  {
    ToByte(x) & mask
  }
}

/**
  Time as the firmware sees it: `millis()` and `momentoDaViolacao` are
  `unsigned long`, which is 32 bits wide on the ESP32, so every difference
  of two times is taken modulo 2^32.
 */
module Clock {

  const MODULUS: int := 0x1_0000_0000

  /** An `unsigned long` on the ESP32. */
  type U32 = x: int | 0 <= x < MODULUS

  /** `now - since` on two unsigned 32-bit operands: the number of
      milliseconds that, added to `since`, wraps around to `now`. */
  function Elapsed(now: U32, since: U32): (r: U32)
    ensures (since + r) % MODULUS == now
    ensures since <= now ==> r + since == now
    ensures now < since ==> r + since == now + MODULUS
  {
    (now - since) % MODULUS
  }

  /** The wrap-around distance is the only 32-bit value with that property,
      so `Elapsed` is exactly the C++ subtraction on `unsigned long`. */
  lemma ElapsedUnique(now: U32, since: U32, d: U32)
    requires (since + d) % MODULUS == now
    ensures d == Elapsed(now, since)
  {
    if since + d >= MODULUS {
      assert (since + d) % MODULUS == since + d - MODULUS;
    } else {
      assert (since + d) % MODULUS == since + d;
    }
  }
}

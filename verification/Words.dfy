/** Fixed-width machine words of the firmware, as subranges of the integers. */
module Words {
  const TWO_TO_THE_16 := 0x1_0000
  const TWO_TO_THE_32 := 0x1_0000_0000

  type byte = x: int | 0 <= x < 256
  type u16 = x: int | 0 <= x < 0x1_0000
  type u32 = x: int | 0 <= x < 0x1_0000_0000

  /** Conversion of any integer to `uint16_t`. */
  function Wrap16(x: int): u16 {
    x % 0x1_0000
  }

  /** Conversion of any integer to `uint32_t`. */
  function Wrap32(x: int): u32 {
    x % 0x1_0000_0000
  }

  /** The unsigned difference `now - earlier` of two readings of a free-running 32-bit counter. */
  function Since(now: u32, earlier: u32): u32 {
    Wrap32(now - earlier)
  }

  /** The wrapped difference of two readings never exceeds the true distance between them. */
  lemma SinceIsDistance(t0: nat, t: nat)
    requires t0 <= t
    ensures Since(Wrap32(t), Wrap32(t0)) == Wrap32(t - t0) <= t - t0
  {
    var q, q0 := t / TWO_TO_THE_32, t0 / TWO_TO_THE_32;
    assert Wrap32(t) - Wrap32(t0) == (t - t0) - (q - q0) * TWO_TO_THE_32;
    ModShift(t - t0, -(q - q0));
  }

  /** Adding a multiple of 2^32 does not change a wrapped value. */
  lemma ModShift(x: int, k: int)
    ensures Wrap32(x + k * TWO_TO_THE_32) == Wrap32(x)
  {
    var y := x + k * TWO_TO_THE_32;
    assert y == (x / TWO_TO_THE_32 + k) * TWO_TO_THE_32 + x % TWO_TO_THE_32;
  }

  /** Wrapping before adding makes no difference. */
  lemma WrapAdd(x: int, y: int)
    ensures Wrap32(Wrap32(x) + y) == Wrap32(x + y)
  {
    ModShift(Wrap32(x) + y, x / TWO_TO_THE_32);
  }
}

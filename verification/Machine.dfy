/** The fixed-width integer types of the C sources.

    They are newtypes, so every `+`, `-`, `*` and every narrowing conversion on
    them obliges a proof that the exact result is in range: a method over these
    types verifies only if none of its operations can wrap around.  The few
    places where the C code wraps or truncates on purpose say so with `%`. */
module Machine {
  import opened Bits

  newtype u8 = x: int | 0 <= x < 0x100
  newtype u32 = x: int | 0 <= x < 0x1_0000_0000
  newtype u64 = x: int | 0 <= x < 0x1_0000_0000_0000_0000
  newtype u128 = x: int | 0 <= x < 0x1_0000_0000_0000_0000_0000_0000_0000_0000
  newtype i64 = x: int | -0x8000_0000_0000_0000 <= x < 0x8000_0000_0000_0000

  lemma Mask51(x: int)
    ensures And(x, 0x7ffffffffffff) == x % 0x8000000000000
  {
    hide And;
    Pow2Large();
    AndMask(x, 51);
  }

  /** `x & 0x7ffffffffffff` on a 64-bit word. */
  function Low51(x: u64): (r: u64)
    ensures r as int == x as int % 0x8000000000000
  {
    Mask51(x as int);
    And(x as int, 0x7ffffffffffff) as u64
  }

  /** The cast `(u64)x` of a 128-bit word. */
  function Truncate64(x: u128): (r: u64) {
    (x as int % 0x1_0000_0000_0000_0000) as u64
  }

  /** The low 51 bits survive the truncation to 64 bits. */
  lemma LowOfTruncate(x: u128)
    ensures Low51(Truncate64(x)) as int == x as int % 0x8000000000000
  {
    var y := x as int;
    assert y % 0x8000000000000 == (y % 0x1_0000_0000_0000_0000) % 0x8000000000000;
  }
}

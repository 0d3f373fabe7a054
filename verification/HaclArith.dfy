/** Integer facts behind the radix-2^51 arithmetic of src/curve25519-hacl64.h. */
module HaclArith {
  import opened Bits
  import opened Field

  /** Five limbs, as integers. */
  datatype Five = Five(v0: int, v1: int, v2: int, v3: int, v4: int)

  /** The integer that five limbs stand for. */
  function Val(f: Five): int {
    f.v0 + 0x8000000000000 * f.v1 + 0x40000000000000000000000000 * f.v2
    + 0x200000000000000000000000000000000000000 * f.v3
    + 0x1000000000000000000000000000000000000000000000000000 * f.v4
  }

  /** Largest limb ever multiplied: a difference of two normal elements,
      2^54 + 2^51 + 2^13. */
  const LIMB := 0x48000000002000

  predicate Loose(f: Five) {
    0 <= f.v0 <= LIMB && 0 <= f.v1 <= LIMB && 0 <= f.v2 <= LIMB && 0 <= f.v3 <= LIMB && 0 <= f.v4 <= LIMB
  }

  /** Limbs of a product: 51 bits each, with a small surplus in limb 1. */
  predicate Normal(f: Five) {
    && 0 <= f.v0 < 0x8000000000000 && 0 <= f.v1 < 0x8000000000000 + 0x2000
    && 0 <= f.v2 < 0x8000000000000 && 0 <= f.v3 < 0x8000000000000 && 0 <= f.v4 < 0x8000000000000
  }

  /** Schoolbook product with the columns above 2^255 folded back times 19. */
  function Conv(a: Five, b: Five): Five {
    Five(
      a.v0 * b.v0 + 19 * (a.v4 * b.v1) + 19 * (a.v3 * b.v2) + 19 * (a.v2 * b.v3) + 19 * (a.v1 * b.v4),
      a.v1 * b.v0 + a.v0 * b.v1 + 19 * (a.v4 * b.v2) + 19 * (a.v3 * b.v3) + 19 * (a.v2 * b.v4),
      a.v2 * b.v0 + a.v1 * b.v1 + a.v0 * b.v2 + 19 * (a.v4 * b.v3) + 19 * (a.v3 * b.v4),
      a.v3 * b.v0 + a.v2 * b.v1 + a.v1 * b.v2 + a.v0 * b.v3 + 19 * (a.v4 * b.v4),
      a.v4 * b.v0 + a.v3 * b.v1 + a.v2 * b.v2 + a.v1 * b.v3 + a.v0 * b.v4)
  }

  function Times(a: Five, s: int): Five {
    Five(a.v0 * s, a.v1 * s, a.v2 * s, a.v3 * s, a.v4 * s)
  }

  lemma ValAdd(a: Five, b: Five)
    ensures Val(Five(a.v0 + b.v0, a.v1 + b.v1, a.v2 + b.v2, a.v3 + b.v3, a.v4 + b.v4)) == Val(a) + Val(b)
  {
  }

  lemma TimesValue(a: Five, s: int)
    ensures Val(Times(a, s)) == Val(a) * s
  {
  }

  lemma ValueByLimbs(a: int, b: Five)
    ensures a * Val(b) == Val(Five(a * b.v0, a * b.v1, a * b.v2, a * b.v3, a * b.v4))
  {
  }

  /** The columns at and above 2^255, which `Conv` folds back. */
  function Over(a: Five, b: Five): int {
    Val(Five(
      a.v4 * b.v1 + a.v3 * b.v2 + a.v2 * b.v3 + a.v1 * b.v4,
      a.v4 * b.v2 + a.v3 * b.v3 + a.v2 * b.v4,
      a.v4 * b.v3 + a.v3 * b.v4,
      a.v4 * b.v4,
      0))
  }

  /** Folding is exact: it removes a multiple of P from the product. */
  lemma ConvValue(a: Five, b: Five)
    ensures Val(a) * Val(b) == Val(Conv(a, b)) + P * Over(a, b)
  {
    ValueByLimbs(Val(a), b);
    TimesValue(a, b.v0);
    TimesValue(a, b.v1);
    TimesValue(a, b.v2);
    TimesValue(a, b.v3);
    TimesValue(a, b.v4);
  }

  lemma ConvField(a: Five, b: Five)
    ensures Red(Val(Conv(a, b))) == Mul(Red(Val(a)), Red(Val(b)))
  {
    hide Conv, Over, Val, Mul, Red;
    ConvValue(a, b);
    MulRed(Val(a), Val(b));
    RedShift(Val(Conv(a, b)), Over(a, b));
  }

  lemma LimbProduct(x: int, y: int)
    requires 0 <= x <= LIMB && 0 <= y <= LIMB
    ensures 0 <= x * y <= LIMB * LIMB
  {
    ProductBound(x, y, LIMB, LIMB);
  }

  /** Column sums of loose elements: all fit in 115 bits, and the top one is
      small enough that 19 times its part above 2^51 fits in 64 bits. */
  lemma ConvBound(a: Five, b: Five)
    requires Loose(a) && Loose(b)
    ensures var t := Conv(a, b);
            && 0 <= t.v0 <= 95 * (LIMB * LIMB) && 0 <= t.v1 <= 95 * (LIMB * LIMB) && 0 <= t.v2 <= 95 * (LIMB * LIMB)
            && 0 <= t.v3 <= 95 * (LIMB * LIMB) && 0 <= t.v4 <= 5 * (LIMB * LIMB)
  {
    LimbProduct(a.v0, b.v0); LimbProduct(a.v0, b.v1); LimbProduct(a.v0, b.v2); LimbProduct(a.v0, b.v3); LimbProduct(a.v0, b.v4);
    LimbProduct(a.v1, b.v0); LimbProduct(a.v1, b.v1); LimbProduct(a.v1, b.v2); LimbProduct(a.v1, b.v3); LimbProduct(a.v1, b.v4);
    LimbProduct(a.v2, b.v0); LimbProduct(a.v2, b.v1); LimbProduct(a.v2, b.v2); LimbProduct(a.v2, b.v3); LimbProduct(a.v2, b.v4);
    LimbProduct(a.v3, b.v0); LimbProduct(a.v3, b.v1); LimbProduct(a.v3, b.v2); LimbProduct(a.v3, b.v3); LimbProduct(a.v3, b.v4);
    LimbProduct(a.v4, b.v0); LimbProduct(a.v4, b.v1); LimbProduct(a.v4, b.v2); LimbProduct(a.v4, b.v3); LimbProduct(a.v4, b.v4);
  }
}

/** Exponent bookkeeping for the inversions, which all raise their argument to
    the power 2^255 - 21 = P - 2. */
module Inversion {
  import opened Bits
  import opened Field

  /** x to the power 2^k - 1: k one bits in the exponent. */
  function Ones(x: Fe, k: nat): Fe {
    Pow(x, Pow2(k) - 1)
  }

  lemma PowProductOf(x: Fe, m: nat, n: nat, e: nat)
    requires e == m + n
    ensures Mul(Pow(x, m), Pow(x, n)) == Pow(x, e)
  {
    PowAdd(x, m, n);
  }

  lemma SquareOfPower(x: Fe, i: nat)
    ensures Mul(Pow(x, Pow2(i)), Pow(x, Pow2(i))) == Pow(x, Pow2(i + 1))
    ensures Pow(x, Pow2(0)) == x
  {
    PowOne(x);
    PowAdd(x, Pow2(i), Pow2(i));
  }

  lemma ExponentJoin(p: int, q: int)
    ensures (p - 1) * q + (q - 1) == p * q - 1
  {
  }

  /** j ones, shifted up by k squarings, followed by k ones. */
  lemma JoinOnes(x: Fe, j: nat, k: nat)
    ensures Mul(Pow(Ones(x, j), Pow2(k)), Ones(x, k)) == Ones(x, j + k)
  {
    hide Pow, Mul;
    var m, n := Pow2(j), Pow2(k);
    PowMul(x, m - 1, n);
    Pow2Add(j, k);
    ExponentJoin(m, n);
    PowProductOf(x, (m - 1) * n, n - 1, Pow2(j + k) - 1);
  }

  /** The start of both addition chains: z^11 and z^31. */
  lemma ChainStart(z: Fe, z2: Fe, z8: Fe, z9: Fe, z11: Fe, z22: Fe, z31: Fe)
    requires z2 == Mul(z, z) && z8 == Pow(z2, Pow2(2)) && z9 == Mul(z8, z)
    requires z11 == Mul(z9, z2) && z22 == Mul(z11, z11) && z31 == Mul(z22, z9)
    ensures z11 == Pow(z, 11) && z31 == Ones(z, 5)
  {
    hide Pow, Mul;
    PowOne(z);
    PowProductOf(z, 1, 1, 2);
    Pow2Small();
    PowMul(z, 2, 4);
    PowProductOf(z, 8, 1, 9);
    PowProductOf(z, 9, 2, 11);
    PowProductOf(z, 11, 11, 22);
    PowProductOf(z, 22, 9, 31);
  }

  /** The end of both chains: 250 ones, five more squarings, times z^11. */
  lemma ChainEnd(z: Fe)
    ensures Mul(Pow(Ones(z, 250), Pow2(5)), Pow(z, 11)) == Pow(z, P - 2)
  {
    hide Pow, Mul;
    PowMul(z, Pow2(250) - 1, Pow2(5));
    Pow2Of250();
    Pow2Small();
    PowProductOf(z, (Pow2(250) - 1) * Pow2(5), 11, P - 2);
  }

  lemma Pow2Of250()
    ensures Pow2(250) * 32 == P + 19
  {
    Pow2Small();
    Pow2Large();
    Pow2Add(64, 64);
    Pow2Add(128, 64);
    Pow2Add(192, 51);
    Pow2Add(243, 7);
  }
}

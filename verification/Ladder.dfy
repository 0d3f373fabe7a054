/** The Montgomery ladder of section 5 of RFC 7748, and the facts that let the
    three ladders of the program be compared with it. */
module Ladder {
  import opened Bits
  import opened Field
  import PrimeField

  /** The two projective points (x2 : z2) and (x3 : z3) of the ladder. */
  datatype Pts = Pts(x2: Fe, z2: Fe, x3: Fe, z3: Fe)

  const A24: Fe := 121665

  /** One ladder step, as RFC 7748 writes it. */
  function Step(u: Fe, s: Pts): Pts {
    var a := Add(s.x2, s.z2);
    var aa := Mul(a, a);
    var b := Sub(s.x2, s.z2);
    var bb := Mul(b, b);
    var e := Sub(aa, bb);
    var c := Add(s.x3, s.z3);
    var d := Sub(s.x3, s.z3);
    var da := Mul(d, a);
    var cb := Mul(c, b);
    var sum := Add(da, cb);
    var diff := Sub(da, cb);
    Pts(Mul(aa, bb), Mul(e, Add(aa, Mul(A24, e))), Mul(sum, sum), Mul(u, Mul(diff, diff)))
  }

  function Swap(b: bool, s: Pts): Pts {
    if b then Pts(s.x3, s.z3, s.x2, s.z2) else s
  }

  /** Bit `t` of a scalar. */
  function Bit(k: nat, t: nat): bool {
    Shr(k, t) % 2 == 1
  }

  function Start(u: Fe): Pts {
    Pts(1, 0, u, 1)
  }

  /** The ladder of RFC 7748 over bits n-1 .. 0: a swap is postponed and merged
      with the next one. */
  function Deferred(u: Fe, k: nat, n: nat, swap: bool, s: Pts): Pts
    decreases n
  {
    if n == 0 then Swap(swap, s)
    else
      var b := Bit(k, n - 1);
      Deferred(u, k, n - 1, b, Step(u, Swap(swap != b, s)))
  }

  /** The generic ladder over bits n-1 .. 0: swap, step, swap back. */
  function Eager(u: Fe, k: nat, n: nat, s: Pts): Pts
    decreases n
  {
    if n == 0 then s
    else
      var b := Bit(k, n - 1);
      Eager(u, k, n - 1, Swap(b, Step(u, Swap(b, s))))
  }

  /** Postponing swaps changes nothing. */
  lemma {:induction false} DeferredIsEager(u: Fe, k: nat, n: nat, swap: bool, s: Pts)
    ensures Deferred(u, k, n, swap, s) == Eager(u, k, n, Swap(swap, s))
    decreases n
  {
    hide Red, Add, Sub, Mul, Step;
    if n != 0 {
      var b := Bit(k, n - 1);
      DeferredIsEager(u, k, n - 1, b, Step(u, Swap(swap != b, s)));
      assert Swap(swap != b, s) == Swap(b, Swap(swap, s));
    }
  }

  /** x2 / z2, with the inverse taken as a power as RFC 7748 does. */
  function Affine(s: Pts): Fe {
    Mul(s.x2, Pow(s.z2, P - 2))
  }

  /** Scalar decoding of section 5 of RFC 7748. */
  function Clamp(k: nat): nat
    requires k < Pow2(256)
  {
    var low := k % Pow2(254);
    Pow2(254) + (low - low % 8)
  }

  /** The function X25519 of RFC 7748 on a scalar and a u-coordinate that are
      already decoded. */
  function X25519(k: nat, u: Fe): Fe {
    Affine(Deferred(u, k, 255, false, Start(u)))
  }

  // ----- scaling -----

  /** `t` is `s` with the first point scaled by m and the second by n. */
  predicate Scaled(s: Pts, t: Pts, m: Fe, n: Fe) {
    t == Pts(Mul(m, s.x2), Mul(m, s.z2), Mul(n, s.x3), Mul(n, s.z3))
  }

  /** Elements for which the congruence of Fermat's little theorem holds. */
  predicate Unit(m: Fe) {
    Pow(m, P - 1) == 1
  }

  lemma UnitMul(a: Fe, b: Fe)
    requires Unit(a) && Unit(b)
    ensures Unit(Mul(a, b))
  {
    hide Red, Add, Sub, Mul;
    PowProduct(a, b, P - 1);
    MulOne(1);
  }

  /** (m a)(n b) = (m n)(a b), and likewise for a sum of two such products. */
  lemma ScaleProduct(m: Fe, n: Fe, a: Fe, b: Fe)
    ensures Mul(Mul(m, a), Mul(n, b)) == Mul(Mul(m, n), Mul(a, b))
  {
    hide Red, Add, Sub, Mul;
    MulSwap(m, a, n, b);
  }

  /** The doubled point scales with the fourth power. */
  lemma ScaleDouble(m: Fe, x: Fe, z: Fe)
    ensures var mm := Mul(m, m);
            var s, t := Step(0, Pts(x, z, 0, 0)), Step(0, Pts(Mul(m, x), Mul(m, z), 0, 0));
            t.x2 == Mul(Mul(mm, mm), s.x2) && t.z2 == Mul(Mul(mm, mm), s.z2)
  {
    hide Red, Add, Sub, Mul;
    var mm := Mul(m, m);
    var a, b := Add(x, z), Sub(x, z);
    Distribute(m, x, z);
    var aa, bb := Mul(a, a), Mul(b, b);
    ScaleProduct(m, m, a, a);
    ScaleProduct(m, m, b, b);
    var e := Sub(aa, bb);
    Distribute(mm, aa, bb);
    ScaleProduct(mm, mm, aa, bb);
    var f := Add(aa, Mul(A24, e));
    assert Mul(A24, Mul(mm, e)) == Mul(mm, Mul(A24, e)) by {
      MulAssoc(A24, mm, e);
      MulComm(A24, mm);
      MulAssoc(mm, A24, e);
    }
    Distribute(mm, aa, Mul(A24, e));
    ScaleProduct(mm, mm, e, f);
  }

  /** The sum point scales with the square of both factors. */
  lemma ScaleSum(u: Fe, m: Fe, n: Fe, s: Pts, t: Pts)
    requires Scaled(s, t, m, n)
    ensures var k := Mul(Mul(n, m), Mul(n, m));
            Step(u, t).x3 == Mul(k, Step(u, s).x3) && Step(u, t).z3 == Mul(k, Step(u, s).z3)
  {
    hide Red, Add, Sub, Mul;
    var nm := Mul(n, m);
    var k := Mul(nm, nm);
    Distribute(m, s.x2, s.z2);
    Distribute(n, s.x3, s.z3);
    var a, b, c, d := Add(s.x2, s.z2), Sub(s.x2, s.z2), Add(s.x3, s.z3), Sub(s.x3, s.z3);
    ScaleProduct(n, m, d, a);
    ScaleProduct(n, m, c, b);
    var da, cb := Mul(d, a), Mul(c, b);
    Distribute(nm, da, cb);
    var sum, diff := Add(da, cb), Sub(da, cb);
    ScaleProduct(nm, nm, sum, sum);
    ScaleProduct(nm, nm, diff, diff);
    var w := Mul(diff, diff);
    assert Mul(u, Mul(k, w)) == Mul(k, Mul(u, w)) by {
      MulAssoc(u, k, w);
      MulComm(u, k);
      MulAssoc(k, u, w);
    }
  }

  /** The factors of the two points after one step. */
  function DoubleFactor(m: Fe): Fe {
    Mul(Mul(m, m), Mul(m, m))
  }

  function SumFactor(m: Fe, n: Fe): Fe {
    Mul(Mul(n, m), Mul(n, m))
  }

  lemma UnitFactors(m: Fe, n: Fe)
    requires Unit(m) && Unit(n)
    ensures Unit(DoubleFactor(m)) && Unit(SumFactor(m, n))
  {
    hide Red, Add, Sub, Mul, Pow;
    UnitMul(m, m);
    UnitMul(Mul(m, m), Mul(m, m));
    UnitMul(n, m);
    UnitMul(Mul(n, m), Mul(n, m));
  }

  lemma ScaleStep(u: Fe, m: Fe, n: Fe, s: Pts, t: Pts)
    requires Scaled(s, t, m, n)
    ensures Scaled(Step(u, s), Step(u, t), DoubleFactor(m), SumFactor(m, n))
  {
    hide Red, Add, Sub, Mul;
    ScaleDouble(m, s.x2, s.z2);
    ScaleSum(u, m, n, s, t);
  }

  /** Scaling the start of a run scales its end: along any bits, for any scalar,
      proportional states stay proportional. */
  lemma {:induction false} ScaleRun(u: Fe, k: nat, n: nat, s: Pts, t: Pts, m: Fe, m': Fe)
    returns (r: Fe, r': Fe)
    requires Scaled(s, t, m, m')
    ensures Scaled(Eager(u, k, n, s), Eager(u, k, n, t), r, r')
    ensures Unit(m) && Unit(m') ==> Unit(r) && Unit(r')
    decreases n
  {
    hide Red, Add, Sub, Mul, Step, DoubleFactor, SumFactor, Unit;
    if n == 0 {
      return m, m';
    }
    var b := Bit(k, n - 1);
    var f, g := if b then m' else m, if b then m else m';
    ScaleStep(u, f, g, Swap(b, s), Swap(b, t));
    if Unit(m) && Unit(m') {
      UnitFactors(f, g);
    }
    r, r' := DoubleFactor(f), SumFactor(f, g);
    if b {
      r, r' := r', r;
    }
    r, r' := ScaleRun(u, k, n - 1, Swap(b, Step(u, Swap(b, s))), Swap(b, Step(u, Swap(b, t))), r, r');
  }

  /** Scaling by a unit does not change the affine coordinate. */
  lemma ScaleAffine(s: Pts, t: Pts, m: Fe, n: Fe)
    requires Scaled(s, t, m, n) && Unit(m)
    ensures Affine(t) == Affine(s)
  {
    hide Red, Add, Sub, Mul;
    var q := Pow(s.z2, P - 2);
    PowProduct(m, s.z2, P - 2);
    MulSwap(m, s.x2, Pow(m, P - 2), q);
    assert Pow(m, P - 1) == Mul(m, Pow(m, P - 2));
    MulOne(Mul(s.x2, q));
  }

  /** The affine coordinate is the quotient x2 / z2. */
  lemma AffineIsQuotient(s: Pts)
    requires s.z2 != 0
    ensures Mul(Affine(s), s.z2) == s.x2
  {
    hide Mul, Pow;
    var q := Pow(s.z2, P - 2);
    PrimeField.PowerInverts(s.z2);
    MulAssoc(s.x2, q, s.z2);
    MulComm(q, s.z2);
    MulOne(s.x2);
  }

  // ----- a leading zero bit -----

  /** A step on a zero bit from the start state only scales the second point. */
  lemma ZeroStep(u: Fe)
    ensures Scaled(Start(u), Step(u, Start(u)), 1, Mul(4, u))
  {
    hide Red, Add, Sub, Mul;
    Neutral(1);
    MulOne(1);
    ZeroMul(Add(1, Mul(A24, 0)));
    var c, d := Add(u, 1), Sub(u, 1);
    MulOne(c);
    MulOne(d);
    ZeroStepSum(u);
    MulOne(Mul(4, u));
    MulOne(0);
    MulComm(Mul(4, u), 1);
    MulComm(u, 4);
  }

  lemma IntFourSquares(u: int)
    ensures (2 * u) * (2 * u) == (4 * u) * u
  {
  }

  /** (u - 1) + (u + 1) = 2u and (u - 1) - (u + 1) = -2, squared. */
  lemma ZeroStepSum(u: Fe)
    ensures var sum := Add(Sub(u, 1), Add(u, 1));
            Mul(sum, sum) == Mul(Mul(4, u), u)
    ensures var diff := Sub(Sub(u, 1), Add(u, 1));
            Mul(diff, diff) == 4
  {
    hide Red, Mul;
    RedFe(u);
    RedFe(1);
    AddRed(u, 1);
    SubRed(u, 1);
    AddRed(u - 1, u + 1);
    SubRed(u - 1, u + 1);
    MulRed(2 * u, 2 * u);
    MulRed(-2, -2);
    RedFe(4);
    MulRed(4, u);
    MulRed(4 * u, u);
    IntFourSquares(u);
  }

  lemma Neutral(a: Fe)
    ensures Add(a, 0) == a == Sub(a, 0)
    ensures Sub(a, a) == 0
  {
    RedFe(a);
  }

  lemma ZeroMul(a: Fe)
    ensures Mul(0, a) == 0 == Mul(a, 0)
  {
    MulIs(0, a);
    MulIs(a, 0);
  }

  /** With u = 0 the first set bit sends the first point to (0 : 0), where it stays. */
  predicate Collapsed(s: Pts) {
    s.x2 == 0 && s.z2 == 0 && s.z3 == 0
  }

  lemma CollapsedDouble(u: Fe, x: Fe, z3: Fe, x3: Fe)
    ensures Step(u, Pts(x, 0, x3, z3)).z2 == 0
  {
    hide Red, Add, Sub, Mul;
    Neutral(x);
    var xx := Mul(x, x);
    Neutral(xx);
    ZeroMul(Add(xx, Mul(A24, 0)));
  }

  lemma CollapsedStep(u: Fe, b: bool, s: Pts)
    requires u == 0 && Collapsed(s)
    ensures Collapsed(Swap(b, Step(u, Swap(b, s))))
  {
    hide Red, Add, Sub, Mul;
    Neutral(0);
    ZeroMul(0);
    var t := Step(u, Swap(b, s));
    if b {
      CollapsedDouble(u, s.x3, 0, 0);
      ZeroMul(Add(s.x3, s.z3));
      ZeroMul(Sub(s.x3, s.z3));
    } else {
      CollapsedDouble(u, 0, s.z3, s.x3);
      var a := Add(s.x3, s.z3);
      var d := Sub(s.x3, s.z3);
      ZeroMul(a);
      ZeroMul(d);
      assert t.z3 == 0;
    }
  }

  lemma {:induction false} CollapsedRun(u: Fe, k: nat, n: nat, s: Pts)
    requires u == 0 && Collapsed(s)
    ensures Collapsed(Eager(u, k, n, s))
    decreases n
  {
    hide Red, Add, Sub, Mul, Step;
    if n != 0 {
      var b := Bit(k, n - 1);
      CollapsedStep(u, b, s);
      CollapsedRun(u, k, n - 1, Swap(b, Step(u, Swap(b, s))));
    }
  }

  lemma Opposite(z: Fe)
    ensures Add(0, z) == z == Sub(z, 0)
    ensures Add(z, Sub(0, z)) == 0
  {
    RedFe(z);
    AddRed(z, 0 - z);
  }

  lemma OneBitFromStart(u: Fe, z: Fe)
    requires u == 0
    ensures Collapsed(Swap(true, Step(u, Swap(true, Pts(1, 0, u, z)))))
  {
    hide Red, Add, Sub, Mul;
    var a, b := Add(u, z), Sub(u, z);
    Opposite(z);
    SqrNeg(u, z);
    var aa := Mul(a, a);
    Neutral(aa);
    ZeroMul(Add(aa, Mul(A24, 0)));
    Neutral(1);
    MulOne(a);
    MulOne(b);
    ZeroMul(0);
    var diff := Sub(a, b);
    ZeroMul(Mul(diff, diff));
  }

  /** A ladder over 256 bits, whose scalar has bit 255 clear and bit 254 set,
      ends in the affine coordinate that RFC 7748 defines with 255 bits, for
      every u.  The extra step scales a point by 4u, which is a unit unless u is
      zero, because P is prime. */
  lemma LeadingZeroBit(u: Fe, k: nat)
    requires !Bit(k, 255) && Bit(k, 254)
    ensures Affine(Eager(u, k, 256, Start(u))) == X25519(k, u)
  {
    hide Red, Add, Sub, Mul, Step;
    var s := Start(u);
    var t := Step(u, s);
    DeferredIsEager(u, k, 255, false, s);
    assert Eager(u, k, 256, s) == Eager(u, k, 255, t);
    ZeroStep(u);
    if u == 0 {
      ZeroMul(1);
      MulOne(1);
      ZeroMul(Mul(4, u));
      ZeroMul(4);
      assert t == Pts(1, 0, u, 0);
      OneBitFromStart(u, 1);
      OneBitFromStart(u, 0);
      CollapsedRun(u, k, 254, Swap(true, Step(u, Swap(true, s))));
      CollapsedRun(u, k, 254, Swap(true, Step(u, Swap(true, t))));
    } else {
      UnitOne();
      FourTimes(u);
      var r, r' := ScaleRun(u, k, 255, s, t, 1, Mul(4, u));
      ScaleAffine(Eager(u, k, 255, s), Eager(u, k, 255, t), r, r');
    }
  }

  lemma {:induction false} PowOfOne(n: nat)
    ensures Pow(1, n) == 1
  {
    if n != 0 {
      PowOfOne(n - 1);
      MulOne(1);
    }
  }

  lemma FourTimes(u: Fe)
    requires u != 0
    ensures Unit(Mul(4, u))
  {
    hide Mul, Pow;
    PrimeField.NoZeroDivisors(4, u);
    PrimeField.UnlessZero(Mul(4, u));
  }

  lemma UnitOne()
    ensures Unit(1)
  {
    PowOfOne(P - 1);
  }
}

/** curve25519_generic of src/curve25519-fiat32.h: inversion by the addition chain
    and the ladder whose swaps are postponed by one bit. */
module FiatCurve {
  import opened Bits
  import opened Machine
  import opened Field
  import opened Ladder
  import opened Inversion
  import opened LittleEndian
  import opened Clamping
  import opened FiatLimbs
  import opened FiatField

  lemma TightIsLoose(f: Ten)
    requires Tight(f)
    ensures Loose(f)
  {
  }

  /** A field element in memory. */
  class Variable {
    var v: Ten

    constructor (v: Ten)
      ensures this.v == v
    {
      this.v := v;
    }
  }

  // ----- inversion -----

  /** n squarings, the first of them outside the loop as in the source. */
  method SqrTimes(f: Ten, n: nat) returns (t: Ten)
    requires Loose(f) && n >= 1
    ensures Tight(t)
    ensures Elem(t) == Pow(Elem(f), Pow2(n))
  {
    hide Number, Red, Mul, Pow, SqrImpl, Tight, Loose;
    SqrImplIsSquare(f);
    t := SqrImpl(f);
    SquareOfPower(Elem(f), 0);
    var i := 1;
    while i < n
      invariant 1 <= i <= n
      invariant Tight(t) && Elem(t) == Pow(Elem(f), Pow2(i))
    {
      TightIsLoose(t);
      SqrImplIsSquare(t);
      SquareOfPower(Elem(f), i);
      t := SqrImpl(t);
      i := i + 1;
    }
  }

  /** fe_mul on tight or loose elements. */
  method MulTight(f: Ten, g: Ten) returns (h: Ten)
    requires Loose(f) && Loose(g)
    ensures Tight(h) && Loose(h)
    ensures Elem(h) == Mul(Elem(f), Elem(g))
  {
    hide Number, Red, Mul, MulImpl;
    MulImplIsProduct(f, g);
    h := MulImpl(f, g);
    TightIsLoose(h);
  }

  /** fe_loose_invert: z^(P-2) with four temporaries. */
  method LooseInvert(out: Variable, z: Ten)
    requires Loose(z)
    modifies out
    ensures Tight(out.v)
    ensures Elem(out.v) == Pow(Elem(z), P - 2)
  {
    hide Number, Red, Mul, Pow, Ones, Pow2, Tight, Loose;
    ghost var x := Elem(z);
    var t0, t1 := InvertStart(z);
    var t2 := SqrTimes(t1, 5);
    TightIsLoose(t2);
    t1 := MulTight(t2, t1);
    JoinOnes(x, 5, 5);
    t2 := SqrTimes(t1, 10);
    TightIsLoose(t2);
    t2 := MulTight(t2, t1);
    JoinOnes(x, 10, 10);
    var t3 := SqrTimes(t2, 20);
    TightIsLoose(t3);
    t2 := MulTight(t3, t2);
    JoinOnes(x, 20, 20);
    t2 := SqrTimes(t2, 10);
    TightIsLoose(t2);
    t1 := MulTight(t2, t1);
    JoinOnes(x, 40, 10);
    t2 := SqrTimes(t1, 50);
    TightIsLoose(t2);
    t2 := MulTight(t2, t1);
    JoinOnes(x, 50, 50);
    t3 := SqrTimes(t2, 100);
    TightIsLoose(t3);
    t2 := MulTight(t3, t2);
    JoinOnes(x, 100, 100);
    t2 := SqrTimes(t2, 50);
    TightIsLoose(t2);
    t1 := MulTight(t2, t1);
    JoinOnes(x, 200, 50);
    t1 := SqrTimes(t1, 5);
    TightIsLoose(t1);
    out.v := MulTight(t1, t0);
    ChainEnd(x);
  }

  /** z^11 and 2^5 - 1 ones. */
  method InvertStart(z: Ten) returns (t0: Ten, t1: Ten)
    requires Loose(z)
    ensures Loose(t0) && Loose(t1)
    ensures Elem(t0) == Pow(Elem(z), 11) && Elem(t1) == Ones(Elem(z), 5)
  {
    hide Number, Red, Mul, Pow, Ones, SqrImpl, Tight, Loose;
    ghost var x := Elem(z);
    SqrImplIsSquare(z);
    t0 := SqrImpl(z);
    TightIsLoose(t0);
    ghost var z2 := Elem(t0);
    t1 := SqrTimes(t0, 2);
    TightIsLoose(t1);
    ghost var z8 := Elem(t1);
    t1 := MulTight(z, t1);
    MulComm(x, z8);
    ghost var z9 := Elem(t1);
    t0 := MulTight(t0, t1);
    MulComm(z2, z9);
    ghost var z11 := Elem(t0);
    SqrImplIsSquare(t0);
    var t2 := SqrImpl(t0);
    TightIsLoose(t2);
    ghost var z22 := Elem(t2);
    t1 := MulTight(t1, t2);
    MulComm(z9, z22);
    ChainStart(x, z2, z8, z9, z11, z22, Elem(t1));
  }

  // ----- conditional swap -----

  /** One limb: `x = (f ^ g) & b; f ^= x; g ^= x` with b all zeros or all ones. */
  function SwapLimb(b: int, f: int, g: int): (int, int) {
    var x := And(Xor(f, g), b);
    (Xor(f, x), Xor(g, x))
  }

  lemma SwapLimbIs(swap: bool, f: int, g: int)
    requires 0 <= f <= 0xffff_ffff && 0 <= g <= 0xffff_ffff
    ensures SwapLimb(if swap then 0xffff_ffff else 0, f, g) == if swap then (g, f) else (f, g)
  {
    hide And, Xor, Pow2;
    Pow2Large();
    OrXorRange(f, g, 32);
    AndMask(Xor(f, g), 32);
    AndSigns(Xor(f, g));
    XorZero(f);
    XorZero(g);
    XorSwap(f, g);
  }

  /** fe_cswap: exchange f and g if b is 1; `0 - b` wraps to the mask. */
  function CSwap(f: Ten, g: Ten, b: int): (Ten, Ten) {
    var m := W32(0 - b);
    var (f0, g0) := SwapLimb(m, f.v0, g.v0);
    var (f1, g1) := SwapLimb(m, f.v1, g.v1);
    var (f2, g2) := SwapLimb(m, f.v2, g.v2);
    var (f3, g3) := SwapLimb(m, f.v3, g.v3);
    var (f4, g4) := SwapLimb(m, f.v4, g.v4);
    var (f5, g5) := SwapLimb(m, f.v5, g.v5);
    var (f6, g6) := SwapLimb(m, f.v6, g.v6);
    var (f7, g7) := SwapLimb(m, f.v7, g.v7);
    var (f8, g8) := SwapLimb(m, f.v8, g.v8);
    var (f9, g9) := SwapLimb(m, f.v9, g.v9);
    (Ten(f0, f1, f2, f3, f4, f5, f6, f7, f8, f9), Ten(g0, g1, g2, g3, g4, g5, g6, g7, g8, g9))
  }

  lemma CSwapIs(f: Ten, g: Ten, b: int)
    requires Tight(f) && Tight(g) && (b == 0 || b == 1)
    ensures CSwap(f, g, b) == if b == 1 then (g, f) else (f, g)
  {
    hide SwapLimb;
    SwapLimbIs(b == 1, f.v0, g.v0);
    SwapLimbIs(b == 1, f.v1, g.v1);
    SwapLimbIs(b == 1, f.v2, g.v2);
    SwapLimbIs(b == 1, f.v3, g.v3);
    SwapLimbIs(b == 1, f.v4, g.v4);
    SwapLimbIs(b == 1, f.v5, g.v5);
    SwapLimbIs(b == 1, f.v6, g.v6);
    SwapLimbIs(b == 1, f.v7, g.v7);
    SwapLimbIs(b == 1, f.v8, g.v8);
    SwapLimbIs(b == 1, f.v9, g.v9);
  }

  // ----- ladder -----

  /** The four field elements that the loop overwrites. */
  class Points {
    var x2: Ten
    var z2: Ten
    var x3: Ten
    var z3: Ten

    /** The start of a ladder on x1. */
    constructor (x1: Ten)
      requires FiatLimbs.Tight(x1)
      ensures Tight() && State() == Start(Elem(x1))
    {
      x2, z2 := Ten(1, 0, 0, 0, 0, 0, 0, 0, 0, 0), Ten(0, 0, 0, 0, 0, 0, 0, 0, 0, 0);
      x3, z3 := x1, Ten(1, 0, 0, 0, 0, 0, 0, 0, 0, 0);
      new;
      ConstantElem(0);
      ConstantElem(1);
      SmallTight();
    }

    ghost predicate Tight()
      reads this
    {
      FiatLimbs.Tight(x2) && FiatLimbs.Tight(z2) && FiatLimbs.Tight(x3) && FiatLimbs.Tight(z3)
    }

    ghost function State(): Pts
      reads this
    {
      Pts(Elem(x2), Elem(z2), Elem(x3), Elem(z3))
    }

    /** The two calls of fe_cswap. */
    method SwapIf(b: int)
      requires Tight() && (b == 0 || b == 1)
      modifies this
      ensures Tight() && State() == Swap(b == 1, old(State()))
    {
      hide CSwap, FiatLimbs.Tight, Number, Red;
      CSwapIs(x2, x3, b);
      CSwapIs(z2, z3, b);
      var x, z := CSwap(x2, x3, b), CSwap(z2, z3, b);
      x2, x3, z2, z3 := x.0, x.1, z.0, z.1;
    }
  }

  /** BB + 121666 E = AA + 121665 E, since E = AA - BB. */
  lemma OtherConstant(aa: Fe, bb: Fe)
    ensures var e := Sub(aa, bb); Add(bb, Mul(e, 121666)) == Add(aa, Mul(A24, e))
  {
    hide Red, Mul;
    var e := Sub(aa, bb);
    RedFe(aa);
    RedFe(bb);
    SubRed(aa, bb);
    RedFe(121666);
    RedFe(A24);
    MulRed(aa - bb, 121666);
    MulRed(A24, aa - bb);
    AddRed(bb, (aa - bb) * 121666);
    AddRed(aa, A24 * (aa - bb));
    assert bb + (aa - bb) * 121666 == aa + A24 * (aa - bb);
  }

  /** The step of this implementation, on field elements. */
  lemma StepFormula(u: Fe, s: Pts)
    ensures var a, b, c, d := Add(s.x2, s.z2), Sub(s.x2, s.z2), Add(s.x3, s.z3), Sub(s.x3, s.z3);
            var da, cb, bb, aa := Mul(d, a), Mul(c, b), Mul(b, b), Mul(a, a);
            var e := Sub(aa, bb);
            Step(u, s) == Pts(Mul(aa, bb), Mul(e, Add(bb, Mul(e, 121666))),
                              Mul(Add(da, cb), Add(da, cb)), Mul(u, Mul(Sub(da, cb), Sub(da, cb))))
  {
    hide Red, Add, Sub, Mul;
    var a, b := Add(s.x2, s.z2), Sub(s.x2, s.z2);
    OtherConstant(Mul(a, a), Mul(b, b));
  }

  /** Lines 822-839 of the source: temporaries are reused as there. */
  method LadderStep(x1: Ten, p: Points)
    requires Tight(x1) && p.Tight()
    modifies p
    ensures p.Tight()
    ensures p.State() == Step(Elem(x1), old(p.State()))
  {
    hide Number, Red, Add, Sub, Mul, Step, Tight, Loose, AddImpl, SubImpl, SqrImpl, MulImpl;
    ghost var s := p.State();
    var tmp0l := SubTight(p.x3, p.z3);
    var tmp1l := SubTight(p.x2, p.z2);
    var x2l := AddTight(p.x2, p.z2);
    var z2l := AddTight(p.x3, p.z3);
    p.z3 := MulTight(tmp0l, x2l);
    p.z2 := MulTight(z2l, tmp1l);
    var tmp0 := SqrTight(tmp1l);
    var tmp1 := SqrTight(x2l);
    var x3l := AddTight(p.z3, p.z2);
    z2l := SubTight(p.z3, p.z2);
    TightIsLoose(tmp0);
    TightIsLoose(tmp1);
    p.x2 := MulTight(tmp1, tmp0);
    tmp1l := SubTight(tmp1, tmp0);
    p.z2 := SqrTight(z2l);
    p.z3 := Times121666(tmp1l);
    p.x3 := SqrTight(x3l);
    tmp0l := AddTight(tmp0, p.z3);
    TightIsLoose(x1);
    TightIsLoose(p.z2);
    p.z3 := MulTight(x1, p.z2);
    p.z2 := MulTight(tmp1l, tmp0l);
    StepFormula(Elem(x1), s);
  }

  method AddTight(f: Ten, g: Ten) returns (h: Ten)
    requires Tight(f) && Tight(g)
    ensures Loose(h) && Elem(h) == Add(Elem(f), Elem(g))
  {
    AddImplIsSum(f, g);
    h := AddImpl(f, g);
  }

  method SubTight(f: Ten, g: Ten) returns (h: Ten)
    requires Tight(f) && Tight(g)
    ensures Loose(h) && Elem(h) == Sub(Elem(f), Elem(g))
  {
    SubImplIsDifference(f, g);
    h := SubImpl(f, g);
  }

  method SqrTight(f: Ten) returns (h: Ten)
    requires Loose(f)
    ensures Tight(h) && Elem(h) == Mul(Elem(f), Elem(f))
  {
    hide Mul, Number, Red, SqrImpl;
    SqrImplIsSquare(f);
    h := SqrImpl(f);
  }

  method Times121666(f: Ten) returns (h: Ten)
    requires Loose(f)
    ensures Tight(h) && Elem(h) == Mul(Elem(f), 121666)
  {
    hide Mul, Number, Red, MulImpl;
    var k := Ten(121666, 0, 0, 0, 0, 0, 0, 0, 0, 0);
    MulImplIsProduct(f, k);
    ConstantElem(121666);
    h := Mul121666(f);
  }

  lemma ConstantElem(n: int)
    requires 0 <= n <= 121666
    ensures Elem(Ten(n, 0, 0, 0, 0, 0, 0, 0, 0, 0)) == n
  {
    hide Number;
    NumberIs(Ten(n, 0, 0, 0, 0, 0, 0, 0, 0, 0));
  }

  /** The loop over bits 254 .. 0 with the postponed swap, and the swap after it. */
  method FiatLadder(e: seq<u8>, x1: Ten) returns (x2: Ten, z2: Ten)
    requires |e| == 32 && Tight(x1)
    ensures Tight(x2) && Tight(z2)
    ensures var s := Deferred(Elem(x1), LE(e), 255, false, Start(Elem(x1)));
            Elem(x2) == s.x2 && Elem(z2) == s.z2
  {
    hide Number, Red, Step, Tight, LE, Bit, CSwap;
    ghost var u, k := Elem(x1), LE(e);
    var p := new Points(x1);
    var swap := 0;
    var pos := 254;
    while pos >= 0
      invariant -1 <= pos <= 254 && (swap == 0 || swap == 1)
      invariant p.Tight()
      invariant Deferred(u, k, pos + 1, swap == 1, p.State()) == Deferred(u, k, 255, false, Start(u))
    {
      var b := ScalarBit(e, pos);
      OneBitXor(swap, b);
      swap := Xor(swap, b);
      p.SwapIf(swap);
      swap := b;
      LadderStep(x1, p);
      pos := pos - 1;
    }
    p.SwapIf(swap);
    x2, z2 := p.x2, p.z2;
  }

  lemma OneBitXor(a: int, b: int)
    requires 0 <= a <= 1 && 0 <= b <= 1
    ensures Xor(a, b) == (if a == b then 0 else 1)
  {
  }

  lemma SmallTight()
    ensures Tight(Ten(0, 0, 0, 0, 0, 0, 0, 0, 0, 0)) && Tight(Ten(1, 0, 0, 0, 0, 0, 0, 0, 0, 0))
  {
  }

  lemma CanonicalIsTight(f: Ten)
    requires Canonical(f)
    ensures Tight(f)
  {
  }

  /** For every secret and base point the output is X25519 of RFC 7748. */
  method Curve25519Generic(scalar: array<u8>, point: seq<u8>) returns (out: seq<u8>)
    requires scalar.Length == 32 && |point| == 32
    ensures |out| == 32
    ensures LE(out) == X25519(ClampedValue(scalar[..]), Red(LE(point) % (P + 19)))
  {
    hide Number, Red, Mul, Pow, LE, Deferred, Tight, Loose, FromBytes, ToBytes, MulImpl, ClampedValue;
    var e := new u8[32](i requires 0 <= i < 32 reads scalar => scalar[i]);
    assert e[..] == scalar[..];
    ClampSecret(e);
    FromBytesValue(point);
    var x1 := FromBytes(point);
    CanonicalIsTight(x1);
    var x2, z2 := FiatLadder(e[..], x1);
    TightIsLoose(z2);
    var inverse := new Variable(z2);
    LooseInvert(inverse, z2);
    z2 := inverse.v;
    TightIsLoose(x2);
    TightIsLoose(z2);
    x2 := MulTight(x2, z2);
    ToBytesValue(x2);
    out := ToBytes(x2);
  }
}

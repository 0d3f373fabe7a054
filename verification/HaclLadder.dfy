/** The ladder of src/curve25519-hacl64.h: conditional swaps by masks, one
    add-and-double step, and the loop over the 32 bytes of the scalar with two
    pairs of point buffers that change roles at every bit. */
module HaclLadder {
  import opened Bits
  import opened Machine
  import opened Field
  import opened Ladder
  import opened HaclArith
  import opened Inversion
  import opened HaclField
  import opened LittleEndian

  /** A projective point: five limbs for x and five for z. */
  datatype Point = Point(x: array<u64>, z: array<u64>)

  ghost predicate Shape(p: Point) {
    p.x.Length == 5 && p.z.Length == 5 && p.x != p.z
  }

  /** Two points in separate memory. */
  ghost predicate Apart(p: Point, q: Point) {
    p.x != q.x && p.x != q.z && p.z != q.x && p.z != q.z
  }

  ghost predicate NormalPoint(p: Point)
    reads p.x, p.z
    requires Shape(p)
  {
    Normal(Limbs(p.x)) && Normal(Limbs(p.z))
  }

  ghost function State(p: Point, q: Point): Pts
    reads p.x, p.z, q.x, q.z
    requires Shape(p) && Shape(q)
  {
    Pts(Elem(p.x), Elem(p.z), Elem(q.x), Elem(q.z))
  }

  // ----- conditional swap -----

  /** `0 - iswap` on a 64-bit word: all zeros or all ones. */
  function SwapMask(iswap: u64): (m: u64) {
    ((0 - iswap as int) % 0x1_0000_0000_0000_0000) as u64
  }

  /** The words after the masked exchange. */
  function SwapWords(m: u64, a: u64, b: u64): (r: (u64, u64))
    requires m == 0 || m == 0xffff_ffff_ffff_ffff
    ensures r == if m == 0 then (a, b) else (b, a)
  {
    MaskedExchange(m as int, a as int, b as int);
    var x := And(m as int, Xor(a as int, b as int));
    (Xor(a as int, x) as u64, Xor(b as int, x) as u64)
  }

  lemma MaskedExchange(m: int, a: int, b: int)
    requires m == 0 || m == 0xffff_ffff_ffff_ffff
    requires 0 <= a <= 0xffff_ffff_ffff_ffff && 0 <= b <= 0xffff_ffff_ffff_ffff
    ensures var x := And(m, Xor(a, b));
            if m == 0 then Xor(a, x) == a && Xor(b, x) == b else Xor(a, x) == b && Xor(b, x) == a
  {
    hide And, Xor, Pow2;
    Pow2Large();
    OrXorRange(a, b, 64);
    AndSigns(Xor(a, b));
    AndComm(m, Xor(a, b));
    AndMask(Xor(a, b), 64);
    XorZero(a);
    XorZero(b);
    XorSwap(a, b);
  }

  method SwapConditional5(a: array<u64>, b: array<u64>, swap1: u64)
    requires a.Length == 5 && b.Length == 5 && a != b
    requires swap1 == 0 || swap1 == 0xffff_ffff_ffff_ffff
    modifies a, b
    ensures a[..] == (if swap1 == 0 then old(a[..]) else old(b[..]))
    ensures b[..] == (if swap1 == 0 then old(b[..]) else old(a[..]))
  {
    var ctr := 5;
    while ctr > 0
      invariant 0 <= ctr <= 5
      invariant forall i :: 0 <= i < ctr ==> a[i] == old(a[i]) && b[i] == old(b[i])
      invariant forall i :: ctr <= i < 5 ==> a[i] == (if swap1 == 0 then old(a[i]) else old(b[i]))
      invariant forall i :: ctr <= i < 5 ==> b[i] == (if swap1 == 0 then old(b[i]) else old(a[i]))
    {
      var i := ctr - 1;
      var w := SwapWords(swap1, a[i], b[i]);
      a[i] := w.0;
      b[i] := w.1;
      ctr := ctr - 1;
    }
  }

  lemma SameLimbs(a: array<u64>, s: seq<u64>)
    requires a.Length == 5 && a[..] == s
    ensures Limbs(a) == Five(s[0] as int, s[1] as int, s[2] as int, s[3] as int, s[4] as int)
  {
  }

  method PointSwapConditional(a: Point, b: Point, iswap: u64)
    requires Shape(a) && Shape(b) && Apart(a, b)
    requires NormalPoint(a) && NormalPoint(b)
    requires iswap == 0 || iswap == 1
    modifies a.x, a.z, b.x, b.z
    ensures NormalPoint(a) && NormalPoint(b)
    ensures State(a, b) == Swap(iswap == 1, old(State(a, b)))
  {
    hide Val, Red;
    ghost var ax, az, bx, bz := a.x[..], a.z[..], b.x[..], b.z[..];
    var swap1 := SwapMask(iswap);
    SwapConditional5(a.x, b.x, swap1);
    SwapConditional5(a.z, b.z, swap1);
    SameLimbs(a.x, if iswap == 1 then bx else ax);
    SameLimbs(b.x, if iswap == 1 then ax else bx);
    SameLimbs(a.z, if iswap == 1 then bz else az);
    SameLimbs(b.z, if iswap == 1 then az else bz);
  }

  // ----- one step -----

  method Copy(dst: array<u64>, src: array<u64>)
    requires dst.Length == 5 && src.Length == 5
    modifies dst
    ensures Limbs(dst) == old(Limbs(src))
  {
    dst[0], dst[1], dst[2], dst[3], dst[4] := src[0], src[1], src[2], src[3], src[4];
  }

  /** x, z := x + z, x - z, through a copy of x. */
  method SumAndDifference(x: array<u64>, z: array<u64>, orig: array<u64>)
    requires x.Length == 5 && z.Length == 5 && orig.Length == 5
    requires x != z && x != orig && z != orig
    requires Normal(Limbs(x)) && Normal(Limbs(z))
    modifies x, z, orig
    ensures Loose(Limbs(x)) && Loose(Limbs(z))
    ensures Elem(x) == Add(old(Elem(x)), old(Elem(z)))
    ensures Elem(z) == Sub(old(Elem(x)), old(Elem(z)))
  {
    hide Val, Red, Add, Sub;
    Copy(orig, x);
    FSum(x, z);
    FDifference(z, orig);
  }

  /** The sum point from A, B, C, D: x3 = (CB + AD)^2 and z3 = (CB - AD)^2 qx. */
  method SumPoint(x3: array<u64>, z3: array<u64>, a: array<u64>, b: array<u64>, c: array<u64>, d: array<u64>, qx: array<u64>)
    requires x3.Length == 5 && z3.Length == 5 && a.Length == 5 && b.Length == 5 && c.Length == 5 && d.Length == 5 && qx.Length == 5
    requires x3 != z3 && x3 != qx && z3 != qx
    requires Loose(Limbs(a)) && Loose(Limbs(b)) && Loose(Limbs(c)) && Loose(Limbs(d)) && Normal(Limbs(qx))
    modifies x3, z3
    ensures Normal(Limbs(x3)) && Normal(Limbs(z3))
    ensures var cb := old(Mul(Elem(c), Elem(b))); var ad := old(Mul(Elem(a), Elem(d)));
            && Elem(x3) == Mul(Add(cb, ad), Add(cb, ad))
            && Elem(z3) == Mul(Mul(Sub(cb, ad), Sub(cb, ad)), old(Elem(qx)))
  {
    hide Val, Red, Add, Sub, Mul, Pow, Pow2;
    var xxprime := new u64[5];
    var zzprime := new u64[5];
    var origxprime := new u64[5];
    var zzzprime := new u64[5];
    FMul(xxprime, c, b);
    FMul(zzprime, a, d);
    SumAndDifference(xxprime, zzprime, origxprime);
    ghost var sum, diff := Elem(xxprime), Elem(zzprime);
    FSquareTimes(x3, xxprime, 1);
    FSquareTimes(zzzprime, zzprime, 1);
    FMul(z3, zzzprime, qx);
    SquareOnce(sum);
    SquareOnce(diff);
  }

  lemma SquareOnce(x: Fe)
    ensures Pow(x, Pow2(Squarings(1))) == Mul(x, x)
  {
    hide Mul;
    SquareOfPower(x, 0);
  }

  /** The doubled point from A and B: x2 = AA BB and z2 = (121665 E + AA) E. */
  method DoublePoint(x2: array<u64>, z2: array<u64>, a: array<u64>, b: array<u64>)
    requires x2.Length == 5 && z2.Length == 5 && a.Length == 5 && b.Length == 5
    requires x2 != z2
    requires Loose(Limbs(a)) && Loose(Limbs(b))
    modifies x2, z2
    ensures Normal(Limbs(x2)) && Normal(Limbs(z2))
    ensures var aa := old(Mul(Elem(a), Elem(a))); var bb := old(Mul(Elem(b), Elem(b))); var e := Sub(aa, bb);
            Elem(x2) == Mul(aa, bb) && Elem(z2) == Mul(Add(Mul(A24, e), aa), e)
  {
    hide Val, Red, Add, Sub, Mul, Pow, Pow2;
    ghost var ea, eb := Elem(a), Elem(b);
    var xx := new u64[5];
    var zz := new u64[5];
    var zzz := new u64[5];
    FSquareTimes(xx, a, 1);
    FSquareTimes(zz, b, 1);
    SquareOnce(ea);
    SquareOnce(eb);
    FMul(x2, xx, zz);
    FDifference(zz, xx);
    var scalar: u64 := 121665;
    FScalar(zzz, zz, scalar);
    FSum(zzz, xx);
    FMul(z2, zzz, zz);
  }

  /** The two halves, put together, are the step of RFC 7748. */
  lemma StepFormula(u: Fe, s: Pts)
    ensures var a, b, c, d := Add(s.x2, s.z2), Sub(s.x2, s.z2), Add(s.x3, s.z3), Sub(s.x3, s.z3);
            var aa, bb := Mul(a, a), Mul(b, b);
            var e := Sub(aa, bb);
            var cb, ad := Mul(c, b), Mul(a, d);
            Step(u, s) == Pts(Mul(aa, bb), Mul(Add(Mul(A24, e), aa), e),
                              Mul(Add(cb, ad), Add(cb, ad)), Mul(Mul(Sub(cb, ad), Sub(cb, ad)), u))
  {
    hide Red, Add, Sub, Mul;
    var a, b, c, d := Add(s.x2, s.z2), Sub(s.x2, s.z2), Add(s.x3, s.z3), Sub(s.x3, s.z3);
    var aa, bb := Mul(a, a), Mul(b, b);
    var e := Sub(aa, bb);
    var cb, ad := Mul(c, b), Mul(a, d);
    AddComm(aa, Mul(A24, e));
    MulComm(e, Add(Mul(A24, e), aa));
    MulComm(a, d);
    AddComm(cb, ad);
    SqrNeg(ad, cb);
    MulComm(u, Mul(Sub(cb, ad), Sub(cb, ad)));
  }

  /** pp, ppq := the double of p and the sum of p and pq, whose difference has
      x-coordinate qx.  The inputs are used as scratch space. */
  method AddAndDouble(pp: Point, ppq: Point, p: Point, pq: Point, qx: array<u64>)
    requires Shape(pp) && Shape(ppq) && Shape(p) && Shape(pq) && qx.Length == 5
    requires Apart(pp, ppq) && Apart(pp, p) && Apart(pp, pq) && Apart(ppq, p) && Apart(ppq, pq) && Apart(p, pq)
    requires qx != pp.x && qx != pp.z && qx != ppq.x && qx != ppq.z && qx != p.x && qx != p.z && qx != pq.x && qx != pq.z
    requires NormalPoint(p) && NormalPoint(pq) && Normal(Limbs(qx))
    modifies pp.x, pp.z, ppq.x, ppq.z, p.x, p.z, pq.x, pq.z
    ensures NormalPoint(pp) && NormalPoint(ppq)
    ensures State(pp, ppq) == Step(Elem(qx), old(State(p, pq)))
  {
    hide Val, Red, Add, Sub, Mul, Step;
    ghost var u, s := Elem(qx), State(p, pq);
    var origx := new u64[5];
    var origxprime := new u64[5];
    SumAndDifference(p.x, p.z, origx);
    SumAndDifference(pq.x, pq.z, origxprime);
    SumPoint(ppq.x, ppq.z, p.x, p.z, pq.x, pq.z, qx);
    DoublePoint(pp.x, pp.z, p.x, p.z);
    StepFormula(u, s);
  }

  // ----- the loops -----

  /** Two pairs of points and the base point, all in separate memory. */
  ghost predicate Buffers(nq: Point, nqpq: Point, nq2: Point, nqpq2: Point, qx: array<u64>) {
    && Shape(nq) && Shape(nqpq) && Shape(nq2) && Shape(nqpq2) && qx.Length == 5
    && Apart(nq, nqpq) && Apart(nq, nq2) && Apart(nq, nqpq2) && Apart(nqpq, nq2) && Apart(nqpq, nqpq2) && Apart(nq2, nqpq2)
    && qx != nq.x && qx != nq.z && qx != nqpq.x && qx != nqpq.z
    && qx != nq2.x && qx != nq2.z && qx != nqpq2.x && qx != nqpq2.z
  }

  /** What the ladder does with one bit. */
  ghost function OneBit(u: Fe, b: bool, s: Pts): Pts {
    Swap(b, Step(u, Swap(b, s)))
  }

  /** One bit, the top bit of `byt`, from the first pair into the second. */
  method SmallLoopStep(nq: Point, nqpq: Point, nq2: Point, nqpq2: Point, qx: array<u64>, byt: u8)
    requires Buffers(nq, nqpq, nq2, nqpq2, qx)
    requires NormalPoint(nq) && NormalPoint(nqpq) && Normal(Limbs(qx))
    modifies nq.x, nq.z, nqpq.x, nqpq.z, nq2.x, nq2.z, nqpq2.x, nqpq2.z
    ensures NormalPoint(nq2) && NormalPoint(nqpq2)
    ensures State(nq2, nqpq2) == OneBit(Elem(qx), byt / 128 == 1, old(State(nq, nqpq)))
  {
    hide Val, Red, Step;
    var bit0 := (byt / 128) as u64;
    PointSwapConditional(nq, nqpq, bit0);
    AddAndDouble(nq2, nqpq2, nq, nqpq, qx);
    var bit := (byt / 128) as u64;
    PointSwapConditional(nq2, nqpq2, bit);
  }

  /** Two bits; the result is back in the first pair. */
  method SmallLoopDoubleStep(nq: Point, nqpq: Point, nq2: Point, nqpq2: Point, qx: array<u64>, byt: u8)
    requires Buffers(nq, nqpq, nq2, nqpq2, qx)
    requires NormalPoint(nq) && NormalPoint(nqpq) && Normal(Limbs(qx))
    modifies nq.x, nq.z, nqpq.x, nqpq.z, nq2.x, nq2.z, nqpq2.x, nqpq2.z
    ensures NormalPoint(nq) && NormalPoint(nqpq)
    ensures State(nq, nqpq) == OneBit(Elem(qx), ((2 * byt as int) % 256) / 128 == 1, OneBit(Elem(qx), byt / 128 == 1, old(State(nq, nqpq))))
  {
    hide Val, Red, OneBit;
    SmallLoopStep(nq, nqpq, nq2, nqpq2, qx, byt);
    var byt1 := ((2 * byt as int) % 256) as u8;
    SmallLoopStep(nq2, nqpq2, nq, nqpq, qx, byt1);
  }

  /** Processing one more bit leaves the outcome of the whole ladder alone. */
  lemma EagerStep(u: Fe, k: nat, n: nat, s: Pts)
    ensures Eager(u, k, n + 1, s) == Eager(u, k, n, OneBit(u, Bit(k, n), s))
  {
    hide Step;
  }

  /** The top bits of a byte shifted r and r + 1 places. */
  lemma TwoShifts(x: nat, r: nat)
    requires x < 256 && r <= 6
    ensures Shl8(x, r) < 256 && Shl8(x, r + 2) < 256
    ensures Shl8(x, r + 2) == (4 * Shl8(x, r)) % 256
    ensures (Shl8(x, r) / 128 == 1) == Bit(x, 7 - r)
    ensures (((2 * Shl8(x, r)) % 256) / 128 == 1) == Bit(x, 6 - r)
  {
    hide Bit, Shl8;
    ByteTopBit(x, r);
    ByteTopBit(x, r + 1);
    Shl8Step(x, r);
    Shl8Step(x, r + 1);
    TwiceTwice(Shl8(x, r));
  }

  lemma Shl8Step(x: nat, r: nat)
    ensures Shl8(x, r + 1) == (2 * Shl8(x, r)) % 256
  {
  }

  lemma TwiceTwice(b: nat)
    requires b < 256
    ensures (2 * ((2 * b) % 256)) % 256 == (4 * b) % 256
  {
  }

  /** The two bits taken from a byte that was already shifted r places. */
  lemma TwoBits(u: Fe, n1: seq<u8>, i: nat, r: nat, s: Pts)
    requires i < |n1| && r <= 6
    ensures var b := Shl8(n1[i] as nat, r);
            && Eager(u, LE(n1), 8 * i + 8 - r, s)
               == Eager(u, LE(n1), 8 * i + 6 - r, OneBit(u, ((2 * b) % 256) / 128 == 1, OneBit(u, b / 128 == 1, s)))
  {
    hide OneBit, Eager, Shl8, LE, Bit;
    var x := n1[i] as nat;
    var b := Shl8(x, r);
    TwoShifts(x, r);
    BitOfBytes(n1, i, 7 - r);
    BitOfBytes(n1, i, 6 - r);
    EagerStep(u, LE(n1), 8 * i + 7 - r, s);
    EagerStep(u, LE(n1), 8 * i + 6 - r, OneBit(u, b / 128 == 1, s));
  }

  /** The eight bits of byte `at` of the scalar. */
  method SmallLoop(nq: Point, nqpq: Point, nq2: Point, nqpq2: Point, qx: array<u64>, byte: u8, i: nat, ghost n1: seq<u8>, ghost at: nat)
    requires Buffers(nq, nqpq, nq2, nqpq2, qx)
    requires NormalPoint(nq) && NormalPoint(nqpq) && Normal(Limbs(qx))
    requires i == 4 && at < |n1| && n1[at] == byte
    modifies nq.x, nq.z, nqpq.x, nqpq.z, nq2.x, nq2.z, nqpq2.x, nqpq2.z
    ensures NormalPoint(nq) && NormalPoint(nqpq)
    ensures Eager(Elem(qx), LE(n1), 8 * at, State(nq, nqpq)) == old(Eager(Elem(qx), LE(n1), 8 * at + 8, State(nq, nqpq)))
  {
    hide Val, Red, OneBit, Eager, Shl8, LE;
    ghost var u, goal := Elem(qx), Eager(Elem(qx), LE(n1), 8 * at + 8, State(nq, nqpq));
    var byt := byte;
    var j := i;
    Shl8Zero(byte as nat);
    while j > 0
      invariant 0 <= j <= 4
      invariant NormalPoint(nq) && NormalPoint(nqpq) && Normal(Limbs(qx)) && Elem(qx) == u
      invariant byt as nat == Shl8(byte as nat, 8 - 2 * j)
      invariant Eager(u, LE(n1), 8 * at + 2 * j, State(nq, nqpq)) == goal
    {
      j := j - 1;
      TwoShifts(byte as nat, 6 - 2 * j);
      TwoBits(u, n1, at, 6 - 2 * j, State(nq, nqpq));
      SmallLoopDoubleStep(nq, nqpq, nq2, nqpq2, qx, byt);
      byt := ((4 * byt as int) % 256) as u8;
    }
  }

  lemma Shl8Zero(x: nat)
    ensures Shl8(x, 0) == x
  {
  }

  method BigLoop(n1: array<u8>, nq: Point, nqpq: Point, nq2: Point, nqpq2: Point, qx: array<u64>, i: nat)
    requires Buffers(nq, nqpq, nq2, nqpq2, qx)
    requires NormalPoint(nq) && NormalPoint(nqpq) && Normal(Limbs(qx))
    requires i <= n1.Length
    modifies nq.x, nq.z, nqpq.x, nqpq.z, nq2.x, nq2.z, nqpq2.x, nqpq2.z
    ensures NormalPoint(nq) && NormalPoint(nqpq)
    ensures State(nq, nqpq) == old(Eager(Elem(qx), LE(n1[..]), 8 * i, State(nq, nqpq)))
  {
    hide Val, Red, Step, LE;
    ghost var u, bytes := Elem(qx), n1[..];
    ghost var goal := Eager(u, LE(bytes), 8 * i, State(nq, nqpq));
    var j := i;
    while j > 0
      invariant 0 <= j <= i
      invariant NormalPoint(nq) && NormalPoint(nqpq) && Normal(Limbs(qx)) && Elem(qx) == u
      invariant Eager(u, LE(bytes), 8 * j, State(nq, nqpq)) == goal
    {
      j := j - 1;
      var byte := n1[j];
      SmallLoop(nq, nqpq, nq2, nqpq2, qx, byte, 4, bytes, j);
    }
  }

  lemma SmallElem(c: int)
    requires 0 <= c <= 1
    ensures Red(Val(Five(c, 0, 0, 0, 0))) == c
  {
  }

  /** Ten zeroed words, with the given first one. */
  method NewPoint(first: u64) returns (p: Point)
    ensures Shape(p) && fresh(p.x) && fresh(p.z)
    ensures Limbs(p.x) == Five(first as int, 0, 0, 0, 0) && Limbs(p.z) == Five(0, 0, 0, 0, 0)
  {
    var x := new u64[5] [first, 0, 0, 0, 0];
    var z := new u64[5] [0, 0, 0, 0, 0];
    p := Point(x, z);
  }

  /** result = n1 * q by the ladder over all 256 bits of the scalar, for every
      scalar and every point q = (qx : 1). */
  method LadderCMult(result: Point, n1: array<u8>, q: Point)
    requires Shape(result) && Shape(q) && Apart(result, q) && n1.Length == 32
    requires Normal(Limbs(q.x)) && Limbs(q.z) == Five(1, 0, 0, 0, 0)
    modifies result.x, result.z
    ensures NormalPoint(result)
    ensures var s := old(Eager(Elem(q.x), LE(n1[..]), 256, Start(Elem(q.x))));
            Elem(result.x) == s.x2 && Elem(result.z) == s.z2
  {
    hide Eager, LE, Step, Val, Red;
    SmallElem(0);
    SmallElem(1);
    var nq := NewPoint(1);
    var nqpq := NewPoint(0);
    var nq2 := NewPoint(0);
    var nqpq2 := NewPoint(0);
    Copy(nqpq.x, q.x);
    Copy(nqpq.z, q.z);
    assert State(nq, nqpq) == Start(Elem(q.x));
    BigLoop(n1, nq, nqpq, nq2, nqpq2, q.x, 32);
    Copy(result.x, nq.x);
    Copy(result.z, nq.z);
  }
}

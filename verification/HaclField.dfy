/** Field operations of src/curve25519-hacl64.h: five 64-bit limbs in radix 2^51,
    updated in place, with 128-bit column sums. */
module HaclField {
  import opened Bits
  import opened Machine
  import opened Field
  import opened Inversion
  import opened HaclArith

  ghost function Limbs(a: array<u64>): Five
    reads a
    requires a.Length == 5
  {
    Five(a[0] as int, a[1] as int, a[2] as int, a[3] as int, a[4] as int)
  }

  ghost function Wide(t: array<u128>): Five
    reads t
    requires t.Length == 5
  {
    Five(t[0] as int, t[1] as int, t[2] as int, t[3] as int, t[4] as int)
  }

  /** The field element held by a limb array. */
  ghost function Elem(a: array<u64>): Fe
    reads a
    requires a.Length == 5
  {
    Red(Val(Limbs(a)))
  }

  // ----- column sums -----

  /** One limb product, exact in 128 bits. */
  function MulWide(x: u64, y: u64): (r: u128)
    ensures r as int == x as int * y as int
  {
    ProductBound(x as int, y as int, 0xffff_ffff_ffff_ffff, 0xffff_ffff_ffff_ffff);
    x as u128 * y as u128
  }

  /** output += input * s, limb by limb.  `k` counts the products already summed. */
  method SumScalarMultiplication(output: array<u128>, input: array<u64>, s: u64, ghost k: nat)
    requires output.Length == 5 && input.Length == 5 && k <= 4
    requires forall i :: 0 <= i < 5 ==> input[i] as int <= 19 * LIMB
    requires s as int <= LIMB
    requires forall i :: 0 <= i < 5 ==> output[i] as int <= k * (19 * LIMB * LIMB)
    modifies output
    ensures forall i :: 0 <= i < 5 ==> output[i] as int == old(output[i] as int) + input[i] as int * s as int
    ensures forall i :: 0 <= i < 5 ==> output[i] as int <= (k + 1) * (19 * LIMB * LIMB)
  {
    AddProduct(output, 0, input[0], s, k);
    AddProduct(output, 1, input[1], s, k);
    AddProduct(output, 2, input[2], s, k);
    AddProduct(output, 3, input[3], s, k);
    AddProduct(output, 4, input[4], s, k);
  }

  method AddProduct(output: array<u128>, i: nat, x: u64, s: u64, ghost k: nat)
    requires output.Length == 5 && i < 5 && k <= 4
    requires x as int <= 19 * LIMB && s as int <= LIMB && output[i] as int <= k * (19 * LIMB * LIMB)
    modifies output
    ensures output[i] as int == old(output[i] as int) + x as int * s as int <= (k + 1) * (19 * LIMB * LIMB)
    ensures forall j :: 0 <= j < 5 && j != i ==> output[j] == old(output[j])
  {
    ProductBound(x as int, s as int, 19 * LIMB, LIMB);
    output[i] := output[i] + MulWide(x, s);
  }

  /** Rotate the limbs up by one, multiplying the wrapped one by 19: times 2^51
      modulo P. */
  method ShiftReduce(output: array<u64>)
    requires output.Length == 5 && output[4] as int <= LIMB
    modifies output
    ensures Limbs(output) == old(Five(19 * output[4] as int, output[0] as int, output[1] as int, output[2] as int, output[3] as int))
  {
    var tmp := output[4];
    output[4] := output[3];
    output[3] := output[2];
    output[2] := output[1];
    output[1] := output[0];
    output[0] := tmp;
    var b0 := output[0];
    output[0] := 19 * b0;
  }

  method MulShiftReduce(output: array<u128>, input: array<u64>, input21: array<u64>)
    requires output.Length == 5 && input.Length == 5 && input21.Length == 5
    requires input != input21
    requires Wide(output) == Five(0, 0, 0, 0, 0)
    requires Loose(Limbs(input)) && Loose(Limbs(input21))
    modifies output, input
    ensures Wide(output) == Conv(old(Limbs(input)), old(Limbs(input21)))
  {
    ghost var a, b := Limbs(input), Limbs(input21);
    SumScalarMultiplication(output, input, input21[0], 0);
    ShiftReduce(input);
    SumScalarMultiplication(output, input, input21[1], 1);
    ShiftReduce(input);
    SumScalarMultiplication(output, input, input21[2], 2);
    ShiftReduce(input);
    assert Limbs(input) == Five(19 * a.v2, 19 * a.v3, 19 * a.v4, a.v0, a.v1);
    SumScalarMultiplication(output, input, input21[3], 3);
    ShiftReduce(input);
    SumScalarMultiplication(output, input, input21[4], 4);
    NineteenOut(a, b);
  }

  /** The folded limbs enter the sums as (19 a) b. */
  lemma NineteenOut(a: Five, b: Five)
    ensures (19 * a.v4) * b.v1 == 19 * (a.v4 * b.v1)
    ensures (19 * a.v4) * b.v2 == 19 * (a.v4 * b.v2)
    ensures (19 * a.v4) * b.v3 == 19 * (a.v4 * b.v3)
    ensures (19 * a.v4) * b.v4 == 19 * (a.v4 * b.v4)
    ensures (19 * a.v3) * b.v2 == 19 * (a.v3 * b.v2)
    ensures (19 * a.v3) * b.v3 == 19 * (a.v3 * b.v3)
    ensures (19 * a.v3) * b.v4 == 19 * (a.v3 * b.v4)
    ensures (19 * a.v2) * b.v3 == 19 * (a.v2 * b.v3)
    ensures (19 * a.v2) * b.v4 == 19 * (a.v2 * b.v4)
    ensures (19 * a.v1) * b.v4 == 19 * (a.v1 * b.v4)
  {
  }

  // ----- carries -----

  /** Move the part of column `ctr` above 2^51 into the next column. */
  method CarryWideStep(tmp: array<u128>, ctr: nat)
    requires tmp.Length == 5 && ctr < 4
    requires tmp[ctr + 1] as int + tmp[ctr] as int / 0x8000000000000 < 0x1_0000_0000_0000_0000_0000_0000_0000_0000
    modifies tmp
    ensures tmp[ctr] as int == old(tmp[ctr]) as int % 0x8000000000000
    ensures tmp[ctr + 1] as int == old(tmp[ctr + 1]) as int + old(tmp[ctr]) as int / 0x8000000000000
    ensures forall i :: 0 <= i < 5 && i != ctr && i != ctr + 1 ==> tmp[i] == old(tmp[i])
  {
    var tctr := tmp[ctr];
    var tctrp1 := tmp[ctr + 1];
    var r0 := Low51(Truncate64(tctr));
    LowOfTruncate(tctr);
    var c := tctr / 0x8000000000000;
    tmp[ctr] := r0 as u128;
    tmp[ctr + 1] := tctrp1 + c;
  }

  method CarryWide(tmp: array<u128>)
    requires tmp.Length == 5
    requires forall i :: 0 <= i < 5 ==> tmp[i] as int <= 0x8000_0000_0000_0000_0000_0000_0000_0
    modifies tmp
    ensures Val(Wide(tmp)) == old(Val(Wide(tmp)))
    ensures forall i :: 0 <= i < 4 ==> tmp[i] as int < 0x8000000000000
    ensures tmp[4] as int <= old(tmp[4]) as int + 0x2_0000_0000_0000_0000
  {
    CarryWideStep(tmp, 0);
    CarryWideStep(tmp, 1);
    CarryWideStep(tmp, 2);
    CarryWideStep(tmp, 3);
  }

  /** The part of the top column above 2^255 re-enters at the bottom times 19. */
  method CarryTopWide(t: array<u128>)
    requires t.Length == 5
    requires t[0] as int < 0x8000000000000
    requires 19 * (t[4] as int / 0x8000000000000) + 0x8000000000000 <= 0x1_0000_0000_0000_0000
    modifies t
    ensures Val(Wide(t)) == old(Val(Wide(t))) - P * (old(t[4]) as int / 0x8000000000000)
    ensures t[4] as int < 0x8000000000000
    ensures t[0] as int == old(t[0]) as int + 19 * (old(t[4]) as int / 0x8000000000000)
    ensures forall i :: 1 <= i < 4 ==> t[i] == old(t[i])
  {
    var b4 := t[4];
    var b0 := t[0];
    var b4' := b4 % 0x8000000000000;
    var b0' := b0 + 19 * ((b4 / 0x8000000000000) as u64) as u128;
    t[4] := b4';
    t[0] := b0';
  }

  method CopyFromWide(output: array<u64>, input: array<u128>)
    requires output.Length == 5 && input.Length == 5
    requires forall i :: 0 <= i < 5 ==> input[i] as int < 0x1_0000_0000_0000_0000
    modifies output
    ensures Limbs(output) == Wide(input)
  {
    output[0] := input[0] as u64;
    output[1] := input[1] as u64;
    output[2] := input[2] as u64;
    output[3] := input[3] as u64;
    output[4] := input[4] as u64;
  }

  /** The last carry, from limb 0 to limb 1. */
  method CarryLow(output: array<u64>)
    requires output.Length == 5 && output[1] as int < 0x8000000000000
    modifies output
    ensures Val(Limbs(output)) == old(Val(Limbs(output)))
    ensures output[0] as int < 0x8000000000000 && output[1] as int < 0x8000000000000 + 0x2000
    ensures forall i :: 2 <= i < 5 ==> output[i] == old(output[i])
  {
    var i0 := output[0];
    var i1 := output[1];
    var i0' := Low51(i0);
    var i1' := i1 + i0 / 0x8000000000000;
    output[0] := i0';
    output[1] := i1';
  }

  /** The common tail of multiplication and squaring: column sums to limbs. */
  method ReduceWide(output: array<u64>, t: array<u128>)
    requires output.Length == 5 && t.Length == 5
    requires forall i :: 0 <= i < 4 ==> t[i] as int <= 95 * (LIMB * LIMB)
    requires t[4] as int <= 5 * (LIMB * LIMB)
    modifies output, t
    ensures Normal(Limbs(output))
    ensures Elem(output) == Red(old(Val(Wide(t))))
  {
    hide Red;
    ghost var v := Val(Wide(t));
    CarryWide(t);
    ghost var top := t[4] as int / 0x8000000000000;
    CarryTopWide(t);
    CopyFromWide(output, t);
    CarryLow(output);
    RedShift(v, 0 - top);
  }

  // ----- multiplication and squaring -----

  /** output = input * input21.  The output may be either input. */
  method FMul(output: array<u64>, input: array<u64>, input21: array<u64>)
    requires output.Length == 5 && input.Length == 5 && input21.Length == 5
    requires Loose(Limbs(input)) && Loose(Limbs(input21))
    modifies output
    ensures Normal(Limbs(output))
    ensures Elem(output) == Mul(old(Elem(input)), old(Elem(input21)))
  {
    hide Conv, Val, Red, Mul;
    var tmp := new u64[5] [input[0], input[1], input[2], input[3], input[4]];
    var t := new u128[5] [0, 0, 0, 0, 0];
    ghost var a, b := Limbs(input), Limbs(input21);
    assert Limbs(tmp) == a;
    ConvBound(a, b);
    ConvField(a, b);
    MulShiftReduce(t, tmp, input21);
    ReduceWide(output, t);
  }

  /** A sum of three limb products, as squaring groups them. */
  function Sum3(x0: u64, y0: u64, x1: u64, y1: u64, x2: u64, y2: u64): (r: u128)
    requires x0 as int * y0 as int + x1 as int * y1 as int + x2 as int * y2 as int < 0x1_0000_0000_0000_0000_0000_0000_0000_0000
    ensures r as int == x0 as int * y0 as int + x1 as int * y1 as int + x2 as int * y2 as int
  {
    var a, b, c := MulWide(x0, y0), MulWide(x1, y1), MulWide(x2, y2);
    assert a as int + b as int + c as int < 0x1_0000_0000_0000_0000_0000_0000_0000_0000;
    a + b + c
  }

  method SquareWide(tmp: array<u128>, output: array<u64>)
    requires tmp.Length == 5 && output.Length == 5
    requires Loose(Limbs(output))
    modifies tmp
    ensures Wide(tmp) == Conv(Limbs(output), Limbs(output))
  {
    ghost var a := Limbs(output);
    ConvBound(a, a);
    SquareBounds(a);
    var r0, r1, r2, r3, r4 := output[0], output[1], output[2], output[3], output[4];
    var d0 := r0 * 2;
    var d1 := r1 * 2;
    var d2 := r2 * 2 * 19;
    var d419 := r4 * 19;
    var d4 := d419 * 2;
    var s0 := Sum3(r0, r0, d4, r1, d2, r3);
    var s1 := Sum3(d0, r1, d4, r2, r3 * 19, r3);
    var s2 := Sum3(d0, r2, r1, r1, d4, r3);
    var s3 := Sum3(d0, r3, d1, r2, r4, d419);
    var s4 := Sum3(d0, r4, d1, r3, r2, r2);
    tmp[0] := s0;
    tmp[1] := s1;
    tmp[2] := s2;
    tmp[3] := s3;
    tmp[4] := s4;
    assert Wide(tmp) == Five(s0 as int, s1 as int, s2 as int, s3 as int, s4 as int);
  }

  /** The doubled and nineteen-fold products of `SquareWide`, as plain products. */
  lemma SquareBounds(a: Five)
    requires Loose(a)
    ensures (a.v4 * 19 * 2) * a.v1 == 38 * (a.v4 * a.v1) && (a.v2 * 2 * 19) * a.v3 == 38 * (a.v2 * a.v3)
    ensures (a.v0 * 2) * a.v1 == 2 * (a.v0 * a.v1) && (a.v4 * 19 * 2) * a.v2 == 38 * (a.v4 * a.v2)
    ensures (a.v3 * 19) * a.v3 == 19 * (a.v3 * a.v3) && (a.v0 * 2) * a.v2 == 2 * (a.v0 * a.v2)
    ensures (a.v4 * 19 * 2) * a.v3 == 38 * (a.v4 * a.v3) && (a.v0 * 2) * a.v3 == 2 * (a.v0 * a.v3)
    ensures (a.v1 * 2) * a.v2 == 2 * (a.v1 * a.v2) && a.v4 * (a.v4 * 19) == 19 * (a.v4 * a.v4)
    ensures (a.v0 * 2) * a.v4 == 2 * (a.v0 * a.v4) && (a.v1 * 2) * a.v3 == 2 * (a.v1 * a.v3)
    ensures a.v1 * a.v0 == a.v0 * a.v1 && a.v2 * a.v0 == a.v0 * a.v2 && a.v3 * a.v0 == a.v0 * a.v3 && a.v4 * a.v0 == a.v0 * a.v4
    ensures a.v2 * a.v1 == a.v1 * a.v2 && a.v3 * a.v1 == a.v1 * a.v3 && a.v1 * a.v4 == a.v4 * a.v1
    ensures a.v3 * a.v2 == a.v2 * a.v3 && a.v2 * a.v4 == a.v4 * a.v2 && a.v3 * a.v4 == a.v4 * a.v3
  {
  }

  method FSquare(tmp: array<u128>, output: array<u64>)
    requires tmp.Length == 5 && output.Length == 5
    requires Loose(Limbs(output))
    modifies tmp, output
    ensures Normal(Limbs(output))
    ensures Elem(output) == Mul(old(Elem(output)), old(Elem(output)))
  {
    hide Conv, Val, Red, Mul;
    ghost var a := Limbs(output);
    ConvBound(a, a);
    ConvField(a, a);
    SquareWide(tmp, output);
    ReduceWide(output, tmp);
  }

  /** Squarings performed by a call with `count`: the loop body runs at least once. */
  function Squarings(count: nat): nat {
    if count == 0 then 1 else count
  }

  method FSquareTimesIn(output: array<u64>, tmp: array<u128>, count: nat)
    requires tmp.Length == 5 && output.Length == 5
    requires Loose(Limbs(output))
    modifies tmp, output
    ensures Normal(Limbs(output))
    ensures Elem(output) == Pow(old(Elem(output)), Pow2(Squarings(count)))
  {
    hide Val, Red, Mul, Pow;
    ghost var x := Elem(output);
    FSquare(tmp, output);
    SquareOfPower(x, 0);
    var i := 1;
    while i < count
      invariant 1 <= i <= Squarings(count)
      invariant Normal(Limbs(output))
      invariant Elem(output) == Pow(x, Pow2(i))
    {
      FSquare(tmp, output);
      SquareOfPower(x, i);
      i := i + 1;
    }
  }

  method FSquareTimes(output: array<u64>, input: array<u64>, count: nat)
    requires output.Length == 5 && input.Length == 5
    requires Loose(Limbs(input))
    modifies output
    ensures Normal(Limbs(output))
    ensures Elem(output) == Pow(old(Elem(input)), Pow2(Squarings(count)))
  {
    var t := new u128[5];
    output[0], output[1], output[2], output[3], output[4] := input[0], input[1], input[2], input[3], input[4];
    assert Limbs(output) == old(Limbs(input));
    FSquareTimesIn(output, t, count);
  }

  method FSquareTimesInPlace(output: array<u64>, count: nat)
    requires output.Length == 5
    requires Loose(Limbs(output))
    modifies output
    ensures Normal(Limbs(output))
    ensures Elem(output) == Pow(old(Elem(output)), Pow2(Squarings(count)))
  {
    var t := new u128[5];
    FSquareTimesIn(output, t, count);
  }

  /** The addition chain for z^(P-2), in four buffers. */
  method CRecip(out: array<u64>, z: array<u64>)
    requires out.Length == 5 && z.Length == 5
    requires Loose(Limbs(z))
    modifies out
    ensures Normal(Limbs(out))
    ensures Elem(out) == Pow(old(Elem(z)), P - 2)
  {
    hide Val, Red, Mul, Pow, Ones, Pow2;
    ghost var x := Elem(z);
    var a := new u64[5];
    var t := new u64[5];
    var b := new u64[5];
    CRecipStart(a, t, b, z);
    var c := new u64[5];
    CRecipMiddle(t, b, c, x);
    CRecipEnd(t, b, c, x);
    FSquareTimesInPlace(t, 5);
    FMul(out, t, a);
    ChainEnd(x);
  }

  /** z^11 in `a` and 2^5 - 1 ones in `b`. */
  method CRecipStart(a: array<u64>, t: array<u64>, b: array<u64>, z: array<u64>)
    requires a.Length == 5 && t.Length == 5 && b.Length == 5 && z.Length == 5
    requires a != t && a != b && t != b && z != a && z != t && z != b
    requires Loose(Limbs(z))
    modifies a, t, b
    ensures Normal(Limbs(a)) && Normal(Limbs(b))
    ensures Elem(a) == Pow(Elem(z), 11) && Elem(b) == Ones(Elem(z), 5)
  {
    hide Val, Red, Mul, Pow, Ones, Pow2;
    ghost var x := Elem(z);
    FSquareTimes(a, z, 1);
    ghost var z2 := Elem(a);
    SquareOfPower(x, 0);
    FSquareTimes(t, a, 2);
    ghost var z8 := Elem(t);
    FMul(b, t, z);
    ghost var z9 := Elem(b);
    FMul(a, b, a);
    ghost var z11 := Elem(a);
    FSquareTimes(t, a, 1);
    ghost var z22 := Elem(t);
    SquareOfPower(z11, 0);
    FMul(b, t, b);
    ChainStart(x, z2, z8, z9, z11, z22, Elem(b));
  }

  /** From 5 ones in `b` to 50 ones in `b`, and 50 more squarings in `t`. */
  method CRecipMiddle(t: array<u64>, b: array<u64>, c: array<u64>, ghost x: Fe)
    requires t.Length == 5 && b.Length == 5 && c.Length == 5
    requires t != b && t != c && b != c
    requires Normal(Limbs(b)) && Elem(b) == Ones(x, 5)
    modifies t, b, c
    ensures Normal(Limbs(b)) && Normal(Limbs(t))
    ensures Elem(b) == Ones(x, 50) && Elem(t) == Pow(Ones(x, 50), Pow2(50))
  {
    hide Val, Red, Mul, Pow, Ones, Pow2;
    FSquareTimes(t, b, 5);
    FMul(b, t, b);
    JoinOnes(x, 5, 5);
    FSquareTimes(t, b, 10);
    FMul(c, t, b);
    JoinOnes(x, 10, 10);
    FSquareTimes(t, c, 20);
    FMul(t, t, c);
    JoinOnes(x, 20, 20);
    FSquareTimesInPlace(t, 10);
    FMul(b, t, b);
    JoinOnes(x, 40, 10);
    FSquareTimes(t, b, 50);
  }

  /** From 50 ones in `b` to 250 ones in `t`. */
  method CRecipEnd(t: array<u64>, b: array<u64>, c: array<u64>, ghost x: Fe)
    requires t.Length == 5 && b.Length == 5 && c.Length == 5
    requires t != b && t != c && b != c
    requires Normal(Limbs(b)) && Elem(b) == Ones(x, 50)
    requires Normal(Limbs(t)) && Elem(t) == Pow(Ones(x, 50), Pow2(50))
    modifies t, c
    ensures Normal(Limbs(t)) && Elem(t) == Ones(x, 250)
  {
    hide Val, Red, Mul, Pow, Ones, Pow2;
    FMul(c, t, b);
    JoinOnes(x, 50, 50);
    FSquareTimes(t, c, 100);
    FMul(t, t, c);
    JoinOnes(x, 100, 100);
    FSquareTimesInPlace(t, 50);
    FMul(t, t, b);
    JoinOnes(x, 200, 50);
  }

  // ----- addition, subtraction, small multiples -----

  method FSum(a: array<u64>, b: array<u64>)
    requires a.Length == 5 && b.Length == 5
    requires forall i :: 0 <= i < 5 ==> a[i] as int < 0x8000000000000 + 0x2000000 && b[i] as int < 0x8000000000000 + 0x2000000
    modifies a
    ensures Loose(Limbs(a))
    ensures Elem(a) == Add(old(Elem(a)), old(Elem(b)))
  {
    hide Val, Red;
    ghost var x, y := Limbs(a), Limbs(b);
    ValAdd(x, y);
    AddRed(Val(x), Val(y));
    a[0] := a[0] + b[0];
    a[1] := a[1] + b[1];
    a[2] := a[2] + b[2];
    a[3] := a[3] + b[3];
    a[4] := a[4] + b[4];
    assert Limbs(a) == Five(x.v0 + y.v0, x.v1 + y.v1, x.v2 + y.v2, x.v3 + y.v3, x.v4 + y.v4);
  }

  /** a = b - a, made positive by adding 8 P limb by limb. */
  method FDifference(a: array<u64>, b: array<u64>)
    requires a.Length == 5 && b.Length == 5
    requires Normal(Limbs(a)) && Normal(Limbs(b))
    modifies a
    ensures Loose(Limbs(a))
    ensures Elem(a) == Sub(old(Elem(b)), old(Elem(a)))
  {
    hide Red;
    ghost var x, y := Val(Limbs(a)), Val(Limbs(b));
    SubRed(y, x);
    RedShift(y - x, 8);
    var tmp := new u64[5] [b[0], b[1], b[2], b[3], b[4]];
    var b0, b1, b2, b3, b4 := tmp[0], tmp[1], tmp[2], tmp[3], tmp[4];
    tmp[0] := b0 + 0x3fffffffffff68;
    tmp[1] := b1 + 0x3ffffffffffff8;
    tmp[2] := b2 + 0x3ffffffffffff8;
    tmp[3] := b3 + 0x3ffffffffffff8;
    tmp[4] := b4 + 0x3ffffffffffff8;
    a[0] := tmp[0] - a[0];
    a[1] := tmp[1] - a[1];
    a[2] := tmp[2] - a[2];
    a[3] := tmp[3] - a[3];
    a[4] := tmp[4] - a[4];
    assert Val(Limbs(a)) == (y - x) + P * 8;
  }

  /** output = b * s for a small constant; limb 0 keeps a surplus. */
  method FScalar(output: array<u64>, b: array<u64>, s: u64)
    requires output.Length == 5 && b.Length == 5
    requires Loose(Limbs(b)) && s < 0x20000
    modifies output
    ensures forall i :: 0 <= i < 5 ==> output[i] as int < 0x8000000000000 + 0x2000000
    ensures Elem(output) == Mul(s as int, old(Elem(b)))
  {
    hide Red, Mul;
    ghost var l := Limbs(b);
    ProductBound(l.v0, s as int, LIMB, 0x20000);
    ProductBound(l.v1, s as int, LIMB, 0x20000);
    ProductBound(l.v2, s as int, LIMB, 0x20000);
    ProductBound(l.v3, s as int, LIMB, 0x20000);
    ProductBound(l.v4, s as int, LIMB, 0x20000);
    var tmp := new u128[5] [MulWide(b[0], s), MulWide(b[1], s), MulWide(b[2], s), MulWide(b[3], s), MulWide(b[4], s)];
    assert Wide(tmp) == Times(l, s as int);
    TimesValue(l, s as int);
    RedFe(s as int);
    MulRed(s as int, Val(l));
    ReduceScalar(output, tmp);
  }

  method ReduceScalar(output: array<u64>, tmp: array<u128>)
    requires output.Length == 5 && tmp.Length == 5
    requires forall i :: 0 <= i < 5 ==> tmp[i] as int <= LIMB * 0x20000
    modifies output, tmp
    ensures forall i :: 0 <= i < 5 ==> output[i] as int < 0x8000000000000 + 0x2000000
    ensures Elem(output) == Red(old(Val(Wide(tmp))))
  {
    hide Red;
    ghost var v := Val(Wide(tmp));
    CarryWide(tmp);
    ghost var top := tmp[4] as int / 0x8000000000000;
    CarryTopWide(tmp);
    CopyFromWide(output, tmp);
    RedShift(v, 0 - top);
  }
}

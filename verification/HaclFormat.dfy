/** Byte strings to limbs and back (src/curve25519-hacl64.h, fexpand and
    fcontract), with the branch-free comparisons of the final reduction. */
module HaclFormat {
  import opened Bits
  import opened Machine
  import opened Field
  import opened HaclArith
  import opened HaclField
  import opened LittleEndian

  // ----- comparison masks -----

  /** The branch-free equality test. */
  function EqMask(a: u64, b: u64): u64 {
    var x := Xor(a as int, b as int);
    var minusX := ((0xffff_ffff_ffff_ffff - x) + 1) % 0x1_0000_0000_0000_0000;
    var xOrMinusX := Or(x, minusX);
    var xnx := Shr(xOrMinusX, 63);
    ((xnx - 1) % 0x1_0000_0000_0000_0000) as u64
  }

  /** All ones if a == b, else zero. */
  lemma EqMaskIs(a: u64, b: u64)
    ensures EqMask(a, b) == if a == b then 0xffff_ffff_ffff_ffff else 0
  {
    hide Xor, Or, Shr;
    EqMaskTop(a as int, b as int);
  }

  lemma EqMaskTop(a: int, b: int)
    requires 0 <= a < 0x1_0000_0000_0000_0000 && 0 <= b < 0x1_0000_0000_0000_0000
    ensures var x := Xor(a, b);
            var minusX := ((0xffff_ffff_ffff_ffff - x) + 1) % 0x1_0000_0000_0000_0000;
            Shr(Or(x, minusX), 63) == if a == b then 0 else 1
  {
    hide Xor, Or, Shr, Pow2;
    var x := Xor(a, b);
    var y := ((0xffff_ffff_ffff_ffff - x) + 1) % 0x1_0000_0000_0000_0000;
    Pow2Large();
    OrXorRange(a, b, 64);
    XorEqual(a, b);
    OrShr(x, y, 63);
    ShrDiv(x, 63);
    ShrDiv(y, 63);
    OneBitOps(Shr(x, 63), Shr(y, 63));
  }

  lemma OneBitOps(a: int, b: int)
    requires 0 <= a <= 1 && 0 <= b <= 1
    ensures Or(a, b) == if a == 1 || b == 1 then 1 else 0
    ensures Xor(a, b) == if a == b then 0 else 1
  {
  }

  /** The branch-free comparison. */
  function GteMask(a: u64, b: u64): u64 {
    var x, y := a as int, b as int;
    var xXorY := Xor(x, y);
    var xSubY := (x - y) % 0x1_0000_0000_0000_0000;
    var xSubYXorY := Xor(xSubY, y);
    var q := Or(xXorY, xSubYXorY);
    var xXorQ := Xor(x, q);
    var top := Shr(xXorQ, 63);
    ((top - 1) % 0x1_0000_0000_0000_0000) as u64
  }

  /** All ones if a >= b, else zero. */
  lemma GteMaskIs(a: u64, b: u64)
    ensures GteMask(a, b) == if a >= b then 0xffff_ffff_ffff_ffff else 0
  {
    hide Xor, Or, Shr;
    GteMaskTop(a as int, b as int);
  }

  /** Only the top bits of the operands decide the top bit of the formula. */
  lemma GteMaskTop(x: int, y: int)
    requires 0 <= x < 0x1_0000_0000_0000_0000 && 0 <= y < 0x1_0000_0000_0000_0000
    ensures var d := (x - y) % 0x1_0000_0000_0000_0000;
            Shr(Xor(x, Or(Xor(x, y), Xor(d, y))), 63) == if x >= y then 0 else 1
  {
    hide Xor, Or, Shr, Pow2;
    var d := (x - y) % 0x1_0000_0000_0000_0000;
    Pow2Large();
    XorShr(x, Or(Xor(x, y), Xor(d, y)), 63);
    OrShr(Xor(x, y), Xor(d, y), 63);
    XorShr(x, y, 63);
    XorShr(d, y, 63);
    ShrDiv(x, 63);
    ShrDiv(y, 63);
    ShrDiv(d, 63);
    var tx, ty, td := Shr(x, 63), Shr(y, 63), Shr(d, 63);
    OneBitOps(tx, ty);
    OneBitOps(td, ty);
    OneBitOps(Xor(tx, ty), Xor(td, ty));
    OneBitOps(tx, Or(Xor(tx, ty), Xor(td, ty)));
  }

  /** `v & m` for a mask that is all zeros or all ones. */
  function Masked(v: u64, m: u64): (r: u64)
    requires m == 0 || m == 0xffff_ffff_ffff_ffff
    ensures r == if m == 0 then 0 else v
  {
    AndSigns(v as int);
    FullMask(v as int);
    And(v as int, m as int) as u64
  }

  lemma FullMask(v: int)
    requires 0 <= v < 0x1_0000_0000_0000_0000
    ensures And(v, 0xffff_ffff_ffff_ffff) == v
  {
    hide And;
    Pow2Large();
    AndMask(v, 64);
  }

  // ----- fexpand -----

  /** The 64-bit little-endian word at an offset. */
  function GetLE64(s: seq<u8>, at: nat): (r: u64)
    requires at + 8 <= |s|
    ensures r as int == (LE(s) / Pow2(8 * at)) % 0x1_0000_0000_0000_0000
  {
    Window(s, at);
    LE(s[at..at + 8]) as u64
  }

  lemma Window(s: seq<u8>, at: nat)
    requires at + 8 <= |s|
    ensures LE(s[at..at + 8]) == (LE(s) / Pow2(8 * at)) % 0x1_0000_0000_0000_0000
  {
    hide LE, Pow2;
    var a, w, r := s[..at], s[at..at + 8], s[at + 8..];
    assert s == a + (w + r);
    LEAppend(a, w + r);
    LEAppend(w, r);
    LEBound(a);
    LEBound(w);
    Pow2Large();
    DivModUnique(LE(s), Pow2(8 * at), LE(w + r), LE(a));
    DivModUnique(LE(w + r), Pow2(64), LE(r), LE(w));
  }

  /** Dropping b low bits of a word of b d e, then keeping d, loses nothing. */
  lemma WordDigit(q: int, b: int, d: int, e: int)
    requires b > 0 && d > 0 && e > 0
    ensures b * (d * e) > 0 && ((q % (b * (d * e))) / b) % d == (q / b) % d
  {
    var m := d * e;
    assert m > 0 && b * m > 0;
    var t, r := q / (b * m), q % (b * m);
    assert q == b * (m * t) + r by {
      assert (b * m) * t == b * (m * t);
    }
    DivModUnique(q, b, m * t + r / b, r % b);
    assert q / b == r / b + d * (e * t) by {
      assert m * t == d * (e * t);
    }
    ModShift(r / b, d, e * t);
  }

  /** The five windows of fexpand are the base-2^51 digits of the number. */
  lemma Digits(n: nat)
    ensures (((n / 0x1000000000000) % 0x1_0000_0000_0000_0000) / 8) % 0x8000000000000 == (n / 0x8000000000000) % 0x8000000000000
    ensures (((n / 0x1000000000000000000000000) % 0x1_0000_0000_0000_0000) / 64) % 0x8000000000000
         == (n / 0x40000000000000000000000000) % 0x8000000000000
    ensures (((n / 0x100000000000000000000000000000000000000) % 0x1_0000_0000_0000_0000) / 2) % 0x8000000000000
         == (n / 0x200000000000000000000000000000000000000) % 0x8000000000000
    ensures (((n / 0x1000000000000000000000000000000000000000000000000) % 0x1_0000_0000_0000_0000) / 0x1000) % 0x8000000000000
         == (n / 0x1000000000000000000000000000000000000000000000000000) % 0x8000000000000
  {
    WordDigit(n / 0x1000000000000, 8, 0x8000000000000, 0x400);
    DivDiv(n, 0x1000000000000, 8);
    WordDigit(n / 0x1000000000000000000000000, 64, 0x8000000000000, 0x80);
    DivDiv(n, 0x1000000000000000000000000, 64);
    WordDigit(n / 0x100000000000000000000000000000000000000, 2, 0x8000000000000, 0x1000);
    DivDiv(n, 0x100000000000000000000000000000000000000, 2);
    WordDigit(n / 0x1000000000000000000000000000000000000000000000000, 0x1000, 0x8000000000000, 2);
    DivDiv(n, 0x1000000000000000000000000000000000000000000000000, 0x1000);
  }

  lemma FiveDigits(n: nat, q1: nat, q2: nat, q3: nat, q4: nat)
    requires q1 == n / 0x8000000000000 && q2 == q1 / 0x8000000000000
    requires q3 == q2 / 0x8000000000000 && q4 == q3 / 0x8000000000000
    ensures Val(Five(n % 0x8000000000000, q1 % 0x8000000000000, q2 % 0x8000000000000, q3 % 0x8000000000000, q4 % 0x8000000000000))
         == n % (P + 19)
  {
    var v := Five(n % 0x8000000000000, q1 % 0x8000000000000, q2 % 0x8000000000000, q3 % 0x8000000000000, q4 % 0x8000000000000);
    assert n == Val(v) + (P + 19) * (q4 / 0x8000000000000);
    DivModUnique(n, P + 19, q4 / 0x8000000000000, Val(v));
  }

  lemma DigitsValue(n: nat)
    ensures Val(Five(n % 0x8000000000000, (n / 0x8000000000000) % 0x8000000000000,
                     (n / 0x40000000000000000000000000) % 0x8000000000000,
                     (n / 0x200000000000000000000000000000000000000) % 0x8000000000000,
                     (n / 0x1000000000000000000000000000000000000000000000000000) % 0x8000000000000)) == n % (P + 19)
  {
    hide Val;
    var r := 0x8000000000000;
    DivDiv(n, r, r);
    DivDiv(n, 0x40000000000000000000000000, r);
    DivDiv(n, 0x200000000000000000000000000000000000000, r);
    FiveDigits(n, n / r, n / 0x40000000000000000000000000, n / 0x200000000000000000000000000000000000000,
               n / 0x1000000000000000000000000000000000000000000000000000);
  }

  lemma Pow2Offsets()
    ensures Pow2(0) == 1 && Pow2(48) == 0x1000000000000 && Pow2(96) == 0x1000000000000000000000000
    ensures Pow2(152) == 0x100000000000000000000000000000000000000
    ensures Pow2(192) == 0x1000000000000000000000000000000000000000000000000
  {
    assert Pow2(0) == 1;
    hide Pow2;
    Pow2Small();
    Pow2Large();
    Pow2Value(48, 48, 0x1000000000000, 0x1000000000000, 0x1000000000000000000000000);
    Pow2Value(96, 96, 0x1000000000000000000000000, 0x1000000000000000000000000, 0x1000000000000000000000000000000000000000000000000);
    Pow2Value(96, 48, 0x1000000000000000000000000, 0x1000000000000, 0x1000000000000000000000000000000000000);
    Pow2Value(144, 8, 0x1000000000000000000000000000000000000, 256, 0x100000000000000000000000000000000000000);
  }

  lemma Pow2Value(m: nat, n: nat, a: int, b: int, c: int)
    requires Pow2(m) == a && Pow2(n) == b && a * b == c
    ensures Pow2(m + n) == c
  {
    Pow2Add(m, n);
  }

  lemma ExpandValue(n: nat, i0: int, i1: int, i2: int, i3: int, i4: int)
    requires i0 == n % 0x1_0000_0000_0000_0000
    requires i1 == (n / 0x1000000000000) % 0x1_0000_0000_0000_0000
    requires i2 == (n / 0x1000000000000000000000000) % 0x1_0000_0000_0000_0000
    requires i3 == (n / 0x100000000000000000000000000000000000000) % 0x1_0000_0000_0000_0000
    requires i4 == (n / 0x1000000000000000000000000000000000000000000000000) % 0x1_0000_0000_0000_0000
    ensures Val(Five(i0 % 0x8000000000000, (i1 / 8) % 0x8000000000000, (i2 / 64) % 0x8000000000000,
                     (i3 / 2) % 0x8000000000000, (i4 / 0x1000) % 0x8000000000000)) == n % (P + 19)
  {
    hide Val;
    WordDigit(n, 1, 0x8000000000000, 0x2000);
    Digits(n);
    DigitsValue(n);
  }

  /** Decoding ignores the top bit and keeps the other 255, as section 5 of
      RFC 7748 asks; every 32-byte string is accepted. */
  method FExpand(output: array<u64>, input: array<u8>)
    requires output.Length == 5 && input.Length == 32
    modifies output
    ensures Normal(Limbs(output))
    ensures Val(Limbs(output)) == LE(input[..]) % (P + 19)
  {
    hide LE, Pow2, Val, Low51, GetLE64;
    Pow2Offsets();
    var s := input[..];
    var i0 := GetLE64(s, 0);
    var i1 := GetLE64(s, 6);
    var i2 := GetLE64(s, 12);
    var i3 := GetLE64(s, 19);
    var i4 := GetLE64(s, 24);
    var output0 := Low51(i0);
    var output1 := Low51(i1 / 8);
    var output2 := Low51(i2 / 64);
    var output3 := Low51(i3 / 2);
    var output4 := Low51(i4 / 0x1000);
    ExpandValue(LE(s), i0 as int, i1 as int, i2 as int, i3 as int, i4 as int);
    output[0] := output0;
    output[1] := output1;
    output[2] := output2;
    output[3] := output3;
    output[4] := output4;
  }

  // ----- fcontract -----

  /** One carry pass over the limbs; limb 4 keeps what is above. */
  method CarryPass(input: array<u64>)
    requires input.Length == 5
    requires forall i :: 0 <= i < 5 ==> input[i] < 0x8000_0000_0000_0000
    modifies input
    ensures Val(Limbs(input)) == old(Val(Limbs(input)))
    ensures forall i :: 0 <= i < 4 ==> input[i] < 0x8000000000000
    ensures input[4] as int <= old(input[4]) as int + 0x2000
  {
    var t0, t1, t2, t3, t4 := input[0], input[1], input[2], input[3], input[4];
    var t1' := t1 + t0 / 0x8000000000000;
    var t0' := Low51(t0);
    var t2' := t2 + t1' / 0x8000000000000;
    var t1'' := Low51(t1');
    var t3' := t3 + t2' / 0x8000000000000;
    var t2'' := Low51(t2');
    var t4' := t4 + t3' / 0x8000000000000;
    var t3'' := Low51(t3');
    input[0] := t0';
    input[1] := t1'';
    input[2] := t2'';
    input[3] := t3'';
    input[4] := t4';
  }

  method ModuloCarryTop(b: array<u64>)
    requires b.Length == 5 && b[0] < 0x8000000000000
    modifies b
    ensures Val(Limbs(b)) == old(Val(Limbs(b))) - P * (old(b[4]) as int / 0x8000000000000)
    ensures b[0] as int == old(b[0]) as int + 19 * (old(b[4]) as int / 0x8000000000000)
    ensures b[4] as int == old(b[4]) as int % 0x8000000000000
    ensures forall i :: 1 <= i < 4 ==> b[i] == old(b[i])
  {
    var b4 := b[4];
    var b0 := b[0];
    var b4' := Low51(b4);
    var b0' := b0 + 19 * (b4 / 0x8000000000000);
    b[4] := b4';
    b[0] := b0';
  }

  /** Every limb within 51 bits. */
  predicate Tight(f: Five) {
    && 0 <= f.v0 < 0x8000000000000 && 0 <= f.v1 < 0x8000000000000 && 0 <= f.v2 < 0x8000000000000
    && 0 <= f.v3 < 0x8000000000000 && 0 <= f.v4 < 0x8000000000000
  }

  /** The top bits of limb 4 after the first pass are few; the second round then
      leaves at most one bit above 2^255, and nothing to carry afterwards. */
  method CarryFull(input: array<u64>)
    requires input.Length == 5
    requires forall i :: 0 <= i < 5 ==> input[i] < 0x8000_0000_0000_0000
    modifies input
    ensures Tight(Limbs(input))
    ensures Elem(input) == old(Elem(input))
  {
    hide Red;
    ghost var v := Val(Limbs(input));
    CarryPass(input);
    ghost var q := input[4] as int / 0x8000000000000;
    ModuloCarryTop(input);
    RedShift(v, 0 - q);
    SecondCarryFull(input);
  }

  method SecondCarryFull(input: array<u64>)
    requires input.Length == 5
    requires input[0] as int < 0x8000000000000 + 0x40000
    requires forall i :: 1 <= i < 5 ==> input[i] < 0x8000000000000
    modifies input
    ensures Tight(Limbs(input))
    ensures Elem(input) == old(Elem(input))
  {
    hide Red;
    ghost var v := Val(Limbs(input));
    CarryPass(input);
    ghost var q := input[4] as int / 0x8000000000000;
    SecondRound(Limbs(input), v);
    ModuloCarryTop(input);
    RedShift(v, 0 - q);
    LastCarry(input);
  }

  /** The carry from limb 0 to limb 1, which finds nothing to carry here. */
  method LastCarry(input: array<u64>)
    requires input.Length == 5 && Tight(Limbs(input))
    modifies input
    ensures Limbs(input) == old(Limbs(input))
  {
    var i0 := input[0];
    var i1 := input[1];
    var i0' := Low51(i0);
    var i1' := i1 + i0 / 0x8000000000000;
    input[0] := i0';
    input[1] := i1';
  }

  /** If a bit reaches 2^255 in the second round, the rest is tiny. */
  lemma SecondRound(f: Five, v: int)
    requires 0 <= f.v0 < 0x8000000000000 && 0 <= f.v1 < 0x8000000000000 && 0 <= f.v2 < 0x8000000000000
    requires 0 <= f.v3 < 0x8000000000000 && 0 <= f.v4
    requires Val(f) == v < P + 19 + 0x40000
    ensures f.v4 / 0x8000000000000 == 0 || (f.v4 / 0x8000000000000 == 1 && f.v0 < 0x40000)
  {
  }

  /** Subtract P when the value is at least P. */
  method Trim(input: array<u64>)
    requires input.Length == 5 && Tight(Limbs(input))
    modifies input
    ensures Tight(Limbs(input))
    ensures Val(Limbs(input)) == old(Elem(input))
  {
    hide Val, Red, EqMask, GteMask, Masked;
    ghost var f := Limbs(input);
    TightBound(f);
    TrimValue(f);
    var a0, a1, a2, a3, a4 := input[0], input[1], input[2], input[3], input[4];
    var mask0 := GteMask(a0, 0x7ffffffffffed);
    var mask1 := EqMask(a1, 0x7ffffffffffff);
    var mask2 := EqMask(a2, 0x7ffffffffffff);
    var mask3 := EqMask(a3, 0x7ffffffffffff);
    var mask4 := EqMask(a4, 0x7ffffffffffff);
    GteMaskIs(a0, 0x7ffffffffffed);
    EqMaskIs(a1, 0x7ffffffffffff);
    EqMaskIs(a2, 0x7ffffffffffff);
    EqMaskIs(a3, 0x7ffffffffffff);
    EqMaskIs(a4, 0x7ffffffffffff);
    var mask := Masked(Masked(Masked(Masked(mask0, mask1), mask2), mask3), mask4);
    assert mask == if Val(f) >= P then 0xffff_ffff_ffff_ffff else 0;
    var a0' := a0 - Masked(0x7ffffffffffed, mask);
    var a1' := a1 - Masked(0x7ffffffffffff, mask);
    var a2' := a2 - Masked(0x7ffffffffffff, mask);
    var a3' := a3 - Masked(0x7ffffffffffff, mask);
    var a4' := a4 - Masked(0x7ffffffffffff, mask);
    input[0] := a0';
    input[1] := a1';
    input[2] := a2';
    input[3] := a3';
    input[4] := a4';
  }

  lemma TrimValue(f: Five)
    ensures Val(Five(f.v0 - 0x7ffffffffffed, f.v1 - 0x7ffffffffffff, f.v2 - 0x7ffffffffffff,
                     f.v3 - 0x7ffffffffffff, f.v4 - 0x7ffffffffffff)) == Val(f) - P
  {
  }

  /** A tight value is below 2^255, and at least P only if limbs 1 to 4 are full. */
  lemma TightBound(f: Five)
    requires Tight(f)
    ensures 0 <= Val(f) < P + 19
    ensures Val(f) >= P <==> (f.v0 >= 0x7ffffffffffed && f.v1 == 0x7ffffffffffff && f.v2 == 0x7ffffffffffff
                              && f.v3 == 0x7ffffffffffff && f.v4 == 0x7ffffffffffff)
    ensures Red(Val(f)) == if Val(f) >= P then Val(f) - P else Val(f)
  {
  }

  method PutLE64(word: u64, output: array<u8>, at: nat)
    requires at + 8 <= output.Length
    modifies output
    ensures output[..] == old(output[..at]) + LEBytes(word as nat, 8) + old(output[at + 8..])
  {
    var w := word;
    var i := 0;
    ghost var bytes := LEBytes(word as nat, 8);
    while i < 8
      invariant 0 <= i <= 8
      invariant LEBytes(w as nat, 8 - i) == bytes[i..]
      invariant forall j :: 0 <= j < output.Length && !(at <= j < at + i) ==> output[j] == old(output[j])
      invariant forall j :: 0 <= j < i ==> output[at + j] == bytes[j]
    {
      output[at + i] := (w % 256) as u8;
      assert bytes[i] == (w % 256) as u8;
      w := w / 256;
      i := i + 1;
    }
  }

  /** `a << n | b` in a 64-bit word, for b below 2^n: bits shifted out are lost. */
  function ShiftOr(a: u64, n: nat, b: u64): u64 {
    var w := Or((a as int * Pow2(n)) % 0x1_0000_0000_0000_0000, b as int);
    (w % 0x1_0000_0000_0000_0000) as u64
  }

  lemma ShiftOrIs(a: u64, n: nat, m: nat, b: u64)
    requires n + m == 64 && b as int < Pow2(n)
    ensures ShiftOr(a, n, b) as int == (a as int % Pow2(m)) * Pow2(n) + b as int
  {
    hide Or, Pow2;
    Pow2Large();
    Pow2Add(n, m);
    var x, p, q := a as int, Pow2(n), Pow2(m);
    var h, l := x / q, x % q;
    KeepLow(x, p, q);
    NestedDivision(p, q, h, l, b as int);
    OrDisjoint(l, b as int, n);
    IntCommute(p, l);
    IntCommute(p, x);
  }

  lemma KeepLow(x: int, p: int, q: int)
    requires p > 0 && q > 0
    ensures p * q > 0 && (p * x) % (p * q) == p * (x % q)
  {
    var h, l := x / q, x % q;
    NestedDivision(p, q, h, l, 0);
    DivModUnique(p * x, p * q, h, p * l);
  }

  /** The four 64-bit words of five tight limbs. */
  lemma WordsValue(f: Five)
    requires Tight(f)
    ensures Val(f) == ((f.v1 % 0x2000) * 0x8000000000000 + f.v0)
                      + 0x1_0000_0000_0000_0000 * ((f.v2 % 0x4000000) * 0x4000000000 + f.v1 / 0x2000)
                      + 0x1_0000_0000_0000_0000_0000_0000_0000_0000 * ((f.v3 % 0x8000000000) * 0x2000000 + f.v2 / 0x4000000)
                      + 0x1000000000000000000000000000000000000000000000000 * ((f.v4 % 0x10000000000000) * 0x1000 + f.v3 / 0x8000000000)
  {
  }

  lemma FourWords(o0: u64, o1: u64, o2: u64, o3: u64)
    ensures LE(LEBytes(o0 as nat, 8) + LEBytes(o1 as nat, 8) + LEBytes(o2 as nat, 8) + LEBytes(o3 as nat, 8))
         == o0 as int + 0x1_0000_0000_0000_0000 * o1 as int + 0x1_0000_0000_0000_0000_0000_0000_0000_0000 * o2 as int
            + 0x1000000000000000000000000000000000000000000000000 * o3 as int
  {
    hide LE, LEBytes, Pow2;
    Pow2Large();
    Pow2Offsets();
    Pow2Value(64, 64, 0x1_0000_0000_0000_0000, 0x1_0000_0000_0000_0000, 0x1_0000_0000_0000_0000_0000_0000_0000_0000);
    var b0, b1, b2, b3 := LEBytes(o0 as nat, 8), LEBytes(o1 as nat, 8), LEBytes(o2 as nat, 8), LEBytes(o3 as nat, 8);
    LEOfBytes(o0 as nat, 8);
    LEOfBytes(o1 as nat, 8);
    LEOfBytes(o2 as nat, 8);
    LEOfBytes(o3 as nat, 8);
    LEAppend(b0, b1);
    LEAppend(b0 + b1, b2);
    LEAppend(b0 + b1 + b2, b3);
  }

  lemma Pow2Shifts()
    ensures Pow2(12) == 0x1000 && Pow2(13) == 0x2000 && Pow2(25) == 0x2000000 && Pow2(26) == 0x4000000
    ensures Pow2(38) == 0x4000000000 && Pow2(39) == 0x8000000000 && Pow2(51) == 0x8000000000000 && Pow2(52) == 0x10000000000000
  {
    hide Pow2;
    Pow2Small();
    Pow2Large();
    Pow2Value(8, 4, 256, 16, 0x1000);
    Pow2Value(8, 5, 256, 32, 0x2000);
    Pow2Value(12, 13, 0x1000, 0x2000, 0x2000000);
    Pow2Value(13, 13, 0x2000, 0x2000, 0x4000000);
    Pow2Value(25, 13, 0x2000000, 0x2000, 0x4000000000);
    Pow2Value(26, 13, 0x4000000, 0x2000, 0x8000000000);
    Pow2Value(51, 1, 0x8000000000000, 2, 0x10000000000000);
  }

  method Store(output: array<u8>, input: array<u64>)
    requires output.Length == 32 && input.Length == 5 && Tight(Limbs(input))
    modifies output
    ensures LE(output[..]) == Val(Limbs(input))
  {
    hide LE, LEBytes, Pow2, ShiftOr, Val;
    ghost var f := Limbs(input);
    var t0, t1, t2, t3, t4 := input[0], input[1], input[2], input[3], input[4];
    var o0 := ShiftOr(t1, 51, t0);
    var o1 := ShiftOr(t2, 38, t1 / 0x2000);
    var o2 := ShiftOr(t3, 25, t2 / 0x4000000);
    var o3 := ShiftOr(t4, 12, t3 / 0x8000000000);
    Pow2Shifts();
    ShiftOrIs(t1, 51, 13, t0);
    ShiftOrIs(t2, 38, 26, t1 / 0x2000);
    ShiftOrIs(t3, 25, 39, t2 / 0x4000000);
    ShiftOrIs(t4, 12, 52, t3 / 0x8000000000);
    WordsValue(f);
    FourWords(o0, o1, o2, o3);
    PutLE64(o0, output, 0);
    PutLE64(o1, output, 8);
    PutLE64(o2, output, 16);
    PutLE64(o3, output, 24);
    assert output[..] == LEBytes(o0 as nat, 8) + LEBytes(o1 as nat, 8) + LEBytes(o2 as nat, 8) + LEBytes(o3 as nat, 8);
  }

  /** The 32 bytes of the unique representative below P, for any element whose
      limbs leave one bit free. */
  method FContract(output: array<u8>, input: array<u64>)
    requires output.Length == 32 && input.Length == 5
    requires forall i :: 0 <= i < 5 ==> input[i] < 0x8000_0000_0000_0000
    modifies output, input
    ensures LE(output[..]) == old(Elem(input))
  {
    hide Val, Red, LE;
    CarryFull(input);
    Trim(input);
    Store(output, input);
  }
}

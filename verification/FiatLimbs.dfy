/** Ten limbs of alternately 26 and 25 bits (src/curve25519-fiat32.h): the final
    reduction, and the conversions from and to bytes. */
module FiatLimbs {
  import opened Bits
  import opened Machine
  import opened Field
  import opened LittleEndian

  /** Ten limbs; even ones weigh 26 bits, odd ones 25. */
  datatype Ten = Ten(v0: int, v1: int, v2: int, v3: int, v4: int, v5: int, v6: int, v7: int, v8: int, v9: int)

  function Val(f: Ten): int {
    f.v0 + 0x4000000 * f.v1 + 0x8000000000000 * f.v2 + 0x20000000000000000000 * f.v3
    + 0x40000000000000000000000000 * f.v4 + 0x100000000000000000000000000000000 * f.v5
    + 0x200000000000000000000000000000000000000 * f.v6 + 0x800000000000000000000000000000000000000000000 * f.v7
    + 0x1000000000000000000000000000000000000000000000000000 * f.v8
    + 0x4000000000000000000000000000000000000000000000000000000000 * f.v9
  }

  /** The number digits spell in the mixed radix of 26 and 25 bits, low digit first. */
  ghost function Spell(limbs: seq<int>, wide: bool): int {
    if limbs == [] then 0
    else limbs[0] + (if wide then 0x4000000 else 0x2000000) * Spell(limbs[1..], !wide)
  }

  /** What ten limbs stand for. */
  ghost function Number(f: Ten): int {
    Spell([f.v0, f.v1, f.v2, f.v3, f.v4, f.v5, f.v6, f.v7, f.v8, f.v9], true)
  }

  lemma NumberIs(f: Ten)
    ensures Number(f) == Val(f)
  {
    var s := [f.v5, f.v6, f.v7, f.v8, f.v9];
    SpellFive(s, false);
    SpellFive([f.v0, f.v1, f.v2, f.v3, f.v4] + s, true);
    assert [f.v0, f.v1, f.v2, f.v3, f.v4] + s == [f.v0, f.v1, f.v2, f.v3, f.v4, f.v5, f.v6, f.v7, f.v8, f.v9];
  }

  /** Five digits weigh 128 bits when the first is wide, 127 otherwise. */
  lemma SpellFive(s: seq<int>, wide: bool)
    requires |s| >= 5
    ensures Spell(s, wide) == s[0]
              + (if wide then 0x4000000 * s[1] + 0x8000000000000 * s[2] + 0x20000000000000000000 * s[3]
                              + 0x40000000000000000000000000 * s[4] + 0x100000000000000000000000000000000 * Spell(s[5..], false)
                 else 0x2000000 * s[1] + 0x8000000000000 * s[2] + 0x10000000000000000000 * s[3]
                      + 0x40000000000000000000000000 * s[4] + 0x80000000000000000000000000000000 * Spell(s[5..], true))
  {
    assert s[1..][1..] == s[2..] && s[2..][1..] == s[3..] && s[3..][1..] == s[4..] && s[4..][1..] == s[5..];
    assert Spell(s[1..], !wide) == s[1] + (if wide then 0x2000000 else 0x4000000) * Spell(s[2..], wide);
    assert Spell(s[2..], wide) == s[2] + (if wide then 0x4000000 else 0x2000000) * Spell(s[3..], !wide);
    assert Spell(s[3..], !wide) == s[3] + (if wide then 0x2000000 else 0x4000000) * Spell(s[4..], wide);
  }

  /** Limbs of a product: at most 1.125 times 2^26 or 2^25. */
  predicate TightEven(x: int) { 0 <= x <= 0x4800000 }
  predicate TightOdd(x: int) { 0 <= x <= 0x2400000 }

  predicate Tight(f: Ten) {
    && TightEven(f.v0) && TightOdd(f.v1) && TightEven(f.v2) && TightOdd(f.v3) && TightEven(f.v4)
    && TightOdd(f.v5) && TightEven(f.v6) && TightOdd(f.v7) && TightEven(f.v8) && TightOdd(f.v9)
  }

  /** Every limb within its 26 or 25 bits. */
  predicate Canonical(f: Ten) {
    && 0 <= f.v0 < 0x4000000 && 0 <= f.v1 < 0x2000000 && 0 <= f.v2 < 0x4000000 && 0 <= f.v3 < 0x2000000 && 0 <= f.v4 < 0x4000000
    && 0 <= f.v5 < 0x2000000 && 0 <= f.v6 < 0x4000000 && 0 <= f.v7 < 0x2000000 && 0 <= f.v8 < 0x4000000 && 0 <= f.v9 < 0x2000000
  }

  // ----- freeze -----

  /** `a - b - c` on 32-bit words: the low bits below w, and the borrow. */
  function SubBorrow(w: int, c: int, a: int, b: int): (int, int)
    requires w > 0
  {
    var x := (a - b - c) % 0x1_0000_0000;
    (x % w, x / 0x8000_0000)
  }

  /** `a + b + c` on 32-bit words: the low bits below w, and the carry. */
  function AddCarry(w: int, c: int, a: int, b: int): (int, int)
    requires w > 0
  {
    var x := (a + b + c) % 0x1_0000_0000;
    (x % w, (x / w) % 2)
  }

  /** One subtraction step is exact: low - w * borrow = a - b - c. */
  lemma SubBorrow26(c: int, a: int, b: int)
    requires TightEven(a) && (b == 0x3ffffed || b == 0x3ffffff) && 0 <= c <= 1
    ensures var (l, d) := SubBorrow(0x4000000, c, a, b);
            0 <= l < 0x4000000 && 0 <= d <= 1 && l - 0x4000000 * d == a - b - c
  {
  }

  lemma SubBorrow25(c: int, a: int)
    requires TightOdd(a) && 0 <= c <= 1
    ensures var (l, d) := SubBorrow(0x2000000, c, a, 0x1ffffff);
            0 <= l < 0x2000000 && 0 <= d <= 1 && l - 0x2000000 * d == a - 0x1ffffff - c
  {
  }

  lemma AddCarry26(c: int, a: int, b: int)
    requires 0 <= a < 0x4000000 && 0 <= b < 0x4000000 && 0 <= c <= 1
    ensures var (l, d) := AddCarry(0x4000000, c, a, b);
            0 <= l < 0x4000000 && 0 <= d <= 1 && l + 0x4000000 * d == a + b + c
  {
  }

  lemma AddCarry25(c: int, a: int, b: int)
    requires 0 <= a < 0x2000000 && 0 <= b < 0x2000000 && 0 <= c <= 1
    ensures var (l, d) := AddCarry(0x2000000, c, a, b);
            0 <= l < 0x2000000 && 0 <= d <= 1 && l + 0x2000000 * d == a + b + c
  {
  }

  /** The limbs of f - P, and whether it borrowed. */
  function SubtractP(f: Ten): (Ten, int) {
    var (x20, x21) := SubBorrow(0x4000000, 0, f.v0, 0x3ffffed);
    var (x23, x24) := SubBorrow(0x2000000, x21, f.v1, 0x1ffffff);
    var (x26, x27) := SubBorrow(0x4000000, x24, f.v2, 0x3ffffff);
    var (x29, x30) := SubBorrow(0x2000000, x27, f.v3, 0x1ffffff);
    var (x32, x33) := SubBorrow(0x4000000, x30, f.v4, 0x3ffffff);
    var (x35, x36) := SubBorrow(0x2000000, x33, f.v5, 0x1ffffff);
    var (x38, x39) := SubBorrow(0x4000000, x36, f.v6, 0x3ffffff);
    var (x41, x42) := SubBorrow(0x2000000, x39, f.v7, 0x1ffffff);
    var (x44, x45) := SubBorrow(0x4000000, x42, f.v8, 0x3ffffff);
    var (x47, x48) := SubBorrow(0x2000000, x45, f.v9, 0x1ffffff);
    (Ten(x20, x23, x26, x29, x32, x35, x38, x41, x44, x47), x48)
  }

  lemma SubtractPValue(f: Ten)
    requires Tight(f)
    ensures var (g, d) := SubtractP(f);
            Canonical(g) && 0 <= d <= 1 && Val(g) - (P + 19) * d == Val(f) - P
  {
    hide SubBorrow;
    var (x20, x21) := SubBorrow(0x4000000, 0, f.v0, 0x3ffffed);
    SubBorrow26(0, f.v0, 0x3ffffed);
    var (x23, x24) := SubBorrow(0x2000000, x21, f.v1, 0x1ffffff);
    SubBorrow25(x21, f.v1);
    var (x26, x27) := SubBorrow(0x4000000, x24, f.v2, 0x3ffffff);
    SubBorrow26(x24, f.v2, 0x3ffffff);
    var (x29, x30) := SubBorrow(0x2000000, x27, f.v3, 0x1ffffff);
    SubBorrow25(x27, f.v3);
    var (x32, x33) := SubBorrow(0x4000000, x30, f.v4, 0x3ffffff);
    SubBorrow26(x30, f.v4, 0x3ffffff);
    var (x35, x36) := SubBorrow(0x2000000, x33, f.v5, 0x1ffffff);
    SubBorrow25(x33, f.v5);
    var (x38, x39) := SubBorrow(0x4000000, x36, f.v6, 0x3ffffff);
    SubBorrow26(x36, f.v6, 0x3ffffff);
    var (x41, x42) := SubBorrow(0x2000000, x39, f.v7, 0x1ffffff);
    SubBorrow25(x39, f.v7);
    var (x44, x45) := SubBorrow(0x4000000, x42, f.v8, 0x3ffffff);
    SubBorrow26(x42, f.v8, 0x3ffffff);
    SubBorrow25(x45, f.v9);
  }

  /** The limbs of f plus P or plus zero; the carry out of the top is dropped. */
  function AddMasked(f: Ten, m: bool): (Ten, int) {
    var even, odd := if m then 0x3ffffff else 0, if m then 0x1ffffff else 0;
    var (x52, x53) := AddCarry(0x4000000, 0, f.v0, if m then 0x3ffffed else 0);
    var (x56, x57) := AddCarry(0x2000000, x53, f.v1, odd);
    var (x60, x61) := AddCarry(0x4000000, x57, f.v2, even);
    var (x64, x65) := AddCarry(0x2000000, x61, f.v3, odd);
    var (x68, x69) := AddCarry(0x4000000, x65, f.v4, even);
    var (x72, x73) := AddCarry(0x2000000, x69, f.v5, odd);
    var (x76, x77) := AddCarry(0x4000000, x73, f.v6, even);
    var (x80, x81) := AddCarry(0x2000000, x77, f.v7, odd);
    var (x84, x85) := AddCarry(0x4000000, x81, f.v8, even);
    var (x88, c) := AddCarry(0x2000000, x85, f.v9, odd);
    (Ten(x52, x56, x60, x64, x68, x72, x76, x80, x84, x88), c)
  }

  lemma AddMaskedValue(f: Ten, m: bool)
    requires Canonical(f)
    ensures var (g, c) := AddMasked(f, m);
            Canonical(g) && 0 <= c <= 1 && Val(g) + (P + 19) * c == Val(f) + (if m then P else 0)
  {
    hide AddCarry;
    var even, odd := if m then 0x3ffffff else 0, if m then 0x1ffffff else 0;
    var low := if m then 0x3ffffed else 0;
    var (x52, x53) := AddCarry(0x4000000, 0, f.v0, low);
    AddCarry26(0, f.v0, low);
    var (x56, x57) := AddCarry(0x2000000, x53, f.v1, odd);
    AddCarry25(x53, f.v1, odd);
    var (x60, x61) := AddCarry(0x4000000, x57, f.v2, even);
    AddCarry26(x57, f.v2, even);
    var (x64, x65) := AddCarry(0x2000000, x61, f.v3, odd);
    AddCarry25(x61, f.v3, odd);
    var (x68, x69) := AddCarry(0x4000000, x65, f.v4, even);
    AddCarry26(x65, f.v4, even);
    var (x72, x73) := AddCarry(0x2000000, x69, f.v5, odd);
    AddCarry25(x69, f.v5, odd);
    var (x76, x77) := AddCarry(0x4000000, x73, f.v6, even);
    AddCarry26(x73, f.v6, even);
    var (x80, x81) := AddCarry(0x2000000, x77, f.v7, odd);
    AddCarry25(x77, f.v7, odd);
    var (x84, x85) := AddCarry(0x4000000, x81, f.v8, even);
    AddCarry26(x81, f.v8, even);
    AddCarry25(x85, f.v9, odd);
  }

  /** fe_freeze: subtract P, and add it back if that borrowed. */
  function Freeze(f: Ten): Ten {
    var (g, d) := SubtractP(f);
    AddMasked(g, d != 0).0
  }

  /** The result is the unique representative below P, in canonical limbs. */
  lemma FreezeIsReduction(f: Ten)
    requires Tight(f)
    ensures Canonical(Freeze(f)) && Number(Freeze(f)) == Red(Number(f))
  {
    hide SubtractP, AddMasked, Val, Number;
    NumberIs(f);
    NumberIs(Freeze(f));
    TightRange(f);
    SubtractPValue(f);
    var (g, d) := SubtractP(f);
    AddMaskedValue(g, d != 0);
    CanonicalRange(g);
    var (h, c) := AddMasked(g, d != 0);
    CanonicalRange(h);
    FreezeArithmetic(Val(f), Val(g), Val(h), c, d);
  }

  lemma TightRange(f: Ten)
    requires Tight(f)
    ensures 0 <= Val(f) < 2 * P
  {
  }

  lemma CanonicalRange(f: Ten)
    requires Canonical(f)
    ensures 0 <= Val(f) < P + 19
  {
  }

  lemma FreezeArithmetic(v: int, g: int, h: int, c: int, d: int)
    requires 0 <= v < 2 * P && 0 <= g < P + 19 && 0 <= h < P + 19 && 0 <= c <= 1 && 0 <= d <= 1
    requires g - (P + 19) * d == v - P
    requires h + (P + 19) * c == g + (if d != 0 then P else 0)
    ensures h == Red(v)
  {
  }

  // ----- bytes to limbs -----

  /** `l | (h << n)` for l below 2^n, on words that do not overflow. */
  function Joined(l: int, h: int, n: nat): (r: int)
    requires 0 <= l < Pow2(n)
    ensures r == l + h * Pow2(n)
  {
    OrComm(l, h * Pow2(n));
    OrDisjoint(h, l, n);
    Or(l, h * Pow2(n))
  }

  /** The 32-bit little-endian word at an offset. */
  function GetLE32(s: seq<u8>, at: nat): (r: int)
    requires at + 4 <= |s|
    ensures 0 <= r < 0x1_0000_0000
  {
    LE4(s[at], s[at + 1], s[at + 2], s[at + 3]);
    LE([s[at], s[at + 1], s[at + 2], s[at + 3]])
  }

  lemma LE4(a: u8, b: u8, c: u8, d: u8)
    ensures LE([a, b, c, d]) == a as int + 0x100 * b as int + 0x10000 * c as int + 0x1000000 * d as int
  {
    assert [a, b, c, d][1..] == [b, c, d];
    assert [b, c, d][1..] == [c, d];
    assert [c, d][1..] == [d];
    assert [d][1..] == [];
    assert LE([d]) == d as int;
    assert LE([c, d]) == c as int + 0x100 * d as int;
    assert LE([b, c, d]) == b as int + 0x100 * c as int + 0x10000 * d as int;
  }

  lemma Pow2Widths()
    ensures Pow2(6) == 0x40 && Pow2(7) == 0x80 && Pow2(13) == 0x2000 && Pow2(19) == 0x80000 && Pow2(20) == 0x100000
  {
    hide Pow2;
    Pow2Small();
    Pow2Add(8, 5);
    Pow2Add(16, 3);
    Pow2Add(16, 4);
  }

  /** fe_frombytes: the limbs of 32 bytes, without the top bit. */
  function FromBytes(s: seq<u8>): Ten
    requires |s| == 32
  {
    var a0, a1, a2, a3 := GetLE32(s, 0), GetLE32(s, 4), GetLE32(s, 8), GetLE32(s, 12);
    var a4, a5, a6, a7 := GetLE32(s, 16), GetLE32(s, 20), GetLE32(s, 24), GetLE32(s, 28);
    Pow2Widths();
    Ten(a0 % 0x4000000,
        Joined(a0 / 0x4000000, a1 % 0x80000, 6),
        Joined(a1 / 0x80000, a2 % 0x2000, 13),
        Joined(a2 / 0x2000, a3 % 0x40, 19),
        a3 / 0x40,
        a4 % 0x2000000,
        Joined(a4 / 0x2000000, a5 % 0x80000, 7),
        Joined(a5 / 0x80000, a6 % 0x1000, 13),
        Joined(a6 / 0x1000, a7 % 0x40, 20),
        (a7 / 0x40) % 0x2000000)
  }

  lemma LEWords(s: seq<u8>)
    requires |s| == 32
    ensures LE(s) == GetLE32(s, 0) + 0x1_0000_0000 * GetLE32(s, 4) + 0x1_0000_0000_0000_0000 * GetLE32(s, 8)
                     + 0x1000000000000000000000000 * GetLE32(s, 12) + 0x1_0000_0000_0000_0000_0000_0000_0000_0000 * GetLE32(s, 16)
                     + 0x10000000000000000000000000000000000000000 * GetLE32(s, 20)
                     + 0x1000000000000000000000000000000000000000000000000 * GetLE32(s, 24)
                     + 0x100000000000000000000000000000000000000000000000000000000 * GetLE32(s, 28)
  {
    hide LE, GetLE32;
    Word(s);
    Word(s[4..]);
    Word(s[8..]);
    Word(s[12..]);
    Word(s[16..]);
    Word(s[20..]);
    Word(s[24..]);
    Word(s[28..]);
    Shifted(s, 4);
    Shifted(s, 8);
    Shifted(s, 12);
    Shifted(s, 16);
    Shifted(s, 20);
    Shifted(s, 24);
    Shifted(s, 28);
    assert s[32..] == [];
    LEEmpty();
  }

  lemma LEEmpty()
    ensures LE([]) == 0
  {
  }

  lemma Word(s: seq<u8>)
    requires |s| >= 4
    ensures LE(s) == GetLE32(s, 0) + 0x1_0000_0000 * LE(s[4..])
  {
    hide LE;
    assert s == s[..4] + s[4..];
    assert s[..4] == [s[0], s[1], s[2], s[3]];
    LEAppend(s[..4], s[4..]);
    Pow2Large();
  }

  lemma Shifted(s: seq<u8>, at: nat)
    requires at + 4 <= |s|
    ensures GetLE32(s[at..], 0) == GetLE32(s, at) && s[at..][4..] == s[at + 4..]
  {
  }

  /** The cut words, put together again. */
  lemma Recombine(r0: int, q0: int, r1: int, q1: int, r2: int, q2: int, r3: int, q3: int,
                  r4: int, q4: int, r5: int, q5: int, r6: int, q6: int, r7: int, q7: int, t: int)
    ensures Val(Ten(r0, q0 + r1 * 0x40, q1 + r2 * 0x2000, q2 + r3 * 0x80000, q3,
                    r4, q4 + r5 * 0x80, q5 + r6 * 0x2000, q6 + r7 * 0x100000, q7)) + (P + 19) * t
         == (r0 + 0x4000000 * q0) + 0x1_0000_0000 * (r1 + 0x80000 * q1) + 0x1_0000_0000_0000_0000 * (r2 + 0x2000 * q2)
            + 0x1000000000000000000000000 * (r3 + 0x40 * q3)
            + 0x1_0000_0000_0000_0000_0000_0000_0000_0000 * (r4 + 0x2000000 * q4)
            + 0x10000000000000000000000000000000000000000 * (r5 + 0x80000 * q5)
            + 0x1000000000000000000000000000000000000000000000000 * (r6 + 0x1000 * q6)
            + 0x100000000000000000000000000000000000000000000000000000000 * (r7 + 0x40 * q7 + 0x8000_0000 * t)
  {
  }

  lemma TopWord(a: int)
    requires 0 <= a < 0x1_0000_0000
    ensures a == a % 0x40 + 0x40 * ((a / 0x40) % 0x2000000) + 0x8000_0000 * (a / 0x8000_0000)
  {
  }

  lemma FromWordsCanonical(s: seq<u8>)
    requires |s| == 32
    ensures Canonical(FromBytes(s))
  {
    hide LE, GetLE32, Joined;
    Pow2Widths();
  }

  /** Decoding keeps 255 bits, as section 5 of RFC 7748 asks. */
  lemma FromBytesValue(s: seq<u8>)
    requires |s| == 32
    ensures Canonical(FromBytes(s)) && Number(FromBytes(s)) == LE(s) % (P + 19)
  {
    hide LE, GetLE32, Joined, Val, Number;
    NumberIs(FromBytes(s));
    FromWordsCanonical(s);
    Pow2Widths();
    LEWords(s);
    var f := FromBytes(s);
    var a0, a1, a2, a3 := GetLE32(s, 0), GetLE32(s, 4), GetLE32(s, 8), GetLE32(s, 12);
    var a4, a5, a6, a7 := GetLE32(s, 16), GetLE32(s, 20), GetLE32(s, 24), GetLE32(s, 28);
    Recombine(a0 % 0x4000000, a0 / 0x4000000, a1 % 0x80000, a1 / 0x80000, a2 % 0x2000, a2 / 0x2000, a3 % 0x40, a3 / 0x40,
              a4 % 0x2000000, a4 / 0x2000000, a5 % 0x80000, a5 / 0x80000, a6 % 0x1000, a6 / 0x1000,
              a7 % 0x40, (a7 / 0x40) % 0x2000000, a7 / 0x8000_0000);
    TopWord(a7);
    CanonicalRange(f);
    DivModUnique(LE(s), P + 19, a7 / 0x8000_0000, Val(f));
  }

  // ----- limbs to bytes -----

  function Byte(x: int): u8 { (x % 256) as u8 }

  /** The bytes of the first five limbs. */
  function LowBytes(f: Ten): seq<u8>
    requires Canonical(f)
  {
    Pow2Small();
    [Byte(f.v0), Byte(f.v0 / 0x100), Byte(f.v0 / 0x10000), Byte(Joined(f.v0 / 0x1000000, f.v1, 2)),
     Byte(f.v1 / 0x40), Byte(f.v1 / 0x4000), Byte(Joined(f.v1 / 0x400000, f.v2, 3)), Byte(f.v2 / 0x20),
     Byte(f.v2 / 0x2000), Byte(Joined(f.v2 / 0x200000, f.v3, 5)), Byte(f.v3 / 8), Byte(f.v3 / 0x800),
     Byte(Joined(f.v3 / 0x80000, f.v4, 6)), Byte(f.v4 / 4), Byte(f.v4 / 0x400), Byte(f.v4 / 0x40000)]
  }

  /** The bytes of the last five limbs. */
  function HighBytes(f: Ten): seq<u8>
    requires Canonical(f)
  {
    Pow2Small();
    [Byte(f.v5), Byte(f.v5 / 0x100), Byte(f.v5 / 0x10000), Byte(Joined(f.v5 / 0x1000000, f.v6, 1)),
     Byte(f.v6 / 0x80), Byte(f.v6 / 0x8000), Byte(Joined(f.v6 / 0x800000, f.v7, 3)), Byte(f.v7 / 0x20),
     Byte(f.v7 / 0x2000), Byte(Joined(f.v7 / 0x200000, f.v8, 4)), Byte(f.v8 / 0x10), Byte(f.v8 / 0x1000),
     Byte(Joined(f.v8 / 0x100000, f.v9, 6)), Byte(f.v9 / 4), Byte(f.v9 / 0x400), Byte(f.v9 / 0x40000)]
  }

  /** fe_tobytes. */
  function ToBytes(f: Ten): seq<u8>
    requires Tight(f)
  {
    FreezeIsReduction(f);
    var h := Freeze(f);
    LowBytes(h) + HighBytes(h)
  }

  lemma LE16(s: seq<u8>)
    requires |s| == 16
    ensures LE(s) == s[0] as int + 0x100 * s[1] as int + 0x10000 * s[2] as int + 0x1000000 * s[3] as int
        + 0x1_0000_0000 * (s[4] as int + 0x100 * s[5] as int + 0x10000 * s[6] as int + 0x1000000 * s[7] as int)
        + 0x1_0000_0000_0000_0000 * (s[8] as int + 0x100 * s[9] as int + 0x10000 * s[10] as int + 0x1000000 * s[11] as int)
        + 0x1000000000000000000000000 * (s[12] as int + 0x100 * s[13] as int + 0x10000 * s[14] as int + 0x1000000 * s[15] as int)
  {
    hide LE;
    Word(s);
    Word(s[4..]);
    Word(s[8..]);
    Word(s[12..]);
    LE4(s[0], s[1], s[2], s[3]);
    LE4(s[4], s[5], s[6], s[7]);
    LE4(s[8], s[9], s[10], s[11]);
    LE4(s[12], s[13], s[14], s[15]);
    assert s[4..][4..] == s[8..] && s[8..][4..] == s[12..] && s[12..][4..] == [];
    LEEmpty();
  }

  /** A limb cut into bytes, after the bits that share a byte with the limb before. */
  lemma Cut256(x: int)
    ensures x == x % 256 + 256 * ((x / 256) % 256) + 65536 * ((x / 65536) % 256) + 16777216 * (x / 16777216)
  {
    DivDiv(x, 256, 256);
    DivDiv(x, 65536, 256);
  }

  lemma Cut64(x: int)
    ensures x == x % 64 + 64 * ((x / 64) % 256) + 16384 * ((x / 16384) % 256) + 4194304 * (x / 4194304)
  {
    DivDiv(x, 64, 256);
    DivDiv(x, 16384, 256);
  }

  lemma Cut32(x: int)
    ensures x == x % 32 + 32 * ((x / 32) % 256) + 8192 * ((x / 8192) % 256) + 2097152 * (x / 2097152)
  {
    DivDiv(x, 32, 256);
    DivDiv(x, 8192, 256);
  }

  lemma Cut8(x: int)
    ensures x == x % 8 + 8 * ((x / 8) % 256) + 2048 * ((x / 2048) % 256) + 524288 * (x / 524288)
  {
    DivDiv(x, 8, 256);
    DivDiv(x, 2048, 256);
  }

  lemma Cut4(x: int)
    ensures x == x % 4 + 4 * ((x / 4) % 256) + 1024 * ((x / 1024) % 256) + 262144 * (x / 262144)
  {
    DivDiv(x, 4, 256);
    DivDiv(x, 1024, 256);
  }

  lemma Cut128(x: int)
    ensures x == x % 128 + 128 * ((x / 128) % 256) + 32768 * ((x / 32768) % 256) + 8388608 * (x / 8388608)
  {
    DivDiv(x, 128, 256);
    DivDiv(x, 32768, 256);
  }

  lemma Cut16(x: int)
    ensures x == x % 16 + 16 * ((x / 16) % 256) + 4096 * ((x / 4096) % 256) + 1048576 * (x / 1048576)
  {
    DivDiv(x, 16, 256);
    DivDiv(x, 4096, 256);
  }

  lemma PlainByte(x: int)
    ensures Byte(x) as int == x % 256
  {
  }

  lemma TopByte(x: int)
    requires 0 <= x < 0x4000000
    ensures (x / 262144) % 256 == x / 262144
  {
  }

  lemma SharedByte(l: int, h: int, n: nat, p: int, q: int)
    requires 0 <= l < p && p * q == 256 && 0 < q && Pow2(n) == p
    ensures Byte(Joined(l, h, n)) as int == l + p * (h % q)
  {
    hide Joined;
    JoinByte(l, h, p, q);
  }

  /** A byte shared by two limbs: k bits of one and 8 - k of the next. */
  lemma JoinByte(l: int, h: int, p: int, q: int)
    requires 0 <= l < p && p * q == 256 && 0 < q
    ensures (l + h * p) % 256 == l + p * (h % q)
  {
    var t, r := h / q, h % q;
    NestedDivision(p, q, t, r, l);
    IntCommute(p, h);
    DivModUnique(l + h * p, 256, t, p * r + l);
  }

  lemma RecombineLow(b00: int, b01: int, b02: int, t0: int, l1: int, b11: int, b12: int, t1: int, l2: int, b21: int, b22: int, t2: int, l3: int, b31: int, b32: int, t3: int, l4: int, b41: int, b42: int, t4: int)
    ensures (b00 + 0x100 * b01 + 0x10000 * b02 + 0x1000000 * (t0 + 4 * l1)) + 0x1_0000_0000 * (b11 + 0x100 * b12 + 0x10000 * (t1 + 8 * l2) + 0x1000000 * b21)
            + 0x1_0000_0000_0000_0000 * (b22 + 0x100 * (t2 + 32 * l3) + 0x10000 * b31 + 0x1000000 * b32)
            + 0x1000000000000000000000000 * ((t3 + 64 * l4) + 0x100 * b41 + 0x10000 * b42 + 0x1000000 * t4)
         == (b00 + 0x100 * b01 + 0x10000 * b02 + 0x1000000 * t0)
            + 0x4000000 * (l1 + 64 * b11 + 16384 * b12 + 4194304 * t1)
            + 0x8000000000000 * (l2 + 32 * b21 + 8192 * b22 + 2097152 * t2)
            + 0x20000000000000000000 * (l3 + 8 * b31 + 2048 * b32 + 524288 * t3)
            + 0x40000000000000000000000000 * (l4 + 4 * b41 + 1024 * b42 + 262144 * t4)
  {
  }

  lemma RecombineHigh(b00: int, b01: int, b02: int, t0: int, l1: int, b11: int, b12: int, t1: int, l2: int, b21: int, b22: int, t2: int, l3: int, b31: int, b32: int, t3: int, l4: int, b41: int, b42: int, t4: int)
    ensures (b00 + 0x100 * b01 + 0x10000 * b02 + 0x1000000 * (t0 + 2 * l1)) + 0x1_0000_0000 * (b11 + 0x100 * b12 + 0x10000 * (t1 + 8 * l2) + 0x1000000 * b21)
            + 0x1_0000_0000_0000_0000 * (b22 + 0x100 * (t2 + 16 * l3) + 0x10000 * b31 + 0x1000000 * b32)
            + 0x1000000000000000000000000 * ((t3 + 64 * l4) + 0x100 * b41 + 0x10000 * b42 + 0x1000000 * t4)
         == (b00 + 0x100 * b01 + 0x10000 * b02 + 0x1000000 * t0)
            + 0x2000000 * (l1 + 128 * b11 + 32768 * b12 + 8388608 * t1)
            + 0x8000000000000 * (l2 + 32 * b21 + 8192 * b22 + 2097152 * t2)
            + 0x10000000000000000000 * (l3 + 16 * b31 + 4096 * b32 + 1048576 * t3)
            + 0x40000000000000000000000000 * (l4 + 4 * b41 + 1024 * b42 + 262144 * t4)
  {
  }

  lemma LowBytesValueParts(s: seq<u8>, f: Ten,
                 b00: int, b01: int, b02: int, t0: int, l1: int, b11: int, b12: int, t1: int, l2: int, b21: int, b22: int, t2: int, l3: int, b31: int, b32: int, t3: int, l4: int, b41: int, b42: int, t4: int)
    requires |s| == 16
    requires s[0] as int == b00 && s[1] as int == b01 && s[2] as int == b02 && s[3] as int == t0 + 4 * l1
    requires s[4] as int == b11 && s[5] as int == b12 && s[6] as int == t1 + 8 * l2 && s[7] as int == b21
    requires s[8] as int == b22 && s[9] as int == t2 + 32 * l3 && s[10] as int == b31 && s[11] as int == b32
    requires s[12] as int == t3 + 64 * l4 && s[13] as int == b41 && s[14] as int == b42 && s[15] as int == t4
    requires f.v0 == b00 + 0x100 * b01 + 0x10000 * b02 + 0x1000000 * t0
    requires f.v1 == l1 + 64 * b11 + 16384 * b12 + 4194304 * t1
    requires f.v2 == l2 + 32 * b21 + 8192 * b22 + 2097152 * t2
    requires f.v3 == l3 + 8 * b31 + 2048 * b32 + 524288 * t3
    requires f.v4 == l4 + 4 * b41 + 1024 * b42 + 262144 * t4
    ensures LE(s) == f.v0 + 0x4000000 * f.v1 + 0x8000000000000 * f.v2 + 0x20000000000000000000 * f.v3 + 0x40000000000000000000000000 * f.v4
  {
    hide LE;
    LE16(s);
    RecombineLow(b00, b01, b02, t0, l1, b11, b12, t1, l2, b21, b22, t2, l3, b31, b32, t3, l4, b41, b42, t4);
  }

  lemma LowBytesValue(f: Ten)
    requires Canonical(f)
    ensures LE(LowBytes(f)) == f.v0 + 0x4000000 * f.v1 + 0x8000000000000 * f.v2 + 0x20000000000000000000 * f.v3 + 0x40000000000000000000000000 * f.v4
  {
    hide LE, Joined, Pow2, Byte;
    Pow2Small();
    Cut256(f.v0);
    Cut64(f.v1);
    Cut32(f.v2);
    Cut8(f.v3);
    Cut4(f.v4);
    SharedByte(f.v0 / 16777216, f.v1, 2, 4, 64);
    SharedByte(f.v1 / 4194304, f.v2, 3, 8, 32);
    SharedByte(f.v2 / 2097152, f.v3, 5, 32, 8);
    SharedByte(f.v3 / 524288, f.v4, 6, 64, 4);
    PlainByte(f.v0);
    PlainByte(f.v0 / 256);
    PlainByte(f.v0 / 65536);
    PlainByte(f.v1 / 64);
    PlainByte(f.v1 / 16384);
    PlainByte(f.v2 / 32);
    PlainByte(f.v2 / 8192);
    PlainByte(f.v3 / 8);
    PlainByte(f.v3 / 2048);
    PlainByte(f.v4 / 4);
    PlainByte(f.v4 / 1024);
    PlainByte(f.v4 / 262144);
    TopByte(f.v4);
    LowBytesValueParts(LowBytes(f), f,
      f.v0 % 256, (f.v0 / 256) % 256, (f.v0 / 65536) % 256, f.v0 / 16777216,
      f.v1 % 64, (f.v1 / 64) % 256, (f.v1 / 16384) % 256, f.v1 / 4194304,
      f.v2 % 32, (f.v2 / 32) % 256, (f.v2 / 8192) % 256, f.v2 / 2097152,
      f.v3 % 8, (f.v3 / 8) % 256, (f.v3 / 2048) % 256, f.v3 / 524288,
      f.v4 % 4, (f.v4 / 4) % 256, (f.v4 / 1024) % 256, f.v4 / 262144);
  }

  lemma HighBytesValueParts(s: seq<u8>, f: Ten,
                 b00: int, b01: int, b02: int, t0: int, l1: int, b11: int, b12: int, t1: int, l2: int, b21: int, b22: int, t2: int, l3: int, b31: int, b32: int, t3: int, l4: int, b41: int, b42: int, t4: int)
    requires |s| == 16
    requires s[0] as int == b00 && s[1] as int == b01 && s[2] as int == b02 && s[3] as int == t0 + 2 * l1
    requires s[4] as int == b11 && s[5] as int == b12 && s[6] as int == t1 + 8 * l2 && s[7] as int == b21
    requires s[8] as int == b22 && s[9] as int == t2 + 16 * l3 && s[10] as int == b31 && s[11] as int == b32
    requires s[12] as int == t3 + 64 * l4 && s[13] as int == b41 && s[14] as int == b42 && s[15] as int == t4
    requires f.v5 == b00 + 0x100 * b01 + 0x10000 * b02 + 0x1000000 * t0
    requires f.v6 == l1 + 128 * b11 + 32768 * b12 + 8388608 * t1
    requires f.v7 == l2 + 32 * b21 + 8192 * b22 + 2097152 * t2
    requires f.v8 == l3 + 16 * b31 + 4096 * b32 + 1048576 * t3
    requires f.v9 == l4 + 4 * b41 + 1024 * b42 + 262144 * t4
    ensures LE(s) == f.v5 + 0x2000000 * f.v6 + 0x8000000000000 * f.v7 + 0x10000000000000000000 * f.v8 + 0x40000000000000000000000000 * f.v9
  {
    hide LE;
    LE16(s);
    RecombineHigh(b00, b01, b02, t0, l1, b11, b12, t1, l2, b21, b22, t2, l3, b31, b32, t3, l4, b41, b42, t4);
  }

  lemma HighBytesValue(f: Ten)
    requires Canonical(f)
    ensures LE(HighBytes(f)) == f.v5 + 0x2000000 * f.v6 + 0x8000000000000 * f.v7 + 0x10000000000000000000 * f.v8 + 0x40000000000000000000000000 * f.v9
  {
    hide LE, Joined, Pow2, Byte;
    Pow2Small();
    Cut256(f.v5);
    Cut128(f.v6);
    Cut32(f.v7);
    Cut16(f.v8);
    Cut4(f.v9);
    SharedByte(f.v5 / 16777216, f.v6, 1, 2, 128);
    SharedByte(f.v6 / 8388608, f.v7, 3, 8, 32);
    SharedByte(f.v7 / 2097152, f.v8, 4, 16, 16);
    SharedByte(f.v8 / 1048576, f.v9, 6, 64, 4);
    PlainByte(f.v5);
    PlainByte(f.v5 / 256);
    PlainByte(f.v5 / 65536);
    PlainByte(f.v6 / 128);
    PlainByte(f.v6 / 32768);
    PlainByte(f.v7 / 32);
    PlainByte(f.v7 / 8192);
    PlainByte(f.v8 / 16);
    PlainByte(f.v8 / 4096);
    PlainByte(f.v9 / 4);
    PlainByte(f.v9 / 1024);
    PlainByte(f.v9 / 262144);
    TopByte(f.v9);
    HighBytesValueParts(HighBytes(f), f,
      f.v5 % 256, (f.v5 / 256) % 256, (f.v5 / 65536) % 256, f.v5 / 16777216,
      f.v6 % 128, (f.v6 / 128) % 256, (f.v6 / 32768) % 256, f.v6 / 8388608,
      f.v7 % 32, (f.v7 / 32) % 256, (f.v7 / 8192) % 256, f.v7 / 2097152,
      f.v8 % 16, (f.v8 / 16) % 256, (f.v8 / 4096) % 256, f.v8 / 1048576,
      f.v9 % 4, (f.v9 / 4) % 256, (f.v9 / 1024) % 256, f.v9 / 262144);
  }

  /** The bytes are those of the unique representative below P. */
  lemma ToBytesValue(f: Ten)
    requires Tight(f)
    ensures |ToBytes(f)| == 32 && LE(ToBytes(f)) == Red(Number(f))
  {
    hide LE, Freeze, LowBytes, HighBytes, Red, Number;
    FreezeIsReduction(f);
    var h := Freeze(f);
    NumberIs(h);
    LowBytesValue(h);
    HighBytesValue(h);
    BytesLength(h);
    LEAppend(LowBytes(h), HighBytes(h));
    Pow2Large();
    Pow2Add(64, 64);
  }

  lemma BytesLength(f: Ten)
    requires Canonical(f)
    ensures |LowBytes(f)| == 16 && |HighBytes(f)| == 16
  {
  }
}

/** The branchless base64 of src/encoding.c, character by character, against the
    alphabet of table 1 of RFC 4648. */
module Base64 {
  import opened Bits
  import opened Machine

  // ----- the alphabet -----

  /** Table 1 of RFC 4648. */
  function Char64(v: nat): (r: u8)
    requires v < 64
  {
    if v < 26 then (65 + v) as u8           // A-Z
    else if v < 52 then (97 + v - 26) as u8 // a-z
    else if v < 62 then (48 + v - 52) as u8 // 0-9
    else if v == 62 then 43                 // +
    else 47                                 // /
  }

  /** The value of a character, or -1. */
  function Value64(b: u8): (r: int)
    ensures -1 <= r < 64
  {
    if 65 <= b <= 90 then b as int - 65
    else if 97 <= b <= 122 then b as int - 97 + 26
    else if 48 <= b <= 57 then b as int - 48 + 52
    else if b == 43 then 62
    else if b == 47 then 63
    else -1
  }

  /** The two are inverse. */
  lemma AlphabetInverse(v: nat, b: u8)
    ensures v < 64 ==> Value64(Char64(v)) == v
    ensures Value64(b) >= 0 ==> Char64(Value64(b)) == b
  {
  }

  // ----- signs as masks -----

  /** `x >> 8` of a small number is its sign. */
  lemma SignShift(x: int)
    requires -256 <= x < 256
    ensures Shr(x, 8) == if x < 0 then -1 else 0
  {
    hide Shr;
    ShrDiv(x, 8);
    Pow2Small();
  }

  /** `(x >> 8) & y` keeps `y` when `x` is negative. */
  lemma SignMask(x: int, y: int)
    requires -256 <= x < 256
    ensures And(Shr(x, 8), y) == if x < 0 then y else 0
  {
    hide Shr, And;
    SignShift(x);
    AndSigns(y);
  }

  /** `((x & y) >> 8) & z` keeps `z` when both are negative. */
  lemma RangeMask(x: int, y: int, z: int)
    requires -256 <= x < 256 && -256 <= y < 256
    ensures And(Shr(And(x, y), 8), z) == if x < 0 && y < 0 then z else 0
  {
    hide Shr, And;
    AndShr(x, y, 8);
    SignShift(x);
    SignShift(y);
    AndSigns(-1);
    AndSigns(0);
    AndSigns(z);
  }

  // ----- one character out -----

  /** The expression in the loop of encode_base64. */
  function EncodeChar(v: int): int {
    v + 65
    + And(Shr(25 - v, 8), 6)
    - And(Shr(51 - v, 8), 75)
    - And(Shr(61 - v, 8), 15)
    + And(Shr(62 - v, 8), 3)
  }

  lemma EncodeCharIs(v: nat)
    requires v < 64
    ensures EncodeChar(v) == Char64(v) as int
  {
    hide And, Shr;
    SignMask(25 - v, 6);
    SignMask(51 - v, 75);
    SignMask(61 - v, 15);
    SignMask(62 - v, 3);
  }

  // ----- one character in -----

  /** The type char, which is signed or not. */
  function CharOf(b: u8, signed: bool): (c: int)
    ensures -128 <= c < 256
  {
    if signed && b >= 128 then b as int - 256 else b as int
  }

  /** The expression in the loop of decode_base64, before the shift. */
  function DecodeChar(c: int): int {
    -1
    + And(Shr(And(64 - c, c - 91), 8), c - 64)
    + And(Shr(And(96 - c, c - 123), 8), c - 70)
    + And(Shr(And(47 - c, c - 58), 8), c + 5)
    + And(Shr(And(42 - c, c - 44), 8), 63)
    + And(Shr(And(46 - c, c - 48), 8), 64)
  }

  lemma DecodeCharIs(b: u8, signed: bool)
    ensures DecodeChar(CharOf(b, signed)) == Value64(b)
  {
    hide And, Shr;
    var c := CharOf(b, signed);
    RangeMask(64 - c, c - 91, c - 64);
    RangeMask(96 - c, c - 123, c - 70);
    RangeMask(47 - c, c - 58, c + 5);
    RangeMask(42 - c, c - 44, 63);
    RangeMask(46 - c, c - 48, 64);
  }

  // ----- three bytes, four characters -----

  /** The sextets of three bytes. */
  function Sextets(n: nat): (r: seq<nat>)
    requires n < 0x1000000
    ensures |r| == 4 && forall i :: 0 <= i < 4 ==> r[i] < 64
  {
    [n / 0x40000, n / 0x1000 % 64, n / 64 % 64, n % 64]
  }

  function Bytes24(a: u8, b: u8, c: u8): (n: nat)
    ensures n < 0x1000000
  {
    0x10000 * a as nat + 0x100 * b as nat + c as nat
  }

  /** The array `input` of encode_base64. */
  function Inputs(a: int, b: int, c: int): seq<int> {
    [And(Shr(a, 2), 63), And(Or(Shl(a, 4), Shr(b, 4)), 63), And(Or(Shl(b, 2), Shr(c, 6)), 63), And(c, 63)]
  }

  lemma Low6(x: int)
    ensures And(x, 63) == x % 64
  {
    hide And;
    Pow2Small();
    AndMask(x, 6);
  }

  lemma ShrIs(x: int, n: nat, d: int)
    requires d == Pow2(n)
    ensures Shr(x, n) == x / d
  {
    ShrDiv(x, n);
  }

  lemma OrIs(h: int, n: nat, d: int, l: int)
    requires d == Pow2(n) && 0 <= l < d
    ensures Or(Shl(h, n), l) == h * d + l
  {
    ShlMul(h, n);
    OrDisjoint(h, l, n);
  }

  /** The shifts and masks cut 24 bits into four groups of six. */
  lemma InputsAreSextets(a: u8, b: u8, c: u8)
    ensures var r, n := Inputs(a as int, b as int, c as int), Bytes24(a, b, c);
            |r| == 4 && r[0] == Sextets(n)[0] && r[1] == Sextets(n)[1] && r[2] == Sextets(n)[2] && r[3] == Sextets(n)[3]
  {
    hide And, Shr, Or, Shl;
    var x, y, z := a as int, b as int, c as int;
    Pow2Small();
    ShrIs(x, 2, 4);
    ShrIs(y, 4, 16);
    ShrIs(z, 6, 64);
    OrIs(x, 4, 16, y / 16);
    OrIs(y, 2, 4, z / 64);
    Low6(x / 4);
    Low6(x * 16 + y / 16);
    Low6(y * 4 + z / 64);
    Low6(z);
    SextetSplit(x, y, z);
  }

  lemma Digits64(n: nat, p: nat, q: nat, r: nat, t: nat)
    requires p < 64 && q < 64 && r < 64 && t < 64
    requires n == 0x40000 * p + 0x1000 * q + 64 * r + t
    ensures n / 0x40000 == p && n / 0x1000 % 64 == q && n / 64 % 64 == r && n % 64 == t
  {
    DivModUnique(n, 0x40000, p, 0x1000 * q + 64 * r + t);
    DivModUnique(n, 0x1000, 64 * p + q, 64 * r + t);
    DivModUnique(n, 64, 0x1000 * p + 64 * q + r, t);
    DivModUnique(64 * p + q, 64, p, q);
    DivModUnique(0x1000 * p + 64 * q + r, 64, 64 * p + q, r);
  }

  lemma SextetSplit(x: nat, y: nat, z: nat)
    requires x < 256 && y < 256 && z < 256
    ensures var n := 0x10000 * x + 0x100 * y + z;
            && x / 4 % 64 == n / 0x40000 && (x * 16 + y / 16) % 64 == n / 0x1000 % 64
            && (y * 4 + z / 64) % 64 == n / 64 % 64 && z % 64 == n % 64
  {
    var xh, xl, yh, yl, zh, zl := x / 4, x % 4, y / 16, y % 16, z / 64, z % 64;
    Digits64(0x10000 * x + 0x100 * y + z, xh, 16 * xl + yh, 4 * yl + zh, zl);
    DivModUnique(x * 16 + yh, 64, xh, 16 * xl + yh);
    DivModUnique(y * 4 + zh, 64, yh, 4 * yl + zh);
  }

  function Group(n: nat): (r: seq<u8>)
    requires n < 0x1000000
    ensures |r| == 4
  {
    var q := Sextets(n);
    [Char64(q[0]), Char64(q[1]), Char64(q[2]), Char64(q[3])]
  }

  /** encode_base64 on three bytes. */
  method EncodeBase64(a: u8, b: u8, c: u8) returns (dest: seq<u8>)
    ensures dest == Group(Bytes24(a, b, c))
  {
    hide Inputs, EncodeChar, Char64, Sextets;
    var input := Inputs(a as int, b as int, c as int);
    ghost var q := Sextets(Bytes24(a, b, c));
    InputsAreSextets(a, b, c);
    dest := [];
    var i := 0;
    while i < 4
      invariant 0 <= i <= 4 && |dest| == i
      invariant forall j :: 0 <= j < i ==> dest[j] == Char64(q[j])
    {
      EncodeCharIs(q[i]);
      dest := dest + [EncodeChar(input[i]) as u8];
      i := i + 1;
    }
  }

  // ----- four characters, three bytes -----

  lemma {:induction false} OrSigned(a: int, b: int, n: nat)
    requires 0 <= Pow2(n) + a && a < Pow2(n) && 0 <= Pow2(n) + b && b < Pow2(n)
    ensures 0 <= Pow2(n) + Or(a, b) && Or(a, b) < Pow2(n)
    ensures Or(a, b) < 0 <==> a < 0 || b < 0
    decreases n
  {
    if !(IsSign(a) && IsSign(b)) {
      OrSigned(a / 2, b / 2, n - 1);
      OrStep(a, b);
    }
  }

  /** A conversion to int. */
  function ToInt32(x: nat): int
    requires x < 0x100000000
  {
    if x >= 0x80000000 then x - 0x100000000 else x
  }

  /** `(int)((uint32_t)d << k)`. */
  function Placed(d: int, k: nat): int {
    ToInt32(d % 0x100000000 * Pow2(k) % 0x100000000)
  }

  lemma PlacedIs(d: int, k: nat, p: int)
    requires -1 <= d < 64 && p == Pow2(k) && (p == 1 || p == 64 || p == 0x1000 || p == 0x40000)
    ensures Placed(d, k) == d * p
  {
    if d == -1 {
      DivModUnique(0xffffffff * p, 0x100000000, p - 1, 0x100000000 - p);
    }
  }

  /** The first `i` of four values, each at its place. */
  function OrUpTo(d: seq<int>, i: nat): int
    requires |d| == 4 && i <= 4
  {
    if i == 0 then 0 else Or(OrUpTo(d, i - 1), Placed(d[i - 1], 18 - 6 * (i - 1)))
  }

  /** Four values as one number; negative when one of them is. */
  function Joined4(d: seq<int>): int
    requires |d| == 4
  {
    OrUpTo(d, 4)
  }

  lemma OrUpToIs(d: seq<int>)
    requires |d| == 4
    ensures OrUpTo(d, 4) == Or(Or(Or(Or(0, Placed(d[0], 18)), Placed(d[1], 12)), Placed(d[2], 6)), Placed(d[3], 0))
  {
    hide Or, Placed;
    assert OrUpTo(d, 1) == Or(0, Placed(d[0], 18));
    assert OrUpTo(d, 2) == Or(OrUpTo(d, 1), Placed(d[1], 12));
    assert OrUpTo(d, 3) == Or(OrUpTo(d, 2), Placed(d[2], 6));
    assert OrUpTo(d, 4) == Or(OrUpTo(d, 3), Placed(d[3], 0));
  }

  lemma Pow2Twenty()
    ensures Pow2(18) == 0x40000 && Pow2(12) == 0x1000 && Pow2(6) == 64 && Pow2(0) == 1 && Pow2(24) == 0x1000000
  {
    hide Pow2;
    Pow2Small();
    Pow2Add(16, 2);
    Pow2Add(8, 4);
    Pow2Add(16, 8);
    assert Pow2(0) == 1 by { Pow2Zero(); }
  }

  lemma Pow2Zero()
    ensures Pow2(0) == 1
  {
  }

  lemma OrSum(h: int, n: nat, p: int, l: int)
    requires p == Pow2(n) && 0 <= l < p
    ensures Or(h * p, l) == h * p + l
  {
    OrDisjoint(h, l, n);
  }

  lemma Joined4Is(d: seq<int>)
    requires |d| == 4 && forall i :: 0 <= i < 4 ==> -1 <= d[i] < 64
    ensures -0x1000000 <= Joined4(d) < 0x1000000
    ensures Joined4(d) < 0 <==> d[0] < 0 || d[1] < 0 || d[2] < 0 || d[3] < 0
    ensures Joined4(d) >= 0 ==> Joined4(d) == 0x40000 * d[0] + 0x1000 * d[1] + 64 * d[2] + d[3]
  {
    hide Or, Placed, Pow2, OrUpTo;
    OrUpToIs(d);
    Pow2Twenty();
    PlacedIs(d[0], 18, 0x40000);
    PlacedIs(d[1], 12, 0x1000);
    PlacedIs(d[2], 6, 64);
    PlacedIs(d[3], 0, 1);
    var a, b, c, e := d[0] * 0x40000, d[1] * 0x1000, d[2] * 64, d[3];
    OrZero(a);
    OrSigned(a, b, 24);
    OrSigned(Or(a, b), c, 24);
    OrSigned(Or(Or(a, b), c), e, 24);
    if d[0] >= 0 && d[1] >= 0 && d[2] >= 0 && d[3] >= 0 {
      OrSum(d[0], 18, 0x40000, b);
      assert a + b == (64 * d[0] + d[1]) * 0x1000;
      OrSum(64 * d[0] + d[1], 12, 0x1000, c);
      assert a + b + c == (0x1000 * d[0] + 64 * d[1] + d[2]) * 64;
      OrSum(0x1000 * d[0] + 64 * d[1] + d[2], 6, 64, e);
    }
  }

  /** The value of four characters. */
  function Values4(q: seq<u8>): (d: seq<int>)
    requires |q| == 4
    ensures |d| == 4 && forall i :: 0 <= i < 4 ==> d[i] == Value64(q[i])
  {
    [Value64(q[0]), Value64(q[1]), Value64(q[2]), Value64(q[3])]
  }

  /** decode_base64. */
  method DecodeBase64(src: seq<u8>, signed: bool) returns (val: int)
    requires |src| == 4
    ensures val == Joined4(Values4(src))
  {
    hide Or, Placed, DecodeChar, Value64;
    ghost var d := Values4(src);
    val := 0;
    var i := 0;
    while i < 4
      invariant 0 <= i <= 4 && val == OrUpTo(d, i)
    {
      DecodeCharIs(src[i], signed);
      val := Or(val, Placed(DecodeChar(CharOf(src[i], signed)), 18 - 6 * i));
      i := i + 1;
    }
  }
}

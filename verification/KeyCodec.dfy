/** Keys as text (src/encoding.c): base64 in canonical form, and hexadecimal. */
module KeyCodec {
  import opened Bits
  import opened Machine
  import opened Common
  import opened Base64

  const EQUALS: u8 := 61

  // ----- base64: the reference -----

  /** The 24 bits of group `g`; the eleventh has one byte less. */
  function GroupOf(key: seq<u8>, g: nat): (n: nat)
    requires |key| == KEY_LEN && g <= 10
    ensures n < 0x1000000 && (g == 10 ==> n % 256 == 0)
  {
    Bytes24(key[3 * g], key[3 * g + 1], if g == 10 then 0 else key[3 * g + 2])
  }

  /** Sections 3.5 and 4 of RFC 4648 for 32 bytes: eleven groups, the last with one pad. */
  function Encoded(key: seq<u8>): (s: seq<u8>)
    requires |key| == KEY_LEN
    ensures |s| == 44
  {
    seq(44, i requires 0 <= i < 44 => if i == 43 then EQUALS else Group(GroupOf(key, i / 4))[i % 4])
  }

  /** 43 characters of the alphabet whose two spare bits are zero, and the pad. */
  predicate Canonical(s: seq<u8>) {
    && |s| == 44 && s[43] == EQUALS
    && (forall i :: 0 <= i < 43 ==> Value64(s[i]) >= 0)
    && Value64(s[42]) % 4 == 0
  }

  /** The characters of group `g`; the pad of the last one counts as zero. */
  function Quad(s: seq<u8>, g: nat): (q: seq<u8>)
    requires |s| == 44 && g <= 10
    ensures |q| == 4
  {
    [s[4 * g], s[4 * g + 1], s[4 * g + 2], if g == 10 then 65 else s[4 * g + 3]]
  }

  function Number(q: seq<u8>): (n: int)
    requires |q| == 4
  {
    0x40000 * Value64(q[0]) + 0x1000 * Value64(q[1]) + 64 * Value64(q[2]) + Value64(q[3])
  }

  function Byte3(n: nat, k: nat): (b: u8)
    requires k < 3
  {
    (if k == 0 then n / 0x10000 % 256 else if k == 1 then n / 0x100 % 256 else n % 256) as u8
  }

  lemma CanonicalGroup(s: seq<u8>, g: nat)
    requires Canonical(s) && g <= 10
    ensures 0 <= Number(Quad(s, g)) < 0x1000000
    ensures g == 10 ==> Number(Quad(s, g)) % 256 == 0
  {
    var q := Quad(s, g);
    assert forall i :: 0 <= i < 4 ==> Value64(q[i]) >= 0 by {
      assert q[0] == s[4 * g] && q[1] == s[4 * g + 1] && q[2] == s[4 * g + 2];
    }
    if g == 10 {
      var v := Value64(s[42]);
      assert q[2] == s[42] && Value64(q[3]) == 0;
      assert Number(q) == 256 * (0x400 * Value64(q[0]) + 16 * Value64(q[1]) + v / 4);
    }
  }

  function Decoded(s: seq<u8>): (key: seq<u8>)
    requires Canonical(s)
    ensures |key| == KEY_LEN
  {
    seq(KEY_LEN, j requires 0 <= j < KEY_LEN =>
      CanonicalGroup(s, j / 3);
      Byte3(Number(Quad(s, j / 3)), j % 3))
  }

  // ----- base64: the two directions -----

  lemma SextetsSum(n: nat)
    requires n < 0x1000000
    ensures var q := Sextets(n); n == 0x40000 * q[0] + 0x1000 * q[1] + 64 * q[2] + q[3]
  {
    var q := Sextets(n);
    DivDiv(n, 64, 64);
    DivDiv(n, 0x1000, 64);
  }

  lemma GroupNumber(n: nat)
    requires n < 0x1000000
    ensures Number(Group(n)) == n && forall i :: 0 <= i < 4 ==> Value64(Group(n)[i]) == Sextets(n)[i]
  {
    hide Char64, Value64, Sextets;
    var q := Sextets(n);
    AlphabetInverse(q[0], 0);
    AlphabetInverse(q[1], 0);
    AlphabetInverse(q[2], 0);
    AlphabetInverse(q[3], 0);
    SextetsSum(n);
  }

  lemma BytesBack(a: u8, b: u8, c: u8)
    ensures var n := Bytes24(a, b, c); Byte3(n, 0) == a && Byte3(n, 1) == b && Byte3(n, 2) == c
  {
    var x, y, z := a as int, b as int, c as int;
    var n := 0x10000 * x + 0x100 * y + z;
    DivModUnique(n, 0x10000, x, 0x100 * y + z);
    DivModUnique(n, 0x100, 0x100 * x + y, z);
    DivModUnique(0x100 * x + y, 0x100, x, y);
  }

  lemma EncodedQuad(key: seq<u8>, g: nat)
    requires |key| == KEY_LEN && g <= 10
    ensures var n, q := GroupOf(key, g), Quad(Encoded(key), g);
            && Number(q) == n && q == Group(n)
            && forall i :: 0 <= i < 4 ==> Value64(q[i]) == Sextets(n)[i]
  {
    hide Char64, Value64, Sextets, GroupOf;
    var n, s := GroupOf(key, g), Encoded(key);
    GroupNumber(n);
    assert s[4 * g] == Group(n)[0] && s[4 * g + 1] == Group(n)[1] && s[4 * g + 2] == Group(n)[2];
    if g == 10 {
      LastSextet(n);
    } else {
      assert s[4 * g + 3] == Group(n)[3];
    }
  }

  lemma LastSextet(n: nat)
    requires n < 0x1000000 && n % 256 == 0
    ensures Group(n)[3] == 65 && Sextets(n)[2] % 4 == 0
  {
    var m := n / 256;
    var a, r := m / 16, m % 16;
    DivModUnique(n, 64, 4 * m, 0);
    DivModUnique(4 * m, 64, a, 4 * r);
    DivModUnique(4 * r, 4, r, 0);
  }

  lemma EncodedCanonical(key: seq<u8>)
    requires |key| == KEY_LEN
    ensures Canonical(Encoded(key))
  {
    hide Value64, Sextets, GroupOf, Number, Group;
    var s := Encoded(key);
    forall i | 0 <= i < 43
      ensures Value64(s[i]) >= 0
    {
      EncodedQuad(key, i / 4);
      assert s[i] == Quad(s, i / 4)[i % 4];
    }
    EncodedQuad(key, 10);
    LastSextet(GroupOf(key, 10));
    assert s[42] == Quad(s, 10)[2];
  }

  lemma DecodedAt(key: seq<u8>, j: nat)
    requires |key| == KEY_LEN && j < KEY_LEN && Canonical(Encoded(key))
    ensures Decoded(Encoded(key))[j] == key[j]
  {
    hide Canonical, Number, Quad, Byte3, Encoded, Group, Sextets, Value64;
    var g := j / 3;
    EncodedQuad(key, g);
    BytesBack(key[3 * g], key[3 * g + 1], if g == 10 then 0 else key[3 * g + 2]);
  }

  /** Decoding what was encoded gives the key. */
  lemma KeyRoundTrip(key: seq<u8>)
    requires |key| == KEY_LEN
    ensures Canonical(Encoded(key)) && Decoded(Encoded(key)) == key
  {
    hide Canonical, Decoded, Encoded;
    EncodedCanonical(key);
    forall j | 0 <= j < KEY_LEN
      ensures Decoded(Encoded(key))[j] == key[j]
    {
      DecodedAt(key, j);
    }
  }

  lemma NumberSextets(q: seq<u8>)
    requires |q| == 4 && forall i :: 0 <= i < 4 ==> Value64(q[i]) >= 0
    ensures 0 <= Number(q) < 0x1000000 && Group(Number(q)) == q
  {
    hide Char64, Value64;
    Digits64(Number(q), Value64(q[0]), Value64(q[1]), Value64(q[2]), Value64(q[3]));
    AlphabetInverse(0, q[0]);
    AlphabetInverse(0, q[1]);
    AlphabetInverse(0, q[2]);
    AlphabetInverse(0, q[3]);
  }

  lemma Bytes24Back(n: nat)
    requires n < 0x1000000
    ensures Bytes24(Byte3(n, 0), Byte3(n, 1), Byte3(n, 2)) == n
  {
    var x, y, z := n / 0x10000, n / 256 % 256, n % 256;
    DivDiv(n, 256, 256);
    assert n == 256 * (256 * x + y) + z;
    assert x % 256 == x;
  }

  lemma DecodedGroup(s: seq<u8>, g: nat)
    requires Canonical(s) && g <= 10
    ensures 0 <= Number(Quad(s, g)) < 0x1000000 && GroupOf(Decoded(s), g) == Number(Quad(s, g))
  {
    hide Number, Quad, Byte3, Value64;
    CanonicalGroup(s, g);
    var n := Number(Quad(s, g));
    var key := Decoded(s);
    Bytes24Back(n);
    assert key[3 * g] == Byte3(n, 0) && key[3 * g + 1] == Byte3(n, 1);
    if g == 10 {
      assert Byte3(n, 2) == 0 by { LowByte(n); }
    } else {
      assert key[3 * g + 2] == Byte3(n, 2);
    }
  }

  lemma LowByte(n: nat)
    requires n % 256 == 0
    ensures Byte3(n, 2) == 0
  {
  }

  /** Encoding what was decoded gives the text: there is one text for each key. */
  lemma TextRoundTrip(s: seq<u8>)
    requires Canonical(s)
    ensures Encoded(Decoded(s)) == s
  {
    hide Number, Decoded, GroupOf, Group, Value64;
    forall i | 0 <= i < 43
      ensures Encoded(Decoded(s))[i] == s[i]
    {
      var g := i / 4;
      var q := Quad(s, g);
      assert forall t :: 0 <= t < 4 ==> Value64(q[t]) >= 0 by {
        assert q[0] == s[4 * g] && q[1] == s[4 * g + 1] && q[2] == s[4 * g + 2];
        assert Value64(65) >= 0 by { ValueOfA(); }
      }
      DecodedGroup(s, g);
      NumberSextets(q);
      assert s[i] == q[i % 4];
    }
  }

  lemma ValueOfA()
    ensures Value64(65) == 0
  {
  }

  // ----- base64: the code -----

  method PutGroup(base64: array<u8>, at: nat, a: u8, b: u8, c: u8)
    requires at + 4 <= base64.Length
    modifies base64
    ensures forall j :: 0 <= j < base64.Length ==>
              base64[j] == if at <= j < at + 4 then Group(Bytes24(a, b, c))[j - at] else old(base64[j])
  {
    hide Group;
    var g := EncodeBase64(a, b, c);
    base64[at], base64[at + 1], base64[at + 2], base64[at + 3] := g[0], g[1], g[2], g[3];
  }

  /** key_to_base64. */
  method KeyToBase64(base64: array<u8>, key: seq<u8>)
    requires base64.Length == 45 && |key| == KEY_LEN
    modifies base64
    ensures base64[..44] == Encoded(key) && base64[44] == 0
  {
    hide Group, Bytes24;
    var i := 0;
    while i < 10
      invariant 0 <= i <= 10
      invariant forall j :: 0 <= j < 4 * i ==> base64[j] == Group(GroupOf(key, j / 4))[j % 4]
    {
      PutGroup(base64, 4 * i, key[3 * i], key[3 * i + 1], key[3 * i + 2]);
      i := i + 1;
    }
    PutGroup(base64, 4 * i, key[3 * i], key[3 * i + 1], 0);
    base64[43] := EQUALS;
    base64[44] := 0;
  }

  /** `(uint32_t)val >> 31`. */
  function SignBit(val: int): int {
    val % 0x100000000 / 0x80000000
  }

  lemma SignBitIs(val: int)
    requires -0x1000000 <= val < 0x1000000
    ensures SignBit(val) == if val < 0 then 1 else 0
  {
    if val < 0 {
      DivModUnique(val, 0x100000000, -1, val + 0x100000000);
    }
  }

  lemma {:induction false} OrNone(a: int, b: int)
    requires a >= 0 && b >= 0
    ensures Or(a, b) == 0 <==> a == 0 && b == 0
    decreases Mag(a) + Mag(b)
  {
    if !(IsSign(a) && IsSign(b)) {
      OrNone(a / 2, b / 2);
    }
  }

  /** `ret |= x` on a byte that is zero as long as nothing was wrong. */
  lemma Accumulate(ret: int, x: int)
    requires 0 <= ret < 256 && 0 <= x < 256
    ensures 0 <= Or(ret, x) < 256 && (Or(ret, x) == 0 <==> ret == 0 && x == 0)
  {
    hide Or;
    Pow2Small();
    OrXorRange(ret, x, 8);
    OrNone(ret, x);
  }

  /** `1 & ((ret - 1) >> 8)`: the byte is zero. */
  function IsZero(ret: int): bool {
    And(1, Shr(ret - 1, 8)) == 1
  }

  lemma IsZeroIs(ret: int)
    requires 0 <= ret < 256
    ensures IsZero(ret) <==> ret == 0
  {
    hide And, Shr;
    SignShift(ret - 1);
    AndSigns(1);
  }

  lemma ByteOf(val: int, n: nat, p: int)
    requires p == Pow2(n)
    ensures And(Shr(val, n), 0xff) == val / p % 256
  {
    hide And, Shr;
    ShrDiv(val, n);
    Pow2Small();
    AndMask(val / p, 8);
  }

  /** The bytes of a decoded group. */
  lemma BytesOf(val: int)
    ensures And(Shr(val, 16), 0xff) == val / 0x10000 % 256
    ensures And(Shr(val, 8), 0xff) == val / 0x100 % 256
    ensures And(val, 0xff) == val % 256
  {
    hide And, Shr;
    Pow2Small();
    ByteOf(val, 16, 0x10000);
    ByteOf(val, 8, 0x100);
    AndMask(val, 8);
  }

  /** All four characters are of the alphabet. */
  predicate GoodQuad(q: seq<u8>)
    requires |q| == 4
  {
    Value64(q[0]) >= 0 && Value64(q[1]) >= 0 && Value64(q[2]) >= 0 && Value64(q[3]) >= 0
  }

  /** One group of key_from_base64. */
  method GetGroup(q: seq<u8>, signed: bool) returns (val: int, sign: int)
    requires |q| == 4
    ensures sign == if GoodQuad(q) then 0 else 1
    ensures GoodQuad(q) ==> val == Number(q)
  {
    hide Value64, Joined4;
    val := DecodeBase64(q, signed);
    Joined4Is(Values4(q));
    SignBitIs(val);
    sign := SignBit(val);
  }

  /** Byte `j` of the key, when its group is one. */
  function KeyByte(s: seq<u8>, j: nat): u8
    requires |s| == 44 && j < 33
  {
    var n := Number(Quad(s, j / 3));
    if n >= 0 then Byte3(n, j % 3) else 0
  }

  /** The three bytes of a group, the third only if there is one. */
  method StoreGroup(key: array<u8>, s: seq<u8>, g: nat, val: int)
    requires key.Length == KEY_LEN && |s| == 44 && g <= 10
    modifies key
    ensures forall j :: 0 <= j < KEY_LEN && !(3 * g <= j < 3 * g + 3) ==> key[j] == old(key[j])
    ensures GoodQuad(Quad(s, g)) && val == Number(Quad(s, g)) ==>
              forall j :: 3 * g <= j < 3 * g + 3 && j < KEY_LEN ==> key[j] == KeyByte(s, j)
  {
    hide And, Shr, Quad, Value64;
    BytesOf(val);
    key[3 * g] := And(Shr(val, 16), 0xff) as u8;
    key[3 * g + 1] := And(Shr(val, 8), 0xff) as u8;
    if g < 10 {
      key[3 * g + 2] := And(val, 0xff) as u8;
    }
  }

  /** The ten whole groups. */
  method WholeGroups(key: array<u8>, s: seq<u8>, signed: bool) returns (ret: int)
    requires key.Length == KEY_LEN && |s| == 44
    modifies key
    ensures 0 <= ret < 256
    ensures ret == 0 <==> forall g :: 0 <= g < 10 ==> GoodQuad(Quad(s, g))
    ensures ret == 0 ==> forall j :: 0 <= j < 30 ==> key[j] == KeyByte(s, j)
  {
    hide Or, Number, GoodQuad, KeyByte, Quad;
    ret := 0;
    var i := 0;
    while i < 10
      invariant 0 <= i <= 10 && 0 <= ret < 256
      invariant ret == 0 <==> forall g :: 0 <= g < i ==> GoodQuad(Quad(s, g))
      invariant ret == 0 ==> forall j :: 0 <= j < 3 * i ==> key[j] == KeyByte(s, j)
    {
      QuadIs(s, i);
      var val, sign := GetGroup(s[4 * i..4 * i + 4], signed);
      Accumulate(ret, sign);
      ret := Or(ret, sign);
      StoreGroup(key, s, i, val);
      i := i + 1;
    }
  }

  /** key_from_base64. */
  method KeyFromBase64(key: array<u8>, s: seq<u8>, signed: bool) returns (ok: bool)
    requires key.Length == KEY_LEN
    modifies key
    ensures ok <==> Canonical(s)
    ensures ok ==> key[..] == Decoded(s)
  {
    if |s| != 44 || s[43] != EQUALS {
      return false;
    }
    hide And, Or, Number, GoodQuad, KeyByte, Canonical, IsZero, Quad;
    var ret := WholeGroups(key, s, signed);
    QuadIs(s, 10);
    var val, sign := GetGroup([s[40], s[41], s[42], 65], signed);
    BytesOf(val);
    Accumulate(sign, And(val, 0xff));
    Accumulate(ret, Or(sign, And(val, 0xff)));
    ret := Or(ret, Or(sign, And(val, 0xff)));
    StoreGroup(key, s, 10, val);
    CanonicalIff(s);
    IsZeroIs(ret);
    ok := IsZero(ret);
    if ok {
      DecodedIs(s, key[..]);
    }
  }

  lemma QuadIs(s: seq<u8>, g: nat)
    requires |s| == 44 && g <= 10
    ensures g < 10 ==> s[4 * g..4 * g + 4] == Quad(s, g)
    ensures g == 10 ==> [s[40], s[41], s[42], 65] == Quad(s, 10)
  {
  }

  lemma CanonicalIff(s: seq<u8>)
    requires |s| == 44 && s[43] == EQUALS
    ensures Canonical(s) <==>
            && (forall g :: 0 <= g < 10 ==> GoodQuad(Quad(s, g)))
            && GoodQuad(Quad(s, 10)) && Number(Quad(s, 10)) % 256 == 0
  {
    hide Value64;
    ValueOfA();
    forall g | 0 <= g < 10
      ensures GoodQuad(Quad(s, g)) <==> forall t :: 4 * g <= t < 4 * g + 4 ==> Value64(s[t]) >= 0
    {
    }
    if forall g :: 0 <= g < 10 ==> GoodQuad(Quad(s, g)) {
      forall i | 0 <= i < 40
        ensures Value64(s[i]) >= 0
      {
        assert GoodQuad(Quad(s, i / 4));
      }
    }
    LastQuad(Value64(s[40]), Value64(s[41]), Value64(s[42]));
  }

  lemma LastQuad(a: int, b: int, c: int)
    requires -1 <= a < 64 && -1 <= b < 64 && -1 <= c < 64
    ensures a >= 0 && b >= 0 && c >= 0 ==> ((0x40000 * a + 0x1000 * b + 64 * c) % 256 == 0 <==> c % 4 == 0)
  {
    if a >= 0 && b >= 0 && c >= 0 {
      DivModUnique(0x40000 * a + 0x1000 * b + 64 * c, 256, 0x400 * a + 16 * b + c / 4, 64 * (c % 4));
    }
  }

  lemma DecodedIs(s: seq<u8>, key: seq<u8>)
    requires Canonical(s) && |key| == KEY_LEN
    requires forall j :: 0 <= j < KEY_LEN ==> key[j] == KeyByte(s, j)
    ensures key == Decoded(s)
  {
    hide Byte3, Number, Quad, Value64;
    forall j | 0 <= j < KEY_LEN
      ensures key[j] == Decoded(s)[j]
    {
      CanonicalGroup(s, j / 3);
    }
  }

  // ----- the second reading of base64: is_valid_key -----

  /** `c | 32`. */
  lemma OrBit5(c: int)
    ensures Or(c, 32) == 64 * (c / 64) + 32 + c % 32
  {
    hide Or, Shl, Pow2;
    var h, l := c / 32, c % 32;
    Pow2Small();
    ShlMul(h, 5);
    ShlMul(1, 5);
    ShlMul(Or(h, 1), 5);
    OrHigh(h, l, 1, 5);
    OrStep(h, 1);
    OrZero(h / 2);
    DivDiv(c, 32, 2);
  }

  predicate IsDecimal(c: int) {
    48 <= c <= 57
  }

  predicate IsAlphabet(c: int) {
    97 <= Or(c, 32) <= 122
  }

  lemma IsAlphabetIs(b: u8, signed: bool)
    ensures IsAlphabet(CharOf(b, signed)) <==> 65 <= b <= 90 || 97 <= b <= 122
  {
    hide Or;
    OrBit5(CharOf(b, signed));
  }

  /** The cases of the switch on the last character. */
  predicate IsLast(b: u8) {
    b in {65, 69, 73, 77, 81, 85, 89, 99, 103, 107, 111, 115, 119, 52, 56, 48}
  }

  lemma IsLastIs(b: u8)
    ensures IsLast(b) <==> Value64(b) >= 0 && Value64(b) % 4 == 0
  {
  }

  lemma IsDigit64(b: u8, signed: bool)
    ensures var c := CharOf(b, signed); IsDecimal(c) || IsAlphabet(c) || c == 47 || c == 43 <==> Value64(b) >= 0
  {
    hide IsAlphabet;
    IsAlphabetIs(b, signed);
  }

  /** is_valid_key accepts what key_from_base64 accepts. */
  method IsValidKey(s: seq<u8>, signed: bool) returns (ok: bool)
    ensures ok <==> Canonical(s)
  {
    if |s| != 44 || s[43] != EQUALS {
      return false;
    }
    hide IsAlphabet, Value64, IsLast;
    var i := 0;
    while i < 42
      invariant 0 <= i <= 42 && forall j :: 0 <= j < i ==> Value64(s[j]) >= 0
    {
      IsDigit64(s[i], signed);
      var c := CharOf(s[i], signed);
      if !IsDecimal(c) && !IsAlphabet(c) && c != 47 && c != 43 {
        return false;
      }
      i := i + 1;
    }
    IsLastIs(s[42]);
    return IsLast(s[42]);
  }
}

/** Scalar clamping (src/curve25519.h and the embeddable library do the same two
    byte operations) against the scalar decoding of section 5 of RFC 7748. */
module Clamping {
  import opened Bits
  import opened Machine
  import opened Ladder
  import opened LittleEndian

  /** `b & 248`, on a byte. */
  lemma ClearLow3(b: int)
    requires 0 <= b < 256
    ensures And(b, 248) == b - b % 8
  {
    hide And;
    Pow2Small();
    AndHigh(b / 8, b % 8, 31, 3);
    AndMask(b / 8, 5);
    ShlMul(b / 8, 3);
    ShlMul(31, 3);
    ShlMul(And(b / 8, 31), 3);
  }

  /** `(b & 127) | 64`, on a byte. */
  lemma SetTop(b: int)
    requires 0 <= b < 256
    ensures Or(And(b, 127), 64) == 64 + b % 64
  {
    hide And, Or;
    Pow2Small();
    AndMask(b, 7);
    var c := b % 128;
    OrHigh(c / 64, c % 64, 1, 6);
    ShlMul(c / 64, 6);
    ShlMul(1, 6);
    ShlMul(Or(c / 64, 1), 6);
    OrWithOne(c / 64);
  }

  lemma OrWithOne(a: int)
    requires 0 <= a <= 1
    ensures Or(a, 1) == 1
  {
  }

  method ClampSecret(secret: array<u8>)
    requires secret.Length == 32
    modifies secret
    ensures LE(secret[..]) == ClampedValue(old(secret[..]))
  {
    hide LE;
    ghost var s := secret[..];
    ClearLow3(secret[0] as int);
    SetTop(secret[31] as int);
    secret[0] := And(secret[0] as int, 248) as u8;
    secret[31] := Or(And(secret[31] as int, 127), 64) as u8;
    assert secret[..] == [(s[0] - s[0] % 8)] + s[1..31] + [64 + s[31] % 64];
    ClampedBytes(s);
  }

  ghost function ClampedValue(s: seq<u8>): nat
    requires |s| == 32
  {
    LEBound(s);
    Clamp(LE(s))
  }

  lemma Pow2Top()
    ensures Pow2(248) == 0x100000000000000000000000000000000000000000000000000000000000000
    ensures Pow2(254) == 0x4000000000000000000000000000000000000000000000000000000000000000
  {
    hide Pow2;
    Pow2Small();
    Pow2Large();
    Pow2Add(64, 64);
    assert Pow2(128) == 0x1_0000_0000_0000_0000_0000_0000_0000_0000;
    Pow2Add(128, 64);
    assert Pow2(192) == 0x1000000000000000000000000000000000000000000000000;
    Pow2Add(192, 48);
    Pow2Add(240, 8);
    Pow2Add(248, 6);
  }

  lemma ClampedBytes(s: seq<u8>)
    requires |s| == 32
    ensures LE([s[0] - s[0] % 8] + s[1..31] + [64 + s[31] % 64]) == ClampedValue(s)
  {
    var mid := s[1..31];
    var t := [s[0] - s[0] % 8] + mid + [64 + s[31] % 64];
    assert s == [s[0]] + mid + [s[31]];
    Split(s[0], mid, s[31]);
    Split(s[0] - s[0] % 8, mid, 64 + s[31] % 64);
    LEBound(mid);
    Pow2Small();
    Pow2Add(8, 240);
    Pow2Top();
    ClampArithmetic(s[0] as int, LE(mid), s[31] as int, Pow2(240));
  }

  lemma Split(first: u8, mid: seq<u8>, last: u8)
    requires |mid| == 30
    ensures LE([first] + mid + [last]) == first as int + 256 * LE(mid) + Pow2(248) * last as int
  {
    LEAppend([first], mid);
    LEAppend([first] + mid, [last]);
    Pow2Small();
    assert LE([first]) == first as int && LE([last]) == last as int;
  }

  lemma ClampArithmetic(a: int, m: int, z: int, w: int)
    requires 0 <= a < 256 && 0 <= m < w && 0 <= z < 256
    requires 256 * w == 0x100000000000000000000000000000000000000000000000000000000000000
    ensures var k := a + 256 * m + (256 * w) * z;
            var low := k % 0x4000000000000000000000000000000000000000000000000000000000000000;
            && (256 * w) * z >= 0
            && (a - a % 8) + 256 * m + (256 * w) * (64 + z % 64)
               == 0x4000000000000000000000000000000000000000000000000000000000000000 + (low - low % 8)
  {
    var k := a + 256 * m + 0x100000000000000000000000000000000000000000000000000000000000000 * z;
    var low := a + 256 * m + 0x100000000000000000000000000000000000000000000000000000000000000 * (z % 64);
    DivModUnique(k, 0x4000000000000000000000000000000000000000000000000000000000000000, z / 64, low);
    assert low % 8 == a % 8;
  }

  /** A clamped scalar has bit 255 clear and bit 254 set. */
  lemma ClampedBits(k: nat)
    requires k < Pow2(256)
    ensures !Bit(Clamp(k), 255) && Bit(Clamp(k), 254)
  {
    hide Shr, Pow2;
    Pow2Top();
    Pow2Small();
    Pow2Add(254, 1);
    var c := Clamp(k);
    ShrDiv(c, 254);
    ShrDiv(c, 255);
  }
}

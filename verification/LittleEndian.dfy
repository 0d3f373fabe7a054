/** Little-endian byte strings and their bits. */
module LittleEndian {
  import opened Bits
  import opened Machine
  import opened Ladder

  /** The number written by bytes, least significant first. */
  function LE(s: seq<u8>): nat {
    if s == [] then 0 else s[0] as nat + 256 * LE(s[1..])
  }

  lemma {:induction false} LEBound(s: seq<u8>)
    ensures LE(s) < Pow2(8 * |s|)
  {
    if s != [] {
      LEBound(s[1..]);
      Pow2Small();
      Pow2Add(8, 8 * (|s| - 1));
    }
  }

  lemma {:induction false} LEAppend(s: seq<u8>, t: seq<u8>)
    ensures LE(s + t) == LE(s) + Pow2(8 * |s|) * LE(t)
  {
    if s == [] {
      assert s + t == t;
    } else {
      LEAppend(s[1..], t);
      assert (s + t)[1..] == s[1..] + t;
      Pow2Small();
      Pow2Add(8, 8 * (|s| - 1));
      var p := Pow2(8 * (|s| - 1));
      assert 256 * (p * LE(t)) == (256 * p) * LE(t);
    }
  }

  /** The n low bytes of a number, least significant first. */
  function LEBytes(v: nat, n: nat): (s: seq<u8>)
    ensures |s| == n
    decreases n
  {
    if n == 0 then [] else [(v % 256) as u8] + LEBytes(v / 256, n - 1)
  }

  lemma {:induction false} LEOfBytes(v: nat, n: nat)
    requires v < Pow2(8 * n)
    ensures LE(LEBytes(v, n)) == v
    decreases n
  {
    if n != 0 {
      Pow2Small();
      Pow2Add(8, 8 * (n - 1));
      LEOfBytes(v / 256, n - 1);
    }
  }

  lemma {:induction false} ShrAdd(a: int, m: nat, n: nat)
    ensures Shr(a, m + n) == Shr(Shr(a, m), n)
    decreases m
  {
    if m != 0 {
      ShrAdd(a / 2, m - 1, n);
    }
  }

  lemma ShrByte(b: int, h: int)
    requires 0 <= b < 256
    ensures Shr(b + 256 * h, 8) == h
  {
    ShrDiv(b + 256 * h, 8);
    Pow2Small();
  }

  /** Low bits of a number do not depend on what is added above them. */
  lemma {:induction false} LowBits(b: int, h: int, n: nat, t: nat)
    requires t < n
    ensures Shr(b + Pow2(n) * h, t) % 2 == Shr(b, t) % 2
    decreases t
  {
    var a := b + Pow2(n) * h;
    assert a == b + 2 * (Pow2(n - 1) * h);
    if t != 0 {
      assert a / 2 == b / 2 + Pow2(n - 1) * h;
      LowBits(b / 2, h, n - 1, t - 1);
    }
  }

  /** Bit 8 i + t of the number is bit t of byte i. */
  lemma {:induction false} BitOfBytes(s: seq<u8>, i: nat, t: nat)
    requires i < |s| && t < 8
    ensures Bit(LE(s), 8 * i + t) == Bit(s[i] as nat, t)
  {
    if i == 0 {
      Pow2Small();
      LowBits(s[0] as int, LE(s[1..]), 8, t);
    } else {
      BitOfBytes(s[1..], i - 1, t);
      ShrByte(s[0] as int, LE(s[1..]));
      ShrAdd(LE(s), 8, 8 * (i - 1) + t);
    }
  }

  /** A byte shifted left r places, within the byte. */
  function Shl8(x: nat, r: nat): nat
    decreases r
  {
    if r == 0 then x else (2 * Shl8(x, r - 1)) % 256
  }

  lemma ShiftBit(x: nat, t: nat)
    requires x < 256 && t < 7
    ensures Bit((2 * x) % 256, t + 1) == Bit(x, t)
  {
    var l, h := x % 128, x / 128;
    assert (2 * x) % 256 == 2 * l;
    assert Shr(2 * l, t + 1) == Shr(l, t);
    Pow2Small();
    LowBits(l, h, 7, t);
  }

  lemma {:induction false} BitOfShl8(x: nat, r: nat, t: nat)
    requires x < 256 && r + t < 8
    ensures Shl8(x, r) < 256
    ensures Bit(Shl8(x, r), r + t) == Bit(x, t)
    decreases r
  {
    if r != 0 {
      BitOfShl8(x, r - 1, t);
      ShiftBit(Shl8(x, r - 1), r - 1 + t);
    }
  }

  /** After r left shifts the top bit of the byte is its former bit 7 - r. */
  lemma ByteTopBit(x: nat, r: nat)
    requires x < 256 && r < 8
    ensures Shl8(x, r) < 256
    ensures Shl8(x, r) / 128 == (if Bit(x, 7 - r) then 1 else 0)
  {
    BitOfShl8(x, r, 7 - r);
    ShrDiv(Shl8(x, r), 7);
    Pow2Small();
  }

  /** Bit i of a scalar, as the ladders pick it: `(z[i / 8] >> (i % 8)) & 1`. */
  function ScalarBit(z: seq<u8>, i: nat): (r: int)
    requires |z| == 32 && i < 256
    ensures r == (if Bit(LE(z), i) then 1 else 0)
  {
    BitOfBytes(z, i / 8, i % 8);
    LowBit(Shr(z[i / 8] as int, i % 8));
    And(Shr(z[i / 8] as int, i % 8), 1)
  }

  lemma LowBit(x: int)
    ensures And(x, 1) == x % 2
  {
    hide And;
    Pow2Small();
    AndMask(x, 1);
  }
}

/** The branchless hexadecimal of src/encoding.c.  `uint8_t` and `unsigned` wrap
    around on purpose here, and every such place says so. */
module HexCodec {
  import opened Bits
  import opened Machine
  import opened Common
  import opened KeyCodec

  // ----- the reference -----

  function HexDigit(v: nat): (b: u8)
    requires v < 16
  {
    if v < 10 then (48 + v) as u8 else (97 + v - 10) as u8
  }

  /** The value of a digit of either case, or -1. */
  function HexValue(b: u8): (v: int)
    ensures -1 <= v < 16
  {
    if 48 <= b <= 57 then b as int - 48
    else if 65 <= b <= 70 then b as int - 65 + 10
    else if 97 <= b <= 102 then b as int - 97 + 10
    else -1
  }

  function HexEncoded(key: seq<u8>): (s: seq<u8>)
    requires |key| == KEY_LEN
    ensures |s| == 64
  {
    seq(64, i requires 0 <= i < 64 => HexDigit(if i % 2 == 0 then key[i / 2] as nat / 16 else key[i / 2] as nat % 16))
  }

  /** 64 digits of either case. */
  predicate IsHex(s: seq<u8>) {
    |s| == 64 && forall i :: 0 <= i < 64 ==> HexValue(s[i]) >= 0
  }

  function HexDecoded(s: seq<u8>): (key: seq<u8>)
    requires IsHex(s)
    ensures |key| == KEY_LEN
  {
    seq(KEY_LEN, i requires 0 <= i < KEY_LEN => (16 * HexValue(s[2 * i]) + HexValue(s[2 * i + 1])) as u8)
  }

  function Lower(b: u8): u8 {
    if 65 <= b <= 90 then b + 32 else b
  }

  /** Decoding undoes encoding. */
  lemma HexRoundTrip(key: seq<u8>)
    requires |key| == KEY_LEN
    ensures IsHex(HexEncoded(key)) && HexDecoded(HexEncoded(key)) == key
  {
    var s := HexEncoded(key);
    forall i | 0 <= i < KEY_LEN
      ensures HexDecoded(s)[i] == key[i]
    {
      assert s[2 * i] == HexDigit(key[i] as nat / 16) && s[2 * i + 1] == HexDigit(key[i] as nat % 16);
    }
  }

  /** Encoding undoes decoding, up to the case of the letters. */
  lemma HexTextRoundTrip(s: seq<u8>)
    requires IsHex(s)
    ensures HexEncoded(HexDecoded(s)) == seq(64, i requires 0 <= i < 64 => Lower(s[i]))
  {
    var key := HexDecoded(s);
    forall i | 0 <= i < 64
      ensures HexEncoded(key)[i] == Lower(s[i])
    {
      var g := i / 2;
      var a, b := HexValue(s[2 * g]), HexValue(s[2 * g + 1]);
      assert key[g] as int == 16 * a + b;
      DivModUnique(16 * a + b, 16, a, b);
      assert s[i] == if i % 2 == 0 then s[2 * g] else s[2 * g + 1];
    }
  }

  // ----- one digit out -----

  /** Unsigned subtraction. */
  function Minus(a: int, b: int): (r: nat)
    ensures r < 0x100000000
  {
    (a - b) % 0x100000000
  }

  /** `(char)(87U + x + (((x - 10U) >> 8) & ~38U))`. */
  function EncodeNibble(x: nat): nat {
    (87 + x + And(Minus(x, 10) / 256, 0xffffffd9)) % 0x100000000 % 256
  }

  lemma EncodeNibbleIs(x: nat)
    requires x < 16
    ensures EncodeNibble(x) == HexDigit(x) as nat
  {
    hide And, Pow2;
    if x < 10 {
      DivModUnique(x - 10, 0x100000000, -1, x - 10 + 0x100000000);
      DivModUnique(Minus(x, 10), 256, 0xffffff, x + 246);
      Pow2TwentyFour();
      AndComm(0xffffff, 0xffffffd9);
      AndMask(0xffffffd9, 24);
      DivModUnique(87 + x + 0xffffd9, 256, 0x10000, 48 + x);
    } else {
      DivModUnique(x - 10, 256, 0, x - 10);
      AndSigns(0xffffffd9);
    }
  }

  lemma Pow2TwentyFour()
    ensures Pow2(24) == 0x1000000
  {
    hide Pow2;
    Pow2Small();
    Pow2Add(16, 8);
  }

  // ----- one digit in -----

  /** `c ^ 48`. */
  lemma XorDigit(c: nat)
    requires c < 256
    ensures var x := Xor(c, 48);
            && 0 <= x < 256 && (x < 10 <==> 48 <= c <= 57) && (x < 10 ==> x == c - 48)
  {
    hide Xor, Shl, Pow2;
    var h, l := c / 16, c % 16;
    Pow2Small();
    ShlMul(h, 4);
    ShlMul(3, 4);
    ShlMul(Xor(h, 3), 4);
    XorHigh(h, l, 3, 4);
    XorThree(h);
  }

  lemma XorThree(h: nat)
    requires h < 16
    ensures Xor(h, 3) == 4 * (h / 4) + 3 - h % 4
  {
    hide Xor;
    XorStep(h, 3);
    XorStep(h / 2, 1);
    XorZero(h / 2 / 2);
  }

  /** `c & ~32U`. */
  lemma AndUpper(c: nat)
    requires c < 256
    ensures And(c, 0xffffffdf) == if 32 <= c % 64 then c - 32 else c
  {
    hide And, Shl, Pow2;
    var h, l := c / 32, c % 32;
    Pow2Small();
    ShlMul(h, 5);
    ShlMul(0x7fffffe, 5);
    ShlMul(And(h, 0x7fffffe), 5);
    AndOnes(h, l, 0x7fffffe, 5);
    AndStep(h, 0x7fffffe);
    AndFull(h / 2);
  }

  lemma AndFull(a: nat)
    requires a < 256
    ensures And(a, 0x3ffffff) == a
  {
    hide And, Pow2;
    Pow2Small();
    Pow2Add(16, 8);
    Pow2Add(24, 2);
    AndMask(a, 26);
  }

  /** The byte `(x - 10U) >> 8`. */
  function NumMask(x: nat): nat {
    Minus(x, 10) / 256 % 256
  }

  lemma NumMaskIs(x: nat)
    requires x < 256
    ensures NumMask(x) == if x < 10 then 255 else 0
  {
    if x < 10 {
      DivModUnique(x - 10, 0x100000000, -1, x - 10 + 0x100000000);
      DivModUnique(x - 10 + 0x100000000, 256, 0xffffff, x + 246);
    }
  }

  /** The byte `((x - 10U) ^ (x - 16U)) >> 8`. */
  function AlphaMask(x: nat): nat {
    Xor(Minus(x, 10), Minus(x, 16)) / 256 % 256
  }

  lemma MinusHigh(x: nat, k: nat)
    requires x < 256 && k <= 16
    ensures Minus(x, k) / 256 == if x < k then 0xffffff else 0
  {
    if x < k {
      DivModUnique(x - k, 0x100000000, -1, x - k + 0x100000000);
      DivModUnique(x - k + 0x100000000, 256, 0xffffff, x - k + 256);
    }
  }

  lemma AlphaMaskIs(x: nat)
    requires x < 256
    ensures AlphaMask(x) == if 10 <= x < 16 then 255 else 0
  {
    hide Xor, Shr;
    var a, b := Minus(x, 10), Minus(x, 16);
    MinusHigh(x, 10);
    MinusHigh(x, 16);
    Pow2Small();
    XorShr(a, b, 8);
    ShrDiv(a, 8);
    ShrDiv(b, 8);
    ShrDiv(Xor(a, b), 8);
    XorZero(0xffffff);
    XorEqual(0xffffff, 0xffffff);
    XorEqual(0, 0);
  }

  /** One digit: its value, and 255 when it is none. */
  method GetNibble(c: u8) returns (val: int, bad: int)
    ensures bad == if HexValue(c) >= 0 then 0 else 255
    ensures 0 <= val < 256 && (HexValue(c) >= 0 ==> val == HexValue(c))
  {
    hide Xor, And, Or, Shr, NumMask, AlphaMask, Minus;
    XorDigit(c as nat);
    var num := Xor(c as int, 48);
    NumMaskIs(num);
    var num0 := NumMask(num);
    AndUpper(c as nat);
    var alpha := (And(c as int, 0xffffffdf) - 55) % 256;
    AlphaMaskIs(alpha);
    var alpha0 := AlphaMask(alpha);
    AlphaIs(c as nat);
    Masks(num0, num);
    Masks(alpha0, alpha);
    Selected(num0, alpha0);
    bad := Shr(Or(num0, alpha0) - 1, 8) % 256;
    OrZero(And(num0, num));
    OrZero(And(alpha0, alpha));
    val := Or(And(num0, num), And(alpha0, alpha));
  }

  /** When the letter mask selects. */
  lemma AlphaIs(c: nat)
    requires c < 256
    ensures var u := if 32 <= c % 64 then c - 32 else c;
            var x := (u - 55) % 256;
            && (10 <= x < 16 <==> 65 <= c <= 70 || 97 <= c <= 102)
            && (10 <= x < 16 ==> x == u - 55)
  {
  }

  lemma Masks(m: int, x: int)
    requires (m == 0 || m == 255) && 0 <= x < 256
    ensures And(m, x) == if m == 255 then x else 0
  {
    hide And;
    if m == 255 {
      Pow2Small();
      AndComm(255, x);
      AndMask(x, 8);
    } else {
      AndSigns(x);
    }
  }

  /** `((a | b) - 1) >> 8` as a byte. */
  lemma Selected(a: int, b: int)
    requires (a == 0 || a == 255) && (b == 0 || b == 255) && (a == 0 || b == 0)
    ensures Shr(Or(a, b) - 1, 8) % 256 == if a == 0 && b == 0 then 255 else 0
  {
    hide Or, Shr;
    OrZero(a);
    OrZero(b);
    Pow2Small();
    ShrDiv(Or(a, b) - 1, 8);
  }

  // ----- keys -----

  /** key_to_hex. */
  method KeyToHex(hex: array<u8>, key: seq<u8>)
    requires hex.Length == 65 && |key| == KEY_LEN
    modifies hex
    ensures hex[..64] == HexEncoded(key) && hex[64] == 0
  {
    hide And, Shr, EncodeNibble, HexDigit;
    var i := 0;
    while i < KEY_LEN
      invariant 0 <= i <= KEY_LEN
      invariant forall j :: 0 <= j < 2 * i ==>
                  hex[j] == HexDigit(if j % 2 == 0 then key[j / 2] as nat / 16 else key[j / 2] as nat % 16)
    {
      var b := key[i] as int;
      Nibbles(key[i]);
      EncodeNibbleIs(b / 16);
      EncodeNibbleIs(b % 16);
      hex[2 * i] := EncodeNibble(Shr(b, 4)) as u8;
      hex[2 * i + 1] := EncodeNibble(And(b, 0xf)) as u8;
      i := i + 1;
    }
    hex[64] := 0;
  }

  lemma Nibbles(b: u8)
    ensures Shr(b as int, 4) == b as int / 16 && And(b as int, 0xf) == b as int % 16
  {
    hide And, Shr;
    Pow2Small();
    ShrDiv(b as int, 4);
    AndMask(b as int, 4);
  }

  /** `c_acc | c_val` with `c_acc = c_val * 16U` truncated to a byte. */
  lemma TwoNibbles(hi: int, lo: int)
    requires 0 <= hi < 256 && 0 <= lo < 256
    ensures 0 <= Or(hi * 16 % 256, lo) < 256
    ensures hi < 16 && lo < 16 ==> Or(hi * 16 % 256, lo) == 16 * hi + lo
  {
    hide Or, Pow2;
    Pow2Small();
    var a := hi * 16 % 256;
    OrXorRange(a, lo, 8);
    if hi < 16 && lo < 16 {
      DivModUnique(hi * 16, 256, 0, hi * 16);
      OrDisjoint(hi, lo, 4);
    }
  }

  /** key_from_hex. */
  method KeyFromHex(key: array<u8>, s: seq<u8>) returns (ok: bool)
    requires key.Length == KEY_LEN
    modifies key
    ensures ok <==> IsHex(s)
    ensures ok ==> key[..] == HexDecoded(s)
  {
    if |s| != 64 {
      return false;
    }
    hide Or, HexValue, IsZero;
    var ret := 0;
    var i := 0;
    while i < 32
      invariant 0 <= i <= 32 && 0 <= ret < 256
      invariant ret == 0 <==> forall j :: 0 <= j < 2 * i ==> HexValue(s[j]) >= 0
      invariant ret == 0 ==> forall j :: 0 <= j < i ==> key[j] as int == 16 * HexValue(s[2 * j]) + HexValue(s[2 * j + 1])
    {
      var hi, bad := GetNibble(s[2 * i]);
      Accumulate(ret, bad);
      ret := Or(ret, bad);
      var lo, bad' := GetNibble(s[2 * i + 1]);
      Accumulate(ret, bad');
      ret := Or(ret, bad');
      TwoNibbles(hi, lo);
      key[i] := Or(hi * 16 % 256, lo) as u8;
      i := i + 1;
    }
    IsZeroIs(ret);
    ok := IsZero(ret);
  }
}

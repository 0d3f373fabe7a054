/** Bitwise operators of C on mathematical integers.

    `And`, `Or` and `Xor` read their arguments as infinite two's-complement bit
    strings, so they agree with the C operators on every operand width; a
    machine type then only has to say where a result is truncated.  `Shr` is the
    (arithmetic) right shift. */
module Bits {

  function Pow2(n: nat): (r: nat)
    ensures r > 0
  {
    if n == 0 then 1 else 2 * Pow2(n - 1)
  }

  /** Number of halvings, up to a constant, before `a` becomes 0 or -1. */
  function Mag(a: int): nat {
    if a >= 0 then a else -a - 1
  }

  predicate IsSign(a: int) {
    a == 0 || a == -1
  }

  function And(a: int, b: int): int
    decreases Mag(a) + Mag(b)
  {
    if IsSign(a) && IsSign(b) then (if a == -1 && b == -1 then -1 else 0)
    else 2 * And(a / 2, b / 2) + (if a % 2 == 1 && b % 2 == 1 then 1 else 0)
  }

  function Or(a: int, b: int): int
    decreases Mag(a) + Mag(b)
  {
    if IsSign(a) && IsSign(b) then (if a == -1 || b == -1 then -1 else 0)
    else 2 * Or(a / 2, b / 2) + (if a % 2 == 1 || b % 2 == 1 then 1 else 0)
  }

  function Xor(a: int, b: int): int
    decreases Mag(a) + Mag(b)
  {
    if IsSign(a) && IsSign(b) then (if a == b then 0 else -1)
    else 2 * Xor(a / 2, b / 2) + (if a % 2 == b % 2 then 0 else 1)
  }

  /** Arithmetic right shift. */
  function Shr(a: int, n: nat): int
    decreases n
  {
    if n == 0 then a else Shr(a / 2, n - 1)
  }

  lemma {:induction false} Pow2Add(m: nat, n: nat)
    ensures Pow2(m + n) == Pow2(m) * Pow2(n)
  {
    if m != 0 {
      Pow2Add(m - 1, n);
      assert Pow2(m + n) == 2 * (Pow2(m - 1) * Pow2(n));
    }
  }

  /** Values of the exponents that occur in the program. */
  lemma Pow2Small()
    ensures Pow2(1) == 2 && Pow2(2) == 4 && Pow2(3) == 8 && Pow2(4) == 16
    ensures Pow2(5) == 32 && Pow2(6) == 64 && Pow2(7) == 128 && Pow2(8) == 256
    ensures Pow2(16) == 0x10000
  {
    assert Pow2(1) == 2;
    assert Pow2(2) == 4;
    assert Pow2(3) == 8;
    assert Pow2(4) == 16;
    assert Pow2(5) == 32;
    assert Pow2(6) == 64;
    assert Pow2(7) == 128;
    assert Pow2(8) == 256;
    Pow2Add(8, 8);
  }

  lemma Pow2Large()
    ensures Pow2(32) == 0x1_0000_0000
    ensures Pow2(48) == 0x1_0000_0000_0000
    ensures Pow2(51) == 0x8000000000000
    ensures Pow2(63) == 0x8000_0000_0000_0000
    ensures Pow2(64) == 0x1_0000_0000_0000_0000
  {
    Pow2Small();
    Pow2Add(16, 16);
    Pow2Add(32, 16);
    Pow2Add(48, 3);
    Pow2Add(48, 8);
    Pow2Add(56, 7);
    Pow2Add(56, 8);
  }

  /** Splitting one low bit off a division by a power of two. */
  lemma HalfDiv(a: int, n: nat)
    ensures Pow2(n + 1) == 2 * Pow2(n)
    ensures (a / 2) / Pow2(n) == a / Pow2(n + 1)
    ensures a % Pow2(n + 1) == 2 * ((a / 2) % Pow2(n)) + a % 2
  {
    var p := Pow2(n);
    var h := a / 2;
    var q, r := h / p, h % p;
    assert h == p * q + r;
    var r' := 2 * r + a % 2;
    assert a == 2 * h + a % 2;
    assert a == (2 * p) * q + r' by {
      assert 2 * (p * q) == (2 * p) * q;
    }
    DivModUnique(a, 2 * p, q, r');
  }

  lemma MulAtLeast(m: int, d: int)
    requires 0 < m && 1 <= d
    ensures m * d >= m
  {
    assert m * (d - 1) >= 0;
  }

  /** Quotient and remainder are determined by the usual equation. */
  lemma DivModUnique(a: int, m: int, q: int, r: int)
    requires 0 < m && a == m * q + r && 0 <= r < m
    ensures a / m == q && a % m == r
  {
    var q', r' := a / m, a % m;
    assert m * (q - q') == r' - r;
    if q > q' {
      MulAtLeast(m, q - q');
    } else if q < q' {
      assert m * (q' - q) == r - r';
      MulAtLeast(m, q' - q);
    }
  }

  lemma NestedDivision(a: int, b: int, t: int, v: int, r: int)
    requires 0 <= v < b && 0 <= r < a
    ensures a * b > 0
    ensures a * (b * t + v) + r == (a * b) * t + (a * v + r)
    ensures 0 <= a * v + r < a * b
  {
    assert a * v <= a * (b - 1) == a * b - a;
  }

  /** Dividing twice divides by the product. */
  lemma DivDiv(n: int, a: int, b: int)
    requires a > 0 && b > 0
    ensures a * b > 0 && (n / a) / b == n / (a * b)
  {
    var q, r := n / a, n % a;
    var t, v := q / b, q % b;
    NestedDivision(a, b, t, v, r);
    DivModUnique(n, a * b, t, a * v + r);
  }

  lemma ProductBound(x: int, y: int, m: int, n: int)
    requires 0 <= x <= m && 0 <= y <= n
    ensures 0 <= x * y <= m * n
  {
    assert x * y <= m * y <= m * n;
  }

  lemma IntCommute(a: int, b: int)
    ensures a * b == b * a
  {
  }

  // ----- sizes -----

  lemma {:induction false} AndNat(a: int, b: int)
    requires a >= 0 || b >= 0
    ensures And(a, b) >= 0
    ensures a >= 0 ==> And(a, b) <= a
    ensures b >= 0 ==> And(a, b) <= b
    decreases Mag(a) + Mag(b)
  {
    if !(IsSign(a) && IsSign(b)) {
      AndNat(a / 2, b / 2);
    }
  }

  lemma {:induction false} OrXorRange(a: int, b: int, n: nat)
    requires 0 <= a < Pow2(n) && 0 <= b < Pow2(n)
    ensures 0 <= Or(a, b) < Pow2(n) && 0 <= Xor(a, b) < Pow2(n)
    decreases n
  {
    if !(IsSign(a) && IsSign(b)) {
      OrXorRange(a / 2, b / 2, n - 1);
    }
  }

  // ----- algebra -----

  lemma {:induction false} AndSigns(a: int)
    ensures And(0, a) == 0 == And(a, 0)
    ensures And(-1, a) == a == And(a, -1)
    decreases Mag(a)
  {
    if !IsSign(a) {
      AndSigns(a / 2);
    }
  }

  lemma {:induction false} XorZero(a: int)
    ensures Xor(0, a) == a == Xor(a, 0)
    decreases Mag(a)
  {
    if !IsSign(a) {
      XorZero(a / 2);
    }
  }

  lemma {:induction false} OrZero(a: int)
    ensures Or(0, a) == a == Or(a, 0)
    decreases Mag(a)
  {
    if !IsSign(a) {
      OrZero(a / 2);
    }
  }

  lemma {:induction false} AndComm(a: int, b: int)
    ensures And(a, b) == And(b, a)
    decreases Mag(a) + Mag(b)
  {
    if !(IsSign(a) && IsSign(b)) {
      AndComm(a / 2, b / 2);
    }
  }

  lemma {:induction false} OrComm(a: int, b: int)
    ensures Or(a, b) == Or(b, a)
    decreases Mag(a) + Mag(b)
  {
    if !(IsSign(a) && IsSign(b)) {
      OrComm(a / 2, b / 2);
    }
  }

  /** Exchanging two words through their difference, the heart of every
      constant-time swap in the program. */
  lemma {:induction false} XorSwap(a: int, b: int)
    ensures Xor(a, Xor(a, b)) == b
    ensures Xor(b, Xor(a, b)) == a
    decreases Mag(a) + Mag(b)
  {
    if !(IsSign(a) && IsSign(b)) {
      XorSwap(a / 2, b / 2);
      var x := Xor(a, b);
      assert x / 2 == Xor(a / 2, b / 2);
      assert Xor(a, x) == 2 * Xor(a / 2, x / 2) + (if a % 2 == x % 2 then 0 else 1) by { XorStep(a, x); }
      assert Xor(b, x) == 2 * Xor(b / 2, x / 2) + (if b % 2 == x % 2 then 0 else 1) by { XorStep(b, x); }
    }
  }

  /** The recursive equation holds for the base cases too. */
  lemma XorStep(a: int, b: int)
    ensures Xor(a, b) == 2 * Xor(a / 2, b / 2) + (if a % 2 == b % 2 then 0 else 1)
  {
  }

  lemma AndStep(a: int, b: int)
    ensures And(a, b) == 2 * And(a / 2, b / 2) + (if a % 2 == 1 && b % 2 == 1 then 1 else 0)
  {
  }

  lemma OrStep(a: int, b: int)
    ensures Or(a, b) == 2 * Or(a / 2, b / 2) + (if a % 2 == 1 || b % 2 == 1 then 1 else 0)
  {
  }

  lemma {:induction false} XorEqual(a: int, b: int)
    ensures Xor(a, b) == 0 <==> a == b
    decreases Mag(a) + Mag(b)
  {
    if !(IsSign(a) && IsSign(b)) {
      XorEqual(a / 2, b / 2);
    }
  }

  // ----- shifts -----

  /** Shifting right divides by a power of two, rounding down. */
  lemma {:induction false} ShrDiv(a: int, n: nat)
    ensures Shr(a, n) == a / Pow2(n)
    decreases n
  {
    if n != 0 {
      ShrDiv(a / 2, n - 1);
      HalfDiv(a, n - 1);
    }
  }

  /** Bitwise operators commute with the right shift. */
  lemma {:induction false} AndShr(a: int, b: int, n: nat)
    ensures Shr(And(a, b), n) == And(Shr(a, n), Shr(b, n))
    decreases n
  {
    if n != 0 {
      AndShr(a / 2, b / 2, n - 1);
      AndStep(a, b);
      assert And(a, b) / 2 == And(a / 2, b / 2);
    }
  }

  lemma {:induction false} OrShr(a: int, b: int, n: nat)
    ensures Shr(Or(a, b), n) == Or(Shr(a, n), Shr(b, n))
    decreases n
  {
    if n != 0 {
      OrShr(a / 2, b / 2, n - 1);
      OrStep(a, b);
      assert Or(a, b) / 2 == Or(a / 2, b / 2);
    }
  }

  lemma {:induction false} XorShr(a: int, b: int, n: nat)
    ensures Shr(Xor(a, b), n) == Xor(Shr(a, n), Shr(b, n))
    decreases n
  {
    if n != 0 {
      XorShr(a / 2, b / 2, n - 1);
      XorStep(a, b);
      assert Xor(a, b) / 2 == Xor(a / 2, b / 2);
    }
  }

  /** The low `n` bits of `a`. */
  function Low(a: int, n: nat): nat
    decreases n
  {
    if n == 0 then 0 else 2 * Low(a / 2, n - 1) + a % 2
  }

  lemma {:induction false} LowMod(a: int, n: nat)
    ensures Low(a, n) == a % Pow2(n)
    decreases n
  {
    if n != 0 {
      LowMod(a / 2, n - 1);
      HalfDiv(a, n - 1);
    }
  }

  lemma {:induction false} AndLow(a: int, n: nat)
    ensures And(a, Pow2(n) - 1) == Low(a, n)
    decreases n
  {
    if n == 0 {
      AndSigns(a);
    } else {
      AndLow(a / 2, n - 1);
      AndStep(a, Pow2(n) - 1);
    }
  }

  /** `a & (2^n - 1)` keeps the low `n` bits. */
  lemma AndMask(a: int, n: nat)
    ensures And(a, Pow2(n) - 1) == a % Pow2(n)
  {
    AndLow(a, n);
    LowMod(a, n);
  }

  /** `a` followed by n zero bits. */
  function Shl(a: int, n: nat): int {
    if n == 0 then a else 2 * Shl(a, n - 1)
  }

  lemma {:induction false} ShlMul(a: int, n: nat)
    ensures Shl(a, n) == a * Pow2(n)
  {
    if n != 0 {
      ShlMul(a, n - 1);
      assert 2 * (a * Pow2(n - 1)) == a * (2 * Pow2(n - 1));
    }
  }

  /** Bits below n pass through an `|` with a multiple of 2^n. */
  lemma {:induction false} OrHigh(h: int, l: int, g: int, n: nat)
    requires 0 <= l < Pow2(n)
    ensures Or(Shl(h, n) + l, Shl(g, n)) == Shl(Or(h, g), n) + l
    decreases n
  {
    if n != 0 {
      hide Or;
      OrHigh(h, l / 2, g, n - 1);
      OrStep(Shl(h, n) + l, Shl(g, n));
    }
  }

  /** Bits below n are cleared by an `&` with a multiple of 2^n. */
  lemma {:induction false} AndHigh(h: int, l: int, g: int, n: nat)
    requires 0 <= l < Pow2(n)
    ensures And(Shl(h, n) + l, Shl(g, n)) == Shl(And(h, g), n)
    decreases n
  {
    if n != 0 {
      AndHigh(h, l / 2, g, n - 1);
      AndStep(Shl(h, n) + l, Shl(g, n));
    }
  }

  /** Bits below n pass through a `^` with a multiple of 2^n. */
  lemma {:induction false} XorHigh(h: int, l: int, g: int, n: nat)
    requires 0 <= l < Pow2(n)
    ensures Xor(Shl(h, n) + l, Shl(g, n)) == Shl(Xor(h, g), n) + l
    decreases n
  {
    if n != 0 {
      hide Xor;
      XorHigh(h, l / 2, g, n - 1);
      XorStep(Shl(h, n) + l, Shl(g, n));
    }
  }

  /** Bits below n pass through an `&` with ones below n. */
  lemma {:induction false} AndOnes(h: int, l: int, g: int, n: nat)
    requires 0 <= l < Pow2(n)
    ensures And(Shl(h, n) + l, Shl(g, n) + Pow2(n) - 1) == Shl(And(h, g), n) + l
    decreases n
  {
    if n != 0 {
      hide And;
      var a, b := Shl(h, n) + l, Shl(g, n) + Pow2(n) - 1;
      AndOnes(h, l / 2, g, n - 1);
      AndStep(a, b);
      assert a / 2 == Shl(h, n - 1) + l / 2 && a % 2 == l % 2;
      assert b / 2 == Shl(g, n - 1) + Pow2(n - 1) - 1 && b % 2 == 1;
    }
  }

  lemma {:induction false} OrLow(h: int, l: int, n: nat)
    requires 0 <= l < Pow2(n)
    ensures Or(Shl(h, n), l) == Shl(h, n) + l
    decreases n
  {
    if n == 0 {
      OrZero(h);
    } else {
      OrLow(h, l / 2, n - 1);
      OrStep(Shl(h, n), l);
    }
  }

  /** Or-ing numbers that share no bits adds them. */
  lemma OrDisjoint(h: int, l: int, n: nat)
    requires 0 <= l < Pow2(n)
    ensures Or(h * Pow2(n), l) == h * Pow2(n) + l
  {
    ShlMul(h, n);
    OrLow(h, l, n);
  }
}

/** Arithmetic modulo 2^255 - 19, the field of Curve25519 (section 4.1 of
    RFC 7748).  Elements are the canonical representatives 0 .. P-1. */
module Field {
  import opened Bits

  const P: int := 0x7fffffffffffffffffffffffffffffffffffffffffffffffffffffffffffffed

  type Fe = v: int | 0 <= v < P

  /** The field element an integer stands for. */
  function Red(v: int): Fe {
    v % P
  }

  /** The product of two integers by doubling and adding, which is how the
      field product is defined; `ProdIsProduct` says that it is `a * b`. */
  function Prod(a: int, b: nat): int
    decreases b
  {
    if b == 0 then 0 else 2 * Prod(a, b / 2) + (if b % 2 == 1 then a else 0)
  }

  function Add(a: Fe, b: Fe): Fe { Red(a + b) }
  function Sub(a: Fe, b: Fe): Fe { Red(a - b) }
  function Mul(a: Fe, b: Fe): Fe { Red(Prod(a, b)) }

  function Pow(a: Fe, n: nat): Fe {
    if n == 0 then 1 else Mul(a, Pow(a, n - 1))
  }

  lemma DoubleAndAdd(a: int, h: int, r: int)
    requires r == 0 || r == 1
    ensures a * (2 * h + r) == 2 * (a * h) + (if r == 1 then a else 0)
  {
  }

  lemma {:induction false} ProdIsProduct(a: int, b: nat)
    ensures Prod(a, b) == a * b
  {
    if b != 0 {
      ProdIsProduct(a, b / 2);
      DoubleAndAdd(a, b / 2, b % 2);
    }
  }

  lemma MulIs(a: Fe, b: Fe)
    ensures Mul(a, b) == Red(a * b)
  {
    ProdIsProduct(a, b);
  }

  // ----- reduction is a ring homomorphism -----

  lemma ModShift(a: int, m: int, k: int)
    requires m > 0
    ensures (a + m * k) % m == a % m
  {
    DivModUnique(a + m * k, m, a / m + k, a % m);
  }

  lemma RedShift(a: int, k: int)
    ensures Red(a + P * k) == Red(a)
  {
    ModShift(a, P, k);
  }

  lemma RedFe(a: Fe)
    ensures Red(a) == a
  {
  }

  /** The quotient that reduction throws away. */
  lemma RedQuot(a: int) returns (k: int)
    ensures a == Red(a) + P * k
  {
    k := a / P;
  }

  lemma AddRed(a: int, b: int)
    ensures Add(Red(a), Red(b)) == Red(a + b)
  {
    var i := RedQuot(a);
    var j := RedQuot(b);
    RedShift(Red(a) + Red(b), i + j);
  }

  lemma SubRed(a: int, b: int)
    ensures Sub(Red(a), Red(b)) == Red(a - b)
  {
    var i := RedQuot(a);
    var j := RedQuot(b);
    RedShift(Red(a) - Red(b), i - j);
  }

  lemma MulExpand(p: int, r: int, s: int, i: int, j: int)
    ensures (r + p * i) * (s + p * j) == r * s + p * (i * s + j * r + p * (i * j))
  {
  }

  lemma MulRed(a: int, b: int)
    ensures Mul(Red(a), Red(b)) == Red(a * b)
  {
    var i := RedQuot(a);
    var j := RedQuot(b);
    var r, s := Red(a), Red(b);
    MulIs(r, s);
    MulExpand(P, r, s, i, j);
    RedShift(r * s, i * s + j * r + P * (i * j));
  }

  // ----- ring laws -----

  lemma MulComm(a: Fe, b: Fe)
    ensures Mul(a, b) == Mul(b, a)
  {
    MulIs(a, b);
    MulIs(b, a);
    assert a * b == b * a;
  }

  lemma AddComm(a: Fe, b: Fe)
    ensures Add(a, b) == Add(b, a)
  {
  }

  lemma IntAssoc(a: int, b: int, c: int)
    ensures (a * b) * c == a * (b * c)
  {
  }

  lemma MulAssoc(a: Fe, b: Fe, c: Fe)
    ensures Mul(Mul(a, b), c) == Mul(a, Mul(b, c))
  {
    hide Mul, Red;
    RedFe(a);
    RedFe(c);
    MulIs(a, b);
    MulIs(b, c);
    MulRed(a * b, c);
    MulRed(a, b * c);
    IntAssoc(a, b, c);
  }

  lemma MulOne(a: Fe)
    ensures Mul(1, a) == a == Mul(a, 1)
  {
    hide Mul, Red;
    RedFe(a);
    MulIs(1, a);
    MulIs(a, 1);
  }

  /** Exchanging the inner factors of a product of products. */
  lemma MulSwap(a: Fe, b: Fe, c: Fe, d: Fe)
    ensures Mul(Mul(a, b), Mul(c, d)) == Mul(Mul(a, c), Mul(b, d))
  {
    hide Red, Mul;
    calc {
      Mul(Mul(a, b), Mul(c, d));
      { MulAssoc(a, b, Mul(c, d)); }
      Mul(a, Mul(b, Mul(c, d)));
      { MulAssoc(b, c, d); MulComm(b, c); MulAssoc(c, b, d); }
      Mul(a, Mul(c, Mul(b, d)));
      { MulAssoc(a, c, Mul(b, d)); }
      Mul(Mul(a, c), Mul(b, d));
    }
  }

  lemma IntSqrNeg(x: int)
    ensures x * x == (0 - x) * (0 - x)
  {
  }

  lemma SqrNeg(a: Fe, b: Fe)
    ensures Mul(Sub(a, b), Sub(a, b)) == Mul(Sub(b, a), Sub(b, a))
  {
    hide Red, Mul;
    MulRed(a - b, a - b);
    MulRed(b - a, b - a);
    IntSqrNeg(a - b);
  }

  lemma IntDistribute(k: int, a: int, b: int)
    ensures k * a + k * b == k * (a + b)
    ensures k * a - k * b == k * (a - b)
  {
  }

  /** Multiplication distributes over sums and differences. */
  lemma Distribute(k: Fe, a: Fe, b: Fe)
    ensures Add(Mul(k, a), Mul(k, b)) == Mul(k, Add(a, b))
    ensures Sub(Mul(k, a), Mul(k, b)) == Mul(k, Sub(a, b))
  {
    hide Mul, Red;
    RedFe(k);
    MulIs(k, a);
    MulIs(k, b);
    AddRed(k * a, k * b);
    MulRed(k, a + b);
    SubRed(k * a, k * b);
    MulRed(k, a - b);
    IntDistribute(k, a, b);
  }

  // ----- powers -----

  lemma {:induction false} PowAdd(a: Fe, m: nat, n: nat)
    ensures Pow(a, m + n) == Mul(Pow(a, m), Pow(a, n))
    decreases m
  {
    hide Red, Mul;
    if m == 0 {
      MulOne(Pow(a, n));
    } else {
      PowAdd(a, m - 1, n);
      MulAssoc(a, Pow(a, m - 1), Pow(a, n));
    }
  }

  lemma {:induction false} PowProduct(a: Fe, b: Fe, n: nat)
    ensures Pow(Mul(a, b), n) == Mul(Pow(a, n), Pow(b, n))
  {
    hide Red, Mul;
    if n == 0 {
      MulOne(1);
    } else {
      PowProduct(a, b, n - 1);
      MulSwap(a, b, Pow(a, n - 1), Pow(b, n - 1));
    }
  }

  lemma PowOne(a: Fe)
    ensures Pow(a, 1) == a
  {
    assert Pow(a, 1) == Mul(a, Pow(a, 0));
    MulOne(a);
  }

  lemma {:induction false} PowMul(a: Fe, m: nat, n: nat)
    ensures Pow(Pow(a, m), n) == Pow(a, m * n)
    decreases n
  {
    hide Red, Mul;
    if n != 0 {
      PowMul(a, m, n - 1);
      assert m * n == m + m * (n - 1);
      PowAdd(a, m, m * (n - 1));
    }
  }
}

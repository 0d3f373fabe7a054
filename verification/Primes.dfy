/** Prime numbers: Fermat's little theorem and Pocklington's criterion, which
    certifies a prime by a smaller one. */
module Primes {
  import opened Bits

  predicate Prime(n: int) {
    n >= 2 && forall d :: 2 <= d < n ==> n % d != 0
  }

  lemma AtLeastTwo(n: int)
    requires Prime(n)
    ensures n >= 2
  {
  }

  lemma Scale(r: int, x: int, y: int)
    requires r >= 0 && x <= y
    ensures r * x <= r * y
  {
    assert r * (y - x) >= 0;
  }

  function Exp(a: int, e: nat): int {
    if e == 0 then 1 else a * Exp(a, e - 1)
  }

  // ----- congruence -----

  /** a and b leave the same remainder. */
  predicate Same(m: int, a: int, b: int)
    requires m > 0
  {
    a % m == b % m
  }

  lemma FromQuotient(m: int, a: int, b: int, k: int)
    requires m > 0 && a == b + m * k
    ensures Same(m, a, b)
  {
    assert b == m * (b / m) + b % m;
    assert a == m * (b / m + k) + b % m;
    DivModUnique(a, m, b / m + k, b % m);
  }

  lemma Quotient(m: int, a: int, b: int) returns (k: int)
    requires m > 0 && Same(m, a, b)
    ensures a == b + m * k
  {
    k := a / m - b / m;
    assert a == m * (a / m) + a % m && b == m * (b / m) + b % m;
  }

  lemma SameRest(m: int, a: int)
    requires m > 0
    ensures Same(m, a, a % m) && Same(m, a, a)
  {
  }

  lemma SameTrans(m: int, a: int, b: int, c: int)
    requires m > 0 && Same(m, a, b) && Same(m, b, c)
    ensures Same(m, a, c)
  {
  }

  lemma SameFlip(m: int, a: int, b: int)
    requires m > 0
    ensures Same(m, a, b) == Same(m, b, a)
  {
  }

  lemma SameMul(m: int, a: int, b: int, c: int, d: int)
    requires m > 0 && Same(m, a, b) && Same(m, c, d)
    ensures Same(m, a * c, b * d)
  {
    hide Same;
    var i := Quotient(m, a, b);
    var j := Quotient(m, c, d);
    assert (b + m * i) * (d + m * j) == b * d + m * (b * j + i * d + i * (m * j)) by {
      Expand(b, m * i, d, m * j);
    }
    FromQuotient(m, a * c, b * d, b * j + i * d + i * (m * j));
  }

  /** Both sides of a congruence times x. */
  lemma SameTimes(m: int, a: int, b: int, x: int)
    requires m > 0 && Same(m, a, b)
    ensures Same(m, a * x, b * x) && Same(m, x * a, x * b)
  {
    hide Same;
    SameRest(m, x);
    SameMul(m, a, b, x, x);
    assert a * x == x * a && b * x == x * b;
  }

  lemma Expand(b: int, i: int, d: int, j: int)
    ensures (b + i) * (d + j) == b * d + b * j + i * d + i * j
  {
  }

  lemma {:induction false} SameExp(m: int, a: int, b: int, e: nat)
    requires m > 0 && Same(m, a, b)
    ensures Same(m, Exp(a, e), Exp(b, e))
  {
    hide Same;
    if e == 0 {
      SameRest(m, 1);
    } else {
      SameExp(m, a, b, e - 1);
      SameMul(m, a, b, Exp(a, e - 1), Exp(b, e - 1));
    }
  }

  /** A congruence holds modulo every divisor. */
  lemma SameDown(m: int, s: int, a: int, b: int)
    requires m > 0 && s > 0 && m % s == 0 && Same(m, a, b)
    ensures Same(s, a, b)
  {
    hide Same;
    var k := Quotient(m, a, b);
    assert m == s * (m / s);
    assert m * k == s * (m / s * k);
    FromQuotient(s, a, b, m / s * k);
  }

  lemma {:induction false} ExpAdd(a: int, e: nat, f: nat)
    ensures Exp(a, e + f) == Exp(a, e) * Exp(a, f)
  {
    if e != 0 {
      ExpAdd(a, e - 1, f);
      assert a * (Exp(a, e - 1) * Exp(a, f)) == a * Exp(a, e - 1) * Exp(a, f);
    }
  }

  lemma {:induction false} ExpMul(a: int, e: nat, f: nat)
    ensures Exp(Exp(a, e), f) == Exp(a, e * f)
  {
    if f != 0 {
      ExpMul(a, e, f - 1);
      ExpAdd(a, e, e * (f - 1));
      assert e + e * (f - 1) == e * f;
    }
  }

  lemma {:induction false} ExpOfOne(e: nat)
    ensures Exp(1, e) == 1
  {
    if e != 0 {
      ExpOfOne(e - 1);
    }
  }

  // ----- inverses modulo a prime -----

  /** Euclid's algorithm on s = (s / a) a + s % a. */
  lemma {:induction false} Inverse(s: int, a: int) returns (y: int)
    requires Prime(s) && 1 <= a < s
    ensures Same(s, a * y, 1)
    decreases a
  {
    hide Same;
    if a == 1 {
      y := 1;
      FromQuotient(s, a * y, 1, 0);
    } else {
      var r, k := s % a, s / a;
      assert s == a * k + r;
      var z := Inverse(s, r);
      var t := Quotient(s, r * z, 1);
      y := 0 - k * z;
      assert a * y == r * z - s * z by {
        assert (s - r) * z == a * k * z;
      }
      FromQuotient(s, a * y, 1, t - z);
    }
  }

  lemma InverseOf(s: int, a: int) returns (y: int)
    requires Prime(s) && a % s != 0
    ensures Same(s, a * y, 1)
  {
    hide Same, Prime;
    AtLeastTwo(s);
    y := Inverse(s, a % s);
    SameRest(s, a);
    SameTimes(s, a, a % s, y);
    SameTrans(s, a * y, a % s * y, 1);
  }

  /** What a prime does not divide can be cancelled. */
  lemma Cancel(s: int, c: int, d: int, x: int)
    requires Prime(s) && x % s != 0 && Same(s, c * x, d * x)
    ensures Same(s, c, d)
  {
    hide Prime, Same;
    AtLeastTwo(s);
    var y := InverseOf(s, x);
    SameTimes(s, c * x, d * x, y);
    SameTimes(s, x * y, 1, c);
    SameTimes(s, x * y, 1, d);
    assert c * x * y == c * (x * y) && d * x * y == d * (x * y);
    SameFlip(s, c * (x * y), c);
    SameTrans(s, c, c * x * y, d * x * y);
    SameTrans(s, c, d * x * y, d);
  }

  /** So multiplying by it keeps different remainders different. */
  lemma KeepsApart(s: int, c: int, d: int, x: int)
    requires Prime(s) && x % s != 0 && !Same(s, c, d)
    ensures !Same(s, c * x, d * x)
  {
    hide Prime, Same;
    AtLeastTwo(s);
    if Same(s, c * x, d * x) {
      Cancel(s, c, d, x);
    }
  }

  // ----- Fermat's little theorem -----

  function Product(s: seq<int>): int {
    if s == [] then 1 else s[0] * Product(s[1..])
  }

  function Factorial(n: nat): int {
    if n == 0 then 1 else n * Factorial(n - 1)
  }

  /** Different numbers from 1 .. n. */
  predicate Choice(s: seq<int>, n: int) {
    && (forall i :: 0 <= i < |s| ==> 1 <= s[i] <= n)
    && (forall i, j :: 0 <= i < j < |s| ==> s[i] != s[j])
  }

  lemma {:induction false} ProductTake(s: seq<int>, j: nat)
    requires j < |s|
    ensures Product(s) == s[j] * Product(s[..j] + s[j + 1..])
  {
    var t := s[..j] + s[j + 1..];
    if j == 0 {
      assert t == s[1..];
    } else {
      ProductTake(s[1..], j - 1);
      assert t[0] == s[0] && t[1..] == s[1..][..j - 1] + s[1..][j..];
      var p := Product(t[1..]);
      assert s[0] * (s[j] * p) == s[j] * (s[0] * p);
    }
  }

  lemma Without(s: seq<int>, n: int, j: nat)
    requires Choice(s, n) && j < |s| && s[j] == n
    ensures Choice(s[..j] + s[j + 1..], n - 1)
  {
  }

  lemma Bounds(s: seq<int>, n: int, i: nat)
    requires Choice(s, n) && i < |s|
    ensures 1 <= n
  {
    assert 1 <= s[i] <= n;
  }

  lemma Nothing(s: seq<int>)
    requires Choice(s, 0)
    ensures s == []
  {
    if s != [] {
      Bounds(s, 0, 0);
    }
  }

  /** There are at most n of them. */
  lemma {:induction false} Pigeonhole(s: seq<int>, n: nat)
    requires Choice(s, n)
    ensures |s| <= n
    decreases n
  {
    if n == 0 {
      Nothing(s);
    } else if j: nat :| j < |s| && s[j] == n {
      Without(s, n, j);
      Pigeonhole(s[..j] + s[j + 1..], n - 1);
    } else {
      Pigeonhole(s, n - 1);
    }
  }

  /** All n of them multiply to n!. */
  lemma {:induction false} ChooseAll(s: seq<int>, n: nat)
    requires Choice(s, n) && |s| == n
    ensures Product(s) == Factorial(n)
    decreases n
  {
    if n != 0 {
      if j: nat :| j < |s| && s[j] == n {
        Without(s, n, j);
        ChooseAll(s[..j] + s[j + 1..], n - 1);
        ProductTake(s, j);
      } else {
        Pigeonhole(s, n - 1);
      }
    }
  }

  function Multiple(s: int, a: int, i: int): int
    requires s > 0
  {
    a * i % s
  }

  /** The remainders of a, 2a, .., n a. */
  function Multiples(s: int, a: int, n: nat): (r: seq<int>)
    requires s > 0
    ensures |r| == n && forall i :: 0 <= i < n ==> r[i] == Multiple(s, a, i + 1)
  {
    seq(n, i requires 0 <= i < n => Multiple(s, a, i + 1))
  }

  lemma MultipleApart(s: int, a: int, i: int, j: int)
    requires Prime(s) && a % s != 0 && 0 <= i < j < s
    ensures Multiple(s, a, i) != Multiple(s, a, j)
  {
    hide Prime;
    assert !Same(s, i, j);
    KeepsApart(s, i, j, a);
    assert i * a == a * i && j * a == a * j;
  }

  lemma MultiplesChoice(s: int, a: int)
    requires Prime(s) && a % s != 0
    ensures Choice(Multiples(s, a, s - 1), s - 1)
  {
    hide Prime, Multiple, Multiples;
    AtLeastTwo(s);
    var r := Multiples(s, a, s - 1);
    forall i | 0 <= i < s - 1
      ensures 1 <= r[i] <= s - 1
    {
      MultiplePositive(s, a, i + 1);
    }
    forall i, j | 0 <= i < j < s - 1
      ensures r[i] != r[j]
    {
      MultipleApart(s, a, i + 1, j + 1);
    }
  }

  lemma MultiplePositive(s: int, a: int, i: int)
    requires Prime(s) && a % s != 0 && 0 < i < s
    ensures 1 <= Multiple(s, a, i) <= s - 1
  {
    hide Prime;
    AtLeastTwo(s);
    hide Multiple;
    MultipleApart(s, a, 0, i);
    MultipleRange(s, a, i);
    MultipleZero(s, a);
  }

  lemma MultipleRange(s: int, a: int, i: int)
    requires s > 0
    ensures 0 <= Multiple(s, a, i) < s
  {
    Remainder(a * i, s);
  }

  lemma MultipleZero(s: int, a: int)
    requires s > 0
    ensures Multiple(s, a, 0) == 0
  {
    assert a * 0 == 0;
  }

  lemma Remainder(x: int, s: int)
    requires s > 0
    ensures 0 <= x % s < s && x == s * (x / s) + x % s
  {
  }

  lemma {:induction false} ProductSnoc(s: seq<int>, x: int)
    ensures Product(s + [x]) == Product(s) * x
  {
    if s == [] {
      assert [x][1..] == [];
    } else {
      assert (s + [x])[1..] == s[1..] + [x];
      ProductSnoc(s[1..], x);
      assert s[0] * (Product(s[1..]) * x) == s[0] * Product(s[1..]) * x;
    }
  }

  lemma {:induction false} MultiplesProduct(s: int, a: int, n: nat)
    requires s > 0
    ensures Same(s, Product(Multiples(s, a, n)), Exp(a, n) * Factorial(n))
  {
    hide Same, Product;
    if n == 0 {
      assert Product(Multiples(s, a, n)) == 1 by { EmptyProduct(Multiples(s, a, n)); }
      SameRest(s, 1);
    } else {
      MultiplesProduct(s, a, n - 1);
      var r := Multiples(s, a, n - 1);
      var x := a * n;
      assert Multiples(s, a, n) == r + [x % s];
      ProductSnoc(r, x % s);
      SameRest(s, x);
      SameFlip(s, x, x % s);
      SameMul(s, Product(r), Exp(a, n - 1) * Factorial(n - 1), x % s, x);
      Regroup(Exp(a, n - 1), Factorial(n - 1), a, n);
    }
  }

  lemma EmptyProduct(s: seq<int>)
    requires s == []
    ensures Product(s) == 1
  {
  }

  lemma Regroup(e: int, f: int, a: int, n: int)
    ensures e * f * (a * n) == a * e * (n * f)
  {
    assert e * f * (a * n) == (a * e) * (n * f);
  }

  lemma {:induction false} FactorialUnit(s: int, n: nat)
    requires Prime(s) && n < s
    ensures Factorial(n) % s != 0
  {
    hide Prime;
    AtLeastTwo(s);
    if n != 0 {
      FactorialUnit(s, n - 1);
      assert !Same(s, n, 0);
      KeepsApart(s, n, 0, Factorial(n - 1));
      assert 0 * Factorial(n - 1) == 0;
    }
  }

  /** Fermat's little theorem. */
  lemma Fermat(s: int, a: int)
    requires Prime(s) && a % s != 0
    ensures Same(s, Exp(a, s - 1), 1)
  {
    hide Prime, Same, Product, Exp, Factorial, Choice;
    AtLeastTwo(s);
    var r := Multiples(s, a, s - 1);
    MultiplesChoice(s, a);
    ChooseAll(r, s - 1);
    MultiplesProduct(s, a, s - 1);
    FactorialUnit(s, s - 1);
    SameFlip(s, Factorial(s - 1), Exp(a, s - 1) * Factorial(s - 1));
    Cancel(s, Exp(a, s - 1), 1, Factorial(s - 1));
  }

  // ----- Pocklington's criterion -----

  /** The least divisor from d on is prime if no smaller one divides. */
  lemma {:induction false} PrimeDivisor(n: int, d: int) returns (s: int)
    requires 2 <= d <= n && forall e :: 2 <= e < d ==> n % e != 0
    ensures Prime(s) && n % s == 0 && s <= n
    decreases n - d
  {
    if n % d == 0 {
      s := d;
      forall e | 2 <= e < d
        ensures d % e != 0
      {
        if d % e == 0 {
          assert n == d * (n / d) && d == e * (d / e);
          assert n == e * (d / e * (n / d));
          FromQuotient(e, n, 0, d / e * (n / d));
        }
      }
    } else {
      s := PrimeDivisor(n, d + 1);
    }
  }

  /** If b^r = 1 and the prime r does not divide s - 1, b is 1 modulo the prime s. */
  lemma OrderDivides(s: int, r: int, b: int)
    requires Prime(s) && Prime(r) && b % s != 0
    requires Same(s, Exp(b, r), 1) && (s - 1) % r != 0
    ensures Same(s, b, 1)
  {
    hide Prime, Same, Exp;
    AtLeastTwo(s);
    AtLeastTwo(r);
    var w, t := NaturalInverse(r, s - 1);
    Fermat(s, b);
    PowerOfOne(s, b, s - 1, w);
    PowerOfOne(s, b, r, t);
    ExpAdd(b, 1, r * t);
    assert Exp(b, 1) == b by { ExpFirst(b); }
    SameTimes(s, Exp(b, r * t), 1, b);
    assert Exp(b, (s - 1) * w) == b * Exp(b, r * t);
    SameFlip(s, b * Exp(b, r * t), b);
    SameTrans(s, b, Exp(b, (s - 1) * w), 1);
  }

  lemma ExpFirst(b: int)
    ensures Exp(b, 1) == b
  {
    assert Exp(b, 0) == 1;
  }

  lemma PowerOfOne(s: int, b: int, e: nat, f: nat)
    requires s > 0 && Same(s, Exp(b, e), 1)
    ensures e * f >= 0 && Same(s, Exp(b, e * f), 1)
  {
    hide Same, Exp;
    SameExp(s, Exp(b, e), 1, f);
    ExpOfOne(f);
    ExpMul(b, e, f);
  }

  /** x w = 1 + r t for natural numbers w and t. */
  lemma NaturalInverse(r: int, x: int) returns (w: nat, t: nat)
    requires Prime(r) && x > 0 && x % r != 0
    ensures x * w == 1 + r * t
  {
    hide Prime, Same;
    AtLeastTwo(r);
    var y := InverseOf(r, x);
    w := y % r;
    SameRest(r, y);
    SameFlip(r, y, w);
    SameTimes(r, w, y, x);
    SameTrans(r, x * w, x * y, 1);
    var q := Quotient(r, x * w, 1);
    assert x * w >= 0;
    NotNegative(r, q);
    t := q;
  }

  lemma NotNegative(r: int, q: int)
    requires r >= 2 && 1 + r * q >= 0
    ensures q >= 0
  {
    if q < 0 {
      Scale(r, q, -1);
    }
  }

  /** The evidence for a prime n: a prime r that divides n - 1 = r k, large enough,
      and a base whose powers show that r divides s - 1 for each prime divisor s of n. */
  predicate Evidence(n: int, r: int, k: nat, a: int, b: int, v: int)
  {
    && n > 1 && n - 1 == r * k && r > 1
    && k % r > k / r + 1
    && Same(n, Exp(a, n - 1), 1) && Same(n, Exp(a, k), b) && Same(n, (b - 1) * v, 1)
  }

  lemma DivisorOfEvidence(n: int, r: int, k: nat, a: int, b: int, v: int, s: int)
    requires Evidence(n, r, k, a, b, v) && Prime(r) && Prime(s) && n % s == 0
    ensures (s - 1) % r == 0
  {
    hide Prime, Same, Exp;
    AtLeastTwo(s);
    AtLeastTwo(r);
    var c := Exp(a, k);
    SameDown(n, s, Exp(a, n - 1), 1);
    SameDown(n, s, c, b);
    SameDown(n, s, (b - 1) * v, 1);
    ExpMul(a, k, r);
    assert k * r == n - 1;
    NotZero(s, c, r);
    NotOne(s, b, v);
    if (s - 1) % r != 0 {
      OrderDivides(s, r, c);
      SameFlip(s, c, b);
      SameTrans(s, b, c, 1);
    }
  }

  lemma NotZero(s: int, c: int, r: nat)
    requires s >= 2 && r > 0 && Same(s, Exp(c, r), 1)
    ensures c % s != 0
  {
    hide Same;
    assert !Same(s, 0, 1) by { ZeroOne(s); }
    assert Exp(0, r) == 0;
    if c % s == 0 {
      SameRest(s, c);
      SameExp(s, c, 0, r);
      SameFlip(s, Exp(c, r), 0);
      SameTrans(s, 0, Exp(c, r), 1);
    }
  }

  lemma NotOne(s: int, b: int, v: int)
    requires s >= 2 && Same(s, (b - 1) * v, 1)
    ensures !Same(s, b, 1)
  {
    hide Same;
    assert !Same(s, 0, 1) by { ZeroOne(s); }
    if Same(s, b, 1) {
      var t := Quotient(s, b, 1);
      FromQuotient(s, b - 1, 0, t);
      SameTimes(s, b - 1, 0, v);
      assert 0 * v == 0;
      SameFlip(s, (b - 1) * v, 0);
      SameTrans(s, 0, (b - 1) * v, 1);
    }
  }

  lemma ZeroOne(s: int)
    requires s >= 2
    ensures !Same(s, 0, 1)
  {
  }

  lemma ExpandFactors(r: int, i: int, j: int)
    ensures (1 + r * i) * (1 + r * j) == 1 + r * (i + j + r * (i * j))
  {
    Expand(1, r * i, 1, r * j);
    assert r * i * (r * j) == r * (r * (i * j));
  }

  lemma SumAndProduct(i: int, j: int)
    requires i >= 1 && j >= 1
    ensures 2 <= i + j <= i * j + 1 && 1 <= i * j
  {
    assert (i - 1) * (j - 1) >= 0;
  }

  /** (1 + i r)(1 + j r) - 1 over r is i + j + i j r, with i + j at most i j + 1. */
  lemma TwoFactors(n: int, r: int, k: nat, i: int, j: int)
    requires r > 1 && n - 1 == r * k && i >= 1 && j >= 1
    requires n == (1 + r * i) * (1 + r * j)
    ensures k % r <= k / r + 1
  {
    ExpandFactors(r, i, j);
    CancelFactor(r, k, i + j + r * (i * j));
    SumAndProduct(i, j);
    SmallRest(r, k, i * j, i + j);
  }

  lemma CancelFactor(r: int, x: int, y: int)
    requires r > 0 && r * x == r * y
    ensures x == y
  {
    if x < y {
      Scale(r, x + 1, y);
    } else if y < x {
      Scale(r, y + 1, x);
    }
  }

  /** k = m + r p with m at most p + 1 leaves a remainder of at most k / r + 1. */
  lemma SmallRest(r: int, k: nat, p: int, m: int)
    requires r > 1 && k == m + r * p && p >= 1 && 0 <= m <= p + 1
    ensures k % r <= k / r + 1
  {
    if m < r {
      DivModUnique(k, r, p, m);
    } else {
      Remainder(k, r);
      if k / r < p {
        Scale(r, k / r, p - 1);
      }
    }
  }

  lemma Pocklington(n: int, r: int, k: nat, a: int, b: int, v: int)
    requires Evidence(n, r, k, a, b, v) && Prime(r)
    ensures Prime(n)
  {
    hide Prime, Same, Exp;
    var s := PrimeDivisor(n, 2);
    DivisorOfEvidence(n, r, k, a, b, v, s);
    var t := n / s;
    AtLeastTwo(s);
    assert n == s * t;
    if t != 1 {
      var i := (s - 1) / r;
      assert s == 1 + r * i;
      CofactorSame(n, r, k, i, t);
      var j := Quotient(r, t, 1);
      assert t > 1 by { Cofactor(n, s, t); }
      PositiveQuotients(r, i, s - 1);
      PositiveQuotients(r, j, t - 1);
      TwoFactors(n, r, k, i, j);
    }
  }

  lemma Cofactor(n: int, s: int, t: int)
    requires n > 0 && s > 0 && n == s * t && t != 1
    ensures t > 1
  {
    if t <= 0 {
      Scale(s, t, 0);
    }
  }

  lemma PositiveQuotients(r: int, i: int, x: int)
    requires r > 0 && x > 0 && x == r * i
    ensures i >= 1
  {
    if i <= 0 {
      Scale(r, i, 0);
    }
  }

  /** n = 1 + r k and s = 1 + r i divide to t = 1 modulo r. */
  lemma CofactorSame(n: int, r: int, k: nat, i: int, t: int)
    requires r > 0 && n == 1 + r * k && n == (1 + r * i) * t
    ensures Same(r, t, 1)
  {
    assert (1 + r * i) * t == t + r * (i * t);
    FromQuotient(r, t, 1, k - i * t);
  }

  // ----- trial division -----

  /** A number without a divisor up to its square root is prime. */
  lemma TrialDivision(n: int, m: int)
    requires n >= 2 && m >= 1 && n < (m + 1) * (m + 1)
    requires forall d :: 2 <= d <= m ==> n % d != 0
    ensures Prime(n)
  {
    forall d | 2 <= d < n
      ensures n % d != 0
    {
      if n % d == 0 {
        SmallDivisor(n, m, d);
      }
    }
  }

  /** Of two cofactors one is at most m. */
  lemma SmallDivisor(n: int, m: int, d: int)
    requires m >= 1 && n < (m + 1) * (m + 1) && 2 <= d < n && n % d == 0
    ensures exists c :: 2 <= c <= m && n % c == 0
  {
    var e := n / d;
    assert n == d * e;
    if d <= m {
    } else {
      if e <= 1 {
        Scale(d, e, 1);
      }
      if e > m {
        Scale(d, m + 1, e);
        Scale(m + 1, m + 1, d);
      }
      FromQuotient(e, n, 0, d);
      assert 2 <= e <= m && n % e == 0;
    }
  }
}

/** Field operations of contrib/embeddable-wg-library/wireguard.c: sixteen signed
    64-bit limbs in radix 2^16, updated in place. */
module EmbeddedField {
  import opened Bits
  import opened Machine
  import opened Field
  import opened Radix16
  import opened Inversion
  import opened LittleEndian

  /** The field element held by a limb array. */
  ghost function Elem(a: array<i64>): Fe
    reads a
  {
    Red(V(a[..]))
  }

  /** `x & 0xffff` on a signed word, two's complement. */
  function Low16(x: i64): (r: i64)
    ensures r as int == x as int % 0x10000
  {
    Mask16(x as int);
    And(x as int, 0xffff) as i64
  }

  lemma Mask16(x: int)
    ensures And(x, 0xffff) == x % 0x10000
  {
    hide And;
    Pow2Small();
    AndMask(x, 16);
  }

  // ----- carry -----

  /** Limbs that leave room for a carry. */
  ghost predicate Roomy(s: seq<i64>) {
    |s| == 16 && forall i :: 0 <= i < 16 ==> -0x4000_0000_0000_0000 <= s[i] <= 0x4000_0000_0000_0000
  }

  /** One iteration of the carry loop: what leaves limb i enters the next limb,
      or limb 0 times 38 when it leaves limb 15. */
  method CarryLimb(o: array<i64>, i: nat)
    requires o.Length == 16 && i < 16
    requires -0x4000_8000_0000_0000 <= o[i] <= 0x4000_8000_0000_0000
    requires i < 15 ==> -0x4000_0000_0000_0000 <= o[i + 1] <= 0x4000_0000_0000_0000
    requires i == 15 ==> 0 <= o[0] <= 0xffff
    modifies o
    ensures V(o[..]) == old(V(o[..])) - (if i == 15 then (old(o[15]) as int / 0x10000) * (2 * P) else 0)
    ensures o[..] == if i == 15 then old(o[..])[0 := old(o[0]) + 38 * (old(o[15]) / 0x10000)][15 := Low16(old(o[15]))]
                     else old(o[..])[i + 1 := old(o[i + 1]) + old(o[i]) / 0x10000][i := Low16(old(o[i]))]
  {
    hide B, V;
    ghost var s := o[..];
    var q := o[i] / 0x10000;
    var n := (i + 1) % 16;
    o[n] := o[n] + (if i == 15 then 38 else 1) * q;
    ghost var s1 := s[n := o[n]];
    assert o[..] == s1;
    o[i] := Low16(o[i]);
    assert o[..] == s1[i := o[i]];
    VUpdate(s, n, s1[n]);
    VUpdate(s1, i, o[i]);
    if i == 15 {
      WrapDelta(q as int);
    } else {
      BStep(i);
      CarryDelta(q as int, B(i));
    }
  }

  lemma BStep(i: nat)
    ensures B(i + 1) == 0x10000 * B(i) && B(0) == 1
  {
  }

  lemma CarryDelta(q: int, b: int)
    ensures q * (0x10000 * b) + (-0x10000 * q) * b == 0
  {
  }

  lemma WrapDelta(q: int)
    ensures B(0) == 1 && 38 * q + (-0x10000 * q) * B(15) == -(q * (2 * P))
  {
    BSixteen();
  }

  /** Carry once around: the value loses c times 2 P, where c is its quotient by
      2^256, and every limb but the first becomes a 16-bit digit. */
  method Carry(o: array<i64>) returns (ghost c: int)
    requires o.Length == 16 && Roomy(o[..])
    modifies o
    ensures c == old(V(o[..])) / (2 * P + 38)
    ensures V(o[..]) == old(V(o[..])) - c * (2 * P)
    ensures Digits(o[1..])
    ensures 38 * c <= o[0] as int <= 38 * c + 0xffff
  {
    hide B, V;
    ghost var v := V(o[..]);
    var i := 0;
    while i < 15
      invariant 0 <= i <= 15
      invariant V(o[..]) == v
      invariant forall j :: 0 <= j < i ==> 0 <= o[j] <= 0xffff
      invariant -0x4000_8000_0000_0000 <= o[i] <= 0x4000_8000_0000_0000
      invariant forall j :: i < j < 16 ==> -0x4000_0000_0000_0000 <= o[j] <= 0x4000_0000_0000_0000
    {
      CarryLimb(o, i);
      i := i + 1;
    }
    c := o[15] as int / 0x10000;
    ghost var s := o[..];
    TopQuotient(s);
    CarryLimb(o, 15);
  }

  /** With digits below the top limb, its quotient by 2^16 is that of the value by 2^256. */
  lemma TopQuotient(s: seq<i64>)
    requires |s| == 16 && Digits(s[..15])
    ensures V(s) / (2 * P + 38) == s[15] as int / 0x10000
  {
    hide B, V;
    BSixteen();
    BStep(15);
    assert s[..16] == s;
    VPrefix(s, 15);
    VDigits(s[..15]);
    var x, low, b := s[15] as int, V(s[..15]), B(15);
    TopDivision(x, low, b);
  }

  lemma TopDivision(x: int, low: int, b: int)
    requires 0 <= low < b
    ensures (low + x * b) / (0x10000 * b) == x / 0x10000
  {
    var q, r := x / 0x10000, x % 0x10000;
    NestedDivision(b, 0x10000, q, r, low);
    IntCommute(b, x);
    DivModUnique(low + x * b, 0x10000 * b, q, b * r + low);
  }

  // ----- swap, sum, difference -----

  /** One exchanged pair of words: `t = c & (p ^ q)`, `p ^= t`, `q ^= t`. */
  function SwapWords(c: int, p: i64, q: i64): (r: (i64, i64))
    requires c == 0 || c == -1
    ensures r == if c == 0 then (p, q) else (q, p)
  {
    var d := Xor(p as int, q as int);
    var t := And(c, d);
    AndSigns(d);
    XorZero(p as int);
    XorZero(q as int);
    XorSwap(p as int, q as int);
    (Xor(p as int, t) as i64, Xor(q as int, t) as i64)
  }

  /** Exchange p and q if b is 1; `~(b - 1)` is all zeros or all ones. */
  method CSwap(p: array<i64>, q: array<i64>, b: int)
    requires p.Length == 16 && q.Length == 16 && p != q
    requires b == 0 || b == 1
    modifies p, q
    ensures p[..] == (if b == 1 then old(q[..]) else old(p[..]))
    ensures q[..] == (if b == 1 then old(p[..]) else old(q[..]))
  {
    var c := -(b - 1) - 1;
    var i := 0;
    while i < 16
      invariant 0 <= i <= 16
      invariant forall j :: 0 <= j < i ==> p[j] == (if b == 1 then old(q[j]) else old(p[j]))
      invariant forall j :: 0 <= j < i ==> q[j] == (if b == 1 then old(p[j]) else old(q[j]))
      invariant forall j :: i <= j < 16 ==> p[j] == old(p[j]) && q[j] == old(q[j])
    {
      var w := SwapWords(c, p[i], q[i]);
      p[i] := w.0;
      q[i] := w.1;
      i := i + 1;
    }
  }

  /** Limbs as multiplication leaves them. */
  ghost predicate Reduced(s: seq<i64>) {
    |s| == 16 && -38 <= s[0] <= 0x10025 && forall i :: 1 <= i < 16 ==> 0 <= s[i] <= 0xffff
  }

  /** Limbs of a sum or difference of two reduced elements. */
  ghost predicate Summed(s: seq<i64>) {
    |s| == 16 && forall i :: 0 <= i < 16 ==> -0x2004a <= s[i] <= 0x2004a
  }

  lemma {:induction false} VZip(s: seq<i64>, t: seq<i64>, r: seq<i64>, k: int)
    requires |s| == |r| && |t| <= |s|
    requires forall i :: 0 <= i < |t| ==> r[i] as int == s[i] as int + k * t[i] as int
    requires forall i :: |t| <= i < |s| ==> r[i] == s[i]
    ensures V(r) == V(s) + k * V(t)
  {
    if t == [] {
      assert r == s;
    } else {
      VZip(s[1..], t[1..], r[1..], k);
      var x := V(t[1..]);
      ZipLimb(k, t[0] as int, x);
    }
  }

  lemma ZipLimb(k: int, t: int, x: int)
    ensures k * t + 0x10000 * (k * x) == k * (t + 0x10000 * x)
  {
  }

  method Sum(o: array<i64>, a: array<i64>, b: array<i64>)
    requires o.Length == 16 && a.Length == 16 && b.Length == 16
    requires Reduced(a[..]) && Reduced(b[..])
    modifies o
    ensures Summed(o[..])
    ensures Elem(o) == Add(old(Elem(a)), old(Elem(b)))
  {
    hide V, Red;
    ghost var s, t := a[..], b[..];
    var i := 0;
    while i < 16
      invariant 0 <= i <= 16
      invariant forall j :: 0 <= j < i ==> o[j] == s[j] + t[j]
      invariant forall j :: i <= j < 16 ==> a[j] == s[j] && b[j] == t[j]
    {
      assert o[..i] == o[..][..i];
      o[i] := a[i] + b[i];
      i := i + 1;
    }
    VZip(s, t, o[..], 1);
    AddRed(V(s), V(t));
  }

  method Difference(o: array<i64>, a: array<i64>, b: array<i64>)
    requires o.Length == 16 && a.Length == 16 && b.Length == 16
    requires Reduced(a[..]) && Reduced(b[..])
    modifies o
    ensures Summed(o[..])
    ensures Elem(o) == Sub(old(Elem(a)), old(Elem(b)))
  {
    hide V, Red;
    ghost var s, t := a[..], b[..];
    var i := 0;
    while i < 16
      invariant 0 <= i <= 16
      invariant forall j :: 0 <= j < i ==> o[j] == s[j] - t[j]
      invariant forall j :: i <= j < 16 ==> a[j] == s[j] && b[j] == t[j]
    {
      o[i] := a[i] - b[i];
      i := i + 1;
    }
    VZip(s, t, o[..], -1);
    SubRed(V(s), V(t));
  }

  // ----- multiplication -----

  /** Bound on one limb product of summed elements. */
  const PROD := 0x4_0128_1564

  lemma ProductAbs(x: int, y: int, m: int)
    requires -m <= x <= m && -m <= y <= m
    ensures -(m * m) <= x * y <= m * m
  {
    var ax, ay := if x < 0 then -x else x, if y < 0 then -y else y;
    NatProduct(ax, ay, m);
    if x < 0 && y < 0 {
      assert x * y == ax * ay;
    } else if x < 0 {
      assert x * y == -(ax * ay);
    } else if y < 0 {
      assert x * y == -(ax * ay);
    }
  }

  lemma NatProduct(x: int, y: int, m: int)
    requires 0 <= x <= m && 0 <= y <= m
    ensures 0 <= x * y <= m * m
  {
    assert x * y <= m * y <= m * m;
  }

  lemma LimbProduct(x: int, y: int)
    requires -0x2004a <= x <= 0x2004a && -0x2004a <= y <= 0x2004a
    ensures -PROD <= x * y <= PROD
  {
    ProductAbs(x, y, 0x2004a);
  }

  /** Column sums: after the double loop, t holds the exact product. */
  method Columns(a: array<i64>, b: array<i64>) returns (t: array<i64>)
    requires a.Length == 16 && b.Length == 16
    requires Summed(a[..]) && Summed(b[..])
    ensures fresh(t) && t.Length == 31
    ensures V(t[..]) == V(a[..]) * V(b[..])
    ensures forall k :: 0 <= k < 31 ==> -16 * PROD <= t[k] as int <= 16 * PROD
  {
    hide V, B;
    t := new i64[31](k => 0);
    ghost var s, r := a[..], b[..];
    VZero(t[..]);
    VEmpty();
    var i := 0;
    assert s[..0] == [];
    while i < 16
      invariant 0 <= i <= 16
      invariant fresh(t) && t.Length == 31
      invariant V(t[..]) == V(s[..i]) * V(r)
      invariant forall k :: 0 <= k < 31 ==> -(i * PROD) <= t[k] as int <= i * PROD
    {
      Row(t, a, b, i);
      VPrefix(s, i);
      RowSum(V(s[..i]), s[i] as int * B(i), V(r));
      i := i + 1;
    }
    assert s[..16] == s;
  }

  lemma RowSum(x: int, y: int, z: int)
    ensures x * z + y * z == (x + y) * z
  {
  }

  lemma VEmpty()
    ensures V([]) == 0
  {
  }

  lemma {:induction false} VZero(s: seq<i64>)
    requires forall k :: 0 <= k < |s| ==> s[k] == 0
    ensures V(s) == 0
  {
    if s != [] {
      VZero(s[1..]);
    }
  }

  /** Add a[i] times b, shifted up by i limbs. */
  method Row(t: array<i64>, a: array<i64>, b: array<i64>, i: nat)
    requires t.Length == 31 && a.Length == 16 && b.Length == 16 && t != a && t != b && i < 16
    requires Summed(a[..]) && Summed(b[..])
    requires forall k :: 0 <= k < 31 ==> -(i * PROD) <= t[k] as int <= i * PROD
    modifies t
    ensures V(t[..]) == old(V(t[..])) + (a[i] as int * B(i)) * V(b[..])
    ensures forall k :: 0 <= k < 31 ==> -((i + 1) * PROD) <= t[k] as int <= (i + 1) * PROD
  {
    hide V, B;
    ghost var v, r, w := V(t[..]), b[..], a[i] as int * B(i);
    VEmpty();
    assert r[..0] == [];
    var j := 0;
    while j < 16
      invariant 0 <= j <= 16
      invariant V(t[..]) == v + w * V(r[..j])
      invariant forall k :: 0 <= k < i + j && k < 31 ==> -((i + 1) * PROD) <= t[k] as int <= (i + 1) * PROD
      invariant forall k :: i + j <= k < 31 ==> -(i * PROD) <= t[k] as int <= i * PROD
    {
      LimbProduct(a[i] as int, b[j] as int);
      ghost var s := t[..];
      t[i + j] := t[i + j] + a[i] * b[j];
      assert t[..] == s[i + j := t[i + j]];
      VUpdate(s, i + j, t[i + j]);
      VPrefix(r, j);
      BAdd(i, j);
      CellSum(a[i] as int, b[j] as int, B(i), B(j), V(r[..j]));
      j := j + 1;
    }
    assert r[..16] == r;
  }

  lemma CellSum(x: int, y: int, p: int, q: int, z: int)
    ensures (x * p) * z + (x * y) * (p * q) == (x * p) * (z + y * q)
  {
  }

  /** Fold the columns at and above 2^256 back times 38. */
  method Fold(t: array<i64>)
    requires t.Length == 31
    requires forall k :: 0 <= k < 31 ==> -(16 * PROD) <= t[k] as int <= 16 * PROD
    modifies t
    ensures V(t[..16]) == old(V(t[..])) - (2 * P) * old(V(t[16..]))
    ensures forall k :: 0 <= k < 16 ==> -(624 * PROD) <= t[k] as int <= 624 * PROD
  {
    hide V, B;
    ghost var s := t[..];
    var i := 0;
    while i < 15
      invariant 0 <= i <= 15
      invariant forall k :: 0 <= k < i ==> t[k] as int == s[k] as int + 38 * s[k + 16] as int
      invariant forall k :: i <= k < 31 ==> t[k] == s[k]
    {
      t[i] := t[i] + 38 * t[i + 16];
      i := i + 1;
    }
    ghost var lo, hi := s[..16], s[16..];
    assert s == lo + hi;
    VAppend(lo, hi);
    BSixteen();
    VZip(lo, hi, t[..16], 38);
    assert s[16..] == old(t[16..]);
  }

  lemma LimbBound(s: seq<i64>, m: int)
    requires |s| == 16 && 0 <= m && forall i :: 0 <= i < |s| ==> -m <= s[i] as int <= m
    ensures -(m * (2 * P + 37)) <= 0xffff * V(s) <= m * (2 * P + 37)
  {
    hide V, B;
    VBound(s, m);
    BSixteen();
  }

  /** Quotients by 2^256 met by the two carries of a product. */
  lemma CarryQuotients(v: int, c: int)
    requires -((624 * PROD) * (2 * P + 37)) <= 0xffff * v <= (624 * PROD) * (2 * P + 37)
    requires c == v / (2 * P + 38)
    ensures -0x2000_0000 <= c <= 0x2000_0000
    ensures -1 <= (v - c * (2 * P)) / (2 * P + 38) <= 1
  {
  }

  /** Two carries reduce the folded columns of a product. */
  method CarryTwice(o: array<i64>)
    requires o.Length == 16
    requires forall k :: 0 <= k < 16 ==> -(624 * PROD) <= o[k] as int <= 624 * PROD
    modifies o
    ensures Reduced(o[..])
    ensures Elem(o) == old(Elem(o))
  {
    hide V, B, Red, Digits, Roomy, Reduced;
    ghost var v := V(o[..]);
    LimbBound(o[..], 624 * PROD);
    ghost var c := v / (2 * P + 38);
    CarryQuotients(v, c);
    RoomyColumns(o[..]);
    c := Carry(o);
    DigitsAbove(o[..]);
    ghost var d := Carry(o);
    DigitsAbove(o[..]);
    RedTwice(v, c);
    RedTwice(v - c * (2 * P), d);
  }

  lemma RoomyColumns(s: seq<i64>)
    requires |s| == 16 && forall k :: 0 <= k < 16 ==> -(624 * PROD) <= s[k] as int <= 624 * PROD
    ensures Roomy(s)
  {
  }

  /** What a carry says about the limbs, index by index. */
  lemma DigitsAbove(s: seq<i64>)
    requires |s| == 16 && Digits(s[1..])
    ensures forall i :: 1 <= i < 16 ==> 0 <= s[i] <= 0xffff
    ensures -0x4000_0000_0000_0000 <= s[0] <= 0x4000_0000_0000_0000 ==> Roomy(s)
    ensures -38 <= s[0] <= 0x10025 ==> Reduced(s)
  {
    assert forall i :: 1 <= i < 16 ==> s[i] == s[1..][i - 1];
  }

  lemma RedTwice(v: int, k: int)
    ensures Red(v - k * (2 * P)) == Red(v)
    ensures Red(v - (2 * P) * k) == Red(v)
  {
    hide Red;
    RedShift(v, 0 - 2 * k);
  }

  /** o = a * b, for elements that are sums or differences of products; o may be
      either argument. */
  method MultMod(o: array<i64>, a: array<i64>, b: array<i64>)
    requires o.Length == 16 && a.Length == 16 && b.Length == 16
    requires Summed(a[..]) && Summed(b[..])
    modifies o
    ensures Reduced(o[..])
    ensures Elem(o) == Mul(old(Elem(a)), old(Elem(b)))
  {
    hide V, B, Red, Mul;
    ghost var x, y := V(a[..]), V(b[..]);
    var t := Columns(a, b);
    ghost var h := V(t[16..]);
    Fold(t);
    ghost var lo := t[..16];
    forall k | 0 <= k < 16 {
      o[k] := t[k];
    }
    assert o[..] == lo;
    MulRed(x, y);
    RedTwice(x * y, h);
    CarryTwice(o);
  }

  // ----- inversion -----

  /** The exponent 2^255 - 21 has every bit set except bits 2 and 4. */
  lemma ExponentBit(a: nat)
    requires a <= 253
    ensures Shr(P - 2, a) == 2 * Shr(P - 2, a + 1) + (if a != 2 && a != 4 then 1 else 0)
  {
    ExponentShift(a);
  }

  lemma ShrStep(x: int, a: nat)
    ensures Shr(x, a + 1) == Shr(x, a) / 2
  {
    ShrAdd(x, a, 1);
    assert Shr(Shr(x, a), 1) == Shr(x, a) / 2;
  }

  lemma ExponentShift(a: nat)
    requires a <= 253
    ensures Shr(P - 2, a) % 2 == (if a != 2 && a != 4 then 1 else 0)
    ensures Shr(P - 2, a + 1) == Shr(P - 2, a) / 2
  {
    hide Shr;
    ShrStep(P - 2, a);
    if a < 5 {
      ExponentLow();
    } else {
      OnesAbove(a);
    }
  }

  lemma ExponentLow()
    ensures Shr(P - 2, 0) % 2 == 1 && Shr(P - 2, 1) % 2 == 1 && Shr(P - 2, 2) % 2 == 0
    ensures Shr(P - 2, 3) % 2 == 1 && Shr(P - 2, 4) % 2 == 0
  {
    ShrDiv(P - 2, 0);
    ShrDiv(P - 2, 1);
    ShrDiv(P - 2, 2);
    ShrDiv(P - 2, 3);
    ShrDiv(P - 2, 4);
    Pow2Small();
  }

  /** From bit 5 up the exponent is all ones: shifting by a leaves 2^(255-a) - 1. */
  lemma {:induction false} OnesAbove(a: nat)
    requires 5 <= a <= 254
    ensures Shr(P - 2, a) == Pow2(255 - a) - 1
    ensures Pow2(255 - a) % 2 == 0
  {
    assert Pow2(255 - a) == 2 * Pow2(254 - a);
    if a == 5 {
      ShrDiv(P - 2, 5);
      Pow2Small();
      Pow2Of250();
    } else {
      OnesAbove(a - 1);
      ShrStep(P - 2, a - 1);
      assert Pow2(256 - a) == 2 * Pow2(255 - a);
    }
  }

  lemma SquareAndMultiply(x: Fe, e: nat)
    ensures Mul(Pow(x, e), Pow(x, e)) == Pow(x, 2 * e)
    ensures Mul(Pow(x, 2 * e), x) == Pow(x, 2 * e + 1)
  {
    hide Mul, Pow;
    PowAdd(x, e, e);
    PowOne(x);
    PowAdd(x, 2 * e, 1);
  }

  /** o = i^(P-2) by square and multiply over bits 253 .. 0. */
  method Invert(o: array<i64>, i: array<i64>)
    requires o.Length == 16 && i.Length == 16
    requires Reduced(i[..])
    modifies o
    ensures Reduced(o[..])
    ensures Elem(o) == Pow(old(Elem(i)), P - 2)
  {
    hide V, Red, Mul, Pow, Shr, Pow2;
    ghost var x := Elem(i);
    var c := new i64[16](k requires 0 <= k < 16 reads i => i[k]);
    assert c[..] == i[..];
    OnesAbove(254);
    Pow2Small();
    PowOne(x);
    var a := 253;
    while a >= 0
      invariant -1 <= a <= 253
      invariant fresh(c) && c.Length == 16
      invariant Reduced(c[..]) && Reduced(i[..]) && Elem(i) == x
      invariant Shr(P - 2, a + 1) >= 0
      invariant Elem(c) == Pow(x, Shr(P - 2, a + 1))
    {
      ExponentBit(a);
      SquareAndMultiply(x, Shr(P - 2, a + 1));
      MultMod(c, c, c);
      if a != 2 && a != 4 {
        MultMod(c, c, i);
      }
      a := a - 1;
    }
    ShrZero(P - 2);
    ghost var s := c[..];
    forall k | 0 <= k < 16 {
      o[k] := c[k];
    }
    assert o[..] == s;
  }

  lemma ShrZero(x: int)
    ensures Shr(x, 0) == x
  {
  }

  // ----- pack -----

  /** Quotients by 2^256 met by the three carries of `Pack`; the last one leaves
      a number in [0, 2^256). */
  lemma PackQuotients(v: int, c: int, d: int, e: int)
    requires -(0x4000_0000_0000_0000 * (2 * P + 37)) <= 0xffff * v <= 0x4000_0000_0000_0000 * (2 * P + 37)
    requires c == v / (2 * P + 38)
    requires d == (v - c * (2 * P)) / (2 * P + 38)
    requires e == (v - c * (2 * P) - d * (2 * P)) / (2 * P + 38)
    ensures -0x1_0000_0000_0000 <= c <= 0x1_0000_0000_0000
    ensures -1 <= d <= 1 && -1 <= e <= 1
    ensures 0 <= v - c * (2 * P) - d * (2 * P) - e * (2 * P) < 2 * P + 38
    ensures e == 1 ==> v - c * (2 * P) - d * (2 * P) - e * (2 * P) < 76
    ensures e == -1 ==> v - c * (2 * P) - d * (2 * P) - e * (2 * P) >= 2 * P + 38 - 76
  {
  }

  /** After the third carry limb 0 is a digit too. */
  lemma LowLimb(s: seq<i64>, e: int)
    requires |s| == 16 && Digits(s[1..])
    requires -1 <= e <= 1 && 38 * e <= s[0] as int <= 38 * e + 0xffff
    requires e == 1 ==> V(s) < 76
    requires e == -1 ==> V(s) >= 2 * P + 38 - 76
    ensures Digits(s)
  {
    hide V, B;
    DigitsAbove(s);
    VHead(s);
    VDigits(s[1..]);
    BSixteen();
  }

  method CarryThrice(t: array<i64>)
    requires t.Length == 16 && Roomy(t[..])
    modifies t
    ensures Digits(t[..])
    ensures Elem(t) == old(Elem(t))
  {
    hide V, B, Red, Digits, Roomy, Reduced;
    ghost var v := V(t[..]);
    RoomyBound(t[..]);
    ghost var c := v / (2 * P + 38);
    ghost var d := (v - c * (2 * P)) / (2 * P + 38);
    ghost var e := (v - c * (2 * P) - d * (2 * P)) / (2 * P + 38);
    PackQuotients(v, c, d, e);
    c := Carry(t);
    DigitsAbove(t[..]);
    d := Carry(t);
    DigitsAbove(t[..]);
    e := Carry(t);
    LowLimb(t[..], e);
    RedTwice(v, c);
    RedTwice(v - c * (2 * P), d);
    RedTwice(v - c * (2 * P) - d * (2 * P), e);
  }

  lemma RoomyBound(s: seq<i64>)
    requires Roomy(s)
    ensures -(0x4000_0000_0000_0000 * (2 * P + 37)) <= 0xffff * V(s) <= 0x4000_0000_0000_0000 * (2 * P + 37)
  {
    hide V;
    LimbBound(s, 0x4000_0000_0000_0000);
  }

  /** The limbs of P. */
  function PDigit(i: nat): i64 {
    if i == 0 then 0xffed else if i == 15 then 0x7fff else 0xffff
  }

  function PDigits(n: nat): (s: seq<i64>)
    ensures |s| == n
  {
    seq(n, i => if i >= 0 then PDigit(i) else 0)
  }

  lemma PValue()
    ensures V(PDigits(16)) == P
  {
    hide V, B;
    BSixteen();
    VPrefix(PDigits(16), 15);
    assert PDigits(16)[..15] == PDigits(15);
    assert PDigits(16)[..16] == PDigits(16);
    PPrefix(15);
  }

  lemma {:induction false} PPrefix(n: nat)
    requires 1 <= n <= 15
    ensures V(PDigits(n)) == B(n) - 19
  {
    if n == 1 {
      assert PDigits(1) == [0xffed];
      VSingle(0xffed);
      BStep(0);
    } else {
      PPrefix(n - 1);
      VPrefix(PDigits(n), n - 1);
      assert PDigits(n)[..n - 1] == PDigits(n - 1);
      assert PDigits(n)[..n] == PDigits(n);
      BStep(n - 1);
      assert 0xffff * B(n - 1) == B(n) - B(n - 1);
    }
  }

  /** `(x >> 16) & 1`: the borrow out of a limb difference. */
  function Borrow(x: i64): (r: i64)
    requires -0x10000 <= x <= 0xffff
    ensures r == if x < 0 then 1 else 0
  {
    BorrowBit(x as int / 0x10000);
    And(x as int / 0x10000, 1) as i64
  }

  lemma BorrowBit(q: int)
    requires -1 <= q <= 0
    ensures And(q, 1) == -q
  {
  }

  /** Limbs 0 .. n-1 of m hold t - P, the last of them not yet normalised. */
  ghost predicate Subtracted(t: seq<i64>, m: seq<i64>, n: nat) {
    && 1 <= n <= 16 && |t| == 16 && |m| == 16
    && Digits(m[..n - 1]) && -0x10000 <= m[n - 1] <= 0xffff
    && V(m[..n]) == V(t[..n]) - V(PDigits(n))
  }

  method SubtractLimb(t: array<i64>, m: array<i64>, i: nat)
    requires t.Length == 16 && m.Length == 16 && t != m && 1 <= i < 16
    requires Digits(t[..]) && Subtracted(t[..], m[..], i)
    modifies m
    ensures Subtracted(t[..], m[..], i + 1)
  {
    hide V, B, Digits, PDigits;
    ghost var s, r := m[..], t[..];
    var borrow := Borrow(m[i - 1]);
    DigitAt(r, i);
    m[i] := t[i] - PDigit(i) - borrow;
    m[i - 1] := Low16(m[i - 1]);
    BorrowValue(s, r, m[..], i);
  }

  lemma DigitAt(s: seq<i64>, i: nat)
    requires Digits(s) && i < |s|
    ensures 0 <= s[i] <= 0xffff
  {
  }

  lemma BorrowValue(s: seq<i64>, t: seq<i64>, m: seq<i64>, i: nat)
    requires 1 <= i < 16 && Subtracted(t, s, i) && Digits(t)
    requires |m| == 16
    requires m == s[i := t[i] - PDigit(i) - (if s[i - 1] < 0 then 1 else 0)][i - 1 := Low16(s[i - 1])]
    ensures Subtracted(t, m, i + 1)
  {
    hide V, B;
    var borrow := if s[i - 1] < 0 then 1 else 0;
    assert m[..i - 1] == s[..i - 1];
    VPrefix(s, i - 1);
    VPrefix(m, i - 1);
    VPrefix(m, i);
    VPrefix(t, i);
    VPrefix(PDigits(16), i);
    assert PDigits(16)[..i] == PDigits(i) && PDigits(16)[..i + 1] == PDigits(i + 1);
    BStep(i - 1);
    var b := B(i - 1);
    assert Low16(s[i - 1]) as int == s[i - 1] as int + 0x10000 * borrow as int;
    BorrowArithmetic(s[i - 1] as int, borrow as int, t[i] as int, PDigit(i) as int, b);
  }

  lemma BorrowArithmetic(x: int, w: int, t: int, p: int, b: int)
    ensures (x + 0x10000 * w) * b + (t - p - w) * (0x10000 * b) == x * b + t * (0x10000 * b) - p * (0x10000 * b)
  {
  }

  /** Subtract P once if the value is at least P. */
  method TrySubtract(t: array<i64>)
    requires t.Length == 16 && Digits(t[..])
    modifies t
    ensures Digits(t[..])
    ensures V(t[..]) == (if old(V(t[..])) >= P then old(V(t[..])) - P else old(V(t[..])))
  {
    hide V, B, Digits, PDigits;
    ghost var r := t[..];
    var m := new i64[16];
    DigitAt(r, 0);
    m[0] := t[0] - 0xffed;
    FirstLimb(r, m[..]);
    var i := 1;
    while i < 15
      invariant 1 <= i <= 15
      invariant t[..] == r && Subtracted(r, m[..], i)
    {
      SubtractLimb(t, m, i);
      i := i + 1;
    }
    SubtractLimb(t, m, 15);
    var b := Borrow(m[15]) as int;
    SubtractionSign(r, m[..]);
    CSwap(t, m, 1 - b);
  }

  lemma FirstLimb(t: seq<i64>, m: seq<i64>)
    requires |t| == 16 && |m| == 16 && Digits(t) && m[0] == t[0] - 0xffed
    ensures Subtracted(t, m, 1)
  {
    assert t[..1] == [t[0]] && m[..1] == [m[0]];
    assert PDigits(1) == [0xffed];
    VSingle(t[0]);
    VSingle(m[0]);
    VSingle(0xffed);
    assert m[..0] == [];
  }

  /** The sign of the last limb tells whether the difference is negative. */
  lemma SubtractionSign(t: seq<i64>, m: seq<i64>)
    requires Subtracted(t, m, 16)
    ensures V(m) == V(t) - P
    ensures m[15] < 0 <==> V(t) < P
    ensures m[15] >= 0 ==> Digits(m)
  {
    hide V, B;
    PValue();
    assert m[..16] == m && t[..16] == t;
    VPrefix(m, 15);
    VDigits(m[..15]);
    if m[15] < 0 {
      NegativeTop(V(m[..15]), m[15] as int, B(15));
    } else {
      assert m == m[..15] + [m[15]];
      assert m[15] as int * B(15) >= 0;
    }
  }

  lemma NegativeTop(low: int, x: int, b: int)
    requires 0 <= low < b && x <= -1
    ensures low + x * b < 0
  {
    assert (-1 - x) * b >= 0;
  }

  lemma {:induction false} BytesOfLimbs(o: seq<u8>, t: seq<i64>)
    requires |o| == 2 * |t| && Digits(t)
    requires forall i :: 0 <= i < |t| ==> o[2 * i] as int == t[i] as int % 256 && o[2 * i + 1] as int == t[i] as int / 256
    ensures LE(o) == V(t)
  {
    if t != [] {
      var o', t' := o[2..], t[1..];
      assert forall i :: 0 <= i < |t'| ==> o'[2 * i] == o[2 * (i + 1)] && o'[2 * i + 1] == o[2 * (i + 1) + 1] && t'[i] == t[i + 1];
      BytesOfLimbs(o', t');
      assert o[1..][1..] == o';
      assert o[2 * 0] as int == t[0] as int % 256 && o[2 * 0 + 1] as int == t[0] as int / 256;
    }
  }

  /** `x & 0xff` on a digit. */
  function Low8(x: i64): (r: u8)
    requires 0 <= x <= 0xffff
    ensures r as int == x as int % 256
  {
    Mask8(x as int);
    And(x as int, 0xff) as u8
  }

  lemma Mask8(x: int)
    ensures And(x, 0xff) == x % 256
  {
    hide And;
    Pow2Small();
    AndMask(x, 8);
  }

  /** The 32 bytes of the unique representative below P, for all limbs within
      2^62 of zero. */
  method Pack(o: array<u8>, n: array<i64>)
    requires o.Length == 32 && n.Length == 16 && Roomy(n[..])
    modifies o
    ensures LE(o[..]) == Elem(n)
  {
    hide V, B, Red, Roomy, LE;
    var t := new i64[16](k requires 0 <= k < 16 reads n => n[k]);
    assert t[..] == n[..];
    CarryThrice(t);
    ghost var v := V(t[..]);
    VDigits(t[..]);
    BSixteen();
    RedSmall(v);
    var j := 0;
    while j < 2
      invariant 0 <= j <= 2 && t.Length == 16 && fresh(t)
      invariant Digits(t[..]) && Red(V(t[..])) == Red(v)
      invariant 0 <= V(t[..]) < 2 * P + 38 - (if j == 0 then 0 else P) && (j == 2 ==> V(t[..]) < P)
    {
      RedShift(V(t[..]), -1);
      TrySubtract(t);
      j := j + 1;
    }
    RedSmall(V(t[..]));
    StoreBytes(o, t);
  }

  lemma RedSmall(v: int)
    ensures 0 <= v < P ==> Red(v) == v
  {
  }

  method StoreBytes(o: array<u8>, t: array<i64>)
    requires o.Length == 32 && t.Length == 16 && Digits(t[..])
    modifies o
    ensures LE(o[..]) == V(t[..])
  {
    hide V, LE;
    var i := 0;
    while i < 16
      invariant 0 <= i <= 16
      invariant forall k :: 0 <= k < i ==> o[2 * k] as int == t[k] as int % 256 && o[2 * k + 1] as int == t[k] as int / 256
    {
      o[2 * i] := Low8(t[i]);
      o[2 * i + 1] := (t[i] / 256) as u8;
      i := i + 1;
    }
    BytesOfLimbs(o[..], t[..]);
  }
}

/** Multiplication, squaring, addition and subtraction of src/curve25519-fiat32.h
    on ten limbs, with the 32- and 64-bit wrap-around of the C operators written
    out; on the limbs the ladder produces nothing wraps. */
module FiatField {
  import opened Field
  import opened FiatLimbs
  import opened Bits

  /** Truncation to 64 and to 32 bits. */
  function W64(x: int): int { x % 0x1_0000_0000_0000_0000 }
  function W32(x: int): int { x % 0x1_0000_0000 }

  /** Limbs of a sum or difference: at most 3.375 times 2^26 or 2^25. */
  predicate Loose(f: Ten) {
    && 0 <= f.v0 <= 0xd800000 && 0 <= f.v1 <= 0x6c00000 && 0 <= f.v2 <= 0xd800000 && 0 <= f.v3 <= 0x6c00000 && 0 <= f.v4 <= 0xd800000
    && 0 <= f.v5 <= 0x6c00000 && 0 <= f.v6 <= 0xd800000 && 0 <= f.v7 <= 0x6c00000 && 0 <= f.v8 <= 0xd800000 && 0 <= f.v9 <= 0x6c00000
  }

  ghost function Elem(f: Ten): Fe {
    Red(Number(f))
  }

  /** The nineteen columns of a product, low ten and high nine. */
  datatype Columns = Columns(lo: Ten, hi: Ten)

  /** Schoolbook columns; odd times odd weighs double. */
  function Exact(f: Ten, g: Ten): Columns {
    Columns(
      Ten(
      g.v0 * f.v0,
      g.v0 * f.v1 + g.v1 * f.v0,
      2 * (g.v1 * f.v1) + g.v0 * f.v2 + g.v2 * f.v0,
      g.v1 * f.v2 + g.v2 * f.v1 + g.v0 * f.v3 + g.v3 * f.v0,
      g.v2 * f.v2 + 2 * (g.v1 * f.v3 + g.v3 * f.v1) + g.v0 * f.v4 + g.v4 * f.v0,
      g.v2 * f.v3 + g.v3 * f.v2 + g.v1 * f.v4 + g.v4 * f.v1 + g.v0 * f.v5 + g.v5 * f.v0,
      2 * (g.v3 * f.v3 + g.v1 * f.v5 + g.v5 * f.v1) + g.v2 * f.v4 + g.v4 * f.v2 + g.v0 * f.v6 + g.v6 * f.v0,
      g.v3 * f.v4 + g.v4 * f.v3 + g.v2 * f.v5 + g.v5 * f.v2 + g.v1 * f.v6 + g.v6 * f.v1 + g.v0 * f.v7 + g.v7 * f.v0,
      g.v4 * f.v4 + 2 * (g.v3 * f.v5 + g.v5 * f.v3 + g.v1 * f.v7 + g.v7 * f.v1) + g.v2 * f.v6 + g.v6 * f.v2 + g.v0 * f.v8 + g.v8 * f.v0,
      g.v4 * f.v5 + g.v5 * f.v4 + g.v3 * f.v6 + g.v6 * f.v3 + g.v2 * f.v7 + g.v7 * f.v2 + g.v1 * f.v8 + g.v8 * f.v1 + g.v0 * f.v9 + g.v9 * f.v0),
      Ten(
      2 * (g.v5 * f.v5 + g.v3 * f.v7 + g.v7 * f.v3 + g.v1 * f.v9 + g.v9 * f.v1) + g.v4 * f.v6 + g.v6 * f.v4 + g.v2 * f.v8 + g.v8 * f.v2,
      g.v5 * f.v6 + g.v6 * f.v5 + g.v4 * f.v7 + g.v7 * f.v4 + g.v3 * f.v8 + g.v8 * f.v3 + g.v2 * f.v9 + g.v9 * f.v2,
      g.v6 * f.v6 + 2 * (g.v5 * f.v7 + g.v7 * f.v5 + g.v3 * f.v9 + g.v9 * f.v3) + g.v4 * f.v8 + g.v8 * f.v4,
      g.v6 * f.v7 + g.v7 * f.v6 + g.v5 * f.v8 + g.v8 * f.v5 + g.v4 * f.v9 + g.v9 * f.v4,
      2 * (g.v7 * f.v7 + g.v5 * f.v9 + g.v9 * f.v5) + g.v6 * f.v8 + g.v8 * f.v6,
      g.v7 * f.v8 + g.v8 * f.v7 + g.v6 * f.v9 + g.v9 * f.v6,
      g.v8 * f.v8 + 2 * (g.v7 * f.v9 + g.v9 * f.v7),
      g.v8 * f.v9 + g.v9 * f.v8,
      2 * (g.v9 * f.v9),
      0))
  }

  /** The column expressions of the code, before truncation to 64 bits. */
  function MulRaw(f: Ten, g: Ten): Columns {
    Columns(
      Ten(
      g.v0 * f.v0,
      g.v0 * f.v1 + g.v1 * f.v0,
      W32(2 * g.v1) * f.v1 + g.v0 * f.v2 + g.v2 * f.v0,
      g.v1 * f.v2 + g.v2 * f.v1 + g.v0 * f.v3 + g.v3 * f.v0,
      g.v2 * f.v2 + 2 * (g.v1 * f.v3 + g.v3 * f.v1) + g.v0 * f.v4 + g.v4 * f.v0,
      g.v2 * f.v3 + g.v3 * f.v2 + g.v1 * f.v4 + g.v4 * f.v1 + g.v0 * f.v5 + g.v5 * f.v0,
      2 * (g.v3 * f.v3 + g.v1 * f.v5 + g.v5 * f.v1) + g.v2 * f.v4 + g.v4 * f.v2 + g.v0 * f.v6 + g.v6 * f.v0,
      g.v3 * f.v4 + g.v4 * f.v3 + g.v2 * f.v5 + g.v5 * f.v2 + g.v1 * f.v6 + g.v6 * f.v1 + g.v0 * f.v7 + g.v7 * f.v0,
      g.v4 * f.v4 + 2 * (g.v3 * f.v5 + g.v5 * f.v3 + g.v1 * f.v7 + g.v7 * f.v1) + g.v2 * f.v6 + g.v6 * f.v2 + g.v0 * f.v8 + g.v8 * f.v0,
      g.v4 * f.v5 + g.v5 * f.v4 + g.v3 * f.v6 + g.v6 * f.v3 + g.v2 * f.v7 + g.v7 * f.v2 + g.v1 * f.v8 + g.v8 * f.v1 + g.v0 * f.v9 + g.v9 * f.v0),
      Ten(
      2 * (g.v5 * f.v5 + g.v3 * f.v7 + g.v7 * f.v3 + g.v1 * f.v9 + g.v9 * f.v1) + g.v4 * f.v6 + g.v6 * f.v4 + g.v2 * f.v8 + g.v8 * f.v2,
      g.v5 * f.v6 + g.v6 * f.v5 + g.v4 * f.v7 + g.v7 * f.v4 + g.v3 * f.v8 + g.v8 * f.v3 + g.v2 * f.v9 + g.v9 * f.v2,
      g.v6 * f.v6 + 2 * (g.v5 * f.v7 + g.v7 * f.v5 + g.v3 * f.v9 + g.v9 * f.v3) + g.v4 * f.v8 + g.v8 * f.v4,
      g.v6 * f.v7 + g.v7 * f.v6 + g.v5 * f.v8 + g.v8 * f.v5 + g.v4 * f.v9 + g.v9 * f.v4,
      2 * (g.v7 * f.v7 + g.v5 * f.v9 + g.v9 * f.v5) + g.v6 * f.v8 + g.v8 * f.v6,
      g.v7 * f.v8 + g.v8 * f.v7 + g.v6 * f.v9 + g.v9 * f.v6,
      g.v8 * f.v8 + 2 * (g.v7 * f.v9 + g.v9 * f.v7),
      g.v8 * f.v9 + g.v9 * f.v8,
      W32(2 * g.v9) * f.v9,
      0))
  }

  function SqrRaw(f: Ten): Columns {
    Columns(
      Ten(
      f.v0 * f.v0,
      W32(2 * f.v0) * f.v1,
      2 * (f.v1 * f.v1 + f.v0 * f.v2),
      2 * (f.v1 * f.v2 + f.v0 * f.v3),
      f.v2 * f.v2 + W32(4 * f.v1) * f.v3 + W32(2 * f.v0) * f.v4,
      2 * (f.v2 * f.v3 + f.v1 * f.v4 + f.v0 * f.v5),
      2 * (f.v3 * f.v3 + f.v2 * f.v4 + f.v0 * f.v6 + W32(2 * f.v1) * f.v5),
      2 * (f.v3 * f.v4 + f.v2 * f.v5 + f.v1 * f.v6 + f.v0 * f.v7),
      f.v4 * f.v4 + 2 * (f.v2 * f.v6 + f.v0 * f.v8 + 2 * (f.v1 * f.v7 + f.v3 * f.v5)),
      2 * (f.v4 * f.v5 + f.v3 * f.v6 + f.v2 * f.v7 + f.v1 * f.v8 + f.v0 * f.v9)),
      Ten(
      2 * (f.v5 * f.v5 + f.v4 * f.v6 + f.v2 * f.v8 + 2 * (f.v3 * f.v7 + f.v1 * f.v9)),
      2 * (f.v5 * f.v6 + f.v4 * f.v7 + f.v3 * f.v8 + f.v2 * f.v9),
      f.v6 * f.v6 + 2 * (f.v4 * f.v8 + 2 * (f.v5 * f.v7 + f.v3 * f.v9)),
      2 * (f.v6 * f.v7 + f.v5 * f.v8 + f.v4 * f.v9),
      2 * (f.v7 * f.v7 + f.v6 * f.v8 + W32(2 * f.v5) * f.v9),
      2 * (f.v7 * f.v8 + f.v6 * f.v9),
      f.v8 * f.v8 + W32(4 * f.v7) * f.v9,
      W32(2 * f.v8) * f.v9,
      W32(2 * f.v9) * f.v9,
      0))
  }

  function Wrapped(c: Columns): Columns {
    Columns(
      Ten(W64(c.lo.v0), W64(c.lo.v1), W64(c.lo.v2), W64(c.lo.v3), W64(c.lo.v4), W64(c.lo.v5), W64(c.lo.v6), W64(c.lo.v7), W64(c.lo.v8), W64(c.lo.v9)),
      Ten(W64(c.hi.v0), W64(c.hi.v1), W64(c.hi.v2), W64(c.hi.v3), W64(c.hi.v4), W64(c.hi.v5), W64(c.hi.v6), W64(c.hi.v7), W64(c.hi.v8), W64(c.hi.v9)))
  }

  /** The columns as the code computes them. */
  function MulColumns(f: Ten, g: Ten): Columns {
    Wrapped(MulRaw(f, g))
  }

  function SqrColumns(f: Ten): Columns {
    Wrapped(SqrRaw(f))
  }

  /** One group of limbs of g at a time: the columns above 2^255 weigh 2^255 times those below. */
  lemma ExactPart0(f: Ten, g: Ten)
    ensures var h := Ten(g.v0, g.v1, g.v2, 0, 0, 0, 0, 0, 0, 0);
            Val(f) * Val(h) == Val(Exact(f, h).lo) + (P + 19) * Val(Exact(f, h).hi)
  {
  }

  lemma ExactPart1(f: Ten, g: Ten)
    ensures var h := Ten(0, 0, 0, g.v3, g.v4, g.v5, 0, 0, 0, 0);
            Val(f) * Val(h) == Val(Exact(f, h).lo) + (P + 19) * Val(Exact(f, h).hi)
  {
  }

  lemma ExactPart2(f: Ten, g: Ten)
    ensures var h := Ten(0, 0, 0, 0, 0, 0, g.v6, g.v7, g.v8, g.v9);
            Val(f) * Val(h) == Val(Exact(f, h).lo) + (P + 19) * Val(Exact(f, h).hi)
  {
  }

  function Plus(f: Ten, g: Ten): Ten {
    Ten(f.v0 + g.v0, f.v1 + g.v1, f.v2 + g.v2, f.v3 + g.v3, f.v4 + g.v4, f.v5 + g.v5, f.v6 + g.v6, f.v7 + g.v7, f.v8 + g.v8, f.v9 + g.v9)
  }

  lemma PlusValue(f: Ten, g: Ten)
    ensures Val(Plus(f, g)) == Val(f) + Val(g)
  {
  }

  /** Columns add up over the groups. */
  lemma ExactSplit(f: Ten, g: Ten)
    ensures var a, b, c := Exact(f, Ten(g.v0, g.v1, g.v2, 0, 0, 0, 0, 0, 0, 0)), Exact(f, Ten(0, 0, 0, g.v3, g.v4, g.v5, 0, 0, 0, 0)), Exact(f, Ten(0, 0, 0, 0, 0, 0, g.v6, g.v7, g.v8, g.v9));
            && Exact(f, g).lo == Plus(Plus(a.lo, b.lo), c.lo)
            && Exact(f, g).hi == Plus(Plus(a.hi, b.hi), c.hi)
  {
  }

  lemma ExactValue(f: Ten, g: Ten)
    ensures Val(f) * Val(g) == Val(Exact(f, g).lo) + (P + 19) * Val(Exact(f, g).hi)
  {
    hide Exact, Val, Plus;
    var x, y, z := Ten(g.v0, g.v1, g.v2, 0, 0, 0, 0, 0, 0, 0), Ten(0, 0, 0, g.v3, g.v4, g.v5, 0, 0, 0, 0), Ten(0, 0, 0, 0, 0, 0, g.v6, g.v7, g.v8, g.v9);
    var a, b, c := Exact(f, x), Exact(f, y), Exact(f, z);
    ExactPart0(f, g);
    ExactPart1(f, g);
    ExactPart2(f, g);
    ExactSplit(f, g);
    PlusValue(a.lo, b.lo);
    PlusValue(Plus(a.lo, b.lo), c.lo);
    PlusValue(a.hi, b.hi);
    PlusValue(Plus(a.hi, b.hi), c.hi);
    ThreeParts(g);
    ThreeProducts(Val(f), Val(x), Val(y), Val(z));
  }

  lemma ThreeParts(g: Ten)
    ensures Val(g) == Val(Ten(g.v0, g.v1, g.v2, 0, 0, 0, 0, 0, 0, 0)) + Val(Ten(0, 0, 0, g.v3, g.v4, g.v5, 0, 0, 0, 0)) + Val(Ten(0, 0, 0, 0, 0, 0, g.v6, g.v7, g.v8, g.v9))
  {
  }

  lemma ThreeProducts(f: int, x: int, y: int, z: int)
    ensures f * (x + y + z) == f * x + f * y + f * z
  {
  }

  /** Limb products of one row, for a limb of at most n. */
  lemma RowBound(f: Ten, y: int, n: int)
    requires Loose(f) && 0 <= y <= n
    ensures 0 <= f.v0 * y <= 0xd800000 * n && y * f.v0 == f.v0 * y
    ensures 0 <= f.v1 * y <= 0x6c00000 * n && y * f.v1 == f.v1 * y
    ensures 0 <= f.v2 * y <= 0xd800000 * n && y * f.v2 == f.v2 * y
    ensures 0 <= f.v3 * y <= 0x6c00000 * n && y * f.v3 == f.v3 * y
    ensures 0 <= f.v4 * y <= 0xd800000 * n && y * f.v4 == f.v4 * y
    ensures 0 <= f.v5 * y <= 0x6c00000 * n && y * f.v5 == f.v5 * y
    ensures 0 <= f.v6 * y <= 0xd800000 * n && y * f.v6 == f.v6 * y
    ensures 0 <= f.v7 * y <= 0x6c00000 * n && y * f.v7 == f.v7 * y
    ensures 0 <= f.v8 * y <= 0xd800000 * n && y * f.v8 == f.v8 * y
    ensures 0 <= f.v9 * y <= 0x6c00000 * n && y * f.v9 == f.v9 * y
  {
    ProductBound(f.v0, y, 0xd800000, n);
    ProductBound(f.v1, y, 0x6c00000, n);
    ProductBound(f.v2, y, 0xd800000, n);
    ProductBound(f.v3, y, 0x6c00000, n);
    ProductBound(f.v4, y, 0xd800000, n);
    ProductBound(f.v5, y, 0x6c00000, n);
    ProductBound(f.v6, y, 0xd800000, n);
    ProductBound(f.v7, y, 0x6c00000, n);
    ProductBound(f.v8, y, 0xd800000, n);
    ProductBound(f.v9, y, 0x6c00000, n);
  }

  /** A low column and 19 times the high one above it fit in 63 bits. */
  predicate Room(lo: int, hi: int) {
    0 <= lo && 0 <= hi && lo + 19 * hi < 0x8000_0000_0000_0000
  }

  predicate Roomy(c: Columns) {
    && Room(c.lo.v0, c.hi.v0) && Room(c.lo.v1, c.hi.v1) && Room(c.lo.v2, c.hi.v2) && Room(c.lo.v3, c.hi.v3) && Room(c.lo.v4, c.hi.v4)
    && Room(c.lo.v5, c.hi.v5) && Room(c.lo.v6, c.hi.v6) && Room(c.lo.v7, c.hi.v7) && Room(c.lo.v8, c.hi.v8) && Room(c.lo.v9, c.hi.v9)
  }

  lemma ExactBound(f: Ten, g: Ten)
    requires Loose(f) && Loose(g)
    ensures Roomy(Exact(f, g))
  {
    RowBound(f, g.v0, 0xd800000);
    RowBound(f, g.v1, 0x6c00000);
    RowBound(f, g.v2, 0xd800000);
    RowBound(f, g.v3, 0x6c00000);
    RowBound(f, g.v4, 0xd800000);
    RowBound(f, g.v5, 0x6c00000);
    RowBound(f, g.v6, 0xd800000);
    RowBound(f, g.v7, 0x6c00000);
    RowBound(f, g.v8, 0xd800000);
    RowBound(f, g.v9, 0x6c00000);
  }

  lemma WrappedExact(c: Columns)
    requires Roomy(c)
    ensures Wrapped(c) == c
  {
  }

  /** Within these bounds no column of the code wraps. */
  lemma MulColumnsExact(f: Ten, g: Ten)
    requires Loose(f) && Loose(g)
    ensures MulColumns(f, g) == Exact(f, g) && Roomy(Exact(f, g))
  {
    hide Exact, MulRaw, Roomy, Wrapped;
    MulRawExact(f, g);
    ExactBound(f, g);
    WrappedExact(Exact(f, g));
  }

  lemma MulRawExact(f: Ten, g: Ten)
    requires Loose(f) && Loose(g)
    ensures MulRaw(f, g) == Exact(f, g)
  {
    hide W32;
    SmallWord(g.v1, f.v1, 2);
    SmallWord(g.v9, f.v9, 2);
  }

  /** Squaring computes the same columns with fewer products. */
  lemma SqrColumnsExact(f: Ten)
    requires Loose(f)
    ensures SqrColumns(f) == Exact(f, f) && Roomy(Exact(f, f))
  {
    hide Exact, SqrRaw, Roomy, Wrapped;
    SqrRawLow(f);
    SqrRawHigh(f);
    ExactBound(f, f);
    WrappedExact(Exact(f, f));
  }

  lemma SqrRawLow(f: Ten)
    requires Loose(f)
    ensures SqrRaw(f).lo == Exact(f, f).lo
  {
    hide W32;
    SmallWord(f.v0, f.v1, 2);
    SmallWord(f.v1, f.v3, 4);
    SmallWord(f.v0, f.v4, 2);
    SmallWord(f.v1, f.v5, 2);
  }

  lemma SqrRawHigh(f: Ten)
    requires Loose(f)
    ensures SqrRaw(f).hi == Exact(f, f).hi
  {
    hide W32;
    SmallWord(f.v5, f.v9, 2);
    SmallWord(f.v7, f.v9, 4);
    SmallWord(f.v8, f.v9, 2);
    SmallWord(f.v9, f.v9, 2);
  }

  lemma SmallWord(x: int, y: int, k: int)
    requires 0 <= x <= 0xd800000 && 0 <= k <= 4
    ensures W32(k * x) * y == k * (x * y)
  {
    assert W32(k * x) == k * x;
  }

  /** `lo + (hi << 4) + (hi << 1) + hi`, each step in 64 bits. */
  function Fold19(lo: int, hi: int): int {
    W64(W64(W64(lo + W64(16 * hi)) + W64(2 * hi)) + hi)
  }

  lemma Within64(x: int)
    requires 0 <= x < 0x8000_0000_0000_0000
    ensures W64(x) == x
  {
  }

  lemma Fold19Exact(lo: int, hi: int)
    requires Room(lo, hi)
    ensures Fold19(lo, hi) == lo + 19 * hi
  {
    hide W64;
    Within64(16 * hi);
    Within64(lo + 16 * hi);
    Within64(2 * hi);
    Within64(lo + 18 * hi);
    Within64(lo + 19 * hi);
  }

  function Folded(c: Columns): Ten {
    Ten(Fold19(c.lo.v0, c.hi.v0), Fold19(c.lo.v1, c.hi.v1), Fold19(c.lo.v2, c.hi.v2), Fold19(c.lo.v3, c.hi.v3), Fold19(c.lo.v4, c.hi.v4),
        Fold19(c.lo.v5, c.hi.v5), Fold19(c.lo.v6, c.hi.v6), Fold19(c.lo.v7, c.hi.v7), Fold19(c.lo.v8, c.hi.v8), c.lo.v9)
  }

  lemma FoldedExact(c: Columns)
    requires Roomy(c) && c.hi.v9 == 0
    ensures var t := Folded(c);
            && Below63(t.v0) && Below63(t.v1) && Below63(t.v2) && Below63(t.v3) && Below63(t.v4)
            && Below63(t.v5) && Below63(t.v6) && Below63(t.v7) && Below63(t.v8) && Below63(t.v9)
            && Val(t) == Val(c.lo) + 19 * Val(c.hi)
  {
    hide Fold19;
    Fold19Exact(c.lo.v0, c.hi.v0);
    Fold19Exact(c.lo.v1, c.hi.v1);
    Fold19Exact(c.lo.v2, c.hi.v2);
    Fold19Exact(c.lo.v3, c.hi.v3);
    Fold19Exact(c.lo.v4, c.hi.v4);
    Fold19Exact(c.lo.v5, c.hi.v5);
    Fold19Exact(c.lo.v6, c.hi.v6);
    Fold19Exact(c.lo.v7, c.hi.v7);
    Fold19Exact(c.lo.v8, c.hi.v8);
  }

  predicate Below63(x: int) {
    0 <= x < 0x8000_0000_0000_0000
  }

  /** A carry and a column: the part below w, and the new carry. */
  function Split(w: int, c: int, x: int): (int, int)
    requires w > 0
  {
    var y := W64(c + x);
    (y % w, y / w)
  }

  lemma SplitExact(w: int, c: int, x: int)
    requires Below63(x) && 0 <= c <= 0x100_0000_0000 && (w == 0x4000000 || w == 0x2000000)
    ensures var (l, d) := Split(w, c, x);
            0 <= l < w && 0 <= d <= 0x100_0000_0000 && l + w * d == c + x
  {
  }

  /** One pass of carries; what leaves the top is returned beside the limbs. */
  function CarryPass(t: Ten): (Ten, int) {
    var (x87, x86) := Split(0x4000000, 0, t.v0);
    var (x90, x89) := Split(0x2000000, x86, t.v1);
    var (x93, x92) := Split(0x4000000, x89, t.v2);
    var (x96, x95) := Split(0x2000000, x92, t.v3);
    var (x99, x98) := Split(0x4000000, x95, t.v4);
    var (x102, x101) := Split(0x2000000, x98, t.v5);
    var (x105, x104) := Split(0x4000000, x101, t.v6);
    var (x108, x107) := Split(0x2000000, x104, t.v7);
    var (x111, x110) := Split(0x4000000, x107, t.v8);
    var (x114, x113) := Split(0x2000000, x110, t.v9);
    (Ten(x87, x90, x93, x96, x99, x102, x105, x108, x111, x114), x113)
  }

  lemma CarryPassValue(t: Ten)
    requires Below63(t.v0) && Below63(t.v1) && Below63(t.v2) && Below63(t.v3) && Below63(t.v4)
    requires Below63(t.v5) && Below63(t.v6) && Below63(t.v7) && Below63(t.v8) && Below63(t.v9)
    ensures var (f, c) := CarryPass(t);
            Canonical(f) && 0 <= c <= 0x100_0000_0000 && Val(f) + (P + 19) * c == Val(t)
  {
    hide Split;
    var (x87, x86) := Split(0x4000000, 0, t.v0);
    SplitExact(0x4000000, 0, t.v0);
    var (x90, x89) := Split(0x2000000, x86, t.v1);
    SplitExact(0x2000000, x86, t.v1);
    var (x93, x92) := Split(0x4000000, x89, t.v2);
    SplitExact(0x4000000, x89, t.v2);
    var (x96, x95) := Split(0x2000000, x92, t.v3);
    SplitExact(0x2000000, x92, t.v3);
    var (x99, x98) := Split(0x4000000, x95, t.v4);
    SplitExact(0x4000000, x95, t.v4);
    var (x102, x101) := Split(0x2000000, x98, t.v5);
    SplitExact(0x2000000, x98, t.v5);
    var (x105, x104) := Split(0x4000000, x101, t.v6);
    SplitExact(0x4000000, x101, t.v6);
    var (x108, x107) := Split(0x2000000, x104, t.v7);
    SplitExact(0x2000000, x104, t.v7);
    var (x111, x110) := Split(0x4000000, x107, t.v8);
    SplitExact(0x4000000, x107, t.v8);
    SplitExact(0x2000000, x110, t.v9);
  }

  /** The carry out of the top re-enters at the bottom times 19, and ripples two limbs. */
  function CarryTop(f: Ten, x113: int): Ten {
    var x115 := W64(f.v0 + W64(19 * x113));
    var x116 := W32(x115 / 0x4000000);
    var x117 := x115 % 0x4000000;
    var x118 := W32(x116 + f.v1);
    var x119 := x118 / 0x2000000;
    var x120 := x118 % 0x2000000;
    f.(v0 := x117, v1 := x120, v2 := W32(x119 + f.v2))
  }

  lemma CarryTopLimbs(a: int, b: int, d: int, c: int)
    requires 0 <= a < 0x4000000 && 0 <= b < 0x2000000 && 0 <= d < 0x4000000 && 0 <= c <= 0x100_0000_0000
    ensures var x115 := W64(a + W64(19 * c));
            var x116 := W32(x115 / 0x4000000);
            var x118 := W32(x116 + b);
            var x119 := x118 / 0x2000000;
            && 0 <= x119 <= 1 && W32(x119 + d) == x119 + d
            && x115 % 0x4000000 + 0x4000000 * (x118 % 0x2000000) + 0x8000000000000 * (x119 + d)
               == a + 0x4000000 * b + 0x8000000000000 * d + 19 * c
  {
    hide W64;
    Within64(19 * c);
    Within64(a + 19 * c);
  }

  lemma CarryTopValue(f: Ten, c: int)
    requires Canonical(f) && 0 <= c <= 0x100_0000_0000
    ensures Tight(CarryTop(f, c)) && Val(CarryTop(f, c)) == Val(f) + 19 * c
  {
    hide W64, W32;
    CarryTopLimbs(f.v0, f.v1, f.v2, c);
  }

  /** fe_mul_impl. */
  function MulImpl(f: Ten, g: Ten): Ten {
    var (t, c) := CarryPass(Folded(MulColumns(f, g)));
    CarryTop(t, c)
  }

  /** fe_sqr_impl. */
  function SqrImpl(f: Ten): Ten {
    var (t, c) := CarryPass(Folded(SqrColumns(f)));
    CarryTop(t, c)
  }

  /** Both reductions keep the value modulo P. */
  lemma ReduceColumns(f: Ten, g: Ten)
    requires Loose(f) && Loose(g)
    ensures Roomy(Exact(f, g)) ==>
              var (t, c) := CarryPass(Folded(Exact(f, g)));
              Tight(CarryTop(t, c)) && Elem(CarryTop(t, c)) == Mul(Elem(f), Elem(g))
  {
    hide Exact, Roomy, Folded, CarryPass, CarryTop, Val, Number, Red, Mul;
    NumberIs(f);
    NumberIs(g);
    if Roomy(Exact(f, g)) {
      var e := Exact(f, g);
      TopColumn(f, g);
      FoldedExact(e);
      CarryPassValue(Folded(e));
      var (t, c) := CarryPass(Folded(e));
      CarryTopValue(t, c);
      NumberIs(CarryTop(t, c));
      ExactValue(f, g);
      MulRed(Val(f), Val(g));
      RedShift(Val(CarryTop(t, c)), Val(e.hi) + c);
    }
  }

  lemma TopColumn(f: Ten, g: Ten)
    ensures Exact(f, g).hi.v9 == 0
  {
  }

  lemma MulImplIsProduct(f: Ten, g: Ten)
    requires Loose(f) && Loose(g)
    ensures Tight(MulImpl(f, g)) && Elem(MulImpl(f, g)) == Mul(Elem(f), Elem(g))
  {
    hide Exact, MulColumns, Roomy, Folded, CarryPass, CarryTop, Number, Red, Mul;
    MulColumnsExact(f, g);
    ReduceColumns(f, g);
  }

  lemma SqrImplIsSquare(f: Ten)
    requires Loose(f)
    ensures Tight(SqrImpl(f)) && Elem(SqrImpl(f)) == Mul(Elem(f), Elem(f))
  {
    hide Exact, SqrColumns, Roomy, Folded, CarryPass, CarryTop, Number, Red, Mul;
    SqrColumnsExact(f);
    ReduceColumns(f, f);
  }

  /** fe_mul_121666_impl is the product by the constant 121666. */
  function Mul121666(f: Ten): Ten {
    MulImpl(f, Ten(121666, 0, 0, 0, 0, 0, 0, 0, 0, 0))
  }

  /** fe_add: limbs add in 32 bits. */
  function AddImpl(f: Ten, g: Ten): Ten {
    Ten(W32(f.v0 + g.v0), W32(f.v1 + g.v1), W32(f.v2 + g.v2), W32(f.v3 + g.v3), W32(f.v4 + g.v4),
        W32(f.v5 + g.v5), W32(f.v6 + g.v6), W32(f.v7 + g.v7), W32(f.v8 + g.v8), W32(f.v9 + g.v9))
  }

  /** fe_sub: 2 P is added limb by limb to keep the difference positive. */
  function SubImpl(f: Ten, g: Ten): Ten {
    Ten(W32(0x7ffffda + f.v0 - g.v0), W32(0x3fffffe + f.v1 - g.v1), W32(0x7fffffe + f.v2 - g.v2), W32(0x3fffffe + f.v3 - g.v3),
        W32(0x7fffffe + f.v4 - g.v4), W32(0x3fffffe + f.v5 - g.v5), W32(0x7fffffe + f.v6 - g.v6), W32(0x3fffffe + f.v7 - g.v7),
        W32(0x7fffffe + f.v8 - g.v8), W32(0x3fffffe + f.v9 - g.v9))
  }

  lemma Within32(x: int)
    requires 0 <= x < 0x1_0000_0000
    ensures W32(x) == x
  {
  }

  lemma AddImplIsSum(f: Ten, g: Ten)
    requires Tight(f) && Tight(g)
    ensures Loose(AddImpl(f, g)) && Elem(AddImpl(f, g)) == Add(Elem(f), Elem(g))
  {
    hide Red, Val, Number, W32;
    NumberIs(f);
    NumberIs(g);
    NumberIs(AddImpl(f, g));
    Within32(f.v0 + g.v0);
    Within32(f.v1 + g.v1);
    Within32(f.v2 + g.v2);
    Within32(f.v3 + g.v3);
    Within32(f.v4 + g.v4);
    Within32(f.v5 + g.v5);
    Within32(f.v6 + g.v6);
    Within32(f.v7 + g.v7);
    Within32(f.v8 + g.v8);
    Within32(f.v9 + g.v9);
    AddRed(Val(f), Val(g));
    assert AddImpl(f, g) == Plus(f, g);
    PlusValue(f, g);
  }

  lemma SubImplIsDifference(f: Ten, g: Ten)
    requires Tight(f) && Tight(g)
    ensures Loose(SubImpl(f, g)) && Elem(SubImpl(f, g)) == Sub(Elem(f), Elem(g))
  {
    hide Red, Val, Number, SubImpl;
    NumberIs(f);
    NumberIs(g);
    NumberIs(SubImpl(f, g));
    SubRed(Val(f), Val(g));
    SubValue(f, g);
    RedShift(Val(f) - Val(g), 2);
  }

  lemma SubValue(f: Ten, g: Ten)
    requires Tight(f) && Tight(g)
    ensures Loose(SubImpl(f, g)) && Val(SubImpl(f, g)) == Val(f) - Val(g) + 2 * P
  {
    hide W32;
    Within32(0x7ffffda + f.v0 - g.v0);
    Within32(0x3fffffe + f.v1 - g.v1);
    Within32(0x7fffffe + f.v2 - g.v2);
    Within32(0x3fffffe + f.v3 - g.v3);
    Within32(0x7fffffe + f.v4 - g.v4);
    Within32(0x3fffffe + f.v5 - g.v5);
    Within32(0x7fffffe + f.v6 - g.v6);
    Within32(0x3fffffe + f.v7 - g.v7);
    Within32(0x7fffffe + f.v8 - g.v8);
    Within32(0x3fffffe + f.v9 - g.v9);
  }
}

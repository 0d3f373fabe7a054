/** wg_generate_public_key of the embeddable library, against X25519 of RFC 7748. */
module EmbeddedCurve {
  import opened Machine
  import opened Field
  import opened Ladder
  import opened LittleEndian
  import opened Clamping
  import opened Radix16
  import opened EmbeddedField

  /** The six field elements of the ladder, in separate memory. */
  ghost predicate Apart6(a: array<i64>, b: array<i64>, c: array<i64>, d: array<i64>, e: array<i64>, f: array<i64>) {
    && a.Length == 16 && b.Length == 16 && c.Length == 16 && d.Length == 16 && e.Length == 16 && f.Length == 16
    && a != b && a != c && a != d && a != e && a != f && b != c && b != d && b != e && b != f
    && c != d && c != e && c != f && d != e && d != f && e != f
  }

  ghost predicate Reduced4(a: array<i64>, b: array<i64>, c: array<i64>, d: array<i64>)
    reads a, b, c, d
  {
    Reduced(a[..]) && Reduced(b[..]) && Reduced(c[..]) && Reduced(d[..])
  }

  ghost function State(a: array<i64>, b: array<i64>, c: array<i64>, d: array<i64>): Pts
    reads a, b, c, d
  {
    Pts(Elem(a), Elem(c), Elem(b), Elem(d))
  }

  method SmallConstant(v0: i64, v1: i64) returns (o: array<i64>)
    requires 0 <= v0 <= 0xffff && 0 <= v1 <= 0xffff
    ensures fresh(o) && o.Length == 16 && Reduced(o[..])
    ensures V(o[..]) == v0 as int + 0x10000 * v1 as int
  {
    o := new i64[16](i => 0);
    o[0] := v0;
    o[1] := v1;
    ghost var s := o[..];
    VZero(s[2..]);
    VHead(s);
    VHead(s[1..]);
    assert s[1..][1..] == s[2..];
  }

  /** Sums and differences: e, a, c, b := a + c, a - c, b + d, b - d. */
  method StepSums(a: array<i64>, b: array<i64>, c: array<i64>, d: array<i64>, e: array<i64>, f: array<i64>)
    requires Apart6(a, b, c, d, e, f) && Reduced4(a, b, c, d)
    modifies a, b, c, e
    ensures Summed(a[..]) && Summed(b[..]) && Summed(c[..]) && Summed(e[..])
    ensures Elem(e) == Add(old(Elem(a)), old(Elem(c))) && Elem(a) == Sub(old(Elem(a)), old(Elem(c)))
    ensures Elem(c) == Add(old(Elem(b)), old(Elem(d))) && Elem(b) == Sub(old(Elem(b)), old(Elem(d)))
  {
    hide V, Red, Add, Sub, Mul, Reduced, Summed;
    Sum(e, a, c);
    Difference(a, a, c);
    Sum(c, b, d);
    Difference(b, b, d);
  }

  /** Products: d, f, a, c := AA, BB, CB, DA. */
  method StepProducts(a: array<i64>, b: array<i64>, c: array<i64>, d: array<i64>, e: array<i64>, f: array<i64>)
    requires Apart6(a, b, c, d, e, f)
    requires Summed(a[..]) && Summed(b[..]) && Summed(c[..]) && Summed(e[..])
    modifies a, c, d, f
    ensures Reduced4(a, c, d, f)
    ensures Elem(d) == Mul(old(Elem(e)), old(Elem(e))) && Elem(f) == Mul(old(Elem(a)), old(Elem(a)))
    ensures Elem(a) == Mul(old(Elem(c)), old(Elem(a))) && Elem(c) == Mul(old(Elem(b)), old(Elem(e)))
  {
    hide V, Red, Add, Sub, Mul, Reduced, Summed;
    MultMod(d, e, e);
    MultMod(f, a, a);
    MultMod(a, c, a);
    MultMod(c, b, e);
  }

  lemma ReducedIsSummed(s: seq<i64>)
    requires Reduced(s)
    ensures Summed(s)
  {
  }

  /** From AA in d, BB in f, CB in a, DA in c to the new points. */
  method StepFinish(a: array<i64>, b: array<i64>, c: array<i64>, d: array<i64>, e: array<i64>, f: array<i64>)
    requires Apart6(a, b, c, d, e, f) && Reduced4(a, c, d, f)
    modifies a, b, c, d, e
    ensures Reduced4(a, b, c, d)
    ensures var aa, bb, cb, da := old(Elem(d)), old(Elem(f)), old(Elem(a)), old(Elem(c));
            var ee := Sub(aa, bb);
            && Elem(a) == Mul(aa, bb)
            && Elem(c) == Mul(ee, Add(Mul(ee, A24), aa))
            && Elem(b) == Mul(Add(cb, da), Add(cb, da))
            && Elem(d) == Mul(Mul(Sub(cb, da), Sub(cb, da)), 9)
  {
    hide V, Red, Add, Sub, Mul, Reduced, Summed;
    Sum(e, a, c);
    Difference(a, a, c);
    MultMod(b, a, a);
    Difference(c, d, f);
    var k24 := SmallConstant(0xdb41, 1);
    SmallElem(V(k24[..]));
    ReducedIsSummed(k24[..]);
    MultMod(a, c, k24);
    Sum(a, a, d);
    MultMod(c, c, a);
    StepLast(a, b, d, e, f);
  }

  method StepLast(a: array<i64>, b: array<i64>, d: array<i64>, e: array<i64>, f: array<i64>)
    requires a.Length == 16 && b.Length == 16 && d.Length == 16 && e.Length == 16 && f.Length == 16
    requires a != b && a != d && a != e && a != f && b != d && b != e && b != f && d != e && d != f && e != f
    requires Reduced(b[..]) && Reduced(d[..]) && Reduced(f[..]) && Summed(e[..])
    modifies a, b, d
    ensures Reduced(a[..]) && Reduced(b[..]) && Reduced(d[..])
    ensures Elem(a) == Mul(old(Elem(d)), old(Elem(f)))
    ensures Elem(d) == Mul(old(Elem(b)), 9)
    ensures Elem(b) == Mul(old(Elem(e)), old(Elem(e)))
  {
    hide V, Red, Add, Sub, Mul, Reduced, Summed;
    ReducedIsSummed(b[..]);
    ReducedIsSummed(d[..]);
    ReducedIsSummed(f[..]);
    MultMod(a, d, f);
    var nine := SmallConstant(9, 0);
    SmallElem(V(nine[..]));
    ReducedIsSummed(nine[..]);
    MultMod(d, b, nine);
    MultMod(b, e, e);
  }

  lemma SmallElem(v: int)
    requires 0 <= v < P
    ensures Red(v) == v
  {
  }

  /** The formulas of this implementation are the step of RFC 7748 for u = 9. */
  lemma StepFormula(s: Pts)
    ensures var a, b, c, d := Add(s.x2, s.z2), Sub(s.x2, s.z2), Add(s.x3, s.z3), Sub(s.x3, s.z3);
            var aa, bb, cb, da := Mul(a, a), Mul(b, b), Mul(c, b), Mul(d, a);
            var e := Sub(aa, bb);
            Step(9, s) == Pts(Mul(aa, bb), Mul(e, Add(Mul(e, A24), aa)),
                              Mul(Add(cb, da), Add(cb, da)), Mul(Mul(Sub(cb, da), Sub(cb, da)), 9))
  {
    hide Red, Add, Sub, Mul;
    var a, b, c, d := Add(s.x2, s.z2), Sub(s.x2, s.z2), Add(s.x3, s.z3), Sub(s.x3, s.z3);
    var aa, bb, cb, da := Mul(a, a), Mul(b, b), Mul(c, b), Mul(d, a);
    var e := Sub(aa, bb);
    MulComm(e, A24);
    AddComm(aa, Mul(e, A24));
    AddComm(cb, da);
    SqrNeg(cb, da);
    MulComm(9, Mul(Sub(cb, da), Sub(cb, da)));
  }

  /** One bit of the ladder. */
  method LadderBit(a: array<i64>, b: array<i64>, c: array<i64>, d: array<i64>, e: array<i64>, f: array<i64>, r: int)
    requires Apart6(a, b, c, d, e, f) && Reduced4(a, b, c, d) && (r == 0 || r == 1)
    modifies a, b, c, d, e, f
    ensures Reduced4(a, b, c, d)
    ensures State(a, b, c, d) == Swap(r == 1, Step(9, Swap(r == 1, old(State(a, b, c, d)))))
  {
    hide V, Red, Add, Sub, Mul, Reduced, Summed, Step;
    ghost var s := Swap(r == 1, State(a, b, c, d));
    CSwap(a, b, r);
    CSwap(c, d, r);
    assert State(a, b, c, d) == s && Reduced4(a, b, c, d);
    StepSums(a, b, c, d, e, f);
    StepProducts(a, b, c, d, e, f);
    StepFinish(a, b, c, d, e, f);
    StepFormula(s);
    assert State(a, b, c, d) == Step(9, s);
    CSwap(a, b, r);
    CSwap(c, d, r);
  }

  /** The public key is X25519(private key, 9), for every private key. */
  method GeneratePublicKey(publicKey: array<u8>, privateKey: array<u8>)
    requires publicKey.Length == 32 && privateKey.Length == 32
    modifies publicKey
    ensures LE(publicKey[..]) == X25519(old(ClampedValue(privateKey[..])), 9)
  {
    hide V, Red, Add, Sub, Mul, Pow, Reduced, Summed, Step, LE, Bit, Deferred, Eager, ClampedValue, Roomy;
    ghost var k := ClampedValue(privateKey[..]);
    var z := new u8[32](i requires 0 <= i < 32 reads privateKey => privateKey[i]);
    assert z[..] == privateKey[..];
    ClampSecret(z);
    var a, b, c, d, e, f := LadderStart();
    DeferredIsEager(9, k, 255, false, Start(9));
    Ladder255(z, a, b, c, d, e, f, k);
    Invert(c, c);
    ReducedIsSummed(a[..]);
    ReducedIsSummed(c[..]);
    MultMod(a, a, c);
    ReducedIsRoomy(a[..]);
    Pack(publicKey, a);
  }

  lemma ReducedIsRoomy(s: seq<i64>)
    requires Reduced(s)
    ensures Roomy(s)
  {
  }

  method LadderStart() returns (a: array<i64>, b: array<i64>, c: array<i64>, d: array<i64>, e: array<i64>, f: array<i64>)
    ensures fresh(a) && fresh(b) && fresh(c) && fresh(d) && fresh(e) && fresh(f)
    ensures Apart6(a, b, c, d, e, f) && Reduced4(a, b, c, d)
    ensures State(a, b, c, d) == Start(9)
  {
    hide V, Red, Reduced;
    SmallElem(0);
    SmallElem(1);
    SmallElem(9);
    a := SmallConstant(1, 0);
    b := SmallConstant(9, 0);
    c := SmallConstant(0, 0);
    d := SmallConstant(1, 0);
    e := new i64[16];
    f := new i64[16];
  }

  method Ladder255(z: array<u8>, a: array<i64>, b: array<i64>, c: array<i64>, d: array<i64>, e: array<i64>, f: array<i64>, ghost k: nat)
    requires z.Length == 32 && LE(z[..]) == k
    requires Apart6(a, b, c, d, e, f) && Reduced4(a, b, c, d)
    modifies a, b, c, d, e, f
    ensures Reduced4(a, b, c, d)
    ensures State(a, b, c, d) == Eager(9, k, 255, old(State(a, b, c, d)))
  {
    hide V, Red, Reduced, Step, LE, Bit;
    ghost var s := State(a, b, c, d);
    ghost var bytes := z[..];
    var i := 254;
    while i >= 0
      invariant -1 <= i <= 254
      invariant Reduced4(a, b, c, d)
      invariant Eager(9, k, i + 1, State(a, b, c, d)) == Eager(9, k, 255, s)
    {
      assert z[..] == bytes;
      var r := ScalarBit(z[..], i);
      LadderBit(a, b, c, d, e, f, r);
      i := i - 1;
    }
  }
}

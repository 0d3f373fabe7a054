/** Numbers in radix 2^16 with signed limbs, as the embeddable library keeps them. */
module Radix16 {
  import opened Machine
  import opened Field

  /** The integer a limb vector stands for. */
  function V(s: seq<i64>): int {
    if s == [] then 0 else s[0] as int + 0x10000 * V(s[1..])
  }

  /** 2^(16 n). */
  function B(n: nat): (r: nat)
    ensures r > 0
  {
    if n == 0 then 1 else 0x10000 * B(n - 1)
  }

  lemma {:induction false} BAdd(m: nat, n: nat)
    ensures B(m + n) == B(m) * B(n)
  {
    if m != 0 {
      BAdd(m - 1, n);
      assert 0x10000 * (B(m - 1) * B(n)) == (0x10000 * B(m - 1)) * B(n);
    }
  }

  /** 2^256 = 2 P + 38, which is why carries out of the top re-enter times 38. */
  lemma BSixteen()
    ensures B(4) == 0x1_0000_0000_0000_0000
    ensures B(15) == 0x1000000000000000000000000000000000000000000000000000000000000
    ensures B(16) == 2 * P + 38
  {
    assert B(1) == 0x10000;
    assert B(2) == 0x1_0000_0000;
    assert B(3) == 0x1_0000_0000_0000;
    assert B(4) == 0x1_0000_0000_0000_0000;
    hide B;
    BAdd(4, 4);
    assert B(8) == 0x1_0000_0000_0000_0000_0000_0000_0000_0000;
    BAdd(8, 4);
    assert B(12) == 0x1000000000000000000000000000000000000000000000000;
    BAdd(12, 3);
    BAdd(8, 8);
  }

  lemma {:induction false} VAppend(s: seq<i64>, t: seq<i64>)
    ensures V(s + t) == V(s) + B(|s|) * V(t)
  {
    if s == [] {
      assert s + t == t;
    } else {
      VAppend(s[1..], t);
      assert (s + t)[1..] == s[1..] + t;
      var b := B(|s| - 1);
      assert 0x10000 * (b * V(t)) == (0x10000 * b) * V(t);
    }
  }

  lemma VSingle(x: i64)
    ensures V([x]) == x as int
  {
    assert [x][1..] == [];
  }

  /** Value of a vector as its first k limbs, limb k, and the rest. */
  lemma VSplit(s: seq<i64>, k: nat)
    requires k < |s|
    ensures V(s) == V(s[..k]) + B(k) * (s[k] as int + 0x10000 * V(s[k + 1..]))
  {
    hide B, V;
    var a, r := s[..k], s[k..];
    assert s == a + r;
    VAppend(a, r);
    VHead(r);
    assert r[1..] == s[k + 1..];
  }

  lemma VHead(s: seq<i64>)
    requires s != []
    ensures V(s) == s[0] as int + 0x10000 * V(s[1..])
  {
  }

  /** Changing one limb. */
  lemma VUpdate(s: seq<i64>, k: nat, x: i64)
    requires k < |s|
    ensures V(s[k := x]) == V(s) + (x as int - s[k] as int) * B(k)
  {
    var t := s[k := x];
    VSplit(s, k);
    VSplit(t, k);
    assert t[..k] == s[..k] && t[k + 1..] == s[k + 1..];
    LimbDelta(B(k), s[k] as int, x as int, 0x10000 * V(s[k + 1..]));
  }

  lemma LimbDelta(b: int, old': int, new': int, r: int)
    ensures b * (new' + r) == b * (old' + r) + (new' - old') * b
  {
  }

  /** The last limb of a prefix. */
  lemma VPrefix(s: seq<i64>, k: nat)
    requires k < |s|
    ensures V(s[..k + 1]) == V(s[..k]) + s[k] as int * B(k)
  {
    assert s[..k + 1] == s[..k] + [s[k]];
    VAppend(s[..k], [s[k]]);
    VSingle(s[k]);
  }

  predicate Digits(s: seq<i64>) {
    forall i :: 0 <= i < |s| ==> 0 <= s[i] <= 0xffff
  }

  lemma {:induction false} VDigits(s: seq<i64>)
    requires Digits(s)
    ensures 0 <= V(s) < B(|s|)
  {
    if s != [] {
      VDigits(s[1..]);
    }
  }

  /** Limbs at most m in size give a value at most m (2^(16 n) - 1) / (2^16 - 1). */
  lemma {:induction false} VBound(s: seq<i64>, m: int)
    requires 0 <= m && forall i :: 0 <= i < |s| ==> -m <= s[i] as int <= m
    ensures -(m * (B(|s|) - 1)) <= 0xffff * V(s) <= m * (B(|s|) - 1)
  {
    if s != [] {
      VBound(s[1..], m);
      GeometricStep(m, B(|s| - 1));
    }
  }

  lemma GeometricStep(m: int, b: int)
    ensures 0xffff * m + 0x10000 * (m * (b - 1)) == m * (0x10000 * b - 1)
  {
  }
}

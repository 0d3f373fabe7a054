/** Texts that are the same but for the case of their letters. */
module Letters {
  function Upper(c: char): char {
    if 'a' <= c <= 'z' then c - 32 as char else c
  }

  /** strcasecmp. */
  predicate Same(a: string, b: string) {
    |a| == |b| && forall i :: 0 <= i < |a| ==> Upper(a[i]) == Upper(b[i])
  }

  /** One of some names, in any case. */
  predicate Among(t: string, names: seq<string>) {
    exists i :: 0 <= i < |names| && Same(t, names[i])
  }

  predicate Pair(lower: char, upper: char) {
    exists k :: 0 <= k < 26 && lower == "abcdefghijklmnopqrstuvwxyz"[k] && upper == "ABCDEFGHIJKLMNOPQRSTUVWXYZ"[k]
  }

  lemma Alphabet(k: nat)
    requires k < 26
    ensures "abcdefghijklmnopqrstuvwxyz"[k] as int == 97 + k && "ABCDEFGHIJKLMNOPQRSTUVWXYZ"[k] as int == 65 + k
  {
  }

  lemma PairIs(c: char, d: char)
    ensures Pair(c, d) <==> 'a' <= c <= 'z' && d as int == c as int - 32
  {
    if 'a' <= c <= 'z' && d as int == c as int - 32 {
      Alphabet(c as int - 97);
    }
    if k :| 0 <= k < 26 && c == "abcdefghijklmnopqrstuvwxyz"[k] && d == "ABCDEFGHIJKLMNOPQRSTUVWXYZ"[k] {
      Alphabet(k);
    }
  }

  /** Character by character: equal, or a letter in its two cases. */
  lemma SameExactly(a: string, b: string)
    ensures Same(a, b) <==> |a| == |b| && forall i :: 0 <= i < |a| ==> a[i] == b[i] || Pair(a[i], b[i]) || Pair(b[i], a[i])
  {
    hide Pair;
    if |a| == |b| {
      forall i | 0 <= i < |a|
        ensures Upper(a[i]) == Upper(b[i]) <==> a[i] == b[i] || Pair(a[i], b[i]) || Pair(b[i], a[i])
      {
        PairIs(a[i], b[i]);
        PairIs(b[i], a[i]);
      }
    }
  }

  lemma SameItself(s: string)
    ensures Same(s, s)
  {
  }

  lemma SameLength(k: string, a: string)
    requires Same(k, a)
    ensures |k| == |a|
  {
  }

  lemma SameTwice(k: string, a: string, b: string)
    requires Same(k, a)
    ensures Same(k, b) <==> Same(a, b)
  {
  }

  lemma Differ(a: string, b: string, i: nat)
    requires |a| != |b| || (i < |a| && Upper(a[i]) != Upper(b[i]))
    ensures !Same(a, b)
  {
  }
}

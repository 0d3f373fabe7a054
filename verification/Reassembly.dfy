/** Reassembling a dump (src/ipc-linux.h): what coalesce_peers makes of any list of
    fragments, when it may be called, and that it undoes fragmentation. */
module Reassembly {
  import opened Common
  import opened WgDevice
  import opened Coalesce

  /** Fragments of one peer that follow one another. */
  datatype Run = Run(first: Fragment, rest: seq<Fragment>)

  function Flatten(rs: seq<Run>): seq<Fragment> {
    if rs == [] then [] else [rs[0].first] + rs[0].rest + Flatten(rs[1..])
  }

  predicate OneKey(r: Run) {
    forall i :: 0 <= i < |r.rest| ==> r.rest[i].key == r.first.key
  }

  /** Each run has one key, and the next run another. */
  ghost predicate Proper(rs: seq<Run>) {
    && (forall i :: 0 <= i < |rs| ==> OneKey(rs[i]))
    && (forall i, j :: 0 <= i < j < |rs| && j == i + 1 ==> rs[i].first.key != rs[j].first.key)
  }

  function JoinAll(a: Fragment, rest: seq<Fragment>): Fragment
    decreases |rest|
  {
    if rest == [] then a else JoinAll(Join(a, rest[0]), rest[1..])
  }

  /** No tail pointer is needed after it was lost. */
  predicate JoinsSafe(a: Fragment, rest: seq<Fragment>)
    decreases |rest|
  {
    rest == [] || (!a.tailLost && JoinsSafe(Join(a, rest[0]), rest[1..]))
  }

  function Wholes(rs: seq<Run>): seq<Fragment> {
    if rs == [] then [] else [JoinAll(rs[0].first, rs[0].rest)] + Wholes(rs[1..])
  }

  // ----- the loop works run by run -----

  lemma {:induction false} OneRun(done: seq<Fragment>, a: Fragment, rest: seq<Fragment>, tail: seq<Fragment>)
    requires OneKey(Run(a, rest)) && (tail != [] ==> tail[0].key != a.key)
    ensures MergeFrom(done + [a] + rest + tail, |done|) == MergeFrom(done + [JoinAll(a, rest)] + tail, |done| + 1)
    ensures SafeFrom(done + [a] + rest + tail, |done|) <==>
            JoinsSafe(a, rest) && SafeFrom(done + [JoinAll(a, rest)] + tail, |done| + 1)
    decreases |rest|
  {
    hide Join;
    var f, p := done + [a] + rest + tail, |done|;
    assert f[p] == a;
    if rest == [] {
      assert f == done + [a] + tail;
    } else {
      var b := Join(a, rest[0]);
      assert f[p + 1] == rest[0];
      assert Joined(f, p) == done + [b] + rest[1..] + tail;
      assert b.key == a.key by { JoinKey(a, rest[0]); }
      assert forall i :: 0 <= i < |rest[1..]| ==> rest[1..][i] == rest[i + 1];
      OneRun(done, b, rest[1..], tail);
    }
  }

  lemma JoinKey(a: Fragment, b: Fragment)
    ensures Join(a, b).key == a.key
  {
  }

  lemma {:induction false} JoinAllKey(a: Fragment, rest: seq<Fragment>)
    ensures JoinAll(a, rest).key == a.key && JoinAll(a, rest).info == a.info
    decreases |rest|
  {
    if rest != [] {
      JoinAllKey(Join(a, rest[0]), rest[1..]);
    }
  }

  predicate AllSafe(rs: seq<Run>) {
    rs == [] || (JoinsSafe(rs[0].first, rs[0].rest) && AllSafe(rs[1..]))
  }

  lemma {:induction false} AllSafeIs(rs: seq<Run>)
    ensures AllSafe(rs) <==> forall i :: 0 <= i < |rs| ==> JoinsSafe(rs[i].first, rs[i].rest)
  {
    hide JoinsSafe;
    if rs != [] {
      AllSafeIs(rs[1..]);
      assert forall i :: 0 < i < |rs| ==> rs[i] == rs[1..][i - 1];
    }
  }

  lemma ProperTail(rs: seq<Run>)
    requires Proper(rs) && rs != []
    ensures OneKey(rs[0]) && Proper(rs[1..])
    ensures var tail := Flatten(rs[1..]); tail != [] ==> tail[0].key != rs[0].first.key
  {
    assert |rs| > 1 ==> rs[1..][0] == rs[1];
  }

  /** Coalescing turns every run into one peer, and is safe when every run is. */
  lemma {:induction false} MergeRuns(done: seq<Fragment>, rs: seq<Run>)
    requires Proper(rs)
    ensures MergeFrom(done + Flatten(rs), |done|) == done + Wholes(rs)
    ensures SafeFrom(done + Flatten(rs), |done|) <==> AllSafe(rs)
    decreases |rs|
  {
    if rs == [] {
      assert done + [] == done;
    } else {
      hide JoinAll, JoinsSafe, MergeFrom, SafeFrom, Proper, OneKey, Flatten, Wholes, AllSafe;
      var r, tail := rs[0], Flatten(rs[1..]);
      var w := JoinAll(r.first, r.rest);
      ProperTail(rs);
      assert r == Run(r.first, r.rest);
      OneRun(done, r.first, r.rest, tail);
      FlattenFirst(done, rs);
      MergeRuns(done + [w], rs[1..]);
    }
  }

  lemma FlattenFirst(done: seq<Fragment>, rs: seq<Run>)
    requires rs != []
    ensures var r, tail := rs[0], Flatten(rs[1..]);
            && done + Flatten(rs) == done + [r.first] + r.rest + tail
            && done + [JoinAll(r.first, r.rest)] + Wholes(rs[1..]) == done + Wholes(rs)
            && (AllSafe(rs) <==> JoinsSafe(r.first, r.rest) && AllSafe(rs[1..]))
  {
    hide JoinAll, JoinsSafe, AllSafe, Flatten, Wholes;
    FlattenHead(rs);
    WholesHead(rs);
    SafeFirst(rs);
    Regroup(done, rs[0].first, rs[0].rest, Flatten(rs[1..]));
    Regroup(done, JoinAll(rs[0].first, rs[0].rest), [], Wholes(rs[1..]));
  }

  lemma FlattenHead(rs: seq<Run>)
    requires rs != []
    ensures Flatten(rs) == [rs[0].first] + rs[0].rest + Flatten(rs[1..])
  {
  }

  lemma WholesHead(rs: seq<Run>)
    requires rs != []
    ensures Wholes(rs) == [JoinAll(rs[0].first, rs[0].rest)] + [] + Wholes(rs[1..])
  {
    hide JoinAll;
  }

  lemma Regroup(a: seq<Fragment>, x: Fragment, b: seq<Fragment>, c: seq<Fragment>)
    ensures a + ([x] + b + c) == a + [x] + b + c
  {
  }

  lemma SafeFirst(rs: seq<Run>)
    requires rs != []
    ensures AllSafe(rs) <==> JoinsSafe(rs[0].first, rs[0].rest) && AllSafe(rs[1..])
  {
    hide JoinsSafe;
  }

  // ----- every list is made of runs -----

  /** A fragment before some runs joins the first of them or starts its own. */
  function Prepend(a: Fragment, q: seq<Run>): seq<Run> {
    if q != [] && q[0].first.key == a.key then [Run(a, [q[0].first] + q[0].rest)] + q[1..] else [Run(a, [])] + q
  }

  /** The runs of a list. */
  function RunsOf(f: seq<Fragment>): seq<Run> {
    if f == [] then [] else Prepend(f[0], RunsOf(f[1..]))
  }

  lemma PrependProper(a: Fragment, q: seq<Run>)
    requires Proper(q)
    ensures Proper(Prepend(a, q))
  {
    var rs := Prepend(a, q);
    if q != [] && q[0].first.key == a.key {
      assert OneKey(q[0]) && OneKey(rs[0]);
      assert forall i :: 0 < i < |rs| ==> rs[i] == q[i];
    } else {
      assert forall i :: 0 < i < |rs| ==> rs[i] == q[i - 1];
    }
  }

  lemma PrependFlat(a: Fragment, q: seq<Run>)
    ensures Flatten(Prepend(a, q)) == [a] + Flatten(q)
  {
    var rs := Prepend(a, q);
    if q != [] && q[0].first.key == a.key {
      assert rs[1..] == q[1..];
      assert [a] + ([q[0].first] + q[0].rest) + Flatten(q[1..]) == [a] + ([q[0].first] + q[0].rest + Flatten(q[1..]));
    } else {
      assert rs[1..] == q;
    }
  }

  lemma {:induction false} RunsAreProper(f: seq<Fragment>)
    ensures Proper(RunsOf(f)) && Flatten(RunsOf(f)) == f
  {
    hide Proper, Prepend;
    if f == [] {
      assert Proper([]) by { NoRuns(); }
    } else {
      RunsAreProper(f[1..]);
      PrependProper(f[0], RunsOf(f[1..]));
      PrependFlat(f[0], RunsOf(f[1..]));
    }
  }

  lemma NoRuns()
    ensures Proper([])
  {
  }

  /** What is kept of every fragment that the parser produces. */
  predicate Fresh(f: seq<Fragment>) {
    forall i :: 0 <= i < |f| ==> !f[i].tailLost
  }

  function IpsOf(f: seq<Fragment>): seq<AllowedIp> {
    if f == [] then [] else f[0].ips + IpsOf(f[1..])
  }

  /** In a run, an empty fragment that is not the last has only empty ones before it. */
  predicate Tidy(r: Run) {
    forall j :: 0 <= j < |r.rest| - 1 && r.rest[j].ips == [] ==> r.first.ips + IpsOf(r.rest[..j]) == []
  }

  lemma {:induction false} JoinAllIps(a: Fragment, rest: seq<Fragment>)
    ensures JoinAll(a, rest).ips == a.ips + IpsOf(rest)
    decreases |rest|
  {
    if rest != [] {
      JoinAllIps(Join(a, rest[0]), rest[1..]);
    }
  }

  lemma IpsOfStep(a: Fragment, rest: seq<Fragment>, j: nat)
    requires j < |rest|
    ensures Join(a, rest[0]).ips + IpsOf(rest[1..][..j]) == a.ips + IpsOf(rest[..j + 1])
  {
    assert rest[..j + 1][1..] == rest[1..][..j];
  }

  /** A run joins safely exactly when it is tidy. */
  lemma {:induction false} SafeIffTidy(a: Fragment, rest: seq<Fragment>)
    requires Fresh(rest)
    requires a.tailLost ==> a.ips != []
    ensures JoinsSafe(a, rest) <==> (rest == [] || !a.tailLost) && Tidy(Run(a, rest))
    decreases |rest|
  {
    if rest != [] {
      var b, q := Join(a, rest[0]), rest[1..];
      SafeIffTidy(b, q);
      forall j | 0 <= j < |q|
        ensures q[j] == rest[j + 1] && b.ips + IpsOf(q[..j]) == a.ips + IpsOf(rest[..j + 1])
      {
        IpsOfStep(a, rest, j);
      }
      assert IpsOf(rest[..0]) == [];
      if Tidy(Run(a, rest)) && !a.tailLost {
        forall j | 0 <= j < |q| - 1 && q[j].ips == []
          ensures b.ips + IpsOf(q[..j]) == []
        {
          assert rest[j + 1].ips == [];
        }
        assert q != [] && rest[0].ips == [] ==> a.ips == [];
      }
      if (q == [] || !b.tailLost) && Tidy(Run(b, q)) {
        forall j | 0 <= j < |rest| - 1 && rest[j].ips == []
          ensures a.ips + IpsOf(rest[..j]) == []
        {
          if j > 0 {
            assert q[j - 1].ips == [];
          }
        }
      }
    }
  }

  /** The tail of a run ends up lost exactly when its last fragment is empty and
      some fragment before it is not. */
  lemma {:induction false} TailLostIff(a: Fragment, rest: seq<Fragment>)
    requires Fresh(rest) && rest != []
    ensures JoinAll(a, rest).tailLost <==>
            rest[|rest| - 1].ips == [] && a.ips + IpsOf(rest[..|rest| - 1]) != []
    decreases |rest|
  {
    var b, q, n := Join(a, rest[0]), rest[1..], |rest| - 1;
    if q == [] {
      assert rest[..0] == [];
    } else {
      assert rest[..n][1..] == q[..n - 1];
      TailLostIff(b, q);
    }
  }

  // ----- the main statements -----

  /** coalesce_peers may be called exactly when every run is tidy. */
  lemma SafeExactly(f: seq<Fragment>)
    requires Fresh(f)
    ensures SafeFrom(f, 0) <==> AllTidy(f)
  {
    hide RunsOf, SafeFrom, Tidy, JoinsSafe;
    var rs := RunsOf(f);
    RunsAreProper(f);
    MergeRuns([], rs);
    AllSafeIs(rs);
    assert [] + Flatten(rs) == f;
    forall i | 0 <= i < |rs|
      ensures JoinsSafe(rs[i].first, rs[i].rest) <==> Tidy(rs[i])
    {
      FreshRun(rs, i);
      SafeIffTidy(rs[i].first, rs[i].rest);
      assert rs[i] == Run(rs[i].first, rs[i].rest);
    }
  }

  lemma {:induction false} FreshRun(rs: seq<Run>, i: nat)
    requires i < |rs| && Fresh(Flatten(rs))
    ensures !rs[i].first.tailLost && Fresh(rs[i].rest)
    decreases i
  {
    var f, r, g := Flatten(rs), rs[0], Flatten(rs[1..]);
    var n := 1 + |r.rest|;
    assert f[0] == r.first;
    assert forall j :: 0 <= j < |r.rest| ==> f[1 + j] == r.rest[j];
    if i > 0 {
      assert forall j :: 0 <= j < |g| ==> f[n + j] == g[j];
      FreshRun(rs[1..], i - 1);
    }
  }

  /** Three fragments of one peer, the second and third empty: not safe. */
  lemma UnsafeExample(key: Bytes, info: Info, ip: AllowedIp)
    ensures var empty := Fragment(key, info, [], false);
            !SafeFrom([Fragment(key, info, [ip], false), empty, empty], 0)
  {
    var a, empty := Fragment(key, info, [ip], false), Fragment(key, info, [], false);
    var f := [a, empty, empty];
    assert Joined(f, 0) == [Join(a, empty), empty];
  }

  /** A peer cut into fragments: the first has all that is not allowed IPs. */
  predicate CutOf(r: Run, p: Fragment) {
    && OneKey(r) && r.first.key == p.key && r.first.info == p.info
    && !r.first.tailLost && Fresh(r.rest)
    && r.first.ips + IpsOf(r.rest) == p.ips
    && forall i :: 0 <= i < |r.rest| ==> r.rest[i].ips != []
  }

  /** Reassembly undoes fragmentation, and every tail pointer is right. */
  lemma {:induction false} Reassembles(ps: seq<Fragment>, rs: seq<Run>)
    requires |rs| == |ps| && Fresh(ps)
    requires forall i :: 0 <= i < |ps| ==> CutOf(rs[i], ps[i])
    requires forall i, j :: 0 <= i < j < |ps| && j == i + 1 ==> ps[i].key != ps[j].key
    ensures SafeFrom(Flatten(rs), 0) && MergeFrom(Flatten(rs), 0) == ps
  {
    hide SafeFrom, MergeFrom, JoinsSafe, JoinAll;
    MergeRuns([], rs);
    AllSafeIs(rs);
    assert [] + Flatten(rs) == Flatten(rs);
    forall i | 0 <= i < |rs|
      ensures JoinsSafe(rs[i].first, rs[i].rest) && JoinAll(rs[i].first, rs[i].rest) == ps[i]
    {
      CutJoins(rs[i], ps[i]);
    }
    WholesAre(rs, ps);
  }

  lemma CutJoins(r: Run, p: Fragment)
    requires CutOf(r, p) && !p.tailLost
    ensures JoinsSafe(r.first, r.rest) && JoinAll(r.first, r.rest) == p
  {
    SafeIffTidy(r.first, r.rest);
    JoinAllKey(r.first, r.rest);
    JoinAllIps(r.first, r.rest);
    if r.rest != [] {
      TailLostIff(r.first, r.rest);
    }
    assert r == Run(r.first, r.rest);
  }

  lemma {:induction false} WholesAre(rs: seq<Run>, ps: seq<Fragment>)
    requires |rs| == |ps|
    requires forall i :: 0 <= i < |rs| ==> JoinAll(rs[i].first, rs[i].rest) == ps[i]
    ensures Wholes(rs) == ps
  {
    if rs != [] {
      forall i | 0 <= i < |rs[1..]|
        ensures JoinAll(rs[1..][i].first, rs[1..][i].rest) == ps[1..][i]
      {
        assert rs[1..][i] == rs[i + 1];
      }
      WholesAre(rs[1..], ps[1..]);
    }
  }

  // ----- the same, in the heap -----

  lemma ExtendedLast(was: seq<Fragment>, f: Fragment, j: nat)
    requires j < |f.ips|
    ensures Extended(was + [f.(ips := f.ips[..j])], f.ips[j]) == was + [f.(ips := f.ips[..j + 1])]
  {
    assert f.ips[..j] + [f.ips[j]] == f.ips[..j + 1];
  }

  /** parse_peers and parse_allowedips for one peer of a dump. */
  method ReadFragment(list: PeerList, f: Fragment)
    requires list.Valid() && !f.tailLost
    modifies list, list.shape.peers, list.shape.ips
    ensures list.Valid() && Fragments(list.shape) == old(Fragments(list.shape)) + [f]
    ensures forall k :: 0 <= k < |list.shape.peers| ==> list.shape.peers[k] in old(list.shape.peers) || fresh(list.shape.peers[k])
    ensures forall k :: 0 <= k < |list.shape.ips| ==> list.shape.ips[k] in old(list.shape.ips) || fresh(list.shape.ips[k])
  {
    hide Linked, Fragments, Full;
    assert Sized(list.shape) by { LinkedFirst(list.first, list.shape); }
    ghost var before, was := list.shape, Fragments(list.shape);
    var peer := new PeerNode(f.key, f.info);
    list.AppendPeer(peer);
    var j := 0;
    while j < |f.ips|
      invariant 0 <= j <= |f.ips|
      invariant list.Valid() && Sized(list.shape) && list.last != null
      invariant Fragments(list.shape) == was + [f.(ips := f.ips[..j])]
      invariant list.shape.peers == before.peers + [peer]
      invariant forall k :: 0 <= k < |list.shape.ips| ==> list.shape.ips[k] in before.ips || fresh(list.shape.ips[k])
    {
      var ip := new IpNode(f.ips[j]);
      SamePeers(list.shape, ip);
      list.AppendIp(ip);
      ExtendedLast(was, f, j);
      LinkedFirst(list.first, list.shape);
      j := j + 1;
    }
    assert f.ips[..|f.ips|] == f.ips;
  }

  method ReadFragments(f: seq<Fragment>) returns (list: PeerList)
    requires Fresh(f)
    ensures fresh(list) && list.Valid() && Fragments(list.shape) == f
    ensures forall i :: 0 <= i < |list.shape.peers| ==> fresh(list.shape.peers[i])
    ensures forall i :: 0 <= i < |list.shape.ips| ==> fresh(list.shape.ips[i])
  {
    hide Linked, Full, FragmentAt;
    list := new PeerList();
    var i := 0;
    assert Fragments(list.shape) == f[..0];
    hide Fragments;
    while i < |f|
      invariant 0 <= i <= |f|
      invariant fresh(list) && list.Valid() && Sized(list.shape) && Fragments(list.shape) == f[..i]
      invariant forall k :: 0 <= k < |list.shape.peers| ==> fresh(list.shape.peers[k])
      invariant forall k :: 0 <= k < |list.shape.ips| ==> fresh(list.shape.ips[k])
    {
      ReadFragment(list, f[i]);
      assert f[..i] + [f[i]] == f[..i + 1];
      LinkedFirst(list.first, list.shape);
      i := i + 1;
    }
    assert f[..|f|] == f;
  }

  /** Every run can be joined. */
  predicate AllTidy(f: seq<Fragment>) {
    forall i :: 0 <= i < |RunsOf(f)| ==> Tidy(RunsOf(f)[i])
  }

  /** The last peer came in one fragment. */
  predicate LastWhole(f: seq<Fragment>) {
    var n := |f|;
    n < 2 || f[n - 2].key != f[n - 1].key
  }

  /** The peers that kernel_get_device returns, and its pointer to the last one. */
  method GetPeers(f: seq<Fragment>) returns (first: PeerNode?, last: PeerNode?, ghost s: Shape)
    requires Fresh(f) && AllTidy(f)
    ensures Linked(first, s) && Fragments(s) == MergeFrom(f, 0)
    ensures f != [] ==>
              && last != null && s.peers != [] && (last in s.peers <==> LastWhole(f))
              && (LastWhole(f) ==> last == s.peers[|s.peers| - 1])
  {
    SafeExactly(f);
    hide Linked, MergeFrom, SafeFrom, Full, RunsOf, FragmentAt;
    var list := ReadFragments(f);
    first, last := list.first, list.last;
    ghost var t := list.shape;
    assert |f| == |t.peers| && forall i :: 0 <= i < |f| ==> f[i].key == t.peers[i].key by { KeysOf(t, f); }
    hide Fragments;
    s := CoalescePeers(first, t);
  }

  lemma KeysOf(t: Shape, f: seq<Fragment>)
    requires Sized(t) && Fragments(t) == f
    ensures |f| == |t.peers| && forall i :: 0 <= i < |f| ==> f[i].key == t.peers[i].key
  {
    forall i | 0 <= i < |f|
      ensures f[i].key == t.peers[i].key
    {
      assert f[i] == FragmentAt(t, i);
    }
  }
}

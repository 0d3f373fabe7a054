/** The read side of src/ipc-linux.h: peer fragments appended to a linked list,
    each with a linked list of allowed IPs, and coalesce_peers joining adjacent
    fragments of one peer in place. */
module Coalesce {
  import opened Common
  import opened WgDevice

  /** Everything of a fragment that coalescing leaves alone or throws away. */
  datatype Info = Info(presharedKey: Key, hasPresharedKey: bool, endpoint: SockUnion, keepalive: Half,
                       handshake: Stamp, rx: nat, tx: nat)

  /** struct timespec64. */
  type Stamp = s: Bytes | |s| == 16 witness seq(16, i => 0)

  /** A fragment as a value.  `tailLost`: the list has elements and its tail
      pointer is null. */
  datatype Fragment = Fragment(key: Bytes, info: Info, ips: seq<AllowedIp>, tailLost: bool)

  // ----- coalescing on values -----

  /** Appending the list of a fragment to the one before it.  The tail pointer is
      copied from the fragment, also when that has none. */
  function Join(a: Fragment, b: Fragment): Fragment {
    Fragment(a.key, a.info, a.ips + b.ips, if a.ips == [] then b.tailLost else b.ips == [] || b.tailLost)
  }

  function Joined(f: seq<Fragment>, p: nat): (r: seq<Fragment>)
    requires p + 1 < |f|
    ensures |r| == |f| - 1
  {
    f[..p] + [Join(f[p], f[p + 1])] + f[p + 2..]
  }

  /** The loop, with the cursor at `p`. */
  function MergeFrom(f: seq<Fragment>, p: nat): seq<Fragment>
    decreases |f| - p
  {
    if p + 1 >= |f| then f
    else if f[p].key != f[p + 1].key then MergeFrom(f, p + 1)
    else MergeFrom(Joined(f, p), p)
  }

  /** The loop never follows a null tail pointer. */
  predicate SafeFrom(f: seq<Fragment>, p: nat)
    decreases |f| - p
  {
    if p + 1 >= |f| then true
    else if f[p].key != f[p + 1].key then SafeFrom(f, p + 1)
    else !f[p].tailLost && SafeFrom(Joined(f, p), p)
  }

  // ----- coalescing in the heap -----

  class IpNode {
    const value: AllowedIp
    var next: IpNode?

    constructor (value: AllowedIp)
      ensures this.value == value && next == null
    {
      this.value := value;
      next := null;
    }
  }

  class PeerNode {
    const key: Bytes
    const info: Info
    var firstIp: IpNode?
    var lastIp: IpNode?
    var next: PeerNode?

    constructor (key: Bytes, info: Info)
      ensures this.key == key && this.info == info && firstIp == null && lastIp == null && next == null
    {
      this.key, this.info := key, info;
      firstIp, lastIp, next := null, null, null;
    }
  }

  /** The nodes in list order.  The allowed IPs of all peers lie one after the
      other in `ips`; those of peer `i` end before `ends[i]`. */
  datatype Shape = Shape(peers: seq<PeerNode>, ips: seq<IpNode>, ends: seq<nat>, lost: seq<bool>)

  ghost function Start(s: Shape, i: nat): nat
    requires i < |s.ends|
  {
    if i == 0 then 0 else s.ends[i - 1]
  }

  ghost predicate Sized(s: Shape) {
    && |s.ends| == |s.peers| && |s.lost| == |s.peers|
    && (forall i, j :: 0 <= i <= j < |s.ends| ==> s.ends[i] <= s.ends[j])
    && (forall i :: 0 <= i < |s.ends| ==> s.ends[i] <= |s.ips|)
    && (forall i, j :: 0 <= i < j < |s.peers| ==> s.peers[i] != s.peers[j])
    && (forall i, j :: 0 <= i < j < |s.ips| ==> s.ips[i] != s.ips[j])
  }

  /** The pointers found in the nodes of a shape. */
  datatype Links = Links(next: seq<PeerNode?>, firstIp: seq<IpNode?>, lastIp: seq<IpNode?>, ipNext: seq<IpNode?>)

  ghost function Found(s: Shape): Links
    reads s.peers, s.ips
  {
    var n, m := |s.peers|, |s.ips|;
    Links(seq(n, i requires 0 <= i < n reads s.peers => s.peers[i].next),
          seq(n, i requires 0 <= i < n reads s.peers => s.peers[i].firstIp),
          seq(n, i requires 0 <= i < n reads s.peers => s.peers[i].lastIp),
          seq(m, i requires 0 <= i < m reads s.ips => s.ips[i].next))
  }

  ghost predicate Fit(s: Shape, l: Links) {
    |l.next| == |l.firstIp| == |l.lastIp| == |s.peers| && |l.ipNext| == |s.ips|
  }

  /** The pointers that peer `i` must have. */
  ghost predicate PeerLinks(s: Shape, l: Links, i: nat)
    requires Sized(s) && Fit(s, l) && i < |s.peers|
  {
    var lo, hi := Start(s, i), s.ends[i];
    && l.next[i] == (if i + 1 < |s.peers| then s.peers[i + 1] else null)
    && l.firstIp[i] == (if lo < hi then s.ips[lo] else null)
    && l.lastIp[i] == (if lo < hi && !s.lost[i] then s.ips[hi - 1] else null)
  }

  ghost predicate IpLinks(s: Shape, l: Links, i: nat)
    requires Sized(s) && Fit(s, l) && i < |s.peers|
  {
    forall k :: Start(s, i) <= k < s.ends[i] ==> l.ipNext[k] == if k + 1 < s.ends[i] then s.ips[k + 1] else null
  }

  ghost predicate Right(s: Shape, l: Links) {
    && Sized(s) && Fit(s, l)
    && (forall i :: 0 <= i < |s.peers| ==> PeerLinks(s, l, i))
    && (forall i :: 0 <= i < |s.peers| ==> IpLinks(s, l, i))
  }

  /** The pointers are those of the lists in `s`: no list has a cycle, no two
      share a node, and a tail pointer is the last element unless it was lost. */
  ghost predicate Linked(first: PeerNode?, s: Shape)
    reads s.peers, s.ips
  {
    Right(s, Found(s)) && first == if s.peers == [] then null else s.peers[0]
  }

  ghost function Values(c: seq<IpNode>): (r: seq<AllowedIp>)
    ensures |r| == |c|
  {
    seq(|c|, i requires 0 <= i < |c| => c[i].value)
  }

  ghost function FragmentAt(s: Shape, i: nat): Fragment
    requires Sized(s) && i < |s.peers|
  {
    Fragment(s.peers[i].key, s.peers[i].info, Values(s.ips[Start(s, i)..s.ends[i]]), s.lost[i])
  }

  ghost function Fragments(s: Shape): (r: seq<Fragment>)
    requires Sized(s)
    ensures |r| == |s.peers|
  {
    seq(|s.peers|, i requires 0 <= i < |s.peers| => FragmentAt(s, i))
  }

  /** The shape once peer `p` took over the list of the peer after it. */
  ghost function Absorbed(s: Shape, p: nat): Shape
    requires Sized(s) && p + 1 < |s.peers|
  {
    var lost := Join(FragmentAt(s, p), FragmentAt(s, p + 1)).tailLost;
    Shape(s.peers[..p + 1] + s.peers[p + 2..], s.ips, s.ends[..p] + s.ends[p + 1..],
          s.lost[..p] + [lost] + s.lost[p + 2..])
  }

  lemma AbsorbedSized(s: Shape, p: nat)
    requires Sized(s) && p + 1 < |s.peers|
    ensures Sized(Absorbed(s, p))
  {
    hide FragmentAt;
  }

  ghost function Gone<T>(q: seq<T>, i: nat): (r: seq<T>)
    requires i < |q|
    ensures |r| == |q| - 1
    ensures forall j :: 0 <= j < |r| ==> r[j] == q[if j < i then j else j + 1]
  {
    q[..i] + q[i + 1..]
  }

  /** The pointers after the relinking of peer `p`. */
  ghost function Relinked(s: Shape, l: Links, p: nat): (r: Links)
    requires Sized(s) && Fit(s, l) && p + 1 < |s.peers|
    ensures Fit(s, r)
  {
    var lo, hi := Start(s, p), s.ends[p];
    Links(l.next[p := l.next[p + 1]],
          if lo < hi then l.firstIp else l.firstIp[p := l.firstIp[p + 1]],
          l.lastIp[p := l.lastIp[p + 1]],
          if lo < hi then l.ipNext[hi - 1 := l.firstIp[p + 1]] else l.ipNext)
  }

  /** Those that remain when peer `p + 1` is freed. */
  ghost function Remaining(l: Links, p: nat): Links
    requires p + 1 < |l.next| && |l.next| == |l.firstIp| == |l.lastIp|
  {
    Links(Gone(l.next, p + 1), Gone(l.firstIp, p + 1), Gone(l.lastIp, p + 1), l.ipNext)
  }

  lemma AbsorbedAt(s: Shape, p: nat, i: nat)
    requires Sized(s) && p + 1 < |s.peers| && i < |s.peers| - 1
    ensures var t := Absorbed(s, p);
            && |t.peers| == |t.ends| == |t.lost| == |s.peers| - 1 && t.ips == s.ips
            && t.peers[i] == s.peers[if i <= p then i else i + 1]
            && t.ends[i] == s.ends[if i < p then i else i + 1]
            && Start(t, i) == Start(s, if i <= p then i else i + 1)
            && (i != p ==> t.lost[i] == s.lost[if i < p then i else i + 1])
  {
    hide FragmentAt;
  }

  lemma AbsorbedFragmentAt(s: Shape, p: nat, i: nat)
    requires Sized(s) && p + 1 < |s.peers| && i < |s.peers| - 1 && Sized(Absorbed(s, p))
    ensures FragmentAt(Absorbed(s, p), i) == Joined(Fragments(s), p)[i]
  {
    hide Absorbed, Sized;
    AbsorbedAt(s, p, i);
    if i == p {
      LostAfter(s, p);
      SizedAt(s, p);
      var lo, mid, hi := Start(s, p), s.ends[p], s.ends[p + 1];
      assert s.ips[lo..hi] == s.ips[lo..mid] + s.ips[mid..hi];
      assert Values(s.ips[lo..hi]) == Values(s.ips[lo..mid]) + Values(s.ips[mid..hi]);
    }
  }

  lemma SizedAt(s: Shape, p: nat)
    requires Sized(s) && p + 1 < |s.peers|
    ensures |s.ends| == |s.lost| == |s.peers|
    ensures Start(s, p) <= s.ends[p] <= s.ends[p + 1] <= |s.ips|
  {
  }

  lemma AbsorbedFragments(s: Shape, p: nat)
    requires Sized(s) && p + 1 < |s.peers|
    ensures Sized(Absorbed(s, p)) && Fragments(Absorbed(s, p)) == Joined(Fragments(s), p)
  {
    hide Absorbed, FragmentAt, Join;
    AbsorbedSized(s, p);
    AbsorbedAt(s, p, 0);
    forall i | 0 <= i < |s.peers| - 1
      ensures Fragments(Absorbed(s, p))[i] == Joined(Fragments(s), p)[i]
    {
      AbsorbedFragmentAt(s, p, i);
    }
  }

  lemma OtherPeersAfter(s: Shape, l: Links, p: nat, i: nat)
    requires Right(s, l) && p + 1 < |s.peers| && i < |s.peers| - 1 && i != p
    requires Sized(Absorbed(s, p))
    ensures PeerLinks(Absorbed(s, p), Remaining(Relinked(s, l, p), p), i)
  {
    hide Absorbed, IpLinks, Sized, Start;
    AbsorbedAt(s, p, i);
    if i + 1 < |s.peers| - 1 {
      AbsorbedAt(s, p, i + 1);
    }
    assert PeerLinks(s, l, if i < p then i else i + 1);
  }

  lemma ThatPeerAfter(s: Shape, l: Links, p: nat)
    requires Right(s, l) && p + 1 < |s.peers| && !s.lost[p]
    requires Sized(Absorbed(s, p))
    ensures PeerLinks(Absorbed(s, p), Remaining(Relinked(s, l, p), p), p)
  {
    hide Absorbed, IpLinks, Gone;
    LostAfter(s, p);
    AbsorbedAt(s, p, p);
    if p + 1 < |s.peers| - 1 {
      AbsorbedAt(s, p, p + 1);
    }
    assert PeerLinks(s, l, p) && PeerLinks(s, l, p + 1);
  }

  lemma IpsAfter(s: Shape, l: Links, p: nat, i: nat)
    requires Right(s, l) && p + 1 < |s.peers| && i < |s.peers| - 1
    requires Sized(Absorbed(s, p))
    ensures IpLinks(Absorbed(s, p), Remaining(Relinked(s, l, p), p), i)
  {
    hide Absorbed;
    AbsorbedAt(s, p, i);
    assert PeerLinks(s, l, p + 1);
    assert IpLinks(s, l, p) && IpLinks(s, l, p + 1) && IpLinks(s, l, if i <= p then i else i + 1);
  }

  /** Taking over the next list leaves lists again. */
  lemma RightAfter(s: Shape, l: Links, p: nat)
    requires Right(s, l) && p + 1 < |s.peers| && !s.lost[p]
    ensures Right(Absorbed(s, p), Remaining(Relinked(s, l, p), p))
  {
    hide Absorbed, PeerLinks, IpLinks, Relinked;
    AbsorbedSized(s, p);
    AbsorbedAt(s, p, 0);
    forall i | 0 <= i < |s.peers| - 1
      ensures PeerLinks(Absorbed(s, p), Remaining(Relinked(s, l, p), p), i)
      ensures IpLinks(Absorbed(s, p), Remaining(Relinked(s, l, p), p), i)
    {
      if i == p {
        ThatPeerAfter(s, l, p);
      } else {
        OtherPeersAfter(s, l, p, i);
      }
      IpsAfter(s, l, p, i);
    }
  }

  /** The body of the loop for two fragments of one peer. */
  method Relink(first: PeerNode?, peer: PeerNode, ghost s: Shape, ghost p: nat)
    requires Linked(first, s) && p + 1 < |s.peers| && peer == s.peers[p] && !s.lost[p]
    modifies peer, s.ips
    ensures Found(s) == Relinked(s, old(Found(s)), p)
  {
    hide IpLinks, Right;
    RightSized(s, Found(s));
    RightAt(s, Found(s), p);
    RightAt(s, Found(s), p + 1);
    assert PeerLinks(s, Found(s), p) && PeerLinks(s, Found(s), p + 1);
    var oldNext := peer.next;
    if peer.firstIp == null {
      peer.firstIp := oldNext.firstIp;
      peer.lastIp := oldNext.lastIp;
    } else {
      peer.lastIp.next := oldNext.firstIp;
      peer.lastIp := oldNext.lastIp;
    }
    peer.next := oldNext.next;
  }

  lemma FoundAbsorbed(s: Shape, p: nat)
    requires Sized(s) && p + 1 < |s.peers|
    ensures Found(Absorbed(s, p)) == Remaining(Found(s), p)
  {
    hide FragmentAt;
  }

  method Absorb(first: PeerNode?, peer: PeerNode, ghost s: Shape, ghost p: nat)
    requires Linked(first, s) && p + 1 < |s.peers| && peer == s.peers[p] && !s.lost[p]
    modifies peer, s.ips
    ensures Linked(first, Absorbed(s, p))
  {
    hide Found, Right, Relinked, Absorbed;
    ghost var l := Found(s);
    assert Sized(s) && Fit(s, l) by { RightSized(s, l); }
    RightAfter(s, l, p);
    Relink(first, peer, s, p);
    FoundAbsorbed(s, p);
    AbsorbedAt(s, p, 0);
  }

  lemma RightAt(s: Shape, l: Links, i: nat)
    requires Right(s, l) && i < |s.peers|
    ensures PeerLinks(s, l, i)
  {
  }

  lemma RightSized(s: Shape, l: Links)
    requires Right(s, l)
    ensures Sized(s) && Fit(s, l)
  {
  }

  lemma LostAfter(s: Shape, p: nat)
    requires Sized(s) && p + 1 < |s.peers|
    ensures Absorbed(s, p).lost[p] == if Start(s, p) == s.ends[p] then s.lost[p + 1] else s.ends[p] == s.ends[p + 1] || s.lost[p + 1]
  {
  }

  /** The cursor's node after `k` peers were freed: what follows is untouched, and it
      is the node it was unless the one before it has the same key. */
  ghost predicate Suffix(s: Shape, t: Shape, p: nat, k: nat) {
    && |t.peers| + k == |s.peers| && p <= |t.peers|
    && (forall i :: p < i < |t.peers| ==> t.peers[i] == s.peers[i + k])
    && (forall i :: 0 <= i < p ==> t.peers[i] in s.peers[..p + k])
    && (p < |t.peers| ==>
          && t.peers[p].key == s.peers[p + k].key
          && if p + k == 0 || s.peers[p + k - 1].key != s.peers[p + k].key then t.peers[p] == s.peers[p + k]
             else t.peers[p] in s.peers[..p + k])
  }

  lemma SuffixMoves(s: Shape, t: Shape, p: nat, k: nat)
    requires Suffix(s, t, p, k) && p + 1 < |t.peers| && t.peers[p].key != t.peers[p + 1].key
    ensures Suffix(s, t, p + 1, k)
  {
    forall i | 0 <= i < p + 1
      ensures t.peers[i] in s.peers[..p + 1 + k]
    {
      if i < p {
        var j :| 0 <= j < p + k && s.peers[..p + k][j] == t.peers[i];
        assert s.peers[..p + 1 + k][j] == t.peers[i];
      } else if t.peers[p] in s.peers[..p + k] {
        var j :| 0 <= j < p + k && s.peers[..p + k][j] == t.peers[p];
        assert s.peers[..p + 1 + k][j] == t.peers[p];
      } else {
        assert s.peers[..p + 1 + k][p + k] == t.peers[p];
      }
    }
  }

  lemma SuffixShrinks(s: Shape, t: Shape, u: Shape, p: nat, k: nat)
    requires Suffix(s, t, p, k) && p + 1 < |t.peers| && t.peers[p].key == t.peers[p + 1].key
    requires u.peers == t.peers[..p + 1] + t.peers[p + 2..]
    ensures Suffix(s, u, p, k + 1)
  {
    forall i | 0 <= i <= p
      ensures u.peers[i] in s.peers[..p + k + 1]
    {
      if t.peers[i] in s.peers[..p + k] {
        var j :| 0 <= j < p + k && s.peers[..p + k][j] == t.peers[i];
        assert s.peers[..p + k + 1][j] == t.peers[i];
      } else {
        assert s.peers[..p + k + 1][p + k] == t.peers[p];
      }
    }
  }

  /** The last node is still in the list exactly if it was not absorbed. */
  lemma SuffixLast(s: Shape, t: Shape, p: nat, k: nat)
    requires Sized(s) && Suffix(s, t, p, k) && s.peers != [] && p + 1 == |t.peers|
    ensures s.peers[|s.peers| - 1] in t.peers <==> LastKept(s.peers)
    ensures LastKept(s.peers) ==> t.peers[|t.peers| - 1] == s.peers[|s.peers| - 1]
  {
    var last := s.peers[|s.peers| - 1];
    if !LastKept(s.peers) {
      forall i | 0 <= i < |t.peers|
        ensures t.peers[i] != last
      {
        assert t.peers[i] in s.peers[..p + k];
        var j :| 0 <= j < p + k && s.peers[..p + k][j] == t.peers[i];
      }
    }
  }

  /** The last peer has another key than the one before it. */
  ghost predicate LastKept(peers: seq<PeerNode>) {
    var n := |peers|;
    n < 2 || peers[n - 2].key != peers[n - 1].key
  }

  /** The loop with its cursor `p` at `peer`, when `s` has become `t`. */
  ghost predicate Progress(first: PeerNode?, s: Shape, t: Shape, p: nat, peer: PeerNode?)
    requires Sized(s)
    reads t.peers, t.ips
  {
    && Linked(first, t) && Sized(t) && t.ips == s.ips
    && peer == (if p < |t.peers| then t.peers[p] else null) && (p < |t.peers| || s.peers == [])
    && (forall i :: 0 <= i < |t.peers| ==> t.peers[i] in s.peers)
    && |t.peers| <= |s.peers| && Suffix(s, t, p, |s.peers| - |t.peers|)
    && SafeFrom(Fragments(t), p) && MergeFrom(Fragments(t), p) == MergeFrom(Fragments(s), 0)
  }

  method Advance(first: PeerNode?, peer: PeerNode, ghost s: Shape, ghost t: Shape, ghost p: nat)
    returns (next: PeerNode, ghost t': Shape, ghost p': nat)
    requires Sized(s) && Progress(first, s, t, p, peer) && peer.next != null
    modifies s.peers, s.ips
    ensures Progress(first, s, t', p', next) && p <= p' <= |t'.peers| && |t'.peers| - p' < |t.peers| - p
  {
    hide Linked, FragmentAt, Fragments, Absorbed, Suffix, SafeFrom, MergeFrom, Sized;
    LinkedAt(first, t, p);
    MergeStep(Fragments(t), p);
    if peer.key != peer.next.key {
      SuffixMoves(s, t, p, |s.peers| - |t.peers|);
      next, t', p' := peer.next, t, p + 1;
    } else {
      AbsorbedFragments(t, p);
      AbsorbedNodes(t, p);
      SuffixShrinks(s, t, Absorbed(t, p), p, |s.peers| - |t.peers|);
      Absorb(first, peer, t, p);
      next, t', p' := peer, Absorbed(t, p), p;
    }
  }

  /** coalesce_peers.  The device's pointer to its last peer is left alone: it is
      right exactly if the last peer was not absorbed; otherwise that peer is freed. */
  method CoalescePeers(first: PeerNode?, ghost s: Shape) returns (ghost t: Shape)
    requires Linked(first, s) && SafeFrom(Fragments(s), 0)
    modifies s.peers, s.ips
    ensures Linked(first, t) && Fragments(t) == MergeFrom(Fragments(s), 0)
    ensures t.ips == s.ips && forall i :: 0 <= i < |t.peers| ==> t.peers[i] in s.peers
    ensures s.peers != [] ==>
              var last := s.peers[|s.peers| - 1];
              t.peers != [] && (last in t.peers <==> LastKept(s.peers)) && (LastKept(s.peers) ==> t.peers[|t.peers| - 1] == last)
  {
    hide Linked, Fragments, Suffix, LastKept, SafeFrom, MergeFrom, Sized;
    t := s;
    var peer := first;
    ghost var p := 0;
    LinkedFirst(first, s);
    SuffixStart(s);
    while peer != null && peer.next != null
      invariant Progress(first, s, t, p, peer)
      decreases |t.peers| - p
    {
      peer, t, p := Advance(first, peer, s, t, p);
    }
    if peer != null {
      LinkedAt(first, t, p);
      SuffixLast(s, t, p, |s.peers| - |t.peers|);
    }
    MergeEnd(Fragments(t), p);
  }

  lemma MergeStep(f: seq<Fragment>, p: nat)
    requires p + 1 < |f| && SafeFrom(f, p)
    ensures f[p].key != f[p + 1].key ==> SafeFrom(f, p + 1) && MergeFrom(f, p) == MergeFrom(f, p + 1)
    ensures f[p].key == f[p + 1].key ==> !f[p].tailLost && SafeFrom(Joined(f, p), p) && MergeFrom(f, p) == MergeFrom(Joined(f, p), p)
  {
  }

  lemma MergeEnd(f: seq<Fragment>, p: nat)
    requires p + 1 >= |f|
    ensures MergeFrom(f, p) == f
  {
  }

  lemma SuffixStart(s: Shape)
    ensures Suffix(s, s, 0, 0)
  {
  }

  lemma LinkedFirst(first: PeerNode?, s: Shape)
    requires Linked(first, s)
    ensures Sized(s) && first == if s.peers == [] then null else s.peers[0]
  {
  }

  lemma LinkedAt(first: PeerNode?, s: Shape, p: nat)
    requires Linked(first, s) && p < |s.peers|
    ensures Sized(s) && s.peers[p].next == if p + 1 < |s.peers| then s.peers[p + 1] else null
    ensures Fragments(s)[p].key == s.peers[p].key && Fragments(s)[p].tailLost == s.lost[p]
    ensures p + 1 < |s.peers| ==> Fragments(s)[p + 1].key == s.peers[p + 1].key
  {
    assert PeerLinks(s, Found(s), p);
  }

  lemma AbsorbedNodes(s: Shape, p: nat)
    requires Sized(s) && p + 1 < |s.peers|
    ensures var t := Absorbed(s, p); t.ips == s.ips && t.peers[p] == s.peers[p] && |t.peers| == |s.peers| - 1
    ensures Absorbed(s, p).peers == s.peers[..p + 1] + s.peers[p + 2..]
    ensures forall i :: 0 <= i < |Absorbed(s, p).peers| ==> Absorbed(s, p).peers[i] in s.peers
  {
    hide FragmentAt;
  }

  // ----- building the list -----

  ghost function WithPeer(s: Shape, peer: PeerNode): Shape {
    Shape(s.peers + [peer], s.ips, s.ends + [|s.ips|], s.lost + [false])
  }

  ghost function WithIp(s: Shape, ip: IpNode): Shape
    requires s.ends != []
  {
    Shape(s.peers, s.ips + [ip], s.ends[|s.ends| - 1 := |s.ips| + 1], s.lost)
  }

  lemma WithPeerFragments(s: Shape, peer: PeerNode)
    requires Full(s) && peer !in s.peers
    ensures Full(WithPeer(s, peer))
    ensures Fragments(WithPeer(s, peer)) == Fragments(s) + [Fragment(peer.key, peer.info, [], false)]
  {
    var t := WithPeer(s, peer);
    assert forall i :: 0 <= i < |s.peers| ==> Start(t, i) == Start(s, i);
    assert Start(t, |s.peers|) == |s.ips|;
    assert Values([]) == [];
  }

  /** The last peer's list ends where all lists end. */
  ghost predicate Full(s: Shape) {
    Sized(s) && if s.ends == [] then s.ips == [] else s.ends[|s.ends| - 1] == |s.ips|
  }

  lemma WithIpSized(s: Shape, ip: IpNode)
    requires Full(s) && ip !in s.ips && s.ends != []
    ensures Full(WithIp(s, ip))
    ensures forall i :: 0 <= i < |s.ends| ==> Start(WithIp(s, ip), i) == Start(s, i)
  {
  }

  lemma WithIpAt(s: Shape, ip: IpNode, i: nat)
    requires Full(s) && ip !in s.ips && i < |s.ends| && Sized(WithIp(s, ip))
    requires Start(WithIp(s, ip), i) == Start(s, i)
    ensures var f := FragmentAt(s, i);
            FragmentAt(WithIp(s, ip), i) == if i + 1 < |s.ends| then f else f.(ips := f.ips + [ip.value])
  {
    var t, c := WithIp(s, ip), s.ips[Start(s, i)..s.ends[i]];
    if i + 1 < |s.ends| {
      assert t.ips[Start(s, i)..s.ends[i]] == c;
    } else {
      assert t.ips[Start(t, i)..t.ends[i]] == c + [ip];
      assert Values(c + [ip]) == Values(c) + [ip.value];
    }
  }

  /** An allowed IP added to the last fragment. */
  function Extended(f: seq<Fragment>, ip: AllowedIp): seq<Fragment>
    requires f != []
  {
    var n := |f| - 1;
    f[n := f[n].(ips := f[n].ips + [ip])]
  }

  lemma WithIpFragments(s: Shape, ip: IpNode)
    requires Full(s) && ip !in s.ips && s.ends != []
    ensures Full(WithIp(s, ip)) && Fragments(WithIp(s, ip)) == Extended(Fragments(s), ip.value)
  {
    hide FragmentAt, WithIp, Full;
    WithIpSized(s, ip);
    assert Sized(s) && Sized(WithIp(s, ip)) && |WithIp(s, ip).peers| == |s.peers| by { FullSized(s); FullSized(WithIp(s, ip)); SamePeers(s, ip); }
    forall i | 0 <= i < |s.peers|
      ensures FragmentAt(WithIp(s, ip), i) == Extended(Fragments(s), ip.value)[i]
    {
      WithIpAt(s, ip, i);
    }
  }

  lemma FullSized(s: Shape)
    requires Full(s)
    ensures Sized(s)
  {
  }

  lemma SamePeers(s: Shape, ip: IpNode)
    requires s.ends != []
    ensures WithIp(s, ip).peers == s.peers && WithIp(s, ip).lost == s.lost
  {
  }

  /** The pointers once a peer was appended. */
  ghost function LinksWithPeer(l: Links, peer: PeerNode): Links {
    var n := |l.next|;
    Links((if n == 0 then [] else l.next[n - 1 := peer]) + [null], l.firstIp + [null], l.lastIp + [null], l.ipNext)
  }

  lemma RightWithPeer(s: Shape, l: Links, peer: PeerNode)
    requires Right(s, l) && Full(s) && peer !in s.peers
    ensures Right(WithPeer(s, peer), LinksWithPeer(l, peer))
  {
    hide Fragments;
    WithPeerFragments(s, peer);
    var t, m := WithPeer(s, peer), LinksWithPeer(l, peer);
    assert forall i :: 0 <= i < |s.peers| ==> Start(t, i) == Start(s, i);
    forall i | 0 <= i < |t.peers|
      ensures PeerLinks(t, m, i) && IpLinks(t, m, i)
    {
      if i < |s.peers| {
        assert PeerLinks(s, l, i) && IpLinks(s, l, i);
      }
    }
  }

  /** The pointers once an allowed IP was appended to the last peer. */
  ghost function LinksWithIp(l: Links, ip: IpNode, first: bool): Links
    requires |l.next| == |l.firstIp| == |l.lastIp| > 0 && (!first ==> l.ipNext != [])
  {
    var n, k := |l.next| - 1, |l.ipNext| - 1;
    Links(l.next, if first then l.firstIp[n := ip] else l.firstIp, l.lastIp[n := ip],
          (if first then l.ipNext else l.ipNext[k := ip]) + [null])
  }

  lemma RightWithIp(s: Shape, l: Links, ip: IpNode)
    requires Right(s, l) && Full(s) && ip !in s.ips && s.ends != [] && !s.lost[|s.lost| - 1]
    ensures Right(WithIp(s, ip), LinksWithIp(l, ip, Start(s, |s.ends| - 1) == |s.ips|))
  {
    WithIpSized(s, ip);
    var t, m, n := WithIp(s, ip), LinksWithIp(l, ip, Start(s, |s.ends| - 1) == |s.ips|), |s.peers| - 1;
    assert PeerLinks(s, l, n) && IpLinks(s, l, n);
    forall i | 0 <= i < |t.peers|
      ensures PeerLinks(t, m, i) && IpLinks(t, m, i)
    {
      if i < n {
        assert PeerLinks(s, l, i) && IpLinks(s, l, i);
      }
    }
  }

  /** struct wgdevice, as far as its list of peers goes. */
  class PeerList {
    var first: PeerNode?
    var last: PeerNode?
    ghost var shape: Shape

    ghost predicate Valid()
      reads this, shape.peers, shape.ips
    {
      && Linked(first, shape) && Full(shape)
      && last == (if shape.peers == [] then null else shape.peers[|shape.peers| - 1])
      && (forall i :: 0 <= i < |shape.lost| ==> !shape.lost[i])
    }

    constructor ()
      ensures Valid() && shape == Shape([], [], [], [])
    {
      first, last := null, null;
      shape := Shape([], [], [], []);
    }

    /** The list part of parse_peers. */
    method AppendPeer(peer: PeerNode)
      requires Valid() && peer !in shape.peers
      requires peer.firstIp == null && peer.lastIp == null && peer.next == null
      modifies this, shape.peers
      ensures Valid() && shape == WithPeer(old(shape), peer)
      ensures Fragments(shape) == old(Fragments(shape)) + [Fragment(peer.key, peer.info, [], false)]
    {
      hide Fragments, Right, Full;
      ghost var s, l := shape, Found(shape);
      assert Sized(s) by { RightSized(s, l); }
      RightWithPeer(s, l, peer);
      WithPeerFragments(s, peer);
      if first == null {
        first, last := peer, peer;
      } else {
        last.next := peer;
        last := peer;
      }
      shape := WithPeer(s, peer);
      assert Found(shape) == LinksWithPeer(l, peer);
    }

    /** The list part of parse_allowedips, for the peer being read. */
    method AppendIp(ip: IpNode)
      requires Valid() && last != null && ip !in shape.ips && ip.next == null
      modifies last, shape.ips, this`shape
      ensures Valid() && shape == WithIp(old(shape), ip)
      ensures Fragments(shape) == Extended(old(Fragments(shape)), ip.value)
    {
      hide Fragments, Right, Full, Found, WithIp;
      ghost var s, l := shape, Found(shape);
      RightSized(s, l);
      RightWithIp(s, l, ip);
      WithIpFragments(s, ip);
      SamePeers(s, ip);
      LinkIp(last, ip, s);
      shape := WithIp(s, ip);
    }
  }

  /** The pointers written when an allowed IP is appended. */
  method LinkIp(peer: PeerNode, ip: IpNode, ghost s: Shape)
    requires Right(s, Found(s)) && Full(s) && s.ends != [] && !s.lost[|s.lost| - 1]
    requires peer == s.peers[|s.peers| - 1] && ip !in s.ips && ip.next == null
    modifies peer, s.ips
    ensures Found(WithIp(s, ip)) == LinksWithIp(old(Found(s)), ip, Start(s, |s.ends| - 1) == |s.ips|)
  {
    hide Right, Full, IpLinks;
    ghost var l := Found(s);
    RightSized(s, l);
    RightAt(s, l, |s.peers| - 1);
    FullEnd(s);
    if peer.firstIp == null {
      peer.firstIp, peer.lastIp := ip, ip;
    } else {
      peer.lastIp.next := ip;
      peer.lastIp := ip;
    }
  }

  lemma FullEnd(s: Shape)
    requires Full(s) && s.peers != []
    ensures s.ends[|s.peers| - 1] == |s.ips|
  {
  }
}

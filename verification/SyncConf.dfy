/** sync_conf (src/setconf.c): the file's peers and the running ones are sorted
    together and scanned once; the file is edited so that applying it without
    replacing all peers has the effect of replacing them. */
module SyncConf {
  import opened Common
  import opened WgDevice

  class PeerObject {
    var peer: Peer

    constructor (peer: Peer)
      ensures this.peer == peer
    {
      this.peer := peer;
    }
  }

  /** struct wgdevice, as far as sync_conf changes it. */
  class FileDevice {
    var replacePeers: bool
    var peers: seq<PeerObject>
  }

  datatype Origin = Origin(obj: PeerObject, key: Key, fromFile: bool)

  // ----- peer_cmp -----

  /** memcmp, as a strict order. */
  predicate Less(a: Bytes, b: Bytes)
    requires |a| == |b|
  {
    a != [] && (a[0] < b[0] || (a[0] == b[0] && Less(a[1..], b[1..])))
  }

  /** The first byte that differs decides. */
  lemma {:induction false} LessExactly(a: Bytes, b: Bytes)
    requires |a| == |b|
    ensures Less(a, b) <==> exists i :: 0 <= i < |a| && a[..i] == b[..i] && a[i] < b[i]
  {
    if a != [] {
      LessExactly(a[1..], b[1..]);
      if i :| 0 <= i < |a| && a[..i] == b[..i] && a[i] < b[i] {
        if i > 0 {
          assert a[0] == a[..i][0] && b[0] == b[..i][0];
          assert a[1..][..i - 1] == a[..i][1..] && b[1..][..i - 1] == b[..i][1..];
        }
      }
      if i :| a[0] == b[0] && 0 <= i < |a| - 1 && a[1..][..i] == b[1..][..i] && a[1..][i] < b[1..][i] {
        assert a[..i + 1] == [a[0]] + a[1..][..i] && b[..i + 1] == [b[0]] + b[1..][..i];
      }
      assert a[0] < b[0] ==> a[..0] == b[..0];
    }
  }

  lemma {:induction false} LessTotal(a: Bytes, b: Bytes)
    requires |a| == |b|
    ensures a == b || Less(a, b) || Less(b, a)
    ensures !(Less(a, b) && Less(b, a)) && (a == b ==> !Less(a, b))
  {
    if a != [] {
      LessTotal(a[1..], b[1..]);
      assert a == [a[0]] + a[1..] && b == [b[0]] + b[1..];
    }
  }

  lemma {:induction false} LessTransitive(a: Bytes, b: Bytes, c: Bytes)
    requires |a| == |b| == |c| && Less(a, b) && Less(b, c)
    ensures Less(a, c)
  {
    if a[0] == b[0] == c[0] {
      LessTransitive(a[1..], b[1..], c[1..]);
    }
  }

  /** peer_cmp(a, b) <= 0: by key, and the running peer before the file's. */
  predicate Before(a: Origin, b: Origin) {
    Less(a.key, b.key) || (a.key == b.key && (a.fromFile ==> b.fromFile))
  }

  lemma BeforeTotal(a: Origin, b: Origin)
    ensures Before(a, b) || Before(b, a)
  {
    LessTotal(a.key, b.key);
  }

  lemma BeforeTransitive(a: Origin, b: Origin, c: Origin)
    requires Before(a, b) && Before(b, c)
    ensures Before(a, c)
  {
    hide Less;
    if Less(a.key, b.key) && Less(b.key, c.key) {
      LessTransitive(a.key, b.key, c.key);
    }
  }

  predicate Sorted(s: seq<Origin>) {
    forall i, j :: 0 <= i < j < |s| ==> Before(s[i], s[j])
  }

  // ----- qsort, of which only the contract matters -----

  lemma InsertSorted(s: seq<Origin>, n: nat, x: Origin)
    requires Sorted(s) && n <= |s|
    requires n > 0 ==> Before(s[n - 1], x)
    requires forall j :: n <= j < |s| ==> Before(x, s[j])
    ensures Sorted(s[..n] + [x] + s[n..])
  {
    hide Before;
    var r := s[..n] + [x] + s[n..];
    forall i | 0 <= i < n
      ensures Before(s[i], x)
    {
      if i < n - 1 {
        BeforeTransitive(s[i], s[n - 1], x);
      }
    }
    forall i, j | 0 <= i < j < |r|
      ensures Before(r[i], r[j])
    {
      assert r[i] == (if i < n then s[i] else if i == n then x else s[i - 1]);
      assert r[j] == (if j < n then s[j] else if j == n then x else s[j - 1]);
    }
  }

  method Insert(s: seq<Origin>, x: Origin) returns (r: seq<Origin>)
    requires Sorted(s)
    ensures Sorted(r) && multiset(r) == multiset(s) + multiset{x}
  {
    hide Before, Sorted;
    var n := |s|;
    while n > 0 && !Before(s[n - 1], x)
      invariant 0 <= n <= |s|
      invariant forall j :: n <= j < |s| ==> Before(x, s[j])
    {
      BeforeTotal(s[n - 1], x);
      n := n - 1;
    }
    r := s[..n] + [x] + s[n..];
    assert s == s[..n] + s[n..];
    InsertSorted(s, n, x);
  }

  method QSort(s: seq<Origin>) returns (r: seq<Origin>)
    ensures Sorted(r) && multiset(r) == multiset(s)
  {
    hide Before;
    r := [];
    var i := 0;
    while i < |s|
      invariant 0 <= i <= |s|
      invariant Sorted(r) && multiset(r) == multiset(s[..i])
    {
      r := Insert(r, s[i]);
      assert s[..i + 1] == s[..i] + [s[i]];
      i := i + 1;
    }
    assert s[..|s|] == s;
  }

  // ----- neighbours -----

  /** No key twice among the file's peers, nor among the running ones. */
  ghost predicate Distinct(s: seq<Origin>) {
    forall i, j :: 0 <= i < j < |s| && s[i].fromFile == s[j].fromFile ==> s[i].key != s[j].key
  }

  /** The file's peer with the key of a running peer comes right after it. */
  lemma Neighbour(s: seq<Origin>, i: nat, j: nat)
    requires Sorted(s) && Distinct(s) && i < |s| && j < |s|
    requires !s[i].fromFile && s[j].fromFile && s[i].key == s[j].key
    ensures j == i + 1
  {
    LessTotal(s[i].key, s[j].key);
    if j > i + 1 {
      var m := s[i + 1];
      assert Before(s[i], m) && Before(m, s[j]);
      LessTotal(s[i].key, m.key);
    }
  }

  // ----- the edit -----

  /** A peer that asks for its own removal. */
  function Removal(key: Key): Peer {
    Peer(key, true, false, false, ZeroKey(), seq(28, i => 0), false, 0, [])
  }

  /** What the file does not set and the running peer has is set to none. */
  function Patched(p: Peer, running: Peer): Peer {
    var q := if running.hasPresharedKey && !p.hasPresharedKey
             then p.(presharedKey := ZeroKey(), hasPresharedKey := true) else p;
    if running.keepalive != 0 && !p.hasKeepalive then q.(keepalive := 0, hasKeepalive := true) else q
  }

  /** The running peer with a key. */
  function RunningWith(rs: seq<Peer>, key: Key): Option<Peer> {
    if rs == [] then None else if rs[0].publicKey == key then Some(rs[0]) else RunningWith(rs[1..], key)
  }

  function Edited(p: Peer, rs: seq<Peer>): Peer {
    var r := RunningWith(rs, p.publicKey);
    if r.None? then p else Patched(p, r.value)
  }

  function EditedAll(ps: seq<Peer>, rs: seq<Peer>): seq<Peer> {
    seq(|ps|, i requires 0 <= i < |ps| => Edited(ps[i], rs))
  }

  // ----- the scan -----

  /** A running peer whose right neighbour is not the file's peer of that key. */
  predicate Stale(s: seq<Origin>, i: nat)
    requires i < |s|
  {
    !s[i].fromFile && (i == |s| - 1 || !s[i + 1].fromFile || s[i].key != s[i + 1].key)
  }

  /** A file's peer whose left neighbour is the running peer of that key. */
  predicate Met(s: seq<Origin>, j: nat)
    requires j < |s|
  {
    s[j].fromFile && j > 0 && !s[j - 1].fromFile && s[j - 1].key == s[j].key
  }

  /** The keys to remove after the first `i` entries; each is put in front. */
  function StaleKeys(s: seq<Origin>, i: nat): seq<Key>
    requires i <= |s|
  {
    if i == 0 then [] else (if Stale(s, i - 1) then [s[i - 1].key] else []) + StaleKeys(s, i - 1)
  }

  function Removals(keys: seq<Key>): seq<Peer> {
    seq(|keys|, i requires 0 <= i < |keys| => Removal(keys[i]))
  }

  ghost function PeersOf(objs: seq<PeerObject>): (r: seq<Peer>)
    reads objs
    ensures |r| == |objs|
  {
    seq(|objs|, i requires 0 <= i < |objs| reads objs => objs[i].peer)
  }

  /** No object twice in the array, and the keys are those of the objects. */
  ghost predicate Table(s: seq<Origin>, objs: seq<PeerObject>)
    reads objs
  {
    && |s| == |objs|
    && (forall i, j :: 0 <= i < j < |objs| ==> objs[i] != objs[j])
    && (forall i :: 0 <= i < |s| ==> s[i].obj == objs[i] && objs[i].peer.publicKey == s[i].key)
  }

  /** One running peer that the file has too. */
  method PatchNeighbour(running: PeerObject, mine: PeerObject)
    requires running != mine
    modifies mine
    ensures mine.peer == Patched(old(mine.peer), running.peer)
    ensures mine.peer.publicKey == old(mine.peer.publicKey)
  {
    if running.peer.hasPresharedKey && !mine.peer.hasPresharedKey {
      mine.peer := mine.peer.(presharedKey := ZeroKey(), hasPresharedKey := true);
    }
    if running.peer.keepalive != 0 && !mine.peer.hasKeepalive {
      mine.peer := mine.peer.(keepalive := 0, hasKeepalive := true);
    }
  }

  /** Entry `j` of the table once the first `i` entries were scanned. */
  ghost function After(s: seq<Origin>, was: seq<Peer>, i: nat, j: nat): Peer
    requires j < |s| == |was|
  {
    if Met(s, j) && j <= i then Patched(was[j], was[j - 1]) else was[j]
  }

  ghost function Scanned(s: seq<Origin>, was: seq<Peer>, i: nat): (r: seq<Peer>)
    requires |s| == |was|
    ensures |r| == |s|
  {
    seq(|s|, j requires 0 <= j < |s| => After(s, was, i, j))
  }

  /** The turn of the loop for entry `i`. */
  method ScanOne(file: FileDevice, s: seq<Origin>, i: nat, ghost objs: seq<PeerObject>)
    requires Table(s, objs) && i < |s|
    modifies file`peers, objs
    ensures PeersOf(objs) == var was := old(PeersOf(objs));
                             if i + 1 < |s| && Met(s, i + 1) then was[i + 1 := Patched(was[i + 1], was[i])] else was
    ensures Table(s, objs)
    ensures !Stale(s, i) ==> file.peers == old(file.peers)
    ensures Stale(s, i) ==> |file.peers| == |old(file.peers)| + 1 && file.peers[1..] == old(file.peers)
                            && fresh(file.peers[0]) && file.peers[0].peer == Removal(s[i].key)
  {
    hide Patched, Removal;
    if s[i].fromFile {
      return;
    }
    if i == |s| - 1 || !s[i + 1].fromFile || s[i].key != s[i + 1].key {
      var gone := new PeerObject(Removal(s[i].key));
      file.peers := [gone] + file.peers;
    } else {
      assert objs[i] != objs[i + 1];
      PatchNeighbour(s[i].obj, s[i + 1].obj);
    }
  }

  lemma ScannedNext(s: seq<Origin>, was: seq<Peer>, i: nat)
    requires |s| == |was| && i < |s|
    ensures var now := Scanned(s, was, i);
            Scanned(s, was, i + 1) == if i + 1 < |s| && Met(s, i + 1) then now[i + 1 := Patched(now[i + 1], now[i])] else now
  {
    hide Patched;
  }

  lemma NothingScanned(s: seq<Origin>, was: seq<Peer>)
    requires |s| == |was|
    ensures was == Scanned(s, was, 0)
  {
    hide Patched;
  }

  /** The removals put in front of the list; none of them is in the table. */
  ghost predicate Prepended(now: seq<PeerObject>, was: seq<PeerObject>, keys: seq<Key>, objs: seq<PeerObject>)
    reads now
  {
    && |now| == |keys| + |was| && now[|keys|..] == was
    && forall k :: 0 <= k < |keys| ==> now[k] !in objs && now[k].peer == Removal(keys[k])
  }

  lemma TableLength(s: seq<Origin>, objs: seq<PeerObject>)
    requires Table(s, objs)
    ensures |s| == |objs|
  {
  }

  method ScanNext(file: FileDevice, s: seq<Origin>, i: nat, ghost objs: seq<PeerObject>, ghost was: seq<Peer>, ghost before: seq<PeerObject>)
    requires Table(s, objs) && |was| == |s| && i < |s|
    requires PeersOf(objs) == Scanned(s, was, i) && Prepended(file.peers, before, StaleKeys(s, i), objs)
    modifies file`peers, objs
    ensures Table(s, objs)
    ensures PeersOf(objs) == Scanned(s, was, i + 1) && Prepended(file.peers, before, StaleKeys(s, i + 1), objs)
  {
    hide Patched, Removal, Met, Stale, Scanned, PeersOf, Table;
    assert |s| == |objs| by { TableLength(s, objs); }
    ghost var peers, keys := file.peers, StaleKeys(s, i);
    ScanOne(file, s, i, objs);
    ScannedNext(s, was, i);
    assert Prepended(peers, before, keys, objs);
    hide Prepended;
    if Stale(s, i) {
      assert file.peers == [file.peers[0]] + peers;
      PrependOne(peers, file.peers[0], before, keys, objs, s[i].key);
    }
  }

  lemma PrependOne(now: seq<PeerObject>, gone: PeerObject, was: seq<PeerObject>, keys: seq<Key>, objs: seq<PeerObject>, key: Key)
    requires Prepended(now, was, keys, objs) && gone !in objs && gone.peer == Removal(key)
    ensures Prepended([gone] + now, was, [key] + keys, objs)
  {
    hide Removal;
    assert ([gone] + now)[|keys| + 1..] == was;
  }

  method Scan(file: FileDevice, s: seq<Origin>, ghost objs: seq<PeerObject>)
    requires Table(s, objs)
    modifies file`peers, objs
    ensures PeersOf(objs) == Scanned(s, old(PeersOf(objs)), |s|)
    ensures Prepended(file.peers, old(file.peers), StaleKeys(s, |s|), objs)
  {
    hide Stale, Scanned;
    ghost var before, was := file.peers, PeersOf(objs);
    NothingScanned(s, was);
    var i := 0;
    while i < |s|
      invariant 0 <= i <= |s|
      invariant Table(s, objs) && PeersOf(objs) == Scanned(s, was, i)
      invariant Prepended(file.peers, before, StaleKeys(s, i), objs)
    {
      ScanNext(file, s, i, objs, was, before);
      i := i + 1;
    }
  }

  // ----- the table holds both lists -----

  ghost predicate NoRepeat<T>(s: seq<T>) {
    forall i, j :: 0 <= i < j < |s| ==> s[i] != s[j]
  }

  lemma {:induction false} CountOnce<T>(s: seq<T>, x: T)
    requires NoRepeat(s)
    ensures multiset(s)[x] <= 1
  {
    if s != [] {
      var n := |s| - 1;
      assert s == s[..n] + [s[n]];
      CountOnce(s[..n], x);
      assert x == s[n] ==> x !in s[..n];
    }
  }

  lemma CountTwice<T>(r: seq<T>, i: nat, j: nat)
    requires i < j < |r| && r[i] == r[j]
    ensures multiset(r)[r[i]] >= 2
  {
    assert r == r[..i] + [r[i]] + r[i + 1..j] + [r[j]] + r[j + 1..];
  }

  /** A permutation repeats nothing that was not repeated. */
  lemma NoRepeatPermuted<T>(s: seq<T>, r: seq<T>)
    requires NoRepeat(s) && multiset(s) == multiset(r)
    ensures NoRepeat(r)
  {
    forall i, j | 0 <= i < j < |r|
      ensures r[i] != r[j]
    {
      CountOnce(s, r[i]);
      if r[i] == r[j] {
        CountTwice(r, i, j);
      }
    }
  }

  function Entries(objs: seq<PeerObject>, peers: seq<Peer>, fromFile: bool): (r: seq<Origin>)
    requires |objs| == |peers|
    ensures |r| == |objs|
  {
    seq(|objs|, i requires 0 <= i < |objs| => Origin(objs[i], peers[i].publicKey, fromFile))
  }

  predicate DistinctKeys(ps: seq<Peer>) {
    forall i, j :: 0 <= i < j < |ps| ==> ps[i].publicKey != ps[j].publicKey
  }

  /** The sorted table: the file's objects and the running ones, once each. */
  ghost predicate Lists(s: seq<Origin>, fo: seq<PeerObject>, fs: seq<Peer>, ro: seq<PeerObject>, rs: seq<Peer>) {
    && |fo| == |fs| && |ro| == |rs| && NoRepeat(s)
    && (forall i :: 0 <= i < |s| ==> s[i] in Entries(fo, fs, true) || s[i] in Entries(ro, rs, false))
    && (forall i :: 0 <= i < |fo| ==> Entries(fo, fs, true)[i] in s)
    && (forall i :: 0 <= i < |ro| ==> Entries(ro, rs, false)[i] in s)
  }

  lemma ListsDistinct(s: seq<Origin>, fo: seq<PeerObject>, fs: seq<Peer>, ro: seq<PeerObject>, rs: seq<Peer>)
    requires Lists(s, fo, fs, ro, rs) && DistinctKeys(fs) && DistinctKeys(rs)
    requires NoRepeat(fo) && NoRepeat(ro) && forall i :: 0 <= i < |ro| ==> ro[i] !in fo
    ensures Distinct(s)
    ensures forall i, j :: 0 <= i < j < |s| ==> s[i].obj != s[j].obj
  {
    forall i, j | 0 <= i < j < |s|
      ensures s[i].obj != s[j].obj
      ensures s[i].fromFile == s[j].fromFile ==> s[i].key != s[j].key
    {
      assert s[i] != s[j] && s[i] in s && s[j] in s;
      EntriesApart(fo, fs, ro, rs, s[i], s[j]);
    }
  }

  /** Two entries of the table. */
  lemma EntriesApart(fo: seq<PeerObject>, fs: seq<Peer>, ro: seq<PeerObject>, rs: seq<Peer>, x: Origin, y: Origin)
    requires |fo| == |fs| && |ro| == |rs| && DistinctKeys(fs) && DistinctKeys(rs)
    requires NoRepeat(fo) && NoRepeat(ro) && forall i :: 0 <= i < |ro| ==> ro[i] !in fo
    requires x != y && (x in Entries(fo, fs, true) || x in Entries(ro, rs, false))
    requires y in Entries(fo, fs, true) || y in Entries(ro, rs, false)
    ensures x.obj != y.obj && (x.fromFile == y.fromFile ==> x.key != y.key)
  {
    var a, b := Entries(fo, fs, true), Entries(ro, rs, false);
    var m :| 0 <= m < |if x in a then a else b| && (if x in a then a else b)[m] == x;
    var n :| 0 <= n < |if y in a then a else b| && (if y in a then a else b)[n] == y;
  }

  lemma {:induction false} RunningWithIs(rs: seq<Peer>, key: Key)
    ensures RunningWith(rs, key).Some? ==> RunningWith(rs, key).value in rs && RunningWith(rs, key).value.publicKey == key
    ensures RunningWith(rs, key).None? ==> forall i :: 0 <= i < |rs| ==> rs[i].publicKey != key
  {
    if rs != [] {
      RunningWithIs(rs[1..], key);
      assert forall i :: 0 < i < |rs| ==> rs[i] == rs[1..][i - 1];
    }
  }

  /** The running peers at their places in the table. */
  ghost predicate Covers(s: seq<Origin>, was: seq<Peer>, rs: seq<Peer>) {
    && |s| == |was|
    && (forall i :: 0 <= i < |s| ==> s[i].key == was[i].publicKey)
    && (forall i :: 0 <= i < |s| && !s[i].fromFile ==> was[i] in rs)
    && (forall m :: 0 <= m < |rs| ==> exists i :: 0 <= i < |s| && !s[i].fromFile && was[i] == rs[m])
  }

  /** The scan gives every peer of the file the edit it needs. */
  lemma ScanEdits(s: seq<Origin>, was: seq<Peer>, rs: seq<Peer>, j: nat)
    requires Sorted(s) && Distinct(s) && Covers(s, was, rs) && DistinctKeys(rs)
    requires j < |s| && s[j].fromFile
    ensures After(s, was, |s|, j) == Edited(was[j], rs)
  {
    hide Patched, Sorted, Distinct;
    var key := s[j].key;
    RunningWithIs(rs, key);
    assert j > 0 && !s[j - 1].fromFile ==> was[j - 1] in rs && s[j - 1].key == was[j - 1].publicKey;
    if RunningWith(rs, key).Some? {
      var r := RunningWith(rs, key).value;
      var m :| 0 <= m < |rs| && rs[m] == r;
      var i :| 0 <= i < |s| && !s[i].fromFile && was[i] == rs[m];
      Neighbour(s, i, j);
    }
  }

  lemma {:induction false} StaleKeysAre(s: seq<Origin>, i: nat, key: Key)
    requires i <= |s|
    ensures key in StaleKeys(s, i) <==> exists j :: 0 <= j < i && Stale(s, j) && s[j].key == key
  {
    hide Stale;
    if i > 0 {
      StaleKeysAre(s, i - 1, key);
    }
  }

  /** What is removed is what runs and is not in the file. */
  lemma StaleExactly(s: seq<Origin>, key: Key)
    requires Sorted(s) && Distinct(s)
    ensures key in StaleKeys(s, |s|) <==>
            && (exists i :: 0 <= i < |s| && !s[i].fromFile && s[i].key == key)
            && !(exists j :: 0 <= j < |s| && s[j].fromFile && s[j].key == key)
  {
    hide StaleKeys, Sorted, Distinct;
    StaleKeysAre(s, |s|, key);
    forall i, j | 0 <= i < |s| && 0 <= j < |s| && !s[i].fromFile && s[j].fromFile && s[i].key == s[j].key
      ensures j == i + 1
    {
      Neighbour(s, i, j);
    }
  }

  // ----- sync_conf -----

  method Collect(objs: seq<PeerObject>, fromFile: bool) returns (r: seq<Origin>)
    ensures r == Entries(objs, PeersOf(objs), fromFile)
  {
    r := [];
    var i := 0;
    while i < |objs|
      invariant 0 <= i <= |objs|
      invariant r == Entries(objs, PeersOf(objs), fromFile)[..i]
    {
      r := r + [Origin(objs[i], objs[i].peer.publicKey, fromFile)];
      i := i + 1;
    }
  }

  /** The device that ipc_get_device allocates. */
  method Running(ps: seq<Peer>) returns (objs: seq<PeerObject>)
    ensures PeersOf(objs) == ps && NoRepeat(objs) && forall i :: 0 <= i < |objs| ==> fresh(objs[i])
  {
    objs := [];
    var i := 0;
    while i < |ps|
      invariant 0 <= i <= |ps| && |objs| == i
      invariant forall j :: 0 <= j < i ==> objs[j].peer == ps[j] && fresh(objs[j])
      invariant NoRepeat(objs)
    {
      var o := new PeerObject(ps[i]);
      assert o !in objs;
      objs := objs + [o];
      i := i + 1;
    }
  }

  lemma EntriesNoRepeat(fo: seq<PeerObject>, fs: seq<Peer>, ro: seq<PeerObject>, rs: seq<Peer>)
    requires |fo| == |fs| && |ro| == |rs| && NoRepeat(fo) && NoRepeat(ro)
    ensures NoRepeat(Entries(fo, fs, true) + Entries(ro, rs, false))
  {
  }

  lemma ListsAfterSort(s: seq<Origin>, fo: seq<PeerObject>, fs: seq<Peer>, ro: seq<PeerObject>, rs: seq<Peer>)
    requires |fo| == |fs| && |ro| == |rs| && NoRepeat(fo) && NoRepeat(ro)
    requires multiset(s) == multiset(Entries(fo, fs, true) + Entries(ro, rs, false))
    ensures Lists(s, fo, fs, ro, rs)
  {
    var a, b := Entries(fo, fs, true), Entries(ro, rs, false);
    hide Entries;
    EntriesNoRepeat(fo, fs, ro, rs);
    NoRepeatPermuted(a + b, s);
    forall i | 0 <= i < |s|
      ensures s[i] in a || s[i] in b
    {
      assert s[i] in multiset(a + b);
    }
    forall i | 0 <= i < |a|
      ensures a[i] in s
    {
      assert a[i] in a + b;
      assert a[i] in multiset(s);
    }
    forall i | 0 <= i < |b|
      ensures b[i] in s
    {
      assert (a + b)[|a| + i] == b[i];
      assert b[i] in multiset(s);
    }
  }

  ghost function Objects(s: seq<Origin>): (r: seq<PeerObject>)
    ensures |r| == |s|
  {
    seq(|s|, i requires 0 <= i < |s| => s[i].obj)
  }

  lemma TableAndCovers(s: seq<Origin>, fo: seq<PeerObject>, ro: seq<PeerObject>)
    requires var fs, rs := PeersOf(fo), PeersOf(ro); Lists(s, fo, fs, ro, rs) && DistinctKeys(fs) && DistinctKeys(rs)
    requires NoRepeat(fo) && NoRepeat(ro) && forall i :: 0 <= i < |ro| ==> ro[i] !in fo
    ensures Distinct(s) && Table(s, Objects(s)) && Covers(s, PeersOf(Objects(s)), PeersOf(ro))
  {
    var fs, rs := PeersOf(fo), PeersOf(ro);
    ListsDistinct(s, fo, fs, ro, rs);
    var a, b := Entries(fo, fs, true), Entries(ro, rs, false);
    forall i | 0 <= i < |s|
      ensures s[i].obj.peer.publicKey == s[i].key && (!s[i].fromFile ==> s[i].obj.peer in rs)
    {
      if s[i] in a {
        var m :| 0 <= m < |a| && a[m] == s[i];
      } else {
        var m :| 0 <= m < |b| && b[m] == s[i];
        assert rs[m] == s[i].obj.peer;
      }
    }
    forall m | 0 <= m < |rs|
      ensures exists i :: 0 <= i < |s| && !s[i].fromFile && PeersOf(Objects(s))[i] == rs[m]
    {
      assert b[m] in s;
      var i :| 0 <= i < |s| && s[i] == b[m];
      assert PeersOf(Objects(s))[i] == rs[m];
    }
  }

  predicate HasKey(ps: seq<Peer>, key: Key) {
    exists i :: 0 <= i < |ps| && ps[i].publicKey == key
  }

  lemma RemovedExactly(s: seq<Origin>, fo: seq<PeerObject>, fs: seq<Peer>, ro: seq<PeerObject>, rs: seq<Peer>, key: Key)
    requires Sorted(s) && Distinct(s) && Lists(s, fo, fs, ro, rs)
    ensures key in StaleKeys(s, |s|) <==> HasKey(rs, key) && !HasKey(fs, key)
  {
    hide Sorted, Distinct, StaleKeys;
    StaleExactly(s, key);
    var a, b := Entries(fo, fs, true), Entries(ro, rs, false);
    forall i | 0 <= i < |fs|
      ensures exists j :: 0 <= j < |s| && s[j].fromFile && s[j].key == fs[i].publicKey
    {
      assert a[i] in s;
    }
    forall i | 0 <= i < |rs|
      ensures exists j :: 0 <= j < |s| && !s[j].fromFile && s[j].key == rs[i].publicKey
    {
      assert b[i] in s;
    }
    forall j | 0 <= j < |s|
      ensures HasKey(if s[j].fromFile then fs else rs, s[j].key)
    {
      var c := if s[j] in a then a else b;
      var m :| 0 <= m < |c| && c[m] == s[j];
    }
  }

  lemma ObjectsFrom(s: seq<Origin>, fo: seq<PeerObject>, fs: seq<Peer>, ro: seq<PeerObject>, rs: seq<Peer>)
    requires Lists(s, fo, fs, ro, rs)
    ensures forall i :: 0 <= i < |s| ==> Objects(s)[i] in fo || Objects(s)[i] in ro
  {
  }

  /** The table of both lists, sorted. */
  method SortedTable(fo: seq<PeerObject>, running: seq<Peer>) returns (s: seq<Origin>, ghost ro: seq<PeerObject>)
    requires NoRepeat(fo) && DistinctKeys(PeersOf(fo)) && DistinctKeys(running)
    ensures Sorted(s) && Distinct(s) && |ro| == |running| && Lists(s, fo, PeersOf(fo), ro, running)
    ensures Table(s, Objects(s)) && Covers(s, PeersOf(Objects(s)), running)
    ensures forall i :: 0 <= i < |s| ==> Objects(s)[i] in fo || fresh(Objects(s)[i])
  {
    hide Sorted, Distinct, Lists, Covers, Table, Entries;
    var objs := Running(running);
    ro := objs;
    var a := Collect(fo, true);
    var b := Collect(objs, false);
    s := QSort(a + b);
    ListsAfterSort(s, fo, PeersOf(fo), ro, running);
    TableAndCovers(s, fo, ro);
    ObjectsFrom(s, fo, PeersOf(fo), ro, running);
  }

  /** The edit of the file: removals in front, and every peer edited in place. */
  method Edit(file: FileDevice, running: seq<Peer>) returns (ghost removed: seq<Key>)
    requires NoRepeat(file.peers) && DistinctKeys(PeersOf(file.peers)) && DistinctKeys(running)
    modifies file`peers, file.peers
    ensures PeersOf(file.peers) == Removals(removed) + EditedAll(old(PeersOf(file.peers)), running)
    ensures forall key :: key in removed <==> HasKey(running, key) && !HasKey(old(PeersOf(file.peers)), key)
  {
    hide Sorted, Distinct, Lists, Covers, Table, Scanned, Removal, Edited, HasKey, StaleKeys, Entries;
    ghost var fo, fs := file.peers, PeersOf(file.peers);
    var s, ro := SortedTable(file.peers, running);
    ghost var objs := Objects(s);
    ghost var was := PeersOf(objs);
    removed := StaleKeys(s, |s|);
    forall key
      ensures key in removed <==> HasKey(running, key) && !HasKey(fs, key)
    {
      RemovedExactly(s, fo, fs, ro, running, key);
    }
    Scan(file, s, objs);
    FileEdited(s, fo, fs, ro, running, was);
    assert file.peers == file.peers[..|removed|] + fo;
    assert PeersOf(file.peers) == Removals(removed) + PeersOf(fo);
  }

  lemma FileEdited(s: seq<Origin>, fo: seq<PeerObject>, fs: seq<Peer>, ro: seq<PeerObject>, rs: seq<Peer>, was: seq<Peer>)
    requires Sorted(s) && Distinct(s) && Lists(s, fo, fs, ro, rs) && Covers(s, was, rs) && DistinctKeys(rs)
    requires forall j, m :: 0 <= j < |s| && 0 <= m < |fo| && s[j].obj == fo[m] ==> was[j] == fs[m]
    requires PeersOf(Objects(s)) == Scanned(s, was, |s|)
    ensures PeersOf(fo) == EditedAll(fs, rs)
  {
    hide Sorted, Distinct, Covers, Edited, After;
    forall m | 0 <= m < |fo|
      ensures fo[m].peer == Edited(fs[m], rs)
    {
      var e := Entries(fo, fs, true)[m];
      assert e in s;
      var j :| 0 <= j < |s| && s[j] == e;
      ScanEdits(s, was, rs, j);
      assert PeersOf(Objects(s))[j] == fo[m].peer;
    }
  }

  /** sync_conf.  Without peers on one side there is nothing to compare, and the
      device keeps its request to replace all peers. */
  method SyncConf(file: FileDevice, running: seq<Peer>) returns (ghost removed: seq<Key>)
    requires NoRepeat(file.peers) && DistinctKeys(PeersOf(file.peers)) && DistinctKeys(running)
    modifies file, file.peers
    ensures old(file.peers) == [] || running == [] ==>
              file.replacePeers == old(file.replacePeers) && file.peers == old(file.peers) && PeersOf(file.peers) == old(PeersOf(file.peers))
    ensures old(file.peers) != [] && running != [] ==>
              && !file.replacePeers
              && PeersOf(file.peers) == Removals(removed) + EditedAll(old(PeersOf(file.peers)), running)
              && forall key :: key in removed <==> HasKey(running, key) && !HasKey(old(PeersOf(file.peers)), key)
  {
    removed := [];
    if file.peers == [] {
      return;
    }
    if running == [] {
      return;
    }
    file.replacePeers := false;
    removed := Edit(file, running);
  }
}

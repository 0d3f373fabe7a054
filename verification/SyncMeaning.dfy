/** Applying the device that sync_conf edited has the effect of replacing every
    peer by the file's, except that a peer without an endpoint in the file keeps
    the one it has. */
module SyncMeaning {
  import opened Common
  import opened WgMessage
  import opened Kernel
  import opened WgDevice
  import opened SyncConf

  /** `rs` is what the kernel reports of its peers. */
  ghost predicate Reports(k: State, rs: seq<Peer>) {
    && DistinctKeys(rs)
    && (forall key: Bytes :: key in k.peers ==> |key| == KEY_LEN && HasKey(rs, key))
    && (forall i :: 0 <= i < |rs| ==>
          && rs[i].publicKey in k.peers
          && (rs[i].hasPresharedKey <==> k.peers[rs[i].publicKey].psk != ZeroKey())
          && rs[i].keepalive == k.peers[rs[i].publicKey].keepalive)
  }

  /** Peers of a file that is not appended. */
  predicate ReplaceMode(ps: seq<Peer>) {
    forall i :: 0 <= i < |ps| ==> !ps[i].removeMe && ps[i].replaceAllowedIps
  }

  // ----- the relation between the two runs -----

  /** Routes agree, but for those of peers still to come. */
  ghost predicate SameOwners(so: map<Route, Bytes>, ro: map<Route, Bytes>, rest: set<Bytes>) {
    && (forall r :: r in ro ==> r in so && so[r] == ro[r] && ro[r] !in rest)
    && (forall r :: r in so && r !in ro ==> so[r] in rest)
  }

  ghost predicate SamePeer(s: PeerState, r: PeerState, was: Option<PeerState>) {
    && s.psk == r.psk && s.keepalive == r.keepalive
    && s.endpoint == if r.endpoint.Some? || was.None? then r.endpoint else was.value.endpoint
  }

  ghost function Was(kp: map<Bytes, PeerState>, key: Bytes): Option<PeerState> {
    if key in kp then Some(kp[key]) else None
  }

  /** Peers agree, but for those still to come, which are as they were. */
  ghost predicate SamePeers(sp: map<Bytes, PeerState>, rp: map<Bytes, PeerState>, kp: map<Bytes, PeerState>, rest: set<Bytes>) {
    && (forall key :: key in rp ==> key in sp && key !in rest && SamePeer(sp[key], rp[key], Was(kp, key)))
    && (forall key :: key in sp && key !in rp ==> key in rest && key in kp && sp[key] == kp[key])
    && (forall key :: key in rest && key in kp ==> key in sp)
  }

  ghost predicate Alike(s: State, r: State, kp: map<Bytes, PeerState>, rest: set<Bytes>) {
    && s.failed == r.failed && s.privateKey == r.privateKey && s.port == r.port && s.fwmark == r.fwmark
    && (!s.failed ==> SameOwners(s.owner, r.owner, rest) && SamePeers(s.peers, r.peers, kp, rest))
  }

  // ----- one peer -----

  lemma {:induction false} IpsAlike(s: State, r: State, key: Bytes, ws: seq<WireIp>, rest: set<Bytes>)
    requires !s.failed && !r.failed && SameOwners(s.owner, r.owner, rest) && key !in rest
    ensures var s', r' := ApplyIps(s, key, ws), ApplyIps(r, key, ws);
            && s' == s.(failed := s'.failed, owner := s'.owner) && r' == r.(failed := r'.failed, owner := r'.owner)
            && s'.failed == r'.failed && (!s'.failed ==> SameOwners(s'.owner, r'.owner, rest))
    decreases |ws|
  {
    hide RouteOf;
    if ws != [] {
      IpsAlike(s, r, key, ws[..|ws| - 1], rest);
    }
  }

  lemma OwnersReplaced(so: map<Route, Bytes>, ro: map<Route, Bytes>, key: Bytes, rest: set<Bytes>)
    requires SameOwners(so, ro, rest) && key in rest
    ensures SameOwners(Without(so, key), Without(ro, key), rest - {key})
  {
  }

  /** The options that the edited peer ends up with. */
  lemma OptionsAlike(k: State, p: Peer, rs: seq<Peer>)
    requires Reports(k, rs)
    ensures var q, key := Edited(p, rs), p.publicKey;
            && q.publicKey == key && q.removeMe == p.removeMe && q.replaceAllowedIps == p.replaceAllowedIps
            && q.endpoint == p.endpoint && q.allowedIps == p.allowedIps
            && (if q.hasPresharedKey then q.presharedKey else if key in k.peers then k.peers[key].psk else ZeroKey())
               == (if p.hasPresharedKey then p.presharedKey else ZeroKey())
            && (if q.hasKeepalive then q.keepalive else if key in k.peers then k.peers[key].keepalive else 0)
               == (if p.hasKeepalive then p.keepalive else 0)
  {
    hide RunningWith, Patched, DistinctKeys;
    var key := p.publicKey;
    RunningWithIs(rs, key);
    if RunningWith(rs, key).Some? {
      var r := RunningWith(rs, key).value;
      var i :| 0 <= i < |rs| && rs[i] == r;
      PatchedOptions(p, r);
    } else {
      assert key !in k.peers;
    }
  }

  /** What the patch says of the two options. */
  lemma PatchedOptions(p: Peer, r: Peer)
    ensures var q := Patched(p, r);
            && q == p.(hasPresharedKey := q.hasPresharedKey, presharedKey := q.presharedKey, hasKeepalive := q.hasKeepalive, keepalive := q.keepalive)
            && (p.hasPresharedKey || !r.hasPresharedKey ==> q.hasPresharedKey == p.hasPresharedKey && q.presharedKey == p.presharedKey)
            && (!p.hasPresharedKey && r.hasPresharedKey ==> q.hasPresharedKey && q.presharedKey == ZeroKey())
            && (p.hasKeepalive || r.keepalive == 0 ==> q.hasKeepalive == p.hasKeepalive && q.keepalive == p.keepalive)
            && (!p.hasKeepalive && r.keepalive != 0 ==> q.hasKeepalive && q.keepalive == 0)
  {
  }

  lemma SamePeersUpdated(sp: map<Bytes, PeerState>, rp: map<Bytes, PeerState>, kp: map<Bytes, PeerState>, rest: set<Bytes>,
                         key: Bytes, s: PeerState, r: PeerState)
    requires SamePeers(sp, rp, kp, rest) && key in rest && SamePeer(s, r, Was(kp, key))
    ensures SamePeers(sp[key := s], rp[key := r], kp, rest - {key})
  {
    hide SamePeer;
  }

  /** The options after a message, of a peer that was there or not. */
  ghost function Opened(was: Option<PeerState>, w: WirePeer): PeerState {
    var p := if was.Some? then was.value else NewPeer();
    PeerState(if w.psk.Some? then w.psk.value else p.psk,
              if w.endpoint.Some? then w.endpoint else p.endpoint,
              if w.keepalive.Some? then w.keepalive.value else p.keepalive)
  }

  lemma OpenedPeers(k: State, w: WirePeer)
    ensures OpenPeer(k, w).peers == k.peers[w.key := Opened(Was(k.peers, w.key), w)]
  {
  }

  lemma OpenedAlike(k: State, p: Peer, rs: seq<Peer>)
    requires Reports(k, rs)
    ensures var q, was := Edited(p, rs), Was(k.peers, p.publicKey);
            SamePeer(Opened(was, Piece(q, true, Some(q.allowedIps))), Opened(None, Piece(p, true, Some(p.allowedIps))), was)
  {
    hide Edited, Reports, EndpointWire, IpWires;
    OptionsAlike(k, p, rs);
    assert NewPeer().psk == ZeroKey();
  }

  lemma PeersOpened(s: State, r: State, k: State, p: Peer, rs: seq<Peer>, rest: set<Bytes>)
    requires Reports(k, rs) && SamePeers(s.peers, r.peers, k.peers, rest) && p.publicKey in rest
    ensures var q := Edited(p, rs);
            SamePeers(OpenPeer(s, Piece(q, true, Some(q.allowedIps))).peers,
                      OpenPeer(r, Piece(p, true, Some(p.allowedIps))).peers, k.peers, rest - {p.publicKey})
  {
    hide Edited, Reports, Piece, OpenPeer, Opened, SamePeer;
    var q, key := Edited(p, rs), p.publicKey;
    var v, w := Piece(q, true, Some(q.allowedIps)), Piece(p, true, Some(p.allowedIps));
    OptionsAlike(k, p, rs);
    PieceFacts(p);
    PieceFacts(q);
    OpenedPeers(s, v);
    OpenedPeers(r, w);
    OpenedAlike(k, p, rs);
    assert Was(r.peers, key) == None && Was(s.peers, key) == Was(k.peers, key);
    SamePeersUpdated(s.peers, r.peers, k.peers, rest, key, Opened(Was(k.peers, key), v), Opened(None, w));
  }

  lemma PeerAlike(s: State, r: State, k: State, p: Peer, rs: seq<Peer>, rest: set<Bytes>)
    requires Reports(k, rs) && Alike(s, r, k.peers, rest) && p.publicKey in rest
    requires !p.removeMe && p.replaceAllowedIps
    ensures var q := Edited(p, rs);
            Alike(ApplyPeer(s, Piece(q, true, Some(q.allowedIps))),
                  ApplyPeer(r, Piece(p, true, Some(p.allowedIps))), k.peers, rest - {p.publicKey})
  {
    hide Edited, Reports, SameOwners, SamePeers, Piece, ApplyIps, OpenPeer;
    var q := Edited(p, rs);
    var v, w := Piece(q, true, Some(q.allowedIps)), Piece(p, true, Some(p.allowedIps));
    OptionsAlike(k, p, rs);
    PieceFacts(p);
    PieceFacts(q);
    if !s.failed {
      PeersOpened(s, r, k, p, rs, rest);
      OwnersReplaced(s.owner, r.owner, p.publicKey, rest);
      OpenFacts(s, v);
      OpenFacts(r, w);
      IpsAlike(OpenPeer(s, v), OpenPeer(r, w), p.publicKey, IpsOf(w), rest - {p.publicKey});
    }
  }

  lemma PieceFacts(p: Peer)
    ensures var w := Piece(p, true, Some(p.allowedIps));
            && w.key == p.publicKey && IpsOf(w) == IpWires(p.allowedIps) && |w.key| == KEY_LEN && w.flags < 8
            && Removes(w) == p.removeMe && Replaces(w) == p.replaceAllowedIps && !UpdatesOnly(w)
  {
    hide EndpointWire, IpWires;
  }

  lemma OpenFacts(k: State, w: WirePeer)
    requires Replaces(w)
    ensures var o := OpenPeer(k, w); o == k.(peers := o.peers, owner := Without(k.owner, w.key))
  {
  }

  // ----- the removals -----

  ghost function KeysFrom(ps: seq<Peer>, i: nat): set<Bytes> {
    set j | i <= j < |ps| :: ps[j].publicKey
  }

  lemma RemovalDrops(k: State, key: Key)
    requires !k.failed
    ensures ApplyPeer(k, Piece(Removal(key), true, Some([]))) == DropPeer(k, key)
  {
    hide EndpointWire;
  }

  lemma WholesSnoc(ps: seq<Peer>, n: nat)
    requires n < |ps|
    ensures Wholes(ps[..n + 1]) == Wholes(ps[..n]) + [Piece(ps[n], true, Some(ps[n].allowedIps))]
  {
    hide Piece;
  }

  /** The removals drop their peers, and the routes of these. */
  lemma {:induction false} RemovalsDrop(k: State, keys: seq<Key>, n: nat)
    requires !k.failed && n <= |keys|
    ensures var d := ApplyPeers(k, Wholes(Removals(keys)[..n]));
            && d == k.(peers := d.peers, owner := d.owner)
            && (forall key :: key in d.peers <==> key in k.peers && key !in keys[..n])
            && (forall key :: key in d.peers ==> d.peers[key] == k.peers[key])
            && (forall r :: r in d.owner <==> r in k.owner && k.owner[r] !in keys[..n])
            && (forall r :: r in d.owner ==> d.owner[r] == k.owner[r])
  {
    hide Piece, ApplyPeer;
    if n > 0 {
      var key, ps := keys[n - 1], Removals(keys);
      RemovalsDrop(k, keys, n - 1);
      WholesSnoc(ps, n - 1);
      var ws := Wholes(ps[..n - 1]);
      var w := Piece(Removal(key), true, Some([]));
      assert (ws + [w])[..|ws|] == ws;
      RemovalDrops(ApplyPeers(k, ws), key);
      assert keys[..n] == keys[..n - 1] + [key];
    }
  }

  lemma RemovedIsAbsent(k: State, fs: seq<Peer>, rs: seq<Peer>, removed: seq<Key>, key: Bytes)
    requires Reports(k, rs) && key in k.peers
    requires forall key :: key in removed <==> HasKey(rs, key) && !HasKey(fs, key)
    ensures key in removed <==> key !in KeysFrom(fs, 0)
  {
    assert |key| == KEY_LEN && HasKey(rs, key);
  }

  lemma AfterRemovals(k: State, h: State, fs: seq<Peer>, rs: seq<Peer>, removed: seq<Key>)
    requires !h.failed && Wf(k) && Reports(k, rs) && h.peers == k.peers && h.owner == k.owner
    requires forall key :: key in removed <==> HasKey(rs, key) && !HasKey(fs, key)
    ensures Alike(ApplyPeers(h, Wholes(Removals(removed))), h.(peers := map[], owner := map[]), k.peers, KeysFrom(fs, 0))
  {
    hide Reports, ApplyPeers, Wholes, HasKey, KeysFrom, SamePeer;
    var n := |removed|;
    RemovalsDrop(h, removed, n);
    assert Removals(removed)[..n] == Removals(removed) && removed[..n] == removed;
    forall key | key in k.peers
      ensures key in removed <==> key !in KeysFrom(fs, 0)
    {
      RemovedIsAbsent(k, fs, rs, removed, key);
    }
  }

  // ----- the file's peers, one by one -----

  lemma {:induction false} FileAlike(s: State, r: State, k: State, fs: seq<Peer>, rs: seq<Peer>, n: nat)
    requires Reports(k, rs) && DistinctKeys(fs) && ReplaceMode(fs) && n <= |fs|
    requires Alike(s, r, k.peers, KeysFrom(fs, 0))
    ensures Alike(ApplyPeers(s, Wholes(EditedAll(fs, rs)[..n])), ApplyPeers(r, Wholes(fs[..n])), k.peers, KeysFrom(fs, n))
  {
    hide Reports, Alike, Piece, ApplyPeer, Edited;
    if n > 0 {
      var p, ps := fs[n - 1], EditedAll(fs, rs);
      FileAlike(s, r, k, fs, rs, n - 1);
      WholesSnoc(ps, n - 1);
      WholesSnoc(fs, n - 1);
      var a, b := Wholes(ps[..n - 1]), Wholes(fs[..n - 1]);
      assert (a + [Piece(ps[n - 1], true, Some(ps[n - 1].allowedIps))])[..|a|] == a;
      assert (b + [Piece(p, true, Some(p.allowedIps))])[..|b|] == b;
      assert KeysFrom(fs, n) == KeysFrom(fs, n - 1) - {p.publicKey};
      PeerAlike(ApplyPeers(s, a), ApplyPeers(r, b), k, p, rs, KeysFrom(fs, n - 1));
    }
  }

  // ----- the main statement -----

  ghost predicate SameButEndpoints(s: State, r: State, k: State) {
    && s.privateKey == r.privateKey && s.port == r.port && s.fwmark == r.fwmark && s.owner == r.owner
    && s.peers.Keys == r.peers.Keys
    && forall key :: key in r.peers ==> SamePeer(s.peers[key], r.peers[key], Was(k.peers, key))
  }

  /** The device as sync_conf leaves it. */
  function Synced(dev: Device, rs: seq<Peer>, removed: seq<Key>): Device {
    dev.(replacePeers := false, peers := Removals(removed) + EditedAll(dev.peers, rs))
  }

  lemma AlikeAtEnd(s: State, r: State, k: State)
    requires Alike(s, r, k.peers, {}) && !s.failed
    ensures SameButEndpoints(s, r, k)
  {
    assert s.owner.Keys == r.owner.Keys;
  }

  /** Synchronising is replacing. */
  lemma SyncIsReplace(k: State, dev: Device, rs: seq<Peer>, removed: seq<Key>)
    requires !k.failed && Wf(k) && Reports(k, rs)
    requires dev.replacePeers && DistinctKeys(dev.peers) && ReplaceMode(dev.peers)
    requires forall key :: key in removed <==> HasKey(rs, key) && !HasKey(dev.peers, key)
    ensures var s, r := ApplyDevice(k, Whole(Synced(dev, rs, removed))), ApplyDevice(k, Whole(dev));
            s.failed == r.failed && (!s.failed ==> SameButEndpoints(s, r, k))
  {
    hide Reports, Alike, Wf, ApplyPeers, SameButEndpoints, EditedAll, Removals;
    var fs, q := dev.peers, Synced(dev, rs, removed);
    var h := ApplyHead(k, Whole(q));
    var r := ApplyHead(k, Whole(dev));
    assert r == h.(peers := map[], owner := map[]);
    var a, b := Wholes(Removals(removed)), Wholes(EditedAll(fs, rs));
    AfterRemovals(k, h, fs, rs, removed);
    FileAlike(ApplyPeers(h, a), r, k, fs, rs, |fs|);
    assert EditedAll(fs, rs)[..|fs|] == EditedAll(fs, rs) by { EditedLength(fs, rs); }
    assert fs[..|fs|] == fs;
    assert Wholes(Removals(removed) + EditedAll(fs, rs)) == a + b by { WholesAppend(Removals(removed), EditedAll(fs, rs)); }
    PeersAppend(h, a, b);
    var s' := ApplyPeers(ApplyPeers(h, a), b);
    var r' := ApplyPeers(r, Wholes(fs));
    assert KeysFrom(fs, |fs|) == {};
    assert s'.failed == r'.failed by { AlikeFails(s', r', k); }
    if !s'.failed {
      AlikeAtEnd(s', r', k);
    }
  }

  lemma EditedLength(fs: seq<Peer>, rs: seq<Peer>)
    ensures |EditedAll(fs, rs)| == |fs|
  {
  }

  lemma AlikeFails(s: State, r: State, k: State)
    requires Alike(s, r, k.peers, {})
    ensures s.failed == r.failed
  {
  }

  lemma WholesAppend(a: seq<Peer>, b: seq<Peer>)
    ensures Wholes(a + b) == Wholes(a) + Wholes(b)
  {
    hide Piece;
  }
}

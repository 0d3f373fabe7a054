/** What setting a device means to the kernel, said of the device itself: which
    devices are refused, what the settings and the peers are afterwards, and who
    owns each route. */
module SetMeaning {
  import opened Bits
  import opened Common
  import opened WgMessage
  import opened WgDevice
  import opened Kernel

  // ----- a device, field by field -----

  function Quotient(n: nat, d: nat): nat
    requires d > 0
  {
    n / d
  }

  /** The first bits of an address. */
  function Network(family: nat, addr: Bytes, cidr: nat): Route
    requires cidr <= 8 * |addr|
  {
    Route(family, Quotient(BigEndian(addr), Pow2(8 * |addr| - cidr)), cidr)
  }

  /** The first byte of an IPv4 address counts most; with mask 8 it is the network. */
  lemma DottedQuad(a: Bytes)
    requires |a| == 4
    ensures BigEndian(a) == 0x1000000 * a[0] as nat + 0x10000 * a[1] as nat + 0x100 * a[2] as nat + a[3] as nat
    ensures Network(2, a, 8) == Route(2, a[0] as nat, 8)
  {
    assert a[..3][..2] == a[..2] && a[..2][..1] == a[..1] && a[..1][..0] == [];
    assert BigEndian(a[..1]) == a[0] as nat;
    assert BigEndian(a[..2]) == 256 * BigEndian(a[..1]) + a[1] as nat;
    assert BigEndian(a[..3]) == 256 * BigEndian(a[..2]) + a[2] as nat;
    Pow2Three();
  }

  lemma Pow2Three()
    ensures Pow2(24) == 0x1000000
  {
    Pow2Add(8, 8);
    Pow2Add(16, 8);
    assert Pow2(8) == 256;
  }

  /** `r` is the network of an allowed IP; an IPv4 address has four bytes. */
  ghost predicate Names(a: AllowedIp, r: Route) {
    || (a.family == 2 && a.cidr <= 32 && r == Network(2, a.addr[..4], a.cidr as nat))
    || (a.family == 10 && a.cidr <= 128 && r == Network(10, a.addr[..16], a.cidr as nat))
  }

  predicate Acceptable(a: AllowedIp) {
    ((a.family == 2 && a.cidr <= 32) || (a.family == 10 && a.cidr <= 128)) && a.flags <= 1
  }

  /** The socket address of an endpoint, by its family; another family means none. */
  function Address(e: SockUnion): Option<Bytes> {
    if e[0] == 2 && e[1] == 0 then Some(e[..16]) else if e[0] == 10 && e[1] == 0 then Some(e[..28]) else None
  }

  /** The device is refused if an allowed IP of a peer that stays is not acceptable. */
  ghost predicate Refusable(p: Peer) {
    !p.removeMe && exists j :: 0 <= j < |p.allowedIps| && !Acceptable(p.allowedIps[j])
  }

  // ----- routes -----

  /** An entry for this route that gives it to its peer, or takes it from `key`. */
  ghost predicate Disturbs(p: Peer, a: AllowedIp, r: Route, key: Bytes) {
    !p.removeMe && Names(a, r) && (a.flags == 0 || p.publicKey == key)
  }

  ghost predicate Clears(p: Peer, key: Bytes) {
    p.publicKey == key && (p.removeMe || p.replaceAllowedIps)
  }

  /** The peer leaves the route with `key`, if it is there. */
  ghost predicate Quiet(p: Peer, r: Route, key: Bytes) {
    !Clears(p, key) && forall m :: 0 <= m < |p.allowedIps| ==> !Disturbs(p, p.allowedIps[m], r, key)
  }

  /** Entry `j` gives the route to `key`, and no later entry of the peer disturbs it. */
  ghost predicate GivesLast(p: Peer, j: nat, r: Route, key: Bytes) {
    && j < |p.allowedIps| && p.publicKey == key && !p.removeMe && p.allowedIps[j].flags == 0 && Names(p.allowedIps[j], r)
    && forall m :: j < m < |p.allowedIps| ==> !Disturbs(p, p.allowedIps[m], r, key)
  }

  /** Peer `i` gives the route to `key`, and all later peers leave it there. */
  ghost predicate Given(ps: seq<Peer>, i: nat, r: Route, key: Bytes) {
    && i < |ps| && (exists j: nat :: GivesLast(ps[i], j, r, key))
    && forall l :: i < l < |ps| ==> Quiet(ps[l], r, key)
  }

  ghost predicate Kept(owner: map<Route, Bytes>, ps: seq<Peer>, r: Route, key: Bytes) {
    r in owner && owner[r] == key && forall l :: 0 <= l < |ps| ==> Quiet(ps[l], r, key)
  }

  ghost predicate Owned(owner: map<Route, Bytes>, ps: seq<Peer>, r: Route, key: Bytes) {
    Kept(owner, ps, r, key) || exists i: nat :: Given(ps, i, r, key)
  }

  predicate Owns(owner: map<Route, Bytes>, r: Route, key: Bytes) {
    r in owner && owner[r] == key
  }

  // ----- peers -----

  predicate Removes(p: Peer, key: Bytes) {
    p.publicKey == key && p.removeMe
  }

  predicate Mentions(p: Peer, key: Bytes) {
    p.publicKey == key && !p.removeMe
  }

  /** No peer from `from` on removes `key`. */
  ghost predicate StaysFrom(ps: seq<Peer>, from: nat, key: Bytes) {
    forall l :: from <= l < |ps| ==> !Removes(ps[l], key)
  }

  ghost predicate MadeAt(ps: seq<Peer>, i: nat, key: Bytes) {
    i < |ps| && Mentions(ps[i], key) && StaysFrom(ps, i + 1, key)
  }

  /** The key is there at the end: from before, or from a mention, and not removed since. */
  ghost predicate Present(peers: map<Bytes, PeerState>, ps: seq<Peer>, key: Bytes) {
    (key in peers && StaysFrom(ps, 0, key)) || exists i: nat :: MadeAt(ps, i, key)
  }

  /** What a peer says of an option, if its flag is set. */
  function PskSaid(p: Peer): Option<Bytes> {
    if p.hasPresharedKey then Some(p.presharedKey) else None
  }

  function EndpointSaid(p: Peer): Option<Option<Bytes>> {
    if Address(p.endpoint).None? then None else Some(Address(p.endpoint))
  }

  function KeepaliveSaid(p: Peer): Option<nat> {
    if p.hasKeepalive then Some(p.keepalive) else None
  }

  /** From `from` on the key is not removed and nothing is said of the option. */
  ghost predicate SilentFrom<T>(ps: seq<Peer>, from: nat, key: Bytes, said: Peer -> Option<T>) {
    StaysFrom(ps, from, key) && forall l :: from <= l < |ps| && Mentions(ps[l], key) ==> said(ps[l]).None?
  }

  ghost predicate SaidAt<T>(ps: seq<Peer>, i: nat, key: Bytes, said: Peer -> Option<T>) {
    i < |ps| && Mentions(ps[i], key) && said(ps[i]).Some? && SilentFrom(ps, i + 1, key, said)
  }

  ghost predicate RemovedAt<T>(ps: seq<Peer>, i: nat, key: Bytes, said: Peer -> Option<T>) {
    i < |ps| && Removes(ps[i], key) && SilentFrom(ps, i + 1, key, said)
  }

  /** The last word counts; without one the option is as it was, or as in a new
      peer if the key was removed on the way. */
  ghost predicate Settles<T(!new)>(ps: seq<Peer>, key: Bytes, said: Peer -> Option<T>, was: T, blank: T, now: T) {
    && (forall i: nat :: SaidAt(ps, i, key, said) ==> now == said(ps[i]).value)
    && (forall i: nat :: RemovedAt(ps, i, key, said) ==> now == blank)
    && (SilentFrom(ps, 0, key, said) ==> now == was)
  }

  /** The options of a key; those of a new peer if there is none. */
  function Options(peers: map<Bytes, PeerState>, key: Bytes): PeerState {
    if key in peers then peers[key] else PeerState(seq(KEY_LEN, i => 0), None, 0)
  }

  // ----- the meaning -----

  ghost predicate PeersSet(peers: map<Bytes, PeerState>, ps: seq<Peer>, after: map<Bytes, PeerState>) {
    forall key :: PeerSet(peers, ps, key, after)
  }

  ghost predicate PeerSet(peers: map<Bytes, PeerState>, ps: seq<Peer>, key: Bytes, after: map<Bytes, PeerState>) {
    var was, now := Options(peers, key), Options(after, key);
    && (key in after <==> Present(peers, ps, key))
    && Settles(ps, key, PskSaid, was.psk, seq(KEY_LEN, i => 0), now.psk)
    && Settles(ps, key, EndpointSaid, was.endpoint, None, now.endpoint)
    && Settles(ps, key, KeepaliveSaid, was.keepalive, 0, now.keepalive)
  }

  ghost predicate RoutesSet(owner: map<Route, Bytes>, ps: seq<Peer>, after: map<Route, Bytes>) {
    forall r, key :: Owns(after, r, key) <==> Owned(owner, ps, r, key)
  }

  ghost predicate Refused(ps: seq<Peer>) {
    exists i :: 0 <= i < |ps| && Refusable(ps[i])
  }

  /** The state `after` is what the device asks for. */
  ghost predicate IsSet(before: State, dev: Device, after: State) {
    && (after.failed <==> before.failed || Refused(dev.peers))
    && (!after.failed ==>
          && after.privateKey == (if dev.hasPrivateKey then dev.privateKey else before.privateKey)
          && after.port == (if dev.hasListenPort then dev.listenPort else before.port)
          && after.fwmark == (if dev.hasFwmark then dev.fwmark else before.fwmark)
          && PeersSet(if dev.replacePeers then map[] else before.peers, dev.peers, after.peers)
          && RoutesSet(if dev.replacePeers then map[] else before.owner, dev.peers, after.owner))
  }

  // ----- one allowed IP, one peer's allowed IPs -----

  lemma RouteNames(a: AllowedIp)
    ensures RouteOf(IpWire(a)).Some? <==> ((a.family == 2 && a.cidr <= 32) || (a.family == 10 && a.cidr <= 128))
    ensures forall r :: Names(a, r) <==> RouteOf(IpWire(a)) == Some(r)
  {
    hide BigEndian, Pow2;
    assert a.addr[..16] == a.addr;
  }

  ghost predicate IpsSet(owner: map<Route, Bytes>, p: Peer, r: Route, key: Bytes) {
    || (Owns(owner, r, key) && forall m :: 0 <= m < |p.allowedIps| ==> !Disturbs(p, p.allowedIps[m], r, key))
    || exists j: nat :: GivesLast(p, j, r, key)
  }

  lemma IpsSetSnoc(owner: map<Route, Bytes>, q: Peer, p: Peer, a: AllowedIp, r: Route, key: Bytes)
    requires p == q.(allowedIps := q.allowedIps + [a]) && !p.removeMe
    ensures IpsSet(owner, p, r, key) <==>
            (IpsSet(owner, q, r, key) && !Disturbs(p, a, r, key)) || (p.publicKey == key && a.flags == 0 && Names(a, r))
  {
    hide Names;
    var n := |q.allowedIps|;
    assert p.allowedIps[n] == a;
    assert forall m :: 0 <= m < n ==> p.allowedIps[m] == q.allowedIps[m];
    if p.publicKey == key && a.flags == 0 && Names(a, r) {
      assert GivesLast(p, n, r, key);
    } else if Disturbs(p, a, r, key) {
      assert forall j: nat :: !GivesLast(p, j, r, key);
    } else {
      assert forall m :: 0 <= m < n ==> (Disturbs(p, p.allowedIps[m], r, key) <==> Disturbs(q, q.allowedIps[m], r, key));
      forall j: nat
        ensures GivesLast(p, j, r, key) <==> GivesLast(q, j, r, key)
      {
      }
    }
  }

  lemma {:induction false} IpsMean(k: State, p: Peer)
    requires !k.failed && !p.removeMe
    ensures var s := ApplyIps(k, p.publicKey, IpWires(p.allowedIps));
            && (s.failed <==> Refusable(p))
            && s.privateKey == k.privateKey && s.port == k.port && s.fwmark == k.fwmark && s.peers == k.peers
            && (!s.failed ==> forall r, key :: Owns(s.owner, r, key) <==> IpsSet(k.owner, p, r, key))
    decreases |p.allowedIps|
  {
    hide Names, RouteOf, IpWire;
    var n := |p.allowedIps|;
    if n > 0 {
      var q, a := p.(allowedIps := p.allowedIps[..n - 1]), p.allowedIps[n - 1];
      IpsMean(k, q);
      RouteNames(a);
      assert IpWires(p.allowedIps)[..n - 1] == IpWires(q.allowedIps);
      assert q.allowedIps + [a] == p.allowedIps;
      assert IpWire(a).flags == a.flags by { WireFlags(a); }
      RefusableSnoc(q, p, a);
      forall r, key
        ensures IpsSet(k.owner, p, r, key) <==>
                (IpsSet(k.owner, q, r, key) && !Disturbs(p, a, r, key)) || (p.publicKey == key && a.flags == 0 && Names(a, r))
      {
        IpsSetSnoc(k.owner, q, p, a, r, key);
      }
      IpMeans(ApplyIps(k, p.publicKey, IpWires(q.allowedIps)), p, a);
    }
  }

  lemma WireFlags(a: AllowedIp)
    ensures IpWire(a).flags == a.flags
  {
  }

  lemma RefusableSnoc(q: Peer, p: Peer, a: AllowedIp)
    requires p == q.(allowedIps := q.allowedIps + [a]) && !p.removeMe
    ensures Refusable(p) <==> Refusable(q) || !Acceptable(a)
  {
    hide Acceptable;
    assert p.allowedIps[|q.allowedIps|] == a;
    assert forall j :: 0 <= j < |q.allowedIps| ==> p.allowedIps[j] == q.allowedIps[j];
  }

  lemma IpMeans(k: State, p: Peer, a: AllowedIp)
    requires !p.removeMe
    ensures var s := ApplyIp(k, p.publicKey, IpWire(a));
            && (s.failed <==> k.failed || !Acceptable(a))
            && s.privateKey == k.privateKey && s.port == k.port && s.fwmark == k.fwmark && s.peers == k.peers
            && (!s.failed ==> forall r, key :: Owns(s.owner, r, key) <==>
                    (Owns(k.owner, r, key) && !Disturbs(p, a, r, key)) || (p.publicKey == key && a.flags == 0 && Names(a, r)))
  {
    hide Names, RouteOf, IpWire;
    RouteNames(a);
    assert IpWire(a).flags == a.flags by { WireFlags(a); }
  }

  // ----- one peer -----

  lemma PeerMeans(k: State, p: Peer)
    requires !k.failed
    ensures var s := ApplyPeer(k, Piece(p, true, Some(p.allowedIps)));
            && (s.failed <==> Refusable(p))
            && s.privateKey == k.privateKey && s.port == k.port && s.fwmark == k.fwmark
            && (!s.failed ==> forall key :: OneSet(k.peers, p, key, s.peers))
            && (!s.failed ==> forall r, key :: Owns(s.owner, r, key) <==>
                    (Owns(k.owner, r, key) && Quiet(p, r, key)) || exists j: nat :: GivesLast(p, j, r, key))
  {
    hide ApplyIps, Names, Acceptable, BigEndian, IpWires;
    var w := Piece(p, true, Some(p.allowedIps));
    if p.removeMe {
      assert Kernel.Removes(w);
    } else {
      assert !Kernel.Removes(w) && !UpdatesOnly(w) && (Replaces(w) <==> p.replaceAllowedIps);
      var o := OpenPeer(k, w);
      IpsMean(o, p);
      assert forall key :: OneSet(k.peers, p, key, o.peers) by { OpenMeans(k, p); }
      assert forall r, key :: Owns(o.owner, r, key) <==> Owns(k.owner, r, key) && !Clears(p, key);
    }
  }

  lemma OpenMeans(k: State, p: Peer)
    requires !p.removeMe
    ensures forall key :: OneSet(k.peers, p, key, OpenPeer(k, Piece(p, true, Some(p.allowedIps))).peers)
  {
    hide IpWires, EndpointWire;
    AddressWire(p.endpoint);
  }

  lemma AddressWire(e: SockUnion)
    ensures EndpointWire(e) == Address(e)
  {
    assert e[..28] == e;
  }

  /** What one peer does to the options of a key. */
  ghost predicate OneSet(peers: map<Bytes, PeerState>, p: Peer, key: Bytes, after: map<Bytes, PeerState>) {
    var was, now := Options(peers, key), Options(after, key);
    && (key in after <==> (key in peers && !Removes(p, key)) || Mentions(p, key))
    && now.psk == One(p, key, PskSaid(p), was.psk, seq(KEY_LEN, i => 0))
    && now.endpoint == One(p, key, EndpointSaid(p), was.endpoint, None)
    && now.keepalive == One(p, key, KeepaliveSaid(p), was.keepalive, 0)
  }

  function One<T>(p: Peer, key: Bytes, said: Option<T>, was: T, blank: T): T {
    if Removes(p, key) then blank else if Mentions(p, key) && said.Some? then said.value else was
  }

  // ----- one more peer -----

  lemma StaysSnoc(ps: seq<Peer>, p: Peer, from: nat, key: Bytes)
    requires from <= |ps|
    ensures StaysFrom(ps + [p], from, key) <==> StaysFrom(ps, from, key) && !Removes(p, key)
  {
    var qs := ps + [p];
    assert qs[|ps|] == p && forall l :: 0 <= l < |ps| ==> qs[l] == ps[l];
  }

  lemma PresentSnoc(peers: map<Bytes, PeerState>, ps: seq<Peer>, p: Peer, key: Bytes)
    ensures Present(peers, ps + [p], key) <==> (Present(peers, ps, key) && !Removes(p, key)) || Mentions(p, key)
  {
    hide StaysFrom;
    var qs := ps + [p];
    forall i: nat | i <= |ps|
      ensures StaysFrom(qs, i, key) <==> StaysFrom(ps, i, key) && !Removes(p, key)
    {
      StaysSnoc(ps, p, i, key);
    }
    assert StaysFrom(qs, |qs|, key) by { StaysAtEnd(qs, key); }
    assert forall i: nat :: i < |ps| ==> (MadeAt(qs, i, key) <==> MadeAt(ps, i, key) && !Removes(p, key));
    assert MadeAt(qs, |ps|, key) <==> Mentions(p, key);
  }

  lemma StaysAtEnd(ps: seq<Peer>, key: Bytes)
    ensures StaysFrom(ps, |ps|, key)
  {
  }

  lemma SilentSnoc<T>(ps: seq<Peer>, p: Peer, from: nat, key: Bytes, said: Peer -> Option<T>)
    requires from <= |ps|
    ensures SilentFrom(ps + [p], from, key, said) <==>
            SilentFrom(ps, from, key, said) && !Removes(p, key) && (Mentions(p, key) ==> said(p).None?)
  {
    StaysSnoc(ps, p, from, key);
    var qs := ps + [p];
    assert qs[|ps|] == p && forall l :: 0 <= l < |ps| ==> qs[l] == ps[l];
  }

  lemma SettlesSnoc<T(!new)>(ps: seq<Peer>, p: Peer, key: Bytes, said: Peer -> Option<T>, was: T, blank: T, now: T)
    requires Settles(ps, key, said, was, blank, now)
    ensures Settles(ps + [p], key, said, was, blank, One(p, key, said(p), now, blank))
  {
    hide SilentFrom;
    var qs := ps + [p];
    var last := One(p, key, said(p), now, blank);
    SilentSnoc(ps, p, 0, key, said);
    forall i: nat | SaidAt(qs, i, key, said) || RemovedAt(qs, i, key, said)
      ensures SaidAt(qs, i, key, said) ==> last == said(qs[i]).value
      ensures RemovedAt(qs, i, key, said) ==> last == blank
    {
      if i < |ps| {
        SilentSnoc(ps, p, i + 1, key, said);
        assert SaidAt(qs, i, key, said) ==> SaidAt(ps, i, key, said);
        assert RemovedAt(qs, i, key, said) ==> RemovedAt(ps, i, key, said);
      }
    }
  }

  lemma QuietSnoc(owner: map<Route, Bytes>, ps: seq<Peer>, p: Peer, r: Route, key: Bytes)
    ensures Owned(owner, ps + [p], r, key) <==> (Owned(owner, ps, r, key) && Quiet(p, r, key)) || exists j: nat :: GivesLast(p, j, r, key)
  {
    hide Quiet, GivesLast;
    var qs := ps + [p];
    assert qs[|ps|] == p && forall l :: 0 <= l < |ps| ==> qs[l] == ps[l];
    assert Kept(owner, qs, r, key) <==> Kept(owner, ps, r, key) && Quiet(p, r, key);
    forall i: nat | i < |ps|
      ensures Given(qs, i, r, key) <==> Given(ps, i, r, key) && Quiet(p, r, key)
    {
      assert Given(qs, i, r, key) ==> Quiet(qs[|ps|], r, key);
    }
    assert Given(qs, |ps|, r, key) <==> exists j: nat :: GivesLast(p, j, r, key);
  }

  lemma PeerSetSnoc(peers: map<Bytes, PeerState>, ps: seq<Peer>, p: Peer, key: Bytes,
                    mid: map<Bytes, PeerState>, after: map<Bytes, PeerState>)
    requires PeerSet(peers, ps, key, mid) && OneSet(mid, p, key, after)
    ensures PeerSet(peers, ps + [p], key, after)
  {
    hide Present, Settles, Address;
    var was, now := Options(peers, key), Options(mid, key);
    PresentSnoc(peers, ps, p, key);
    SettlesSnoc(ps, p, key, PskSaid, was.psk, seq(KEY_LEN, i => 0), now.psk);
    SettlesSnoc(ps, p, key, EndpointSaid, was.endpoint, None, now.endpoint);
    SettlesSnoc(ps, p, key, KeepaliveSaid, was.keepalive, 0, now.keepalive);
  }

  lemma NoPeers(k: State)
    ensures PeersSet(k.peers, [], k.peers) && RoutesSet(k.owner, [], k.owner) && !Refused([])
  {
  }

  /** The peers of a device, one after the other. */
  lemma {:induction false} PeersMean(k: State, ps: seq<Peer>)
    requires !k.failed
    ensures var s := ApplyPeers(k, Wholes(ps));
            && (s.failed <==> Refused(ps))
            && s.privateKey == k.privateKey && s.port == k.port && s.fwmark == k.fwmark
            && (!s.failed ==> PeersSet(k.peers, ps, s.peers) && RoutesSet(k.owner, ps, s.owner))
  {
    hide ApplyPeer, Piece, PeerSet, OneSet, Refusable, Owned, Quiet, GivesLast;
    if ps == [] {
      NoPeers(k);
    } else {
      var n := |ps| - 1;
      var qs, p := ps[..n], ps[n];
      var s := ApplyPeers(k, Wholes(qs));
      assert qs + [p] == ps && Wholes(ps)[..n] == Wholes(qs);
      PeersMean(k, qs);
      assert Refused(ps) <==> Refused(qs) || Refusable(p) by { assert ps[n] == p && forall i :: 0 <= i < n ==> ps[i] == qs[i]; }
      if s.failed {
        PeerAfterFailure(s, Wholes(ps)[n]);
      } else {
        PeerMeans(s, p);
        var t := ApplyPeers(k, Wholes(ps));
        if !t.failed {
          forall key
            ensures PeerSet(k.peers, ps, key, t.peers)
          {
            PeerSetSnoc(k.peers, qs, p, key, s.peers, t.peers);
          }
          forall r, key
            ensures Owns(t.owner, r, key) <==> Owned(k.owner, ps, r, key)
          {
            QuietSnoc(k.owner, qs, p, r, key);
          }
        }
      }
    }
  }

  lemma PeerAfterFailure(k: State, w: WirePeer)
    requires k.failed
    ensures ApplyPeer(k, w) == k
  {
  }

  /** A device at once is what its fields say. */
  lemma WholeMeans(k: State, dev: Device)
    ensures IsSet(k, dev, ApplyDevice(k, Whole(dev)))
  {
    hide ApplyPeers, Wholes, PeersSet, RoutesSet, Refused;
    var h := ApplyHead(k, Whole(dev));
    if k.failed {
      PeersAfterFailure(k, Wholes(dev.peers));
    } else {
      PeersMean(h, dev.peers);
    }
  }

  /** No later peer has the key of peer `i`. */
  ghost predicate LastOfItsKey(ps: seq<Peer>, i: nat) {
    i < |ps| && forall l :: i < l < |ps| ==> ps[l].publicKey != ps[i].publicKey
  }

  /** In particular, a peer that stays has its own options and those of its allowed
      IPs that no later entry disturbs. */
  lemma PeerIsSet(before: State, dev: Device, after: State, i: nat)
    requires IsSet(before, dev, after) && !after.failed
    requires LastOfItsKey(dev.peers, i) && !dev.peers[i].removeMe
    ensures var p := dev.peers[i];
            && p.publicKey in after.peers
            && var o := after.peers[p.publicKey];
            && (p.hasPresharedKey ==> o.psk == p.presharedKey)
            && (p.hasKeepalive ==> o.keepalive == p.keepalive)
            && (Address(p.endpoint).Some? ==> o.endpoint == Address(p.endpoint))
    ensures var key := dev.peers[i].publicKey; forall r :: Given(dev.peers, i, r, key) ==> Owns(after.owner, r, key)
  {
    hide Quiet, GivesLast, Address, Given;
    var ps, p := dev.peers, dev.peers[i];
    var was := if dev.replacePeers then map[] else before.peers;
    assert PeerSet(was, ps, p.publicKey, after.peers);
    assert MadeAt(ps, i, p.publicKey);
    assert p.hasPresharedKey ==> SaidAt(ps, i, p.publicKey, PskSaid);
    assert p.hasKeepalive ==> SaidAt(ps, i, p.publicKey, KeepaliveSaid);
    assert Address(p.endpoint).Some? ==> SaidAt(ps, i, p.publicKey, EndpointSaid);
    forall r | Given(ps, i, r, p.publicKey)
      ensures Owns(after.owner, r, p.publicKey)
    {
    }
  }

  /** A peer that the list removes last is gone, with all its routes. */
  lemma PeerIsGone(before: State, dev: Device, after: State, i: nat)
    requires IsSet(before, dev, after) && !after.failed
    requires LastOfItsKey(dev.peers, i) && dev.peers[i].removeMe
    ensures dev.peers[i].publicKey !in after.peers
    ensures forall r :: !Owns(after.owner, r, dev.peers[i].publicKey)
  {
    hide Names;
    var ps, key := dev.peers, dev.peers[i].publicKey;
    var was := if dev.replacePeers then map[] else before.peers;
    var owner := if dev.replacePeers then map[] else before.owner;
    assert PeerSet(was, ps, key, after.peers);
    assert Removes(ps[i], key);
    assert forall l: nat :: !MadeAt(ps, l, key);
    forall r
      ensures !Owned(owner, ps, r, key)
    {
      assert !Quiet(ps[i], r, key);
      assert forall l: nat :: !Given(ps, l, r, key);
    }
  }
}

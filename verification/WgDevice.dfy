/** The tool's own description of a device (src/containers.h) and the fragments in
    which it reaches the kernel. */
module WgDevice {
  import opened Machine
  import opened Tlv
  import opened Common
  import opened WgMessage
  import opened Kernel

  type Key = s: Bytes | |s| == KEY_LEN witness seq(KEY_LEN, i => 0)
  type Half = n: nat | n < 0x10000
  type Word32 = n: nat | n < 0x100000000

  function ZeroKey(): Key {
    seq(KEY_LEN, i => 0)
  }

  /** The address union holds sixteen bytes; an IPv4 address is the first four. */
  type IpUnion = s: Bytes | |s| == 16 witness seq(16, i => 0)

  /** The endpoint union holds a sockaddr_in6; a sockaddr_in is the first sixteen bytes. */
  type SockUnion = s: Bytes | |s| == 28 witness seq(28, i => 0)

  datatype AllowedIp = AllowedIp(family: Half, addr: IpUnion, cidr: u8, flags: Word32)

  datatype Peer = Peer(publicKey: Key, removeMe: bool, replaceAllowedIps: bool,
                       hasPresharedKey: bool, presharedKey: Key, endpoint: SockUnion,
                       hasKeepalive: bool, keepalive: Half, allowedIps: seq<AllowedIp>)

  /** The interface name is a C string shorter than IFNAMSIZ. */
  type Name = s: Bytes | |s| < 16

  datatype Device = Device(name: Name, replacePeers: bool, hasPrivateKey: bool, privateKey: Key,
                           hasListenPort: bool, listenPort: Half, hasFwmark: bool, fwmark: Word32,
                           peers: seq<Peer>)

  // ----- fragments -----

  function IpWire(ip: AllowedIp): (w: WireIp)
    ensures IpOk(w)
  {
    WireIp(ip.family,
           if ip.family == AF_INET then Some(ip.addr[..4]) else if ip.family == AF_INET6 then Some(ip.addr) else None,
           ip.cidr, ip.flags)
  }

  function IpWires(ips: seq<AllowedIp>): (ws: seq<WireIp>)
    ensures |ws| == |ips|
    ensures forall i :: 0 <= i < |ws| ==> IpOk(ws[i])
  {
    seq(|ips|, i requires 0 <= i < |ips| => IpWire(ips[i]))
  }

  function EndpointWire(e: SockUnion): Option<Bytes> {
    if Get16(e, 0) == AF_INET then Some(e[..16]) else if Get16(e, 0) == AF_INET6 then Some(e) else None
  }

  /** One fragment of a peer.  Only the first carries the options and asks for
      the allowed IPs to be replaced; every one asks for a removal. */
  function Piece(p: Peer, first: bool, ips: Option<seq<AllowedIp>>): (w: WirePeer)
    ensures PeerOk(w)
  {
    WirePeer(p.publicKey,
             if first && p.hasPresharedKey then Some(p.presharedKey) else None,
             if first then EndpointWire(p.endpoint) else None,
             if first && p.hasKeepalive then Some(p.keepalive) else None,
             (if p.removeMe then 1 else 0) + (if first && p.replaceAllowedIps then 2 else 0),
             if ips.None? then None else Some(IpWires(ips.value)))
  }

  /** One message: only the first carries the device's own settings. */
  function Header(dev: Device, first: bool, peers: Option<seq<WirePeer>>): (w: WireDevice)
    requires peers.Some? ==> forall i :: 0 <= i < |peers.value| ==> PeerOk(peers.value[i])
    ensures DeviceOk(w)
  {
    WireDevice(dev.name + [0],
               if first && dev.hasPrivateKey then Some(dev.privateKey) else None,
               if first && dev.hasListenPort then Some(dev.listenPort) else None,
               if first && dev.hasFwmark then Some(dev.fwmark) else None,
               if first && dev.replacePeers then 1 else 0,
               peers)
  }

  // ----- the whole device at once -----

  function Wholes(ps: seq<Peer>): (ws: seq<WirePeer>)
    ensures |ws| == |ps|
    ensures forall i :: 0 <= i < |ws| ==> PeerOk(ws[i])
  {
    seq(|ps|, i requires 0 <= i < |ps| => Piece(ps[i], true, Some(ps[i].allowedIps)))
  }

  /** The device as one message, had the buffer no bound. */
  function Whole(dev: Device): WireDevice {
    Header(dev, true, Some(Wholes(dev.peers)))
  }

  /** The kernel once the peers before `i` were sent and, if `c` is a cursor, the
      allowed IPs of peer `i` before it. */
  ghost function At(k: State, dev: Device, i: nat, c: Option<nat>): State
    requires i <= |dev.peers|
    requires c.Some? ==> i < |dev.peers| && c.value <= |dev.peers[i].allowedIps|
  {
    var s := ApplyPeers(ApplyHead(k, Header(dev, true, None)), Wholes(dev.peers[..i]));
    if c.None? then s
    else ApplyPeer(s, Piece(dev.peers[i], true, Some(dev.peers[i].allowedIps[..c.value])))
  }

  lemma AtEnd(k: State, dev: Device)
    ensures At(k, dev, |dev.peers|, None) == ApplyDevice(k, Whole(dev))
  {
    assert dev.peers[..|dev.peers|] == dev.peers;
  }

  /** All the allowed IPs of a peer sent is the peer sent. */
  lemma AtNext(k: State, dev: Device, i: nat)
    requires i < |dev.peers|
    ensures At(k, dev, i, Some(|dev.peers[i].allowedIps|)) == At(k, dev, i + 1, None)
  {
    hide ApplyPeer, Piece;
    var p := dev.peers[i];
    assert p.allowedIps[..|p.allowedIps|] == p.allowedIps;
    var ws := Wholes(dev.peers[..i + 1]);
    assert ws[..i] == Wholes(dev.peers[..i]);
    assert ws[i] == Piece(p, true, Some(p.allowedIps));
  }

  lemma SameIps(k: State, w: WirePeer, v: WirePeer)
    requires v == w.(ips := v.ips) && IpsOf(v) == IpsOf(w)
    ensures ApplyPeer(k, v) == ApplyPeer(k, w)
  {
    hide ApplyIps;
  }

  lemma IpWiresJoin(ips: seq<AllowedIp>, from: nat, to: nat)
    requires from <= to <= |ips|
    ensures IpWires(ips[..from]) + IpWires(ips[from..to]) == IpWires(ips[..to])
  {
    hide IpWire;
  }

  lemma PieceFirst(p: Peer, to: nat, ips: Option<seq<AllowedIp>>)
    requires to <= |p.allowedIps| && (if ips.None? then [] else ips.value) == p.allowedIps[..to]
    ensures var w, target := Piece(p, true, ips), Piece(p, true, Some(p.allowedIps[..to]));
            w == target.(ips := w.ips) && IpsOf(w) == IpsOf(target)
  {
    hide IpWire, EndpointWire;
    assert IpWires([]) == [];
  }

  lemma PieceLater(p: Peer, from: nat, to: nat, ips: Option<seq<AllowedIp>>)
    requires from <= to <= |p.allowedIps| && (if ips.None? then [] else ips.value) == p.allowedIps[from..to]
    ensures var v, w, target := Piece(p, true, Some(p.allowedIps[..from])), Piece(p, false, ips), Piece(p, true, Some(p.allowedIps[..to]));
            Continues(v, w) && !UpdatesOnly(v) && Joined(v, w) == target
  {
    hide IpWires, EndpointWire;
    IpWiresJoin(p.allowedIps, from, to);
    assert IpWires([]) == [];
  }

  /** A fragment moves the cursor over the allowed IPs that it carries. */
  lemma AtPiece(k: State, dev: Device, i: nat, c: Option<nat>, to: nat, ips: Option<seq<AllowedIp>>)
    requires i < |dev.peers|
    requires var from := if c.None? then 0 else c.value;
             && from <= to <= |dev.peers[i].allowedIps|
             && (if ips.None? then [] else ips.value) == dev.peers[i].allowedIps[from..to]
    ensures ApplyPeer(At(k, dev, i, c), Piece(dev.peers[i], c.None?, ips)) == At(k, dev, i, Some(to))
  {
    hide ApplyPeer, ApplyPeers, Wholes, Header, ApplyHead, Piece, IpsOf, Joined, Continues;
    var p := dev.peers[i];
    var s := ApplyPeers(ApplyHead(k, Header(dev, true, None)), Wholes(dev.peers[..i]));
    var w, target := Piece(p, c.None?, ips), Piece(p, true, Some(p.allowedIps[..to]));
    if c.None? {
      assert p.allowedIps[0..to] == p.allowedIps[..to];
      PieceFirst(p, to, ips);
      SameIps(s, target, w);
    } else {
      PieceLater(p, c.value, to, ips);
      PiecesJoin(s, Piece(p, true, Some(p.allowedIps[..c.value])), w);
    }
  }

  /** A later message leaves the device's own settings alone. */
  lemma LaterHeader(k: State, dev: Device, peers: seq<WirePeer>)
    requires forall i :: 0 <= i < |peers| ==> PeerOk(peers[i])
    ensures ApplyDevice(k, Header(dev, false, Some(peers))) == ApplyPeers(k, peers)
  {
    hide ApplyPeers;
    assert ApplyHead(k, Header(dev, false, Some(peers))) == k;
  }

  lemma FirstHeader(k: State, dev: Device, peers: seq<WirePeer>)
    requires forall i :: 0 <= i < |peers| ==> PeerOk(peers[i])
    ensures ApplyDevice(k, Header(dev, true, Some(peers))) == ApplyPeers(At(k, dev, 0, None), peers)
  {
    hide ApplyPeer;
    assert Wholes(dev.peers[..0]) == [];
    assert ApplyHead(k, Header(dev, true, Some(peers))) == ApplyHead(k, Header(dev, true, None));
  }

  // ----- the order of the fragments -----

  /** How far a device was sent: the peer, and the allowed IP if the peer was begun. */
  datatype Cursor = Cursor(peer: nat, ip: Option<nat>)

  predicate CursorOk(dev: Device, at: Cursor) {
    && at.peer <= |dev.peers|
    && (at.ip.Some? ==> at.peer < |dev.peers| && at.ip.value < |dev.peers[at.peer].allowedIps|)
  }

  function From(c: Option<nat>): nat {
    if c.None? then 0 else c.value
  }

  /** Where the next fragment leaves the cursor.  There is at most one fragment
      of each length that may come next, and it is spelt out here. */
  function Advance(dev: Device, at: Cursor, w: WirePeer): (r: Option<Cursor>)
    requires CursorOk(dev, at)
    ensures r.Some? ==> CursorOk(dev, r.value)
  {
    if at.peer == |dev.peers| then None
    else
      var p, from := dev.peers[at.peer], From(at.ip);
      var to := from + |IpsOf(w)|;
      if to > |p.allowedIps|
         || w != Piece(p, at.ip.None?, if w.ips.None? then None else Some(p.allowedIps[from..to])) then None
      else if to == |p.allowedIps| then Some(Cursor(at.peer + 1, None))
      else Some(Cursor(at.peer, Some(to)))
  }

  function Accept(dev: Device, at: Cursor, ws: seq<WirePeer>): (r: Option<Cursor>)
    requires CursorOk(dev, at)
    ensures r.Some? ==> CursorOk(dev, r.value)
  {
    if ws == [] then Some(at)
    else
      var r := Accept(dev, at, ws[..|ws| - 1]);
      if r.None? then None else Advance(dev, r.value, ws[|ws| - 1])
  }

  lemma AcceptSnoc(dev: Device, at: Cursor, ws: seq<WirePeer>, w: WirePeer)
    requires CursorOk(dev, at)
    ensures var r := Accept(dev, at, ws);
            Accept(dev, at, ws + [w]) == if r.None? then None else Advance(dev, r.value, w)
  {
    hide Advance;
    assert (ws + [w])[..|ws|] == ws;
  }

  lemma {:induction false} AcceptAppend(dev: Device, at: Cursor, a: seq<WirePeer>, b: seq<WirePeer>)
    requires CursorOk(dev, at) && Accept(dev, at, a).Some?
    ensures Accept(dev, at, a + b) == Accept(dev, Accept(dev, at, a).value, b)
    decreases |b|
  {
    hide Advance;
    if b == [] {
      assert a + b == a;
    } else {
      assert (a + b)[..|a + b| - 1] == a + b[..|b| - 1];
      AcceptAppend(dev, at, a, b[..|b| - 1]);
    }
  }

  lemma AdvanceMeaning(k: State, dev: Device, at: Cursor, w: WirePeer)
    requires CursorOk(dev, at) && Advance(dev, at, w).Some?
    ensures var r := Advance(dev, at, w).value;
            ApplyPeer(At(k, dev, at.peer, at.ip), w) == At(k, dev, r.peer, r.ip)
  {
    hide At, ApplyPeer, Piece;
    var p, from := dev.peers[at.peer], From(at.ip);
    var to := from + |IpsOf(w)|;
    var ips := if w.ips.None? then None else Some(p.allowedIps[from..to]);
    AtPiece(k, dev, at.peer, at.ip, to, ips);
    if to == |p.allowedIps| {
      AtNext(k, dev, at.peer);
    }
  }

  /** Fragments in an accepted order mean what the device means up to the cursor. */
  lemma {:induction false} AcceptMeaning(k: State, dev: Device, at: Cursor, ws: seq<WirePeer>)
    requires CursorOk(dev, at) && Accept(dev, at, ws).Some?
    ensures var r := Accept(dev, at, ws).value;
            ApplyPeers(At(k, dev, at.peer, at.ip), ws) == At(k, dev, r.peer, r.ip)
  {
    hide At, ApplyPeer, Advance;
    if ws != [] {
      AcceptMeaning(k, dev, at, ws[..|ws| - 1]);
      AdvanceMeaning(k, dev, Accept(dev, at, ws[..|ws| - 1]).value, ws[|ws| - 1]);
    }
  }

  /** Every allowed IP with its peer's key, in the order sent. */
  function Flat(ws: seq<WirePeer>): seq<(Bytes, WireIp)> {
    if ws == [] then [] else Flat(ws[..|ws| - 1]) + Keyed(ws[|ws| - 1].key, IpsOf(ws[|ws| - 1]))
  }

  function Keyed(key: Bytes, ips: seq<WireIp>): (r: seq<(Bytes, WireIp)>)
    ensures |r| == |ips|
  {
    seq(|ips|, i requires 0 <= i < |ips| => (key, ips[i]))
  }

  /** What the device holds before a cursor. */
  function FlatTo(dev: Device, at: Cursor): seq<(Bytes, WireIp)>
    requires CursorOk(dev, at)
  {
    Flat(Wholes(dev.peers[..at.peer]))
    + if at.ip.None? then [] else Keyed(dev.peers[at.peer].publicKey, IpWires(dev.peers[at.peer].allowedIps[..at.ip.value]))
  }

  lemma FlatNext(dev: Device, i: nat)
    requires i < |dev.peers|
    ensures Flat(Wholes(dev.peers[..i + 1])) ==
            Flat(Wholes(dev.peers[..i])) + Keyed(dev.peers[i].publicKey, IpWires(dev.peers[i].allowedIps))
  {
    hide IpWires, EndpointWire;
    var ws := Wholes(dev.peers[..i + 1]);
    assert ws[..i] == Wholes(dev.peers[..i]);
  }

  lemma KeyedJoin(key: Bytes, a: seq<WireIp>, b: seq<WireIp>)
    ensures Keyed(key, a + b) == Keyed(key, a) + Keyed(key, b)
  {
  }

  lemma AdvanceFlat(dev: Device, at: Cursor, w: WirePeer)
    requires CursorOk(dev, at) && Advance(dev, at, w).Some?
    ensures FlatTo(dev, Advance(dev, at, w).value) == FlatTo(dev, at) + Keyed(w.key, IpsOf(w))
  {
    hide Flat, Wholes, EndpointWire, IpWires, Keyed;
    var p, from := dev.peers[at.peer], From(at.ip);
    var to := from + |IpsOf(w)|;
    var a, b := IpWires(p.allowedIps[..from]), IpWires(p.allowedIps[from..to]);
    IpWiresJoin(p.allowedIps, from, to);
    KeyedJoin(w.key, a, b);
    assert IpWires([]) == [] && Keyed(w.key, []) == [];
    assert IpsOf(w) == b;
    if to == |p.allowedIps| {
      FlatNext(dev, at.peer);
      assert p.allowedIps[..to] == p.allowedIps;
    }
  }

  /** Fragments in an accepted order carry each allowed IP once, in order. */
  lemma {:induction false} AcceptOnce(dev: Device, at: Cursor, ws: seq<WirePeer>)
    requires CursorOk(dev, at) && Accept(dev, at, ws).Some?
    ensures FlatTo(dev, Accept(dev, at, ws).value) == FlatTo(dev, at) + Flat(ws)
  {
    hide FlatTo, Advance;
    if ws != [] {
      var at' := Accept(dev, at, ws[..|ws| - 1]).value;
      AcceptOnce(dev, at, ws[..|ws| - 1]);
      AdvanceFlat(dev, at', ws[|ws| - 1]);
    }
  }

  lemma FlatNone()
    ensures Flat([]) == []
  {
  }

  lemma AcceptAll(dev: Device, ws: seq<WirePeer>)
    requires Accept(dev, Cursor(0, None), ws) == Some(Cursor(|dev.peers|, None))
    ensures Flat(ws) == Flat(Wholes(dev.peers))
  {
    hide Accept, Flat, Wholes;
    AcceptOnce(dev, Cursor(0, None), ws);
    assert Flat([]) == [] by { FlatNone(); }
    assert dev.peers[..0] == [] && dev.peers[..|dev.peers|] == dev.peers;
    assert Wholes([]) == [];
    assert FlatTo(dev, Cursor(0, None)) == [];
    assert FlatTo(dev, Cursor(|dev.peers|, None)) == Flat(Wholes(dev.peers));
  }

  // ----- a refusal is final -----

  lemma {:induction false} PeersAfterFailure(k: State, ws: seq<WirePeer>)
    requires k.failed
    ensures ApplyPeers(k, ws) == k
  {
    if ws != [] {
      PeersAfterFailure(k, ws[..|ws| - 1]);
    }
  }

  /** Once refused, the rest of the device changes nothing. */
  lemma AtFailure(k: State, dev: Device, i: nat, c: Option<nat>)
    requires i <= |dev.peers|
    requires c.Some? ==> i < |dev.peers| && c.value <= |dev.peers[i].allowedIps|
    requires At(k, dev, i, c).failed
    ensures At(k, dev, i, c) == ApplyDevice(k, Whole(dev))
    decreases c.Some?
  {
    if c.Some? {
      var p := dev.peers[i];
      var n := |p.allowedIps|;
      AtPiece(k, dev, i, c, n, Some(p.allowedIps[c.value..n]));
      hide ApplyPeers, ApplyHead, Header, Whole, Piece, ApplyDevice;
      AtNext(k, dev, i);
      AtFailure(k, dev, i + 1, None);
    } else {
      hide ApplyPeer;
      var a, b := Wholes(dev.peers[..i]), Wholes(dev.peers[i..]);
      var h := ApplyHead(k, Header(dev, true, None));
      assert Wholes(dev.peers) == a + b;
      PeersAppend(h, a, b);
      PeersAfterFailure(ApplyPeers(h, a), b);
      assert ApplyHead(k, Whole(dev)) == h;
    }
  }
}

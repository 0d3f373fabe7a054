/** What the kernel does with a set-device message, as documented at the head of
    src/uapi/linux/linux/wireguard.h.  The first thing it refuses sets `failed`;
    what was done before stays done and nothing later is looked at. */
module Kernel {
  import opened Bits
  import opened Common
  import opened WgMessage

  datatype PeerState = PeerState(psk: Bytes, endpoint: Option<Bytes>, keepalive: nat)

  /** A prefix of an address family: the first `cidr` bits of an address. */
  datatype Route = Route(family: nat, prefix: nat, cidr: nat)

  datatype State = State(failed: bool, privateKey: Bytes, port: nat, fwmark: nat,
                         peers: map<Bytes, PeerState>, owner: map<Route, Bytes>)

  function BigEndian(s: Bytes): nat {
    if s == [] then 0 else 256 * BigEndian(s[..|s| - 1]) + s[|s| - 1] as nat
  }

  function RouteOf(w: WireIp): Option<Route> {
    var cidr := w.cidr as nat;
    if w.addr.None? then None
    else if w.family == AF_INET && |w.addr.value| == 4 && cidr <= 32 then
      Some(Route(w.family, BigEndian(w.addr.value) / Pow2(32 - cidr), cidr))
    else if w.family == AF_INET6 && |w.addr.value| == 16 && cidr <= 128 then
      Some(Route(w.family, BigEndian(w.addr.value) / Pow2(128 - cidr), cidr))
    else None
  }

  function Fail(k: State): State {
    k.(failed := true)
  }

  function ApplyIp(k: State, key: Bytes, w: WireIp): State {
    if k.failed then k
    else if RouteOf(w).None? || w.flags > 1 then Fail(k)
    else
      var r := RouteOf(w).value;
      if w.flags == 0 then k.(owner := k.owner[r := key])
      else if r in k.owner && k.owner[r] == key then k.(owner := k.owner - {r})
      else k
  }

  function ApplyIps(k: State, key: Bytes, ws: seq<WireIp>): State {
    if ws == [] then k else ApplyIp(ApplyIps(k, key, ws[..|ws| - 1]), key, ws[|ws| - 1])
  }

  function Without(owner: map<Route, Bytes>, key: Bytes): map<Route, Bytes> {
    map r | r in owner && owner[r] != key :: owner[r]
  }

  function Removes(w: WirePeer): bool { w.flags % 2 == 1 }
  function Replaces(w: WirePeer): bool { w.flags / 2 % 2 == 1 }
  function UpdatesOnly(w: WirePeer): bool { w.flags / 4 % 2 == 1 }

  function NewPeer(): PeerState {
    PeerState(seq(KEY_LEN, i => 0), None, 0)
  }

  /** The peer exists and has the options of the message. */
  function OpenPeer(k: State, w: WirePeer): State {
    var p := if w.key in k.peers then k.peers[w.key] else NewPeer();
    var p' := PeerState(if w.psk.Some? then w.psk.value else p.psk,
                        if w.endpoint.Some? then w.endpoint else p.endpoint,
                        if w.keepalive.Some? then w.keepalive.value else p.keepalive);
    k.(peers := k.peers[w.key := p'], owner := if Replaces(w) then Without(k.owner, w.key) else k.owner)
  }

  function DropPeer(k: State, key: Bytes): State {
    k.(peers := k.peers - {key}, owner := Without(k.owner, key))
  }

  function IpsOf(w: WirePeer): seq<WireIp> {
    if w.ips.None? then [] else w.ips.value
  }

  function ApplyPeer(k: State, w: WirePeer): State {
    if k.failed then k
    else if |w.key| != KEY_LEN || w.flags >= 8 then Fail(k)
    else if Removes(w) then DropPeer(k, w.key)
    else if UpdatesOnly(w) && w.key !in k.peers then k
    else ApplyIps(OpenPeer(k, w), w.key, IpsOf(w))
  }

  function ApplyPeers(k: State, ws: seq<WirePeer>): State {
    if ws == [] then k else ApplyPeer(ApplyPeers(k, ws[..|ws| - 1]), ws[|ws| - 1])
  }

  /** The attributes of a message that are not about peers. */
  function ApplyHead(k: State, w: WireDevice): State {
    if k.failed then k
    else if w.flags > 1 then Fail(k)
    else
      State(false,
            if w.privateKey.Some? then w.privateKey.value else k.privateKey,
            if w.port.Some? then w.port.value else k.port,
            if w.fwmark.Some? then w.fwmark.value else k.fwmark,
            if w.flags == 1 then map[] else k.peers,
            if w.flags == 1 then map[] else k.owner)
  }

  function ApplyDevice(k: State, w: WireDevice): State {
    ApplyPeers(ApplyHead(k, w), if w.peers.None? then [] else w.peers.value)
  }

  // ----- what every message keeps -----

  /** Every route leads to a peer of the device. */
  ghost predicate Wf(k: State) {
    forall r :: r in k.owner ==> k.owner[r] in k.peers
  }

  lemma {:induction false} IpsKeep(k: State, key: Bytes, ws: seq<WireIp>)
    requires Wf(k) && key in k.peers
    ensures Wf(ApplyIps(k, key, ws)) && ApplyIps(k, key, ws).peers == k.peers
  {
    if ws != [] {
      hide RouteOf;
      IpsKeep(k, key, ws[..|ws| - 1]);
    }
  }

  lemma PeerKeeps(k: State, w: WirePeer)
    requires Wf(k)
    ensures Wf(ApplyPeer(k, w))
  {
    hide ApplyIps;
    if !k.failed && |w.key| == KEY_LEN && w.flags < 8 && !Removes(w) {
      assert Wf(OpenPeer(k, w));
      IpsKeep(OpenPeer(k, w), w.key, IpsOf(w));
    }
  }

  lemma {:induction false} PeersKeep(k: State, ws: seq<WirePeer>)
    requires Wf(k)
    ensures Wf(ApplyPeers(k, ws))
  {
    if ws != [] {
      PeersKeep(k, ws[..|ws| - 1]);
      PeerKeeps(ApplyPeers(k, ws[..|ws| - 1]), ws[|ws| - 1]);
    }
  }

  lemma DeviceKeeps(k: State, w: WireDevice)
    requires Wf(k)
    ensures Wf(ApplyDevice(k, w))
  {
    PeersKeep(ApplyHead(k, w), if w.peers.None? then [] else w.peers.value);
  }

  // ----- pieces of a peer, pieces of a list -----

  lemma {:induction false} IpsAppend(k: State, key: Bytes, a: seq<WireIp>, b: seq<WireIp>)
    ensures ApplyIps(k, key, a + b) == ApplyIps(ApplyIps(k, key, a), key, b)
    decreases |b|
  {
    hide ApplyIp;
    if b == [] {
      assert a + b == a;
    } else {
      assert (a + b)[..|a + b| - 1] == a + b[..|b| - 1];
      IpsAppend(k, key, a, b[..|b| - 1]);
    }
  }

  lemma {:induction false} PeersAppend(k: State, a: seq<WirePeer>, b: seq<WirePeer>)
    ensures ApplyPeers(k, a + b) == ApplyPeers(ApplyPeers(k, a), b)
    decreases |b|
  {
    hide ApplyPeer;
    if b == [] {
      assert a + b == a;
    } else {
      assert (a + b)[..|a + b| - 1] == a + b[..|b| - 1];
      PeersAppend(k, a, b[..|b| - 1]);
    }
  }

  lemma {:induction false} IpsAfterFailure(k: State, key: Bytes, ws: seq<WireIp>)
    requires k.failed
    ensures ApplyIps(k, key, ws) == k
  {
    if ws != [] {
      IpsAfterFailure(k, key, ws[..|ws| - 1]);
    }
  }

  lemma {:induction false} IpsKeepPeers(k: State, key: Bytes, ws: seq<WireIp>)
    ensures ApplyIps(k, key, ws).peers == k.peers
  {
    if ws != [] {
      hide RouteOf;
      IpsKeepPeers(k, key, ws[..|ws| - 1]);
    }
  }

  /** A later fragment of a peer: the removal flag and more allowed IPs, nothing else. */
  predicate Continues(w: WirePeer, more: WirePeer) {
    && more.key == w.key && more.psk.None? && more.endpoint.None? && more.keepalive.None?
    && more.flags == w.flags % 2
  }

  function Joined(w: WirePeer, more: WirePeer): WirePeer {
    w.(ips := Some(IpsOf(w) + IpsOf(more)))
  }

  /** A peer sent in two pieces is the peer sent at once. */
  lemma PiecesJoin(k: State, w: WirePeer, more: WirePeer)
    requires Continues(w, more) && !UpdatesOnly(w)
    ensures ApplyPeer(ApplyPeer(k, w), more) == ApplyPeer(k, Joined(w, more))
  {
    hide ApplyIps;
    var a, b := IpsOf(w), IpsOf(more);
    if !k.failed && |w.key| == KEY_LEN && w.flags < 8 {
      if Removes(w) {
        assert Without(Without(k.owner, w.key), w.key) == Without(k.owner, w.key);
        assert k.peers - {w.key} - {w.key} == k.peers - {w.key};
      } else {
        var k0 := OpenPeer(k, w);
        var k1 := ApplyIps(k0, w.key, a);
        IpsAppend(k0, w.key, a, b);
        IpsKeepPeers(k0, w.key, a);
        if k1.failed {
          IpsAfterFailure(k1, w.key, b);
        } else {
          assert k1.peers[w.key := k1.peers[w.key]] == k1.peers;
          assert OpenPeer(k1, more) == k1;
        }
      }
    }
  }
}

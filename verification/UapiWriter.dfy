/** The set side of src/ipc-uapi.h: the lines that describe a device. */
module UapiWriter {
  import opened Text
  import opened Common
  import opened HexCodec
  import opened UapiReader

  /** What a request adds to a device: the instructions. */
  datatype SetIp = SetIp(ip: Ip, remove: bool)

  datatype SetPeer = SetPeer(peer: UPeer, remove: bool, replaceIps: bool, hasWsSettings: bool, ips: seq<SetIp>)

  datatype SetDevice = SetDevice(dev: UDevice, replacePeers: bool, peers: seq<SetPeer>)

  /** One line, `key=value`. */
  datatype Pair = Pair(key: string, value: string)

  function TextOf(p: Pair): string {
    p.key + "=" + p.value
  }

  function TextsOf(ps: seq<Pair>): (r: seq<string>)
    ensures |r| == |ps|
  {
    seq(|ps|, i requires 0 <= i < |ps| => TextOf(ps[i]))
  }

  // ----- what is written -----

  function HexText(k: Bytes): string
    requires |k| == KEY_LEN
  {
    AsText(HexEncoded(k))
  }

  function If(b: bool, k: string, v: string): seq<Pair> {
    if b then [Pair(k, v)] else []
  }

  function IfText(k: string, o: Option<string>): seq<Pair> {
    if o.None? then [] else [Pair(k, o.value)]
  }

  function IfKey(k: string, o: Option<Bytes>): seq<Pair>
    requires o.Some? ==> |o.value| == KEY_LEN
  {
    if o.None? then [] else [Pair(k, HexText(o.value))]
  }

  function IfNum(k: string, o: Option<nat>): seq<Pair> {
    if o.None? then [] else [Pair(k, Dec(o.value))]
  }

  /** Zero means the default and is not written. */
  function IfSet(k: string, n: nat): seq<Pair> {
    if n == 0 then [] else [Pair(k, Dec(n))]
  }

  function TransportText(t: Transport): string {
    match t case Wstunnel => "wstunnel" case Websocket => "websocket" case Udp => "udp"
  }

  function EndpointText(net: Net, e: Bytes): Option<string>
    requires IsSocket(e)
  {
    var hs := net.nameInfo(e);
    if hs.None? then None
    else if Tlv.Get16(e, 0) == AF_INET6 && ':' in hs.value.0 then Some("[" + hs.value.0 + "]:" + hs.value.1)
    else Some(hs.value.0 + ":" + hs.value.1)
  }

  function EndpointPair(net: Net, o: Option<Bytes>): seq<Pair>
    requires o.Some? ==> IsSocket(o.value)
  {
    if o.None? then [] else IfText(KeyText(Endpoint), EndpointText(net, o.value))
  }

  function IpPair(net: Net, i: SetIp): seq<Pair> {
    if i.ip.family != AF_INET && i.ip.family != AF_INET6 then []
    else
      var t := net.ntop(i.ip.family, i.ip.addr);
      if t.None? then [] else [Pair(KeyText(AllowedIp), (if i.remove then "-" else "") + t.value + "/" + Dec(i.ip.cidr))]
  }

  function IpPairs(net: Net, ips: seq<SetIp>): seq<Pair> {
    if ips == [] then [] else IpPairs(net, ips[..|ips| - 1]) + IpPair(net, ips[|ips| - 1])
  }

  /** The WebSocket settings are written for a WebSocket peer, or when the request
      has some and leaves the transport alone. */
  predicate WritesWs(p: SetPeer) {
    p.peer.transport != Udp || (p.hasWsSettings && !p.peer.hasTransport)
  }

  function WsPairs(u: UPeer): seq<Pair> {
    IfText(KeyText(WsUrl), u.wsUrl) + IfText(KeyText(WstunnelTarget), u.wstunnelTarget) + IfText(KeyText(WsBearer), u.wsBearer)
    + If(u.wsMask, KeyText(WsMask), "true") + IfText(KeyText(WsTlsCa), u.tlsCa) + IfText(KeyText(WsTlsCert), u.tlsCert)
    + IfText(KeyText(WsTlsKey), u.tlsKey) + If(u.tlsInsecure, KeyText(WsTlsInsecure), "true")
    + IfSet(KeyText(WsPing), u.ping) + IfSet(KeyText(WsBackoffMin), u.backoffMin) + IfSet(KeyText(WsBackoffMax), u.backoffMax)
  }

  /** Fixed-size fields, and texts that are C strings on one line. */
  predicate PeerFits(p: SetPeer) {
    var u := p.peer;
    && |u.publicKey| == KEY_LEN && (u.psk.Some? ==> |u.psk.value| == KEY_LEN)
    && (u.endpoint.Some? ==> IsSocket(u.endpoint.value))
    && (u.keepalive.Some? ==> u.keepalive.value <= 0xffff)
    && u.ping <= 0xffff_ffff && u.backoffMin <= 0xffff_ffff && u.backoffMax <= 0xffff_ffff
    && OneLineOpt(u.wsUrl) && OneLineOpt(u.wstunnelTarget) && OneLineOpt(u.wsBearer)
    && OneLineOpt(u.tlsCa) && OneLineOpt(u.tlsCert) && OneLineOpt(u.tlsKey)
  }

  predicate OneLineOpt(o: Option<string>) {
    o.Some? ==> OneLine(o.value)
  }

  /** Everything of a peer between its key and its allowed IPs. */
  function OptionPairs(net: Net, p: SetPeer): seq<Pair>
    requires PeerFits(p)
  {
    var u := p.peer;
    IfKey(KeyText(PresharedKey), u.psk) + If(u.hasTransport, KeyText(TransportName), TransportText(u.transport))
    + EndpointPair(net, u.endpoint) + (if WritesWs(p) then WsPairs(u) else [])
    + IfNum(KeyText(Keepalive), u.keepalive) + If(p.replaceIps, "replace_allowed_ips", "true")
  }

  function PeerPairs(net: Net, p: SetPeer): seq<Pair>
    requires PeerFits(p)
  {
    [Pair(KeyText(PublicKey), HexText(p.peer.publicKey))]
    + if p.remove then [Pair("remove", "true")] else OptionPairs(net, p) + IpPairs(net, p.ips)
  }

  function AllPeerPairs(net: Net, ps: seq<SetPeer>): seq<Pair>
    requires forall i :: 0 <= i < |ps| ==> PeerFits(ps[i])
  {
    if ps == [] then [] else AllPeerPairs(net, ps[..|ps| - 1]) + PeerPairs(net, ps[|ps| - 1])
  }

  predicate DeviceFits(s: SetDevice) {
    && (s.dev.privateKey.Some? ==> |s.dev.privateKey.value| == KEY_LEN)
    && (s.dev.listenPort.Some? ==> s.dev.listenPort.value <= 0xffff)
    && (s.dev.fwmark.Some? ==> s.dev.fwmark.value <= 0xffff_ffff)
    && OneLineOpt(s.dev.wsListen) && OneLineOpt(s.dev.wsCert) && OneLineOpt(s.dev.wsKey)
    && OneLineOpt(s.dev.wsBearer) && OneLineOpt(s.dev.wsProxies)
    && (forall i :: 0 <= i < |s.peers| ==> PeerFits(s.peers[i]))
  }

  function HeadPairs(s: SetDevice): seq<Pair>
    requires DeviceFits(s)
  {
    var d := s.dev;
    [Pair("set", "1")] + IfKey(KeyText(PrivateKey), d.privateKey) + IfNum(KeyText(ListenPort), d.listenPort) + IfNum(KeyText(Fwmark), d.fwmark)
    + IfText(KeyText(WsListen), d.wsListen) + IfText(KeyText(WsServerCert), d.wsCert) + IfText(KeyText(WsServerKey), d.wsKey)
    + IfText(KeyText(WsServerBearer), d.wsBearer) + IfText(KeyText(WsProxies), d.wsProxies)
    + If(s.replacePeers, "replace_peers", "true")
  }

  function SetPairs(net: Net, s: SetDevice): seq<Pair>
    requires DeviceFits(s)
  {
    HeadPairs(s) + AllPeerPairs(net, s.peers)
  }

  // ----- writing it -----

  class Stream {
    var out: string

    constructor ()
      ensures out == ""
    {
      out := "";
    }

    method Line(p: Pair)
      modifies this
      ensures out == old(out) + Unlines([TextOf(p)])
    {
      out := out + p.key + "=" + p.value + "\n";
      assert Unlines([TextOf(p)]) == TextOf(p) + "\n" + Unlines([TextOf(p)][1..]);
    }

    /** The lines of one printf after another. */
    method Print(ps: seq<Pair>)
      modifies this
      ensures out == old(out) + Unlines(TextsOf(ps))
    {
      hide TextOf;
      var i := 0;
      assert TextsOf(ps)[..0] == [];
      while i < |ps|
        invariant 0 <= i <= |ps|
        invariant out == old(out) + Unlines(TextsOf(ps)[..i])
      {
        Line(ps[i]);
        UnlinesAppend(TextsOf(ps)[..i], [TextOf(ps[i])]);
        assert TextsOf(ps)[..i] + [TextOf(ps[i])] == TextsOf(ps)[..i + 1];
        i := i + 1;
      }
      assert TextsOf(ps)[..i] == TextsOf(ps);
    }
  }

  lemma TextsAppend(a: seq<Pair>, b: seq<Pair>)
    ensures TextsOf(a + b) == TextsOf(a) + TextsOf(b)
    ensures Unlines(TextsOf(a + b)) == Unlines(TextsOf(a)) + Unlines(TextsOf(b))
  {
    hide TextOf;
    UnlinesAppend(TextsOf(a), TextsOf(b));
    assert TextsOf(a + b) == TextsOf(a) + TextsOf(b);
  }

  method WriteIps(f: Stream, net: Net, ips: seq<SetIp>)
    modifies f
    ensures f.out == old(f.out) + Unlines(TextsOf(IpPairs(net, ips)))
  {
    hide TextsOf, Unlines, IpPair;
    ghost var was := f.out;
    var i := 0;
    assert Unlines(TextsOf([])) == "" by { NoText(); }
    while i < |ips|
      invariant 0 <= i <= |ips|
      invariant f.out == was + Unlines(TextsOf(IpPairs(net, ips[..i])))
    {
      f.Print(IpPair(net, ips[i]));
      TextsAppend(IpPairs(net, ips[..i]), IpPair(net, ips[i]));
      assert ips[..i + 1][..i] == ips[..i];
      i := i + 1;
    }
    assert ips[..i] == ips;
  }

  lemma NoText()
    ensures Unlines(TextsOf([])) == ""
  {
  }

  /** The lines of one peer. */
  method WritePeer(f: Stream, net: Net, p: SetPeer)
    requires PeerFits(p)
    modifies f
    ensures f.out == old(f.out) + Unlines(TextsOf(PeerPairs(net, p)))
  {
    hide TextsOf, Unlines, OptionPairs, HexText, KeyText, IpPairs;
    ghost var was := f.out;
    var key := [Pair(KeyText(PublicKey), HexText(p.peer.publicKey))];
    f.Print(key);
    if p.remove {
      f.Print([Pair("remove", "true")]);
      TextsAppend(key, [Pair("remove", "true")]);
      return;
    }
    f.Print(OptionPairs(net, p));
    TextsAppend(key, OptionPairs(net, p));
    WriteIps(f, net, p.ips);
    TextsAppend(key + OptionPairs(net, p), IpPairs(net, p.ips));
    assert key + OptionPairs(net, p) + IpPairs(net, p.ips) == PeerPairs(net, p);
  }
}

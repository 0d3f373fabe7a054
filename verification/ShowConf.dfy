/** The text that showconf_main (src/showconf.c) prints for a device. */
module ShowConf {
  import opened Text
  import opened Common
  import opened KeyCodec
  import opened UapiReader
  import opened UapiWriter
  import opened ConfigParser

  function Base64Text(k: Bytes): string
    requires |k| == KEY_LEN
  {
    AsText(Encoded(k))
  }

  function HexChar(n: nat): char
    requires n < 16
  {
    if n < 10 then '0' + n as char else 'a' + (n - 10) as char
  }

  /** `%x`. */
  function HexDec(n: nat): (s: string)
    ensures |s| > 0
  {
    if n < 16 then [HexChar(n)] else HexDec(n / 16) + [HexChar(n % 16)]
  }

  /** `Key = value`. */
  function Entry(k: string, v: string): string {
    k + " = " + v
  }

  function IfValue(k: string, o: Option<string>): seq<string> {
    if o.Some? then [Entry(k, o.value)] else []
  }

  /** A device text is printed when it is not empty. */
  function NonEmpty(o: Option<string>): Option<string> {
    if o.Some? && o.value != "" then o else None
  }

  function IfNonZero(k: string, n: nat): seq<string> {
    if n != 0 then [Entry(k, Dec(n))] else []
  }

  function IfTrue(k: string, b: bool): seq<string> {
    if b then [Entry(k, "true")] else []
  }

  // ----- the interface -----

  function HeadLines(d: CDevice): seq<string>
    requires |d.privateKey| == KEY_LEN
  {
    ["[Interface]"]
    + IfNonZero(Spelled(KListenPort), d.listenPort)
    + (if d.fwmark != 0 then [Entry(Spelled(KFwMark), "0x" + HexDec(d.fwmark))] else [])
    + [Entry(Spelled(KPrivateKey), Base64Text(d.privateKey))]
    + IfValue(Spelled(KWsListen), NonEmpty(d.wsListen)) + IfValue(Spelled(KWsServerCert), NonEmpty(d.wsCert))
    + IfValue(Spelled(KWsServerKey), NonEmpty(d.wsKey)) + IfValue(Spelled(KWsServerBearer), NonEmpty(d.wsBearer))
    + IfValue(Spelled(KWsProxies), NonEmpty(d.wsProxies)) + [""]
  }

  // ----- a peer -----

  function IpText(net: Net, i: CIp): Option<string> {
    if i.ip.family != AF_INET && i.ip.family != AF_INET6 then None
    else
      var t := net.ntop(i.ip.family, i.ip.addr);
      if t.None? then None else Some(t.value + "/" + Dec(i.ip.cidr))
  }

  /** The list, with a comma after every printed entry that is not the last. */
  function IpsText(net: Net, ips: seq<CIp>): string {
    if ips == [] then ""
    else
      var t := IpText(net, ips[0]);
      (if t.None? then "" else t.value + if |ips| > 1 then ", " else "") + IpsText(net, ips[1..])
  }

  function ModeText(t: Transport): string {
    if t == Wstunnel then "wstunnel" else "websocket"
  }

  function WsLines(p: CPeer): seq<string> {
    [Entry(Spelled(KMode), ModeText(p.transport))] + IfValue(Spelled(KEndpoint), p.wsUrl) + IfValue(Spelled(KTarget), p.target)
    + IfValue(Spelled(KBearer), p.bearer) + IfTrue(Spelled(KMask), p.mask)
    + IfValue(Spelled(KTlsCa), p.tlsCa) + IfValue(Spelled(KTlsCert), p.tlsCert) + IfValue(Spelled(KTlsKey), p.tlsKey) + IfTrue(Spelled(KInsecure), p.insecure)
    + IfNonZero(Spelled(KPing), p.ping) + IfNonZero(Spelled(KBackoffMin), p.backoffMin) + IfNonZero(Spelled(KBackoffMax), p.backoffMax)
  }

  function EndpointLines(net: Net, p: CPeer): seq<string>
    requires p.endpoint.Some? ==> IsSocket(p.endpoint.value)
  {
    if p.endpoint.None? then [] else IfValue(Spelled(KEndpoint), EndpointText(net, p.endpoint.value))
  }

  /** The interval is zero unless it was set. */
  function Interval(p: CPeer): nat {
    if p.keepalive.Some? then p.keepalive.value else 0
  }

  predicate PeerPrints(p: CPeer) {
    && p.publicKey.Some? && |p.publicKey.value| == KEY_LEN && (p.psk.Some? ==> |p.psk.value| == KEY_LEN)
    && (p.endpoint.Some? ==> IsSocket(p.endpoint.value))
  }

  /** The lines of a peer; one that is not the last is followed by a blank line. */
  function PeerLines(net: Net, p: CPeer): seq<string>
    requires PeerPrints(p)
  {
    ["[Peer]", Entry(Spelled(KPublicKey), Base64Text(p.publicKey.value))]
    + (if p.psk.Some? then [Entry(Spelled(KPresharedKey), Base64Text(p.psk.value))] else [])
    + (if p.ips != [] then [Entry(Spelled(KAllowedIps), IpsText(net, p.ips))] else [])
    + (if p.transport != Udp then WsLines(p) else EndpointLines(net, p))
    + IfNonZero(Spelled(KKeepalive), Interval(p))
  }

  function PeersLines(net: Net, ps: seq<CPeer>): seq<string>
    requires forall i :: 0 <= i < |ps| ==> PeerPrints(ps[i])
  {
    if ps == [] then [] else PeerLines(net, ps[0]) + (if |ps| > 1 then [""] else []) + PeersLines(net, ps[1..])
  }

  predicate DevicePrints(d: CDevice) {
    |d.privateKey| == KEY_LEN && forall i :: 0 <= i < |d.peers| ==> PeerPrints(d.peers[i])
  }

  function ShowLines(net: Net, d: CDevice): seq<string>
    requires DevicePrints(d)
  {
    HeadLines(d) + PeersLines(net, d.peers)
  }

  // ----- printing it -----

  method PrintLines(ls: seq<string>) returns (out: string)
    ensures out == Unlines(ls)
  {
    out := "";
    var i := 0;
    assert ls[..0] == [];
    while i < |ls|
      invariant 0 <= i <= |ls| && out == Unlines(ls[..i])
    {
      UnlinesAppend(ls[..i], [ls[i]]);
      assert Unlines([ls[i]]) == ls[i] + "\n" + Unlines([ls[i]][1..]);
      assert ls[..i + 1] == ls[..i] + [ls[i]];
      out := out + ls[i] + "\n";
      i := i + 1;
    }
    assert ls[..i] == ls;
  }
}

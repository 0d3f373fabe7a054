/** The get side of src/ipc-uapi.h: the lines of a reply, one by one, into a device. */
module UapiReader {
  import opened Machine
  import opened Text
  import opened Common
  import opened HexCodec
  import Tlv

  // ----- the device -----

  datatype Transport = Udp | Websocket | Wstunnel

  /** An option is a value with its HAS flag. */
  datatype UPeer = UPeer(
    publicKey: Bytes, psk: Option<Bytes>, hasTransport: bool, transport: Transport, endpoint: Option<Bytes>,
    wsUrl: Option<string>, wstunnelTarget: Option<string>, wsBearer: Option<string>, wsMask: bool,
    tlsCa: Option<string>, tlsCert: Option<string>, tlsKey: Option<string>, tlsInsecure: bool,
    ping: nat, backoffMin: nat, backoffMax: nat, keepalive: Option<nat>, ips: seq<Ip>,
    handshakeSec: nat, handshakeNsec: nat, rx: nat, tx: nat)

  datatype Ip = Ip(family: nat, addr: Bytes, cidr: nat)

  datatype UDevice = UDevice(
    privateKey: Option<Bytes>, publicKey: Option<Bytes>, listenPort: Option<nat>, fwmark: Option<nat>,
    wsListen: Option<string>, wsCert: Option<string>, wsKey: Option<string>, wsBearer: Option<string>, wsProxies: Option<string>,
    peers: seq<UPeer>)

  const EPROTO := 71
  const ENETUNREACH := 101

  function EmptyDevice(): UDevice {
    UDevice(None, None, None, None, None, None, None, None, None, [])
  }

  function EmptyPeer(key: Bytes): UPeer {
    UPeer(key, None, false, Udp, None, None, None, None, false, None, None, None, false, 0, 0, 0, None, [], 0, 0, 0, 0)
  }

  // ----- values -----

  function AsText(b: Bytes): (s: string)
    ensures |s| == |b|
  {
    seq(|b|, i requires 0 <= i < |b| => b[i] as char)
  }

  predicate IsBytes(s: string) {
    forall i :: 0 <= i < |s| ==> s[i] as int < 256
  }

  function AsBytes(s: string): (b: Bytes)
    requires IsBytes(s)
    ensures |b| == |s|
  {
    seq(|s|, i requires 0 <= i < |s| => s[i] as int as u8)
  }

  /** key_from_hex on a value. */
  function HexKey(v: string): Option<Bytes> {
    if IsBytes(v) && IsHex(AsBytes(v)) then Some(HexDecoded(AsBytes(v))) else None
  }

  predicate AllZero(k: Bytes) {
    forall i :: 0 <= i < |k| ==> k[i] == 0
  }

  /** strtoull stops at the largest number it can hold. */
  function Saturated(n: nat): nat {
    if n > 0xffff_ffff_ffff_ffff then 0xffff_ffff_ffff_ffff else n
  }

  /** The macro NUM: digits to the end, and not above the maximum. */
  function Num(v: string, max: nat): Option<nat> {
    if v != "" && AllDigits(v) && Saturated(NumberOf(v)) <= max then Some(Saturated(NumberOf(v))) else None
  }

  /** The numeric forms of addresses, of which only the inverse law matters, and
      curve25519_generate_public. */
  datatype Net = Net(derive: Bytes -> Bytes, nameInfo: Bytes -> Option<(string, string)>, resolve: (string, string) -> Option<Bytes>,
                     ntop: (nat, Bytes) -> Option<string>, pton: (nat, string) -> Option<Bytes>)

  predicate IsSocket(b: Bytes) {
    (|b| == 16 && Tlv.Get16(b, 0) == AF_INET) || (|b| == 28 && Tlv.Get16(b, 0) == AF_INET6)
  }

  /** `[host]:service` or `host:service`. */
  function HostService(v: string): Option<(string, string)> {
    if v == "" then None
    else if v[0] == '[' then
      var k := Index(v, ']');
      if k == |v| then None
      else if k + 2 >= |v| || v[k + 1] != ':' then None
      else Some((v[1..k], v[k + 2..]))
    else
      var k := LastIndex(v, ':');
      if k == |v| || k + 1 == |v| then None else Some((v[..k], v[k + 1..]))
  }

  /** `address/mask`.  The mask is cut to a byte before its range is looked at. */
  function ParseIp(net: Net, v: string): Option<Ip> {
    var k := Index(v, '/');
    if k == |v| then None
    else
      var ip, mask := v[..k], v[k + 1..];
      if mask == "" || !AllDigits(mask) then None
      else
        var family := if ':' in ip then AF_INET6 else AF_INET;
        var addr := net.pton(family, ip);
        var cidr := Saturated(NumberOf(mask)) % 256;
        if addr.None? || cidr > (if family == AF_INET6 then 128 else 32) then None
        else Some(Ip(family, addr.value, cidr))
  }

  // ----- the keys -----

  datatype Name =
    | PrivateKey | ListenPort | Fwmark | PublicKey | PresharedKey | Endpoint | TransportName | WsUrl | WstunnelTarget
    | WsBearer | WsTlsCa | WsTlsCert | WsTlsKey | WsMask | WsTlsInsecure | WsPing | WsBackoffMin | WsBackoffMax
    | WsListen | WsServerCert | WsServerKey | WsServerBearer | WsProxies | Keepalive | AllowedIp
    | HandshakeSec | HandshakeNsec | RxBytes | TxBytes | Errno | Unknown

  /** The spelling of a key. */
  function KeyText(n: Name): string
    requires n != Unknown
  {
    match n
    case PrivateKey => "private_key"
    case ListenPort => "listen_port"
    case Fwmark => "fwmark"
    case PublicKey => "public_key"
    case PresharedKey => "preshared_key"
    case Endpoint => "endpoint"
    case TransportName => "transport"
    case WsUrl => "ws_url"
    case WstunnelTarget => "wstunnel_target"
    case WsBearer => "ws_bearer"
    case WsTlsCa => "ws_tls_ca"
    case WsTlsCert => "ws_tls_cert"
    case WsTlsKey => "ws_tls_key"
    case WsMask => "ws_mask"
    case WsTlsInsecure => "ws_tls_insecure"
    case WsPing => "ws_ping_interval"
    case WsBackoffMin => "ws_backoff_min"
    case WsBackoffMax => "ws_backoff_max"
    case WsListen => "ws_listen"
    case WsServerCert => "ws_server_tls_cert"
    case WsServerKey => "ws_server_tls_key"
    case WsServerBearer => "ws_server_bearer"
    case WsProxies => "ws_trusted_proxies"
    case Keepalive => "persistent_keepalive_interval"
    case AllowedIp => "allowed_ip"
    case HandshakeSec => "last_handshake_time_sec"
    case HandshakeNsec => "last_handshake_time_nsec"
    case RxBytes => "rx_bytes"
    case TxBytes => "tx_bytes"
    case Errno => "errno"
  }

  /** The strcmp chain.  The keys are distinct, so their order does not matter;
      they are listed by length. */
  function NameOf(k: string): Name {
    match |k|
    case 5 => if k == "errno" then Errno else Unknown
    case 6 => if k == "fwmark" then Fwmark else if k == "ws_url" then WsUrl else Unknown
    case 7 => if k == "ws_mask" then WsMask else Unknown
    case 8 => if k == "endpoint" then Endpoint else if k == "rx_bytes" then RxBytes else if k == "tx_bytes" then TxBytes else Unknown
    case 9 => if k == "transport" then TransportName else if k == "ws_bearer" then WsBearer else if k == "ws_tls_ca" then WsTlsCa else if k == "ws_listen" then WsListen else Unknown
    case 10 => if k == "public_key" then PublicKey else if k == "ws_tls_key" then WsTlsKey else if k == "allowed_ip" then AllowedIp else Unknown
    case 11 => if k == "private_key" then PrivateKey else if k == "listen_port" then ListenPort else if k == "ws_tls_cert" then WsTlsCert else Unknown
    case 13 => if k == "preshared_key" then PresharedKey else Unknown
    case 14 => if k == "ws_backoff_min" then WsBackoffMin else if k == "ws_backoff_max" then WsBackoffMax else Unknown
    case 15 => if k == "wstunnel_target" then WstunnelTarget else if k == "ws_tls_insecure" then WsTlsInsecure else Unknown
    case 16 => if k == "ws_ping_interval" then WsPing else if k == "ws_server_bearer" then WsServerBearer else Unknown
    case 17 => if k == "ws_server_tls_key" then WsServerKey else Unknown
    case 18 => if k == "ws_server_tls_cert" then WsServerCert else if k == "ws_trusted_proxies" then WsProxies else Unknown
    case 23 => if k == "last_handshake_time_sec" then HandshakeSec else Unknown
    case 24 => if k == "last_handshake_time_nsec" then HandshakeNsec else Unknown
    case 29 => if k == "persistent_keepalive_interval" then Keepalive else Unknown
    case _ => Unknown
  }

  // ----- one line -----

  /** The loop: reading, stopped by an error, or at the blank line. */
  datatype Loop = Reading(dev: UDevice, ret: int) | Stopped(code: int) | Done(dev: UDevice, ret: int)

  /** A key of the device, before the first peer. */
  function DeviceKey(net: Net, d: UDevice, ret: int, n: Name, v: string): Loop {
    match n
    case PrivateKey =>
      var k := HexKey(v);
      if k.None? then Stopped(-EPROTO) else Reading(d.(privateKey := k, publicKey := Some(net.derive(k.value))), ret)
    case ListenPort => if Num(v, 0xffff).None? then Stopped(-EPROTO) else Reading(d.(listenPort := Num(v, 0xffff)), ret)
    case Fwmark => if Num(v, 0xffff_ffff).None? then Stopped(-EPROTO) else Reading(d.(fwmark := Num(v, 0xffff_ffff)), ret)
    case WsListen => Reading(d.(wsListen := Some(v)), ret)
    case WsServerCert => Reading(d.(wsCert := Some(v)), ret)
    case WsServerKey => Reading(d.(wsKey := Some(v)), ret)
    case WsServerBearer => Reading(d.(wsBearer := Some(v)), ret)
    case WsProxies => Reading(d.(wsProxies := Some(v)), ret)
    case _ => Reading(d, ret)
  }

  datatype PeerStep = Keep(peer: UPeer) | Bad(code: int)

  /** A key of the current peer.  A zero preshared key does not set the HAS flag,
      and does not clear it. */
  function PeerKey(net: Net, p: UPeer, n: Name, v: string): PeerStep {
    match n
    case PresharedKey =>
      var k := HexKey(v);
      if k.None? then Bad(-EPROTO) else Keep(if AllZero(k.value) && p.psk.None? then p else p.(psk := k))
    case Endpoint => EndpointKey(net, p, v)
    case TransportName =>
      Keep(p.(hasTransport := true, transport := if v == "wstunnel" then Wstunnel else if v == "websocket" then Websocket else Udp))
    case WsUrl => Keep(p.(wsUrl := Some(v)))
    case WstunnelTarget => Keep(p.(wstunnelTarget := Some(v)))
    case WsBearer => Keep(p.(wsBearer := Some(v)))
    case WsTlsCa => Keep(p.(tlsCa := Some(v)))
    case WsTlsCert => Keep(p.(tlsCert := Some(v)))
    case WsTlsKey => Keep(p.(tlsKey := Some(v)))
    case WsMask => Keep(p.(wsMask := v == "true"))
    case WsTlsInsecure => Keep(p.(tlsInsecure := v == "true"))
    case WsPing => if Num(v, 0xffff_ffff).None? then Bad(-EPROTO) else Keep(p.(ping := Num(v, 0xffff_ffff).value))
    case WsBackoffMin => if Num(v, 0xffff_ffff).None? then Bad(-EPROTO) else Keep(p.(backoffMin := Num(v, 0xffff_ffff).value))
    case WsBackoffMax => if Num(v, 0xffff_ffff).None? then Bad(-EPROTO) else Keep(p.(backoffMax := Num(v, 0xffff_ffff).value))
    case Keepalive => if Num(v, 0xffff).None? then Bad(-EPROTO) else Keep(p.(keepalive := Num(v, 0xffff)))
    case AllowedIp =>
      var ip := ParseIp(net, v);
      if ip.None? then Bad(-EPROTO) else Keep(p.(ips := p.ips + [ip.value]))
    case HandshakeSec => if Num(v, 0x7fff_ffff_ffff_ffff).None? then Bad(-EPROTO) else Keep(p.(handshakeSec := Num(v, 0x7fff_ffff_ffff_ffff).value))
    case HandshakeNsec => if Num(v, 0x7fff_ffff_ffff_ffff).None? then Bad(-EPROTO) else Keep(p.(handshakeNsec := Num(v, 0x7fff_ffff_ffff_ffff).value))
    case RxBytes => if Num(v, 0xffff_ffff_ffff_ffff).None? then Bad(-EPROTO) else Keep(p.(rx := Num(v, 0xffff_ffff_ffff_ffff).value))
    case TxBytes => if Num(v, 0xffff_ffff_ffff_ffff).None? then Bad(-EPROTO) else Keep(p.(tx := Num(v, 0xffff_ffff_ffff_ffff).value))
    case _ => Keep(p)
  }

  function EndpointKey(net: Net, p: UPeer, v: string): PeerStep {
    var hs := HostService(v);
    if hs.None? then Bad(-EPROTO)
    else
      var b := net.resolve(hs.value.0, hs.value.1);
      if b.None? then Bad(ENETUNREACH)
      else if !IsSocket(b.value) then Bad(-EPROTO)
      else Keep(p.(endpoint := b))
  }

  function KeyValue(net: Net, d: UDevice, ret: int, n: Name, v: string): Loop {
    if n == PublicKey then
      if HexKey(v).None? then Stopped(-EPROTO) else Reading(d.(peers := d.peers + [EmptyPeer(HexKey(v).value)]), ret)
    else if n == Errno then
      if Num(v, 0x7fff_ffff).None? then Stopped(-EPROTO) else Reading(d, -(Num(v, 0x7fff_ffff).value as int))
    else if d.peers == [] then DeviceKey(net, d, ret, n, v)
    else
      var last := |d.peers| - 1;
      match PeerKey(net, d.peers[last], n, v)
      case Keep(p) => Reading(d.(peers := d.peers[last := p]), ret)
      case Bad(code) => Stopped(code)
  }

  /** A C string ends at its first zero. */
  function CString(s: string): string {
    s[..Index(s, '\0')]
  }

  function Step(net: Net, d: UDevice, ret: int, raw: string): Loop {
    var line := CString(raw);
    var k := Index(line, '=');
    if line == "\n" then Done(d, ret)
    else if k == |line| || line[|line| - 1] != '\n' then Stopped(-EPROTO)
    else KeyValue(net, d, ret, NameOf(line[..k]), line[k + 1..|line| - 1])
  }

  function Run(net: Net, s: Loop, ls: seq<string>): Loop
    decreases |ls|
  {
    if ls == [] || !s.Reading? then s else Run(net, Step(net, s.dev, s.ret, ls[0]), ls[1..])
  }

  /** What the caller gets. */
  function Returned(s: Loop): Option<UDevice> {
    if s.Done? && s.ret == 0 then Some(s.dev) else None
  }

  const START := Reading(EmptyDevice(), -EPROTO)

  /** userspace_get_device, from the reply on. */
  method GetDevice(net: Net, reply: string) returns (r: Option<UDevice>)
    ensures r == Returned(Run(net, START, Lines(reply)))
  {
    hide Step, Index;
    var rest := reply;
    var dev, ret := EmptyDevice(), -EPROTO;
    while rest != ""
      invariant Run(net, Reading(dev, ret), Lines(rest)) == Run(net, START, Lines(reply))
      decreases |rest|
    {
      var k := Index(rest, '\n');
      var line := if k == |rest| then rest else rest[..k + 1];
      ghost var ls := Lines(rest);
      rest := if k == |rest| then "" else rest[k + 1..];
      assert ls[0] == line && ls[1..] == Lines(rest);
      var s := Step(net, dev, ret, line);
      match s {
        case Reading(d, e) =>
          dev, ret := d, e;
        case Stopped(_) =>
          return None;
        case Done(d, e) =>
          return if e == 0 then Some(d) else None;
      }
    }
    r := None;
  }
}

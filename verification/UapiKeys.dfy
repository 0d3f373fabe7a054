/** The lines of a UAPI reply, by the very text of their keys: what each does to the
    device that userspace_get_device (src/ipc-uapi.h) builds. */
module UapiKeys {
  import opened Text
  import opened Common
  import opened UapiReader
  import opened UapiWriter
  import opened UapiNames
  import opened UapiRoundTrip

  function Line(key: string, v: string): string {
    key + "=" + v + "\n"
  }

  /** The device with its current peer changed. */
  function Now(d: UDevice, p: UPeer): UDevice
    requires d.peers != []
  {
    d.(peers := d.peers[..|d.peers| - 1] + [p])
  }

  function Last(d: UDevice): UPeer
    requires d.peers != []
  {
    d.peers[|d.peers| - 1]
  }

  /** Digits only, and at most `max`. */
  predicate Decimal(v: string, max: nat) {
    v != "" && AllDigits(v) && NumberOf(v) <= max
  }

  /** The reader goes on with the peer if the value was good; else EPROTO. */
  function Sets(ok: bool, d: UDevice, ret: int, p: UPeer): Loop
    requires d.peers != []
  {
    if ok then Reading(Now(d, p), ret) else Stopped(-71)
  }

  function SetsDevice(ok: bool, e: UDevice, ret: int): Loop {
    if ok then Reading(e, ret) else Stopped(-71)
  }

  lemma LineIs(net: Net, d: UDevice, ret: int, n: Name, v: string)
    requires n != Unknown && OneLine(v)
    ensures Step(net, d, ret, Line(KeyText(n), v)) == KeyValue(net, d, ret, n, v)
  {
    hide NameOf, KeyText, KeyValue, Step, Plain;
    NameOfKey(n);
    PlainIs(KeyText(n));
    StepIs(net, d, ret, Pair(KeyText(n), v));
  }

  lemma PlainIs(k: string)
    ensures Plain(k) <==> OneLine(k) && '=' !in k
  {
  }

  lemma NumIs(v: string, max: nat)
    requires max < 0xffff_ffff_ffff_ffff
    ensures Num(v, max) == if Decimal(v, max) then Some(NumberOf(v)) else None
  {
  }

  lemma PeerLineIs(net: Net, d: UDevice, ret: int, n: Name, v: string)
    requires OfPeer(n) && OneLine(v) && d.peers != []
    ensures Step(net, d, ret, Line(KeyText(n), v)) ==
            match PeerKey(net, Last(d), n, v) case Keep(p) => Reading(Now(d, p), ret) case Bad(code) => Stopped(code)
  {
    hide KeyText, PeerKey, Step;
    LineIs(net, d, ret, n, v);
    forall p: UPeer
      ensures d.(peers := d.peers[|d.peers| - 1 := p]) == Now(d, p)
    {
    }
  }

  // ----- keys of a peer -----

  /** The counters.  The largest number stands for every larger one. */
  lemma ByteLines(net: Net, d: UDevice, ret: int, v: string)
    requires d.peers != [] && OneLine(v)
    ensures var ok, n, p := v != "" && AllDigits(v), if AllDigits(v) then NumberOf(v) else 0, Last(d);
            var capped := if n > 0xffff_ffff_ffff_ffff then 0xffff_ffff_ffff_ffff else n;
            && Step(net, d, ret, Line("rx_bytes", v)) == Sets(ok, d, ret, p.(rx := capped))
            && Step(net, d, ret, Line("tx_bytes", v)) == Sets(ok, d, ret, p.(tx := capped))
  {
    hide Step, Line, Now, OneLine, NumberOf, AllDigits;
    PeerLineIs(net, d, ret, RxBytes, v);
    PeerLineIs(net, d, ret, TxBytes, v);
  }

  lemma HandshakeLines(net: Net, d: UDevice, ret: int, v: string)
    requires d.peers != [] && OneLine(v)
    ensures var ok, n, p := Decimal(v, 0x7fff_ffff_ffff_ffff), if AllDigits(v) then NumberOf(v) else 0, Last(d);
            && Step(net, d, ret, Line("last_handshake_time_sec", v)) == Sets(ok, d, ret, p.(handshakeSec := n))
            && Step(net, d, ret, Line("last_handshake_time_nsec", v)) == Sets(ok, d, ret, p.(handshakeNsec := n))
  {
    hide Step, Line, Now, OneLine, NumberOf, AllDigits, Num;
    NumIs(v, 0x7fff_ffff_ffff_ffff);
    PeerLineIs(net, d, ret, HandshakeSec, v);
    PeerLineIs(net, d, ret, HandshakeNsec, v);
  }

  lemma IntervalLines(net: Net, d: UDevice, ret: int, v: string)
    requires d.peers != [] && OneLine(v)
    ensures var ok, n, p := Decimal(v, 0xffff_ffff), if AllDigits(v) then NumberOf(v) else 0, Last(d);
            && Step(net, d, ret, Line("ws_ping_interval", v)) == Sets(ok, d, ret, p.(ping := n))
            && Step(net, d, ret, Line("ws_backoff_min", v)) == Sets(ok, d, ret, p.(backoffMin := n))
            && Step(net, d, ret, Line("ws_backoff_max", v)) == Sets(ok, d, ret, p.(backoffMax := n))
  {
    hide Step, Line, Now, OneLine, NumberOf, AllDigits, Num;
    NumIs(v, 0xffff_ffff);
    PeerLineIs(net, d, ret, WsPing, v);
    PeerLineIs(net, d, ret, WsBackoffMin, v);
    PeerLineIs(net, d, ret, WsBackoffMax, v);
  }

  lemma KeepaliveLine(net: Net, d: UDevice, ret: int, v: string)
    requires d.peers != [] && OneLine(v)
    ensures var ok, n, p := Decimal(v, 0xffff), if AllDigits(v) then NumberOf(v) else 0, Last(d);
            Step(net, d, ret, Line("persistent_keepalive_interval", v)) == Sets(ok, d, ret, p.(keepalive := Some(n)))
  {
    hide Step, Line, Now, OneLine, NumberOf, AllDigits, Num;
    NumIs(v, 0xffff);
    PeerLineIs(net, d, ret, Keepalive, v);
  }

  lemma WsLines(net: Net, d: UDevice, ret: int, v: string)
    requires d.peers != [] && OneLine(v)
    ensures var p := Last(d);
            && Step(net, d, ret, Line("ws_url", v)) == Reading(Now(d, p.(wsUrl := Some(v))), ret)
            && Step(net, d, ret, Line("wstunnel_target", v)) == Reading(Now(d, p.(wstunnelTarget := Some(v))), ret)
            && Step(net, d, ret, Line("ws_bearer", v)) == Reading(Now(d, p.(wsBearer := Some(v))), ret)
  {
    hide Step, Line, Now, OneLine;
    PeerLineIs(net, d, ret, WsUrl, v);
    PeerLineIs(net, d, ret, WstunnelTarget, v);
    PeerLineIs(net, d, ret, WsBearer, v);
  }

  lemma TlsLines(net: Net, d: UDevice, ret: int, v: string)
    requires d.peers != [] && OneLine(v)
    ensures var p := Last(d);
            && Step(net, d, ret, Line("ws_tls_ca", v)) == Reading(Now(d, p.(tlsCa := Some(v))), ret)
            && Step(net, d, ret, Line("ws_tls_cert", v)) == Reading(Now(d, p.(tlsCert := Some(v))), ret)
            && Step(net, d, ret, Line("ws_tls_key", v)) == Reading(Now(d, p.(tlsKey := Some(v))), ret)
  {
    hide Step, Line, Now, OneLine;
    PeerLineIs(net, d, ret, WsTlsCa, v);
    PeerLineIs(net, d, ret, WsTlsCert, v);
    PeerLineIs(net, d, ret, WsTlsKey, v);
  }

  /** A switch is on for `true` and off for anything else; a transport that is not
      known is UDP. */
  lemma SwitchLines(net: Net, d: UDevice, ret: int, v: string)
    requires d.peers != [] && OneLine(v)
    ensures var p := Last(d);
            && Step(net, d, ret, Line("ws_mask", v)) == Reading(Now(d, p.(wsMask := v == "true")), ret)
            && Step(net, d, ret, Line("ws_tls_insecure", v)) == Reading(Now(d, p.(tlsInsecure := v == "true")), ret)
    ensures var t := if v == "websocket" then Websocket else if v == "wstunnel" then Wstunnel else Udp;
            Step(net, d, ret, Line("transport", v)) == Reading(Now(d, Last(d).(hasTransport := true, transport := t)), ret)
  {
    hide Step, Line, Now, OneLine;
    PeerLineIs(net, d, ret, WsMask, v);
    PeerLineIs(net, d, ret, WsTlsInsecure, v);
    PeerLineIs(net, d, ret, TransportName, v);
  }

  /** A preshared key of zeros does not count as one, unless there was one. */
  lemma PresharedLine(net: Net, d: UDevice, ret: int, k: Bytes)
    requires d.peers != [] && |k| == 32
    ensures Step(net, d, ret, Line("preshared_key", HexText(k))) ==
            Reading(Now(d, if Last(d).psk.None? && k == seq(32, i => 0) then Last(d) else Last(d).(psk := Some(k))), ret)
  {
    hide Step, Line, Now, OneLine, HexText, HexKey;
    HexTextRoundTrips(k);
    PeerLineIs(net, d, ret, PresharedKey, HexText(k));
    assert AllZero(k) <==> k == seq(32, i => 0);
  }

  /** `host:service`, where only the host may hold colons, or `[host]:service`. */
  lemma EndpointLine(net: Net, d: UDevice, ret: int, h: string, s: string)
    requires d.peers != [] && OneLine(h) && OneLine(s) && s != ""
    ensures var b, e := net.resolve(h, s), Last(d).(endpoint := net.resolve(h, s));
            var r := if b.None? then Stopped(101) else if IsSocket(b.value) then Reading(Now(d, e), ret) else Stopped(-71);
            && (']' !in h ==> Step(net, d, ret, Line("endpoint", "[" + h + "]:" + s)) == r)
            && (h != "" && h[0] != '[' && ':' !in s ==> Step(net, d, ret, Line("endpoint", h + ":" + s)) == r)
  {
    hide Step, Line, Now, HostService, IsSocket;
    PeerLineIs(net, d, ret, Endpoint, "[" + h + "]:" + s);
    PeerLineIs(net, d, ret, Endpoint, h + ":" + s);
    if ']' !in h {
      BracketSplit(h, s);
    }
    if h != "" && h[0] != '[' && ':' !in s {
      PlainSplit(h, s);
    }
  }

  /** An address and a mask; a colon makes it IPv6.  The mask is cut to a byte before
      it is looked at. */
  lemma AllowedIpLine(net: Net, d: UDevice, ret: int, t: string, m: string)
    requires d.peers != [] && OneLine(t) && '/' !in t && m != "" && AllDigits(m)
    ensures var f := if ':' in t then 10 else 2;
            var a, p := net.pton(f, t), Last(d);
            var cidr := (if NumberOf(m) > 0xffff_ffff_ffff_ffff then 0xffff_ffff_ffff_ffff else NumberOf(m)) % 256;
            var ok := a.Some? && cidr <= (if f == 10 then 128 else 32);
            Step(net, d, ret, Line("allowed_ip", t + "/" + m)) ==
            Sets(ok, d, ret, if ok then p.(ips := p.ips + [Ip(f, a.value, cidr)]) else p)
  {
    hide Step, Line, Now, Index, NumberOf;
    var v := t + "/" + m;
    DigitsOnly(m);
    PeerLineIs(net, d, ret, AllowedIp, v);
    IndexOf(t, '/', m);
    assert v[..|t|] == t && v[|t| + 1..] == m;
  }

  // ----- keys of the device -----

  lemma DeviceLineIs(net: Net, d: UDevice, ret: int, n: Name, v: string)
    requires OfPeer(n) && OneLine(v) && d.peers == []
    ensures Step(net, d, ret, Line(KeyText(n), v)) == DeviceKey(net, d, ret, n, v)
  {
    hide KeyText, DeviceKey, Step;
    LineIs(net, d, ret, n, v);
  }

  lemma DeviceNumberLines(net: Net, d: UDevice, ret: int, v: string)
    requires d.peers == [] && OneLine(v)
    ensures var n := if AllDigits(v) then NumberOf(v) else 0;
            && Step(net, d, ret, Line("listen_port", v)) == SetsDevice(Decimal(v, 0xffff), d.(listenPort := Some(n)), ret)
            && Step(net, d, ret, Line("fwmark", v)) == SetsDevice(Decimal(v, 0xffff_ffff), d.(fwmark := Some(n)), ret)
  {
    hide Step, Line, OneLine, NumberOf, AllDigits, Num;
    NumIs(v, 0xffff);
    NumIs(v, 0xffff_ffff);
    DeviceLineIs(net, d, ret, ListenPort, v);
    DeviceLineIs(net, d, ret, Fwmark, v);
  }

  lemma DeviceTextLines(net: Net, d: UDevice, ret: int, v: string)
    requires d.peers == [] && OneLine(v)
    ensures Step(net, d, ret, Line("ws_listen", v)) == Reading(d.(wsListen := Some(v)), ret)
    ensures Step(net, d, ret, Line("ws_server_tls_cert", v)) == Reading(d.(wsCert := Some(v)), ret)
    ensures Step(net, d, ret, Line("ws_server_tls_key", v)) == Reading(d.(wsKey := Some(v)), ret)
    ensures Step(net, d, ret, Line("ws_server_bearer", v)) == Reading(d.(wsBearer := Some(v)), ret)
    ensures Step(net, d, ret, Line("ws_trusted_proxies", v)) == Reading(d.(wsProxies := Some(v)), ret)
  {
    hide Step, Line, OneLine;
    DeviceLineIs(net, d, ret, WsListen, v);
    DeviceLineIs(net, d, ret, WsServerCert, v);
    DeviceLineIs(net, d, ret, WsServerKey, v);
    DeviceLineIs(net, d, ret, WsServerBearer, v);
    DeviceLineIs(net, d, ret, WsProxies, v);
  }

  /** The private key brings the public one. */
  lemma PrivateKeyLine(net: Net, d: UDevice, ret: int, k: Bytes)
    requires d.peers == [] && |k| == 32
    ensures Step(net, d, ret, Line("private_key", HexText(k))) ==
            Reading(d.(privateKey := Some(k), publicKey := Some(net.derive(k))), ret)
  {
    hide Step, Line, OneLine, HexText, HexKey;
    HexTextRoundTrips(k);
    DeviceLineIs(net, d, ret, PrivateKey, HexText(k));
  }

  // ----- keys that may come anywhere -----

  /** A public key begins a peer, of which nothing else is known yet. */
  lemma PublicKeyLine(net: Net, d: UDevice, ret: int, k: Bytes)
    requires |k| == 32
    ensures Step(net, d, ret, Line("public_key", HexText(k))) == Reading(d.(peers := d.peers + [EmptyPeer(k)]), ret)
  {
    hide Step, Line, OneLine, HexText, HexKey, EmptyPeer;
    HexTextRoundTrips(k);
    LineIs(net, d, ret, PublicKey, HexText(k));
  }

  lemma ErrnoLine(net: Net, d: UDevice, ret: int, v: string)
    requires OneLine(v)
    ensures Step(net, d, ret, Line("errno", v)) ==
            SetsDevice(Decimal(v, 0x7fff_ffff), d, if AllDigits(v) then -(NumberOf(v) as int) else 0)
  {
    hide Step, Line, OneLine, NumberOf, AllDigits, Num;
    NumIs(v, 0x7fff_ffff);
    LineIs(net, d, ret, Errno, v);
  }

  /** The keys must be written in 64 hex digits. */
  lemma KeyLinesRefuse(net: Net, d: UDevice, ret: int, v: string)
    requires OneLine(v) && HexKey(v).None?
    ensures Step(net, d, ret, Line("public_key", v)) == Stopped(-71)
    ensures d.peers == [] ==> Step(net, d, ret, Line("private_key", v)) == Stopped(-71)
    ensures d.peers != [] ==> Step(net, d, ret, Line("preshared_key", v)) == Stopped(-71)
  {
    hide Step, Line, OneLine, HexKey;
    LineIs(net, d, ret, PublicKey, v);
    LineIs(net, d, ret, PrivateKey, v);
    LineIs(net, d, ret, PresharedKey, v);
  }

  // ----- lines that are passed over -----

  const DEVICE_KEYS := ["private_key", "listen_port", "fwmark", "ws_listen", "ws_server_tls_cert", "ws_server_tls_key",
                        "ws_server_bearer", "ws_trusted_proxies"]

  const PEER_KEYS := ["preshared_key", "endpoint", "transport", "ws_url", "wstunnel_target", "ws_bearer", "ws_tls_ca",
                      "ws_tls_cert", "ws_tls_key", "ws_mask", "ws_tls_insecure", "ws_ping_interval", "ws_backoff_min",
                      "ws_backoff_max", "persistent_keepalive_interval", "allowed_ip", "last_handshake_time_sec",
                      "last_handshake_time_nsec", "rx_bytes", "tx_bytes"]

  /** Any other key, a key of the device after a peer, and a key of a peer before
      the first one change nothing. */
  lemma OtherLines(net: Net, d: UDevice, ret: int, k: string, v: string)
    requires OneLine(k) && '=' !in k && OneLine(v) && k != "public_key" && k != "errno"
    requires (k in DEVICE_KEYS ==> d.peers != []) && (k in PEER_KEYS ==> d.peers == [])
    ensures Step(net, d, ret, Line(k, v)) == Reading(d, ret)
  {
    hide NameOf, KeyValue, Step;
    StepIs(net, d, ret, Pair(k, v));
    Listed(k);
    PeerListed(k);
    Passed(net, d, ret, NameOf(k), v);
  }

  predicate OfDevice(n: Name) {
    n in {PrivateKey, ListenPort, Fwmark, WsListen, WsServerCert, WsServerKey, WsServerBearer, WsProxies}
  }

  lemma Listed(k: string)
    ensures NameOf(k) == PublicKey ==> k == "public_key"
    ensures NameOf(k) == Errno ==> k == "errno"
    ensures OfDevice(NameOf(k)) ==> k in DEVICE_KEYS
  {
  }

  lemma PeerListed(k: string)
    ensures OfPeer(NameOf(k)) && !OfDevice(NameOf(k)) ==> k in PEER_KEYS
  {
  }

  lemma Passed(net: Net, d: UDevice, ret: int, n: Name, v: string)
    requires n != PublicKey && n != Errno
    requires (OfDevice(n) ==> d.peers != []) && (OfPeer(n) && !OfDevice(n) ==> d.peers == [])
    ensures KeyValue(net, d, ret, n, v) == Reading(d, ret)
  {
    if d.peers != [] {
      assert d.peers[|d.peers| - 1 := d.peers[|d.peers| - 1]] == d.peers;
    }
  }

  /** A line is read up to its first zero byte. */
  lemma ZeroEnds(net: Net, d: UDevice, ret: int, a: string, b: string)
    requires '\0' !in a
    ensures Step(net, d, ret, a + "\0" + b) == Step(net, d, ret, a)
  {
    hide KeyValue, NameOf, Index;
    var raw := a + "\0" + b;
    IndexOf(a, '\0', b);
    IndexNone(a, '\0');
    assert raw[..|a|] == a == a[..|a|];
  }
}

/** What a request of userspace_set_device (src/ipc-uapi.h) makes of the device of a
    daemon that reads it line by line, as the cross-platform protocol of WireGuard
    describes it: the same as the kernel makes of the same device. */
module UapiDaemon {
  import opened Machine
  import opened Text
  import opened Common
  import opened UapiReader
  import opened UapiWriter
  import opened UapiNames
  import opened UapiRoundTrip
  import K = Kernel
  import W = WgDevice
  import SetMeaning

  // ----- the daemon -----

  /** The device, and the peer that the last `public_key` named. */
  datatype Session = Session(k: K.State, current: Option<Bytes>)

  function DeviceOrder(k: K.State, key: string, v: string): K.State {
    if key == "private_key" then
      var b := HexKey(v);
      if b.None? then K.Fail(k) else k.(privateKey := b.value)
    else if key == "listen_port" then
      if Num(v, 0xffff).None? then K.Fail(k) else k.(port := Num(v, 0xffff).value)
    else if key == "fwmark" then
      if Num(v, 0xffff_ffff).None? then K.Fail(k) else k.(fwmark := Num(v, 0xffff_ffff).value)
    else if key == "replace_peers" then
      if v == "true" then k.(peers := map[], owner := map[]) else K.Fail(k)
    else k
  }

  /** `address/mask` for the current peer; a minus takes the route away from it. */
  function AllowedOrder(net: Net, k: K.State, c: Bytes, v: string): K.State {
    var minus := v != "" && v[0] == '-';
    var t := if minus then v[1..] else v;
    var i := Index(t, '/');
    if i == |t| || t[i + 1..] == "" || !AllDigits(t[i + 1..]) then K.Fail(k)
    else
      var f, cidr := if ':' in t[..i] then 10 else 2, NumberOf(t[i + 1..]);
      var a := net.pton(f, t[..i]);
      if a.None? || |a.value| != (if f == 10 then 16 else 4) || cidr > 8 * |a.value| then K.Fail(k)
      else
        var r := SetMeaning.Network(f, a.value, cidr);
        if !minus then k.(owner := k.owner[r := c])
        else if r in k.owner && k.owner[r] == c then k.(owner := map q | q in k.owner && q != r :: k.owner[q])
        else k
  }

  function PeerOrder(net: Net, k: K.State, c: Bytes, key: string, v: string): K.State {
    if key == "remove" then
      if v == "true" then k.(peers := k.peers - {c}, owner := map r | r in k.owner && k.owner[r] != c :: k.owner[r]) else K.Fail(k)
    else if key == "replace_allowed_ips" then
      if v == "true" then k.(owner := map r | r in k.owner && k.owner[r] != c :: k.owner[r]) else K.Fail(k)
    else if key == "allowed_ip" then AllowedOrder(net, k, c, v)
    else if c !in k.peers then k
    else k.(failed := OptionOrder(net, k.peers[c], key, v).None?,
            peers := if OptionOrder(net, k.peers[c], key, v).None? then k.peers
                     else k.peers[c := OptionOrder(net, k.peers[c], key, v).value])
  }

  function OptionOrder(net: Net, o: K.PeerState, key: string, v: string): Option<K.PeerState> {
    if key == "preshared_key" then
      if HexKey(v).None? then None else Some(o.(psk := HexKey(v).value))
    else if key == "endpoint" then
      var hs := HostService(v);
      if hs.None? || net.resolve(hs.value.0, hs.value.1).None? then None
      else Some(o.(endpoint := net.resolve(hs.value.0, hs.value.1)))
    else if key == "persistent_keepalive_interval" then
      if Num(v, 0xffff).None? then None else Some(o.(keepalive := Num(v, 0xffff).value))
    else Some(o)
  }

  /** One line.  The first thing that it refuses ends what the daemon does; the
      settings of the WebSocket transport are no part of this state. */
  function Order(net: Net, s: Session, key: string, v: string): Session {
    if s.k.failed then s
    else if key == "public_key" then
      var b := HexKey(v);
      if b.None? then s.(k := K.Fail(s.k))
      else Session(s.k.(peers := s.k.peers[b.value := SetMeaning.Options(s.k.peers, b.value)]), b)
    else if s.current.None? then s.(k := DeviceOrder(s.k, key, v))
    else s.(k := PeerOrder(net, s.k, s.current.value, key, v))
  }

  function Heed(net: Net, s: Session, raw: string): Session {
    var k := Index(raw, '=');
    if k == |raw| || raw[|raw| - 1] != '\n' then s.(k := K.Fail(s.k)) else Order(net, s, raw[..k], raw[k + 1..|raw| - 1])
  }

  /** Line by line, to the blank one. */
  function Obey(net: Net, s: Session, ls: seq<string>): Session
    decreases |ls|
  {
    if ls == [] || ls[0] == "\n" then s else Obey(net, Heed(net, s, ls[0]), ls[1..])
  }

  /** The state after a request. */
  function Obeyed(net: Net, k: K.State, request: string): K.State {
    Obey(net, Session(k, None), Lines(request)).k
  }

  // ----- pairs -----

  function OrderAll(net: Net, s: Session, ps: seq<Pair>): Session
    decreases |ps|
  {
    if ps == [] then s else OrderAll(net, Order(net, s, ps[0].key, ps[0].value), ps[1..])
  }

  lemma {:induction false} OrderAppend(net: Net, s: Session, a: seq<Pair>, b: seq<Pair>)
    ensures OrderAll(net, s, a + b) == OrderAll(net, OrderAll(net, s, a), b)
    decreases |a|
  {
    hide Order;
    if a == [] {
      assert a + b == b;
    } else {
      assert (a + b)[1..] == a[1..] + b;
      OrderAppend(net, Order(net, s, a[0].key, a[0].value), a[1..], b);
    }
  }

  lemma OrderOne(net: Net, s: Session, k: string, v: string)
    ensures OrderAll(net, s, [Pair(k, v)]) == Order(net, s, k, v)
  {
    hide Order;
    assert [Pair(k, v)][1..] == [];
  }

  lemma {:induction false} AfterRefusal(net: Net, s: Session, ps: seq<Pair>)
    requires s.k.failed
    ensures OrderAll(net, s, ps) == s
    decreases |ps|
  {
    if ps != [] {
      AfterRefusal(net, s, ps[1..]);
    }
  }

  lemma HeedIs(net: Net, s: Session, p: Pair)
    requires Sound(p)
    ensures TextOf(p) + "\n" != "\n" && Heed(net, s, TextOf(p) + "\n") == Order(net, s, p.key, p.value)
  {
    hide Order, Index;
    var line := TextOf(p) + "\n";
    assert line == p.key + ['='] + (p.value + "\n");
    IndexOf(p.key, '=', p.value + "\n");
    assert line[|p.key|] == '=' && line[|line| - 1] == '\n';
    assert line[..|p.key|] == p.key && line[|p.key| + 1..|line| - 1] == p.value;
  }

  lemma {:induction false} ObeyIs(net: Net, s: Session, ps: seq<Pair>)
    requires AllSound(ps)
    ensures Obey(net, s, LinesOf(ps) + ["\n"]) == OrderAll(net, s, ps)
    decreases |ps|
  {
    hide Order, Heed, TextOf, Sound;
    if ps != [] {
      HeedIs(net, s, ps[0]);
      assert (LinesOf(ps) + ["\n"])[1..] == LinesOf(ps[1..]) + ["\n"];
      ObeyIs(net, Order(net, s, ps[0].key, ps[0].value), ps[1..]);
    }
  }

  // ----- the device that a request is about -----

  /** The address union is wide enough for its family. */
  predicate IpFits(i: SetIp) {
    (i.ip.family == 2 ==> |i.ip.addr| == 4) && (i.ip.family == 10 ==> |i.ip.addr| == 16) && i.ip.cidr < 256
  }

  ghost predicate PeerSends(net: Net, p: SetPeer) {
    && PeerFits(p) && (p.peer.endpoint.Some? ==> SocketOk(net, p.peer.endpoint.value))
    && forall i :: 0 <= i < |p.ips| ==> IpFits(p.ips[i])
  }

  /** Besides being read back, a printed address does not begin with a minus. */
  ghost predicate NetPrints(net: Net) {
    NetOk(net) && forall f, a :: (f == 2 && |a| == 4) || (f == 10 && |a| == 16) ==> Unsigned(net.ntop(f, a))
  }

  predicate Unsigned(t: Option<string>) {
    t.Some? ==> t.value != "" && t.value[0] != '-'
  }

  function Padded(b: Bytes, n: nat): (r: Bytes)
    requires |b| <= n
    ensures |r| == n && r[..|b|] == b
  {
    b + seq(n - |b|, i => 0)
  }

  predicate Sent(i: SetIp) {
    i.ip.family == 2 || i.ip.family == 10
  }

  function AsIp(i: SetIp): W.AllowedIp
    requires IpFits(i) && Sent(i)
  {
    W.AllowedIp(i.ip.family, Padded(i.ip.addr, 16), i.ip.cidr as u8, if i.remove then 1 else 0)
  }

  /** An entry of another family is not sent. */
  function AsIps(ips: seq<SetIp>): seq<W.AllowedIp>
    requires forall i :: 0 <= i < |ips| ==> IpFits(ips[i])
  {
    if ips == [] then []
    else
      var last := ips[|ips| - 1];
      AsIps(ips[..|ips| - 1]) + if Sent(last) then [AsIp(last)] else []
  }

  function AsPeer(p: SetPeer): W.Peer
    requires PeerFits(p) && forall i :: 0 <= i < |p.ips| ==> IpFits(p.ips[i])
  {
    var u := p.peer;
    W.Peer(u.publicKey, p.remove, p.replaceIps, u.psk.Some?, if u.psk.Some? then u.psk.value else W.ZeroKey(),
           Padded(if u.endpoint.Some? then u.endpoint.value else [], 28),
           u.keepalive.Some?, if u.keepalive.Some? then u.keepalive.value else 0, AsIps(p.ips))
  }

  // ----- allowed IPs -----

  lemma AllowedSplit(minus: bool, t: string, m: nat)
    requires '/' !in t && t != "" && t[0] != '-'
    ensures var v, u := (if minus then "-" else "") + t + "/" + Dec(m), t + "/" + Dec(m);
            && v != "" && (v[0] == '-' <==> minus) && (if minus then v[1..] else v) == u
            && Index(u, '/') == |t| < |u| && u[..|t|] == t && u[|t| + 1..] == Dec(m)
  {
    hide Index, Dec;
    IndexOf(t, '/', Dec(m));
    var v, u := (if minus then "-" else "") + t + "/" + Dec(m), t + "/" + Dec(m);
    assert v[0] == if minus then '-' else t[0];
    assert if minus then v[1..] == u else v == u;
  }

  lemma AllowedText(net: Net, k: K.State, c: Bytes, minus: bool, f: nat, a: Bytes, t: string, m: nat)
    requires (f == 2 && |a| == 4) || (f == 10 && |a| == 16)
    requires net.pton(f, t) == Some(a) && '/' !in t && (':' in t <==> f == 10) && t != "" && t[0] != '-'
    ensures AllowedOrder(net, k, c, (if minus then "-" else "") + t + "/" + Dec(m)) ==
            if m > 8 * |a| then K.Fail(k)
            else
              var r := SetMeaning.Network(f, a, m);
              if !minus then k.(owner := k.owner[r := c])
              else if r in k.owner && k.owner[r] == c then k.(owner := map q | q in k.owner && q != r :: k.owner[q])
              else k
  {
    hide Index, Dec, NumberOf, SetMeaning.Network;
    DecRoundTrip(m);
    AllowedSplit(minus, t, m);
  }

  lemma WireRoute(i: SetIp)
    requires IpFits(i) && Sent(i)
    ensures var w := W.IpWire(AsIp(i));
            && w.flags == (if i.remove then 1 else 0)
            && K.RouteOf(w) == if i.ip.cidr > 8 * |i.ip.addr| then None
                               else Some(SetMeaning.Network(i.ip.family, i.ip.addr, i.ip.cidr))
  {
    hide K.BigEndian;
    var x := AsIp(i).addr;
    assert i.ip.family == 2 ==> x[..4] == i.ip.addr;
    assert i.ip.family == 10 ==> x == i.ip.addr;
  }

  /** An entry of the list is an allowed IP of the message. */
  lemma IpOrders(net: Net, s: Session, c: Bytes, i: SetIp)
    requires NetPrints(net) && IpFits(i) && Sent(i) && s.current == Some(c)
    ensures AllSound(IpPair(net, i))
    ensures OrderAll(net, s, IpPair(net, i)) == s.(k := K.ApplyIp(s.k, c, W.IpWire(AsIp(i))))
  {
    hide AllowedOrder, K.RouteOf, W.IpWire, Dec, AsIp, SetMeaning.Network;
    var f, a := i.ip.family, i.ip.addr;
    assert AddressOk(net, f, a) && Unsigned(net.ntop(f, a));
    var t := net.ntop(f, a).value;
    var v := (if i.remove then "-" else "") + t + "/" + Dec(i.ip.cidr);
    assert IpPair(net, i) == [Pair("allowed_ip", v)];
    assert Sound(Pair("allowed_ip", v)) by { AllowedSound(t, i.ip.cidr, i.remove); }
    OrderOne(net, s, "allowed_ip", v);
    AllowedText(net, s.k, c, i.remove, f, a, t, i.ip.cidr);
    WireRoute(i);
    assert forall r, o: map<K.Route, Bytes> :: (map q | q in o && q != r :: o[q]) == o - {r};
  }

  lemma AllowedSound(t: string, m: nat, minus: bool)
    requires OneLine(t)
    ensures Sound(Pair("allowed_ip", (if minus then "-" else "") + t + "/" + Dec(m)))
  {
    hide Dec;
    DecRoundTrip(m);
    DigitsOnly(Dec(m));
    Words2();
  }

  lemma {:induction false} IpsOrder(net: Net, s: Session, c: Bytes, ips: seq<SetIp>)
    requires NetPrints(net) && s.current == Some(c) && forall i :: 0 <= i < |ips| ==> IpFits(ips[i])
    ensures AllSound(IpPairs(net, ips))
    ensures OrderAll(net, s, IpPairs(net, ips)) == s.(k := K.ApplyIps(s.k, c, W.IpWires(AsIps(ips))))
    decreases |ips|
  {
    hide NetPrints, IpPair, K.ApplyIp, W.IpWire, Order, Sound, IpFits, AsIp;
    if ips != [] {
      var n := |ips| - 1;
      var i := ips[n];
      IpsOrder(net, s, c, ips[..n]);
      OrderAppend(net, s, IpPairs(net, ips[..n]), IpPair(net, i));
      var ws := W.IpWires(AsIps(ips));
      if Sent(i) {
        IpOrders(net, s.(k := K.ApplyIps(s.k, c, W.IpWires(AsIps(ips[..n])))), c, i);
        assert ws[..|ws| - 1] == W.IpWires(AsIps(ips[..n])) && ws[|ws| - 1] == W.IpWire(AsIp(i));
      } else {
        assert IpPair(net, i) == [] by { NotSent(net, i); }
        assert AsIps(ips) == AsIps(ips[..n]);
      }
    }
  }

  lemma NotSent(net: Net, i: SetIp)
    requires !Sent(i)
    ensures IpPair(net, i) == []
  {
  }

  // ----- what is not about this state -----

  const KEYS := ["public_key", "private_key", "listen_port", "fwmark", "replace_peers", "remove", "replace_allowed_ips",
                 "allowed_ip", "preshared_key", "endpoint", "persistent_keepalive_interval"]

  predicate Foreign(ps: seq<Pair>) {
    forall i :: 0 <= i < |ps| ==> ps[i].key !in KEYS
  }

  lemma {:induction false} ForeignOrder(net: Net, s: Session, ps: seq<Pair>)
    requires Foreign(ps)
    ensures OrderAll(net, s, ps) == s
    decreases |ps|
  {
    if ps != [] {
      ForeignOne(net, s, ps[0].key, ps[0].value);
      hide Order;
      ForeignOrder(net, s, ps[1..]);
    }
  }

  lemma ForeignOne(net: Net, s: Session, key: string, v: string)
    requires key !in KEYS
    ensures Order(net, s, key, v) == s
  {
    hide HexKey, Num, AllowedOrder, HostService;
    assert KEYS[0] == "public_key" && KEYS[1] == "private_key" && KEYS[2] == "listen_port" && KEYS[3] == "fwmark";
    assert KEYS[4] == "replace_peers" && KEYS[5] == "remove" && KEYS[6] == "replace_allowed_ips" && KEYS[7] == "allowed_ip";
    assert KEYS[8] == "preshared_key" && KEYS[9] == "endpoint" && KEYS[10] == "persistent_keepalive_interval";
    if s.current.Some? && s.current.value in s.k.peers {
      var c := s.current.value;
      assert s.k.peers[c := s.k.peers[c]] == s.k.peers;
    }
  }

  lemma ForeignKeys(n: Name)
    requires n in {TransportName, WsUrl, WstunnelTarget, WsBearer, WsMask, WsTlsCa, WsTlsCert, WsTlsKey, WsTlsInsecure,
                   WsPing, WsBackoffMin, WsBackoffMax, WsListen, WsServerCert, WsServerKey, WsServerBearer, WsProxies}
    ensures KeyText(n) !in KEYS
  {
  }

  lemma WsNamesForeign(u: UPeer)
    ensures Foreign(WsNames(u))
  {
    hide KeyText, KEYS;
    ForeignKeys(WsUrl);
    ForeignKeys(WstunnelTarget);
    ForeignKeys(WsBearer);
    ForeignKeys(WsMask);
  }

  lemma WsTlsForeign(u: UPeer)
    ensures Foreign(WsTls(u))
  {
    hide KeyText, KEYS;
    ForeignKeys(WsTlsCa);
    ForeignKeys(WsTlsCert);
    ForeignKeys(WsTlsKey);
    ForeignKeys(WsTlsInsecure);
  }

  lemma WsTimesForeign(u: UPeer)
    ensures Foreign(WsTimes(u))
  {
    hide KeyText, KEYS, Dec;
    ForeignKeys(WsPing);
    ForeignKeys(WsBackoffMin);
    ForeignKeys(WsBackoffMax);
  }

  lemma WsForeign(u: UPeer)
    ensures Foreign(WsPairs(u))
  {
    hide WsNames, WsTls, WsTimes, WsPairs, KEYS;
    WsPairsAre(u);
    WsNamesForeign(u);
    WsTlsForeign(u);
    WsTimesForeign(u);
  }

  lemma WsHeadForeign(d: UDevice)
    ensures Foreign(WsHead(d))
  {
    hide KeyText, KEYS;
    ForeignKeys(WsListen);
    ForeignKeys(WsServerCert);
    ForeignKeys(WsServerKey);
    ForeignKeys(WsServerBearer);
    ForeignKeys(WsProxies);
  }

  // ----- a peer -----

  /** The state in which the peer exists and has these options. */
  function With(k: K.State, c: Bytes, o: K.PeerState): K.State {
    k.(peers := k.peers[c := o])
  }

  lemma OptionOrders(net: Net, k: K.State, c: Bytes, o: K.PeerState, key: string, v: string)
    requires !k.failed && key in ["preshared_key", "endpoint", "persistent_keepalive_interval"]
    requires OptionOrder(net, o, key, v).Some?
    ensures OrderAll(net, Session(With(k, c, o), Some(c)), [Pair(key, v)]) ==
            Session(With(k, c, OptionOrder(net, o, key, v).value), Some(c))
  {
    hide OptionOrder, AllowedOrder, HexKey;
    OrderOne(net, Session(With(k, c, o), Some(c)), key, v);
    assert key != "public_key" && key != "remove" && key != "replace_allowed_ips" && key != "allowed_ip";
    assert k.peers[c := o][c := OptionOrder(net, o, key, v).value] == k.peers[c := OptionOrder(net, o, key, v).value];
  }

  lemma PskOrders(net: Net, k: K.State, c: Bytes, o: K.PeerState, psk: Option<Bytes>)
    requires !k.failed && (psk.Some? ==> |psk.value| == KEY_LEN)
    ensures OrderAll(net, Session(With(k, c, o), Some(c)), IfKey(KeyText(PresharedKey), psk)) ==
            Session(With(k, c, if psk.Some? then o.(psk := psk.value) else o), Some(c))
  {
    hide Order, HexText, HexKey, With;
    if psk.Some? {
      HexTextRoundTrips(psk.value);
      OptionOrders(net, k, c, o, "preshared_key", HexText(psk.value));
    }
  }

  lemma EndpointOrders(net: Net, k: K.State, c: Bytes, o: K.PeerState, e: Option<Bytes>)
    requires !k.failed && (e.Some? ==> IsSocket(e.value) && SocketOk(net, e.value))
    ensures OrderAll(net, Session(With(k, c, o), Some(c)), EndpointPair(net, e)) ==
            Session(With(k, c, if e.Some? then o.(endpoint := e) else o), Some(c))
  {
    hide Order, With, HostService, EndpointText;
    if e.Some? {
      EndpointSplits(net, e.value);
      OptionOrders(net, k, c, o, "endpoint", EndpointText(net, e.value).value);
    }
  }

  lemma EndpointSplits(net: Net, e: Bytes)
    requires IsSocket(e) && SocketOk(net, e)
    ensures EndpointText(net, e).Some? && HostService(EndpointText(net, e).value) == net.nameInfo(e)
  {
    hide HostService;
    var hs := net.nameInfo(e).value;
    BracketSplit(hs.0, hs.1);
    PlainSplit(hs.0, hs.1);
  }

  lemma KeepaliveOrders(net: Net, k: K.State, c: Bytes, o: K.PeerState, n: Option<nat>)
    requires !k.failed && (n.Some? ==> n.value <= 0xffff)
    ensures OrderAll(net, Session(With(k, c, o), Some(c)), IfNum(KeyText(Keepalive), n)) ==
            Session(With(k, c, if n.Some? then o.(keepalive := n.value) else o), Some(c))
  {
    hide Order, With, Dec, Num;
    if n.Some? {
      NumRoundTrips(n.value, 0xffff);
      OptionOrders(net, k, c, o, "persistent_keepalive_interval", Dec(n.value));
    }
  }

  lemma ReplaceOrders(net: Net, s: Session, c: Bytes, b: bool)
    requires !s.k.failed && s.current == Some(c)
    ensures OrderAll(net, s, If(b, "replace_allowed_ips", "true")) ==
            if b then s.(k := s.k.(owner := K.Without(s.k.owner, c))) else s
  {
    if b {
      OrderOne(net, s, "replace_allowed_ips", "true");
    }
  }

  /** The options of a peer, then whether its allowed IPs are replaced. */
  lemma PeerOptions(net: Net, k: K.State, p: SetPeer)
    requires !k.failed && PeerSends(net, p)
    ensures var c := p.peer.publicKey;
            OrderAll(net, Session(With(k, c, SetMeaning.Options(k.peers, c)), Some(c)), OptionPairs(net, p)) ==
            Session(K.OpenPeer(k, W.Piece(AsPeer(p).(removeMe := false), true, Some(AsIps(p.ips)))), Some(c))
  {
    hide Order, OrderAll, IfKey, EndpointPair, IfNum, If, WsPairs, With, SocketOk, IpFits, KeyText, AsIps, W.IpWires, Foreign, W.EndpointWire, KEYS;
    var u, c := p.peer, p.peer.publicKey;
    var o := SetMeaning.Options(k.peers, c);
    var o1 := if u.psk.Some? then o.(psk := u.psk.value) else o;
    var o2 := if u.endpoint.Some? then o1.(endpoint := u.endpoint) else o1;
    var o3 := if u.keepalive.Some? then o2.(keepalive := u.keepalive.value) else o2;
    PskOrders(net, k, c, o, u.psk);
    EndpointOrders(net, k, c, o1, u.endpoint);
    KeepaliveOrders(net, k, c, o2, u.keepalive);
    var a, b := IfKey(KeyText(PresharedKey), u.psk), If(u.hasTransport, KeyText(TransportName), TransportText(u.transport));
    var d, e := EndpointPair(net, u.endpoint), if WritesWs(p) then WsPairs(u) else [];
    var f, g := IfNum(KeyText(Keepalive), u.keepalive), If(p.replaceIps, "replace_allowed_ips", "true");
    var s := Session(With(k, c, o), Some(c));
    OrderAppend(net, s, a, b);
    OrderAppend(net, s, a + b, d);
    OrderAppend(net, s, a + b + d, e);
    OrderAppend(net, s, a + b + d + e, f);
    OrderAppend(net, s, a + b + d + e + f, g);
    assert Foreign(b) && Foreign(e) by { TransportForeign(u.hasTransport, TransportText(u.transport)); WsForeign(u); NoneForeign(); }
    ForeignOrder(net, Session(With(k, c, o1), Some(c)), b);
    ForeignOrder(net, Session(With(k, c, o2), Some(c)), e);
    assert !With(k, c, o3).failed by { WithIs(k, c, o3); }
    ReplaceOrders(net, Session(With(k, c, o3), Some(c)), c, p.replaceIps);
    OpenIs(k, p, o3);
  }

  lemma NoneForeign()
    ensures Foreign([])
  {
  }

  lemma TransportForeign(b: bool, v: string)
    ensures Foreign(If(b, KeyText(TransportName), v))
  {
    ForeignKeys(TransportName);
  }

  lemma WithIs(k: K.State, c: Bytes, o: K.PeerState)
    ensures With(k, c, o).failed == k.failed
  {
  }

  lemma OpenIs(k: K.State, p: SetPeer, o: K.PeerState)
    requires PeerFits(p) && forall i :: 0 <= i < |p.ips| ==> IpFits(p.ips[i])
    requires var u, was := p.peer, SetMeaning.Options(k.peers, p.peer.publicKey);
             o == K.PeerState(if u.psk.Some? then u.psk.value else was.psk, if u.endpoint.Some? then u.endpoint else was.endpoint,
                              if u.keepalive.Some? then u.keepalive.value else was.keepalive)
    ensures var c, s := p.peer.publicKey, With(k, p.peer.publicKey, o);
            K.OpenPeer(k, W.Piece(AsPeer(p).(removeMe := false), true, Some(AsIps(p.ips)))) ==
            if p.replaceIps then s.(owner := K.Without(s.owner, c)) else s
  {
    hide AsIps, W.IpWires, IpFits, W.EndpointWire, IsSocket, OneLineOpt;
    EndpointWired(p);
  }

  lemma EndpointWired(p: SetPeer)
    requires PeerFits(p) && forall i :: 0 <= i < |p.ips| ==> IpFits(p.ips[i])
    ensures W.EndpointWire(AsPeer(p).endpoint) == p.peer.endpoint
  {
    hide AsIps, IpFits, OneLineOpt;
    var e := AsPeer(p).endpoint;
    if p.peer.endpoint.Some? {
      var b := p.peer.endpoint.value;
      assert e[..|b|] == b && Tlv.Get16(e, 0) == Tlv.Get16(b, 0);
      assert |b| == 28 ==> e == b;
    } else {
      assert Tlv.Get16(e, 0) == 0;
    }
  }

  lemma NoOrders(net: Net, s: Session)
    ensures OrderAll(net, s, []) == s
  {
  }

  lemma RemoveOrders(net: Net, k: K.State, c: Bytes)
    requires !k.failed
    ensures OrderAll(net, Session(With(k, c, SetMeaning.Options(k.peers, c)), Some(c)), [Pair("remove", "true")]) ==
            Session(K.DropPeer(k, c), Some(c))
  {
    var s := Session(With(k, c, SetMeaning.Options(k.peers, c)), Some(c));
    OrderOne(net, s, "remove", "true");
    assert s.k.peers - {c} == k.peers - {c};
  }

  lemma KeyOrders(net: Net, s: Session, c: Bytes)
    requires !s.k.failed && |c| == KEY_LEN
    ensures OrderAll(net, s, [Pair(KeyText(PublicKey), HexText(c))]) == Session(With(s.k, c, SetMeaning.Options(s.k.peers, c)), Some(c))
  {
    hide HexText, HexKey, SetMeaning.Options;
    HexTextRoundTrips(c);
    OrderOne(net, s, "public_key", HexText(c));
  }

  lemma PeerOrdered(net: Net, s: Session, p: SetPeer)
    requires NetPrints(net) && PeerSends(net, p)
    ensures OrderAll(net, s, PeerPairs(net, p)).k == K.ApplyPeer(s.k, W.Piece(AsPeer(p), true, Some(AsPeer(p).allowedIps)))
  {
    hide NetPrints, SocketOk, IpFits, OptionPairs, IpPairs, HexText, KeyText, OrderAll, With, AsIps, W.IpWires, K.ApplyIps, K.OpenPeer, K.DropPeer,
      W.EndpointWire;
    var c := p.peer.publicKey;
    var key := [Pair(KeyText(PublicKey), HexText(c))];
    if s.k.failed {
      AfterRefusal(net, s, PeerPairs(net, p));
    } else {
      var k := s.k;
      var named := Session(With(k, c, SetMeaning.Options(k.peers, c)), Some(c));
      KeyOrders(net, s, c);
      if p.remove {
        OrderAppend(net, s, key, [Pair("remove", "true")]);
        RemoveOrders(net, k, c);
      } else {
        OrderAppend(net, s, key, OptionPairs(net, p) + IpPairs(net, p.ips));
        OrderAppend(net, named, OptionPairs(net, p), IpPairs(net, p.ips));
        PeerOptions(net, k, p);
        assert AsPeer(p).(removeMe := false) == AsPeer(p);
        var w := W.Piece(AsPeer(p), true, Some(AsIps(p.ips)));
        IpsOrder(net, Session(K.OpenPeer(k, w), Some(c)), c, p.ips);
      }
    }
  }

  lemma PeerIsSound(net: Net, p: SetPeer)
    requires NetPrints(net) && PeerSends(net, p)
    ensures AllSound(PeerPairs(net, p))
  {
    hide NetPrints, SocketOk, IpFits, OptionPairs, IpPairs, HexText, KeyText, Sound, Fold, NameOf, PeerView;
    var c := p.peer.publicKey;
    var key := [Pair(KeyText(PublicKey), HexText(c))];
    SoundPublicKey(c);
    if p.remove {
      assert Sound(Pair("remove", "true")) by { RemoveSound(); }
    } else {
      OptionsFold(net, p);
      IpsOrder(net, Session(K.State(false, [], 0, 0, map[], map[]), Some(c)), c, p.ips);
      assert AllSound(OptionPairs(net, p));
      SoundJoin(OptionPairs(net, p), IpPairs(net, p.ips));
      SoundJoin(key, OptionPairs(net, p) + IpPairs(net, p.ips));
    }
  }

  lemma RemoveSound()
    ensures Sound(Pair("remove", "true"))
  {
  }

  // ----- the device -----

  ghost predicate DeviceSends(net: Net, s: SetDevice) {
    DeviceFits(s) && forall i :: 0 <= i < |s.peers| ==> PeerSends(net, s.peers[i])
  }

  predicate PeersFit(ps: seq<SetPeer>) {
    forall i :: 0 <= i < |ps| ==> PeerFits(ps[i]) && forall j :: 0 <= j < |ps[i].ips| ==> IpFits(ps[i].ips[j])
  }

  function AsPeers(ps: seq<SetPeer>): (r: seq<W.Peer>)
    requires PeersFit(ps)
    ensures |r| == |ps|
  {
    seq(|ps|, i requires 0 <= i < |ps| => AsPeer(ps[i]))
  }

  /** The device of the request; its name is not in the text. */
  function AsDevice(s: SetDevice): W.Device
    requires DeviceFits(s) && PeersFit(s.peers)
  {
    var d := s.dev;
    W.Device([], s.replacePeers, d.privateKey.Some?, if d.privateKey.Some? then d.privateKey.value else W.ZeroKey(),
             d.listenPort.Some?, if d.listenPort.Some? then d.listenPort.value else 0,
             d.fwmark.Some?, if d.fwmark.Some? then d.fwmark.value else 0, AsPeers(s.peers))
  }

  lemma {:induction false} PeersOrdered(net: Net, s: Session, ps: seq<SetPeer>)
    requires NetPrints(net) && PeersFit(ps) && forall i :: 0 <= i < |ps| ==> PeerSends(net, ps[i])
    ensures AllSound(AllPeerPairs(net, ps))
    ensures OrderAll(net, s, AllPeerPairs(net, ps)).k == K.ApplyPeers(s.k, W.Wholes(AsPeers(ps)))
    decreases |ps|
  {
    hide NetPrints, PeerSends, PeerPairs, Order, Sound, PeerFits, IpFits, K.ApplyPeer, W.Piece, AsPeer;
    if ps != [] {
      var n := |ps| - 1;
      PeersOrdered(net, s, ps[..n]);
      PeerOrdered(net, OrderAll(net, s, AllPeerPairs(net, ps[..n])), ps[n]);
      PeerIsSound(net, ps[n]);
      OrderAppend(net, s, AllPeerPairs(net, ps[..n]), PeerPairs(net, ps[n]));
      var ws := W.Wholes(AsPeers(ps));
      assert ws[..n] == W.Wholes(AsPeers(ps[..n]));
      assert ws[n] == W.Piece(AsPeer(ps[n]), true, Some(AsPeer(ps[n]).allowedIps));
    }
  }

  lemma PlainHeadOrders(net: Net, k: K.State, d: UDevice)
    requires !k.failed && (d.privateKey.Some? ==> |d.privateKey.value| == KEY_LEN)
    requires (d.listenPort.Some? ==> d.listenPort.value <= 0xffff) && (d.fwmark.Some? ==> d.fwmark.value <= 0xffff_ffff)
    ensures OrderAll(net, Session(k, None), PlainHead(d)) ==
            Session(k.(privateKey := if d.privateKey.Some? then d.privateKey.value else k.privateKey,
                       port := if d.listenPort.Some? then d.listenPort.value else k.port,
                       fwmark := if d.fwmark.Some? then d.fwmark.value else k.fwmark), None)
  {
    hide HexText, HexKey, Num, Dec, OrderAll;
    var s := Session(k, None);
    var a, b, c := IfKey(KeyText(PrivateKey), d.privateKey), IfNum(KeyText(ListenPort), d.listenPort), IfNum(KeyText(Fwmark), d.fwmark);
    OrderAppend(net, s, a, b);
    OrderAppend(net, s, a + b, c);
    var k1 := if d.privateKey.Some? then k.(privateKey := d.privateKey.value) else k;
    var k2 := if d.listenPort.Some? then k1.(port := d.listenPort.value) else k1;
    assert OrderAll(net, s, a) == Session(k1, None) by {
      NoOrders(net, s);
      if d.privateKey.Some? {
        HexTextRoundTrips(d.privateKey.value);
        OrderOne(net, s, "private_key", HexText(d.privateKey.value));
      }
    }
    assert OrderAll(net, Session(k1, None), b) == Session(k2, None) by {
      NoOrders(net, Session(k1, None));
      if d.listenPort.Some? {
        NumRoundTrips(d.listenPort.value, 0xffff);
        OrderOne(net, Session(k1, None), "listen_port", Dec(d.listenPort.value));
      }
    }
    NoOrders(net, Session(k2, None));
    if d.fwmark.Some? {
      NumRoundTrips(d.fwmark.value, 0xffff_ffff);
      OrderOne(net, Session(k2, None), "fwmark", Dec(d.fwmark.value));
    }
  }

  /** The head in three parts. */
  function PlainHead(d: UDevice): seq<Pair>
    requires d.privateKey.Some? ==> |d.privateKey.value| == KEY_LEN
  {
    IfKey(KeyText(PrivateKey), d.privateKey) + IfNum(KeyText(ListenPort), d.listenPort) + IfNum(KeyText(Fwmark), d.fwmark)
  }

  function WsHead(d: UDevice): seq<Pair> {
    IfText(KeyText(WsListen), d.wsListen) + IfText(KeyText(WsServerCert), d.wsCert) + IfText(KeyText(WsServerKey), d.wsKey)
    + IfText(KeyText(WsServerBearer), d.wsBearer) + IfText(KeyText(WsProxies), d.wsProxies)
  }

  lemma HeadParts(s: SetDevice)
    requires DeviceFits(s)
    ensures HeadPairs(s) == [Pair("set", "1")] + PlainHead(s.dev) + WsHead(s.dev) + If(s.replacePeers, "replace_peers", "true")
  {
    hide IfKey, IfNum, IfText, If, KeyText;
  }

  lemma HeadOrders(net: Net, k: K.State, s: SetDevice)
    requires DeviceFits(s) && PeersFit(s.peers)
    ensures OrderAll(net, Session(k, None), HeadPairs(s)) == Session(K.ApplyHead(k, W.Whole(AsDevice(s))), None)
  {
    hide Order, OrderAll, PlainHead, WsHead, HeadPairs, If, Foreign, PeerFits, IpFits, W.Wholes;
    var d, t := s.dev, Session(k, None);
    if k.failed {
      AfterRefusal(net, t, HeadPairs(s));
    } else {
      var first, last := [Pair("set", "1")], If(s.replacePeers, "replace_peers", "true");
      HeadParts(s);
      OrderAppend(net, t, first, PlainHead(d));
      OrderAppend(net, t, first + PlainHead(d), WsHead(d));
      OrderAppend(net, t, first + PlainHead(d) + WsHead(d), last);
      assert Foreign(first) by { SetForeign(); }
      ForeignOrder(net, t, first);
      PlainHeadOrders(net, k, d);
      WsHeadForeign(d);
      ForeignOrder(net, OrderAll(net, t, PlainHead(d)), WsHead(d));
      ReplacePeers(net, OrderAll(net, t, PlainHead(d)), s.replacePeers);
    }
  }

  lemma SetForeign()
    ensures Foreign([Pair("set", "1")])
  {
  }

  lemma ReplacePeers(net: Net, t: Session, b: bool)
    requires !t.k.failed && t.current.None?
    ensures OrderAll(net, t, If(b, "replace_peers", "true")) == if b then t.(k := t.k.(peers := map[], owner := map[])) else t
  {
    if b {
      OrderOne(net, t, "replace_peers", "true");
    }
  }

  /** The text of a request means what the device means: the daemon that reads it and
      the kernel that reads the messages for the same device end in the same state. */
  lemma RequestMeans(net: Net, k: K.State, s: SetDevice)
    requires NetPrints(net) && DeviceSends(net, s)
    ensures var request := Unlines(TextsOf(SetPairs(net, s))) + "\n";
            && Obeyed(net, k, request) == K.ApplyDevice(k, W.Whole(AsDevice(s)))
            && SetMeaning.IsSet(k, AsDevice(s), Obeyed(net, k, request))
  {
    hide NetPrints, PeerSends, HeadPairs, AllPeerPairs, Unlines, TextsOf, Lines, Order, OrderAll, Obey, Sound, K.ApplyHead, K.ApplyPeers,
      SetMeaning.IsSet, W.Wholes;
    var ps := SetPairs(net, s);
    var request := Unlines(TextsOf(ps)) + "\n";
    var start := Session(k, None);
    assert PeersFit(s.peers) by { SendsFit(net, s); }
    HeadSound(s);
    HeadOrders(net, k, s);
    PeersOrdered(net, OrderAll(net, start, HeadPairs(s)), s.peers);
    SoundJoin(HeadPairs(s), AllPeerPairs(net, s.peers));
    TextLines(ps);
    ObeyIs(net, start, ps);
    OrderAppend(net, start, HeadPairs(s), AllPeerPairs(net, s.peers));
    SetMeaning.WholeMeans(k, AsDevice(s));
  }

  /** The request asks the daemon for this device, whatever its state. */
  ghost predicate Asks(net: Net, request: string, dev: W.Device) {
    forall k :: Obeyed(net, k, request) == K.ApplyDevice(k, W.Whole(dev)) && SetMeaning.IsSet(k, dev, Obeyed(net, k, request))
  }

  lemma RequestAsks(net: Net, s: SetDevice)
    requires NetPrints(net) && DeviceSends(net, s)
    ensures PeersFit(s.peers) && Asks(net, Unlines(TextsOf(SetPairs(net, s))) + "\n", AsDevice(s))
  {
    hide NetPrints, PeerSends, Obeyed, K.ApplyDevice, W.Whole, SetMeaning.IsSet, AsDevice, PeersFit, DeviceFits, Unlines, TextsOf, SetPairs;
    SendsFit(net, s);
    forall k
      ensures var request := Unlines(TextsOf(SetPairs(net, s))) + "\n";
              Obeyed(net, k, request) == K.ApplyDevice(k, W.Whole(AsDevice(s))) && SetMeaning.IsSet(k, AsDevice(s), Obeyed(net, k, request))
    {
      RequestMeans(net, k, s);
    }
  }

  lemma SendsFit(net: Net, s: SetDevice)
    requires DeviceSends(net, s)
    ensures PeersFit(s.peers)
  {
    hide PeerFits, IpFits;
    assert forall i :: 0 <= i < |s.peers| ==> PeerSends(net, s.peers[i]);
  }

  // ----- WebSocket settings -----

  lemma OneUrl(net: Net, p: SetPeer)
    requires PeerFits(p)
    ensures forall q :: q in OptionPairs(net, p) && q.key == "ws_url" ==> WritesWs(p) && q in WsPairs(p.peer)
  {
    hide Dec, HexText, EndpointText;
  }

  /** They are written for a peer with such a transport, and for one that has some and
      leaves its transport alone; the URL stands for all of them. */
  lemma WsWritten(net: Net, p: SetPeer)
    requires PeerFits(p) && !p.remove && p.peer.wsUrl.Some?
    ensures Pair("ws_url", p.peer.wsUrl.value) in PeerPairs(net, p) <==>
            p.peer.transport != Udp || (p.hasWsSettings && !p.peer.hasTransport)
    ensures p.peer.transport != Udp || (p.hasWsSettings && !p.peer.hasTransport) ==>
              forall q :: q in WsPairs(p.peer) ==> q in PeerPairs(net, p)
  {
    hide Dec, HexText, EndpointText;
    var q := Pair("ws_url", p.peer.wsUrl.value);
    OneUrl(net, p);
    NoUrl(net, p.ips, p.peer.wsUrl.value);
    assert q in IfText(KeyText(WsUrl), p.peer.wsUrl);
    assert q in WsPairs(p.peer);
  }

  lemma {:induction false} NoUrl(net: Net, ips: seq<SetIp>, v: string)
    ensures Pair("ws_url", v) !in IpPairs(net, ips)
  {
    if ips != [] {
      NoUrl(net, ips[..|ips| - 1], v);
    }
  }

  // ----- the writer -----

  /** The request of userspace_set_device; a blank line ends it.  To the daemon it is
      the device, as the kernel has it from its messages; and read as a reply, it is
      the device without its instructions. */
  method WriteDevice(net: Net, s: SetDevice) returns (request: string)
    requires DeviceFits(s)
    ensures request == Unlines(TextsOf(SetPairs(net, s))) + "\n"
    ensures NetOk(net) && (forall i :: 0 <= i < |s.peers| ==> PeerOk(net, s.peers[i])) ==>
              Returned(Run(net, START, Lines(AsReply(request)))) == Some(DeviceView(net, s))
    ensures NetPrints(net) && DeviceSends(net, s) ==> PeersFit(s.peers) && Asks(net, request, AsDevice(s))
  {
    hide NetPrints, DeviceSends, Asks, AsDevice, PeersFit, TextsOf, Unlines, HeadPairs, PeerPairs, NetOk, PeerOk, Run, Lines, AsReply, PeerFits;
    var f := new Stream();
    f.Print(HeadPairs(s));
    ghost var head := HeadPairs(s);
    var i := 0;
    assert head + [] == head && s.peers[..0] == [];
    while i < |s.peers|
      invariant 0 <= i <= |s.peers|
      invariant f.out == Unlines(TextsOf(head + AllPeerPairs(net, s.peers[..i])))
    {
      WritePeer(f, net, s.peers[i]);
      TextsAppend(head + AllPeerPairs(net, s.peers[..i]), PeerPairs(net, s.peers[i]));
      assert s.peers[..i + 1][..i] == s.peers[..i];
      assert head + AllPeerPairs(net, s.peers[..i]) + PeerPairs(net, s.peers[i]) == head + AllPeerPairs(net, s.peers[..i + 1]);
      i := i + 1;
    }
    assert s.peers[..i] == s.peers;
    request := f.out + "\n";
    AsReplyIs(net, s);
    if NetOk(net) && forall j :: 0 <= j < |s.peers| ==> PeerOk(net, s.peers[j]) {
      EchoReadsBack(net, s);
    }
    if NetPrints(net) && DeviceSends(net, s) {
      RequestAsks(net, s);
    }
  }
}

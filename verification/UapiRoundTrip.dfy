/** What the set side of src/ipc-uapi.h writes, the get side reads back. */
module UapiRoundTrip {
  import opened Text
  import opened Common
  import opened HexCodec
  import opened UapiReader
  import opened UapiWriter
  import opened UapiNames

  // ----- lines -----

  lemma {:induction false} RunAppend(net: Net, s: Loop, a: seq<string>, b: seq<string>)
    ensures Run(net, s, a + b) == Run(net, Run(net, s, a), b)
    decreases |a|
  {
    hide Step;
    if a == [] || !s.Reading? {
      assert a == [] ==> a + b == b;
    } else {
      assert (a + b)[1..] == a[1..] + b;
      RunAppend(net, Step(net, s.dev, s.ret, a[0]), a[1..], b);
    }
  }

  predicate Sound(p: Pair) {
    OneLine(p.key) && '=' !in p.key && OneLine(p.value)
  }

  /** The line of a pair is read as that pair. */
  lemma StepIs(net: Net, d: UDevice, ret: int, p: Pair)
    requires Sound(p)
    ensures Step(net, d, ret, TextOf(p) + "\n") == KeyValue(net, d, ret, NameOf(p.key), p.value)
  {
    hide NameOf, KeyText, KeyValue, Index;
    var line := TextOf(p) + "\n";
    assert line == p.key + ['='] + (p.value + "\n");
    IndexOf(p.key, '=', p.value + "\n");
    assert '\0' !in line;
    IndexNone(line, '\0');
    assert line[..|line|] == line;
    assert line[|p.key|] == '=' && line[|line| - 1] == '\n';
    assert line[..|p.key|] == p.key && line[|p.key| + 1..|line| - 1] == p.value;
  }

  function LinesOf(ps: seq<Pair>): (r: seq<string>)
    ensures |r| == |ps|
  {
    Terminated(TextsOf(ps))
  }

  lemma LinesJoin(a: seq<Pair>, b: seq<Pair>)
    ensures LinesOf(a + b) == LinesOf(a) + LinesOf(b)
  {
    hide TextOf;
  }

  predicate AllSound(ps: seq<Pair>) {
    forall i :: 0 <= i < |ps| ==> Sound(ps[i])
  }

  // ----- the keys of a peer -----

  /** The current peer after some keys, if they are all good. */
  function Fold(net: Net, p: UPeer, ps: seq<Pair>): Option<UPeer>
    decreases |ps|
  {
    if ps == [] then Some(p)
    else
      match PeerKey(net, p, NameOf(ps[0].key), ps[0].value)
      case Keep(q) => Fold(net, q, ps[1..])
      case Bad(_) => None
  }

  predicate PeerNames(ps: seq<Pair>) {
    forall i :: 0 <= i < |ps| ==> Sound(ps[i]) && NameOf(ps[i].key) != PublicKey && NameOf(ps[i].key) != Errno
  }

  lemma {:induction false} RunFold(net: Net, d: UDevice, ret: int, before: seq<UPeer>, p: UPeer, ps: seq<Pair>)
    requires PeerNames(ps) && Fold(net, p, ps).Some?
    ensures Run(net, Reading(d.(peers := before + [p]), ret), LinesOf(ps)) ==
            Reading(d.(peers := before + [Fold(net, p, ps).value]), ret)
    decreases |ps|
  {
    hide NameOf, KeyText, PeerKey, TextOf;
    if ps != [] {
      var q := PeerKey(net, p, NameOf(ps[0].key), ps[0].value).peer;
      StepIs(net, d.(peers := before + [p]), ret, ps[0]);
      assert (before + [p])[|before| := q] == before + [q];
      assert LinesOf(ps)[1..] == LinesOf(ps[1..]);
      RunFold(net, d, ret, before, q, ps[1..]);
    }
  }

  lemma {:induction false} FoldAppend(net: Net, p: UPeer, a: seq<Pair>, b: seq<Pair>)
    ensures Fold(net, p, a + b) == if Fold(net, p, a).None? then None else Fold(net, Fold(net, p, a).value, b)
    decreases |a|
  {
    hide NameOf, KeyText, PeerKey;
    if a == [] {
      assert a + b == b;
    } else {
      assert (a + b)[1..] == a[1..] + b;
      match PeerKey(net, p, NameOf(a[0].key), a[0].value) {
        case Keep(q) => FoldAppend(net, q, a[1..], b);
        case Bad(_) =>
      }
    }
  }

  lemma FoldOne(net: Net, p: UPeer, k: string, v: string, q: UPeer)
    requires PeerKey(net, p, NameOf(k), v) == Keep(q)
    ensures Fold(net, p, [Pair(k, v)]) == Some(q)
  {
    hide NameOf, KeyText, PeerKey;
    assert [Pair(k, v)][1..] == [];
  }

  // ----- values read back -----

  lemma HexTextRoundTrips(k: Bytes)
    requires |k| == KEY_LEN
    ensures HexKey(HexText(k)) == Some(k) && OneLine(HexText(k))
  {
    hide HexEncoded, HexDecoded;
    HexRoundTrip(k);
    var b := HexEncoded(k);
    assert AsBytes(AsText(b)) == b;
    forall i | 0 <= i < |b|
      ensures AsText(b)[i] != '\n' && AsText(b)[i] != '\0'
    {
      assert HexValue(b[i]) >= 0;
    }
  }

  lemma NumRoundTrips(n: nat, max: nat)
    requires n <= max <= 0xffff_ffff_ffff_ffff
    ensures Num(Dec(n), max) == Some(n) && OneLine(Dec(n))
  {
    hide Dec, NumberOf;
    DecRoundTrip(n);
    DigitsOnly(Dec(n));
  }

  /** Numeric addresses are printed on one line and read back. */
  ghost predicate NetOk(net: Net) {
    forall f, a :: (f == AF_INET && |a| == 4) || (f == AF_INET6 && |a| == 16) ==> AddressOk(net, f, a)
  }

  /** The numeric form of this socket address resolves to it. */
  ghost predicate SocketOk(net: Net, e: Bytes) {
    var hs := net.nameInfo(e);
    && hs.Some? && net.resolve(hs.value.0, hs.value.1) == Some(e)
    && OneLine(hs.value.0) && OneLine(hs.value.1) && hs.value.1 != "" && ':' !in hs.value.1
    && hs.value.0 != "" && hs.value.0[0] != '[' && ']' !in hs.value.0
  }

  ghost predicate AddressOk(net: Net, f: nat, a: Bytes) {
    var t := net.ntop(f, a);
    && t.Some? && net.pton(f, t.value) == Some(a) && OneLine(t.value) && '/' !in t.value
    && (':' in t.value <==> f == AF_INET6)
  }

  lemma EndpointRoundTrips(net: Net, p: UPeer, e: Bytes)
    requires IsSocket(e) && SocketOk(net, e)
    ensures var t := EndpointText(net, e);
            t.Some? && OneLine(t.value) && EndpointKey(net, p, t.value) == Keep(p.(endpoint := Some(e)))
  {
    hide Index, LastIndex;
    var hs := net.nameInfo(e).value;
    var t := EndpointText(net, e).value;
    if Tlv.Get16(e, 0) == AF_INET6 && ':' in hs.0 {
      BracketSplit(hs.0, hs.1);
    } else {
      PlainSplit(hs.0, hs.1);
    }
  }

  lemma BracketSplit(h: string, s: string)
    requires ']' !in h && s != ""
    ensures HostService("[" + h + "]:" + s) == Some((h, s))
  {
    hide Index, LastIndex;
    var v := "[" + h + "]:" + s;
    assert v == ("[" + h) + [']'] + (":" + s);
    IndexOf("[" + h, ']', ":" + s);
    assert v[|h| + 2] == ':' && v[1..|h| + 1] == h && v[|h| + 3..] == s;
  }

  lemma PlainSplit(h: string, s: string)
    requires h != "" && h[0] != '[' && s != "" && ':' !in s
    ensures HostService(h + ":" + s) == Some((h, s))
  {
    hide Index, LastIndex;
    var v := h + ":" + s;
    LastIndexOf(h, ':', s);
    assert v[0] == h[0] && v[..|h|] == h && v[|h| + 1..] == s;
  }

  predicate IpOk(i: SetIp) {
    && !i.remove
    && ((i.ip.family == AF_INET && |i.ip.addr| == 4 && i.ip.cidr <= 32) || (i.ip.family == AF_INET6 && |i.ip.addr| == 16 && i.ip.cidr <= 128))
  }

  lemma IpRoundTrips(net: Net, i: SetIp)
    requires IpOk(i) && AddressOk(net, i.ip.family, i.ip.addr)
    ensures |IpPair(net, i)| == 1 && IpPair(net, i)[0].key == KeyText(AllowedIp) && OneLine(IpPair(net, i)[0].value)
    ensures ParseIp(net, IpPair(net, i)[0].value) == Some(i.ip)
  {
    hide Index, Dec, NumberOf;
    var t, n := net.ntop(i.ip.family, i.ip.addr).value, i.ip.cidr;
    DecRoundTrip(n);
    DigitsOnly(Dec(n));
    var v := t + "/" + Dec(n);
    assert IpPair(net, i)[0].value == v;
    IndexOf(t, '/', Dec(n));
    assert v[..|t|] == t && v[|t| + 1..] == Dec(n);
  }

  // ----- a peer -----

  /** Good keys of a peer, which turn `p` into `q`. */
  ghost predicate Folds(net: Net, p: UPeer, ps: seq<Pair>, q: UPeer) {
    PeerNames(ps) && Fold(net, p, ps) == Some(q)
  }

  lemma FoldsJoin(net: Net, p: UPeer, a: seq<Pair>, q: UPeer, b: seq<Pair>, r: UPeer)
    requires Folds(net, p, a, q) && Folds(net, q, b, r)
    ensures Folds(net, p, a + b, r)
  {
    hide Fold, Sound, NameOf, KeyText;
    FoldAppend(net, p, a, b);
  }

  lemma FoldsNone(net: Net, p: UPeer)
    ensures Folds(net, p, [], p)
  {
  }

  lemma FoldsOne(net: Net, p: UPeer, k: string, v: string, q: UPeer)
    requires Plain(k) && OneLine(v) && NameOf(k) != PublicKey && NameOf(k) != Errno
    requires PeerKey(net, p, NameOf(k), v) == Keep(q)
    ensures Folds(net, p, [Pair(k, v)], q)
  {
    hide NameOf, KeyText, PeerKey, Fold;
    FoldOne(net, p, k, v, q);
  }

  /** A key of a peer, which is none of the two that end a peer. */
  predicate OfPeer(n: Name) {
    n != PublicKey && n != Errno && n != Unknown
  }

  lemma FoldsKey(net: Net, p: UPeer, n: Name, v: string, q: UPeer)
    requires OfPeer(n) && OneLine(v) && PeerKey(net, p, n, v) == Keep(q)
    ensures Folds(net, p, [Pair(KeyText(n), v)], q)
  {
    hide NameOf, KeyText, PeerKey, Folds, Plain;
    NameOfKey(n);
    FoldsOne(net, p, KeyText(n), v, q);
  }

  lemma FoldsIf(net: Net, p: UPeer, b: bool, n: Name, v: string, q: UPeer)
    requires OfPeer(n) && OneLine(v)
    requires if b then PeerKey(net, p, n, v) == Keep(q) else q == p
    ensures Folds(net, p, If(b, KeyText(n), v), q)
  {
    hide NameOf, KeyText, PeerKey, Folds;
    if b { FoldsKey(net, p, n, v, q); } else { FoldsNone(net, p); }
  }

  lemma FoldsText(net: Net, p: UPeer, n: Name, o: Option<string>, q: UPeer)
    requires OfPeer(n) && OneLineOpt(o)
    requires if o.Some? then PeerKey(net, p, n, o.value) == Keep(q) else q == p
    ensures Folds(net, p, IfText(KeyText(n), o), q)
  {
    hide NameOf, KeyText, PeerKey, Folds;
    if o.Some? { FoldsKey(net, p, n, o.value, q); } else { FoldsNone(net, p); }
  }

  lemma FoldsSet(net: Net, p: UPeer, n: Name, i: nat, q: UPeer)
    requires OfPeer(n) && i <= 0xffff_ffff
    requires if i != 0 then PeerKey(net, p, n, Dec(i)) == Keep(q) else q == p
    ensures Folds(net, p, IfSet(KeyText(n), i), q)
  {
    hide NameOf, KeyText, PeerKey, Folds, Dec;
    NumRoundTrips(i, 0xffff_ffff);
    if i != 0 { FoldsKey(net, p, n, Dec(i), q); } else { FoldsNone(net, p); }
  }

  function WsNames(u: UPeer): seq<Pair> {
    IfText(KeyText(WsUrl), u.wsUrl) + IfText(KeyText(WstunnelTarget), u.wstunnelTarget) + IfText(KeyText(WsBearer), u.wsBearer)
    + If(u.wsMask, KeyText(WsMask), "true")
  }

  function WsTls(u: UPeer): seq<Pair> {
    IfText(KeyText(WsTlsCa), u.tlsCa) + IfText(KeyText(WsTlsCert), u.tlsCert) + IfText(KeyText(WsTlsKey), u.tlsKey)
    + If(u.tlsInsecure, KeyText(WsTlsInsecure), "true")
  }

  function WsTimes(u: UPeer): seq<Pair> {
    IfSet(KeyText(WsPing), u.ping) + IfSet(KeyText(WsBackoffMin), u.backoffMin) + IfSet(KeyText(WsBackoffMax), u.backoffMax)
  }

  lemma WsPairsAre(u: UPeer)
    ensures WsPairs(u) == WsNames(u) + WsTls(u) + WsTimes(u)
  {
    hide IfText, If, IfSet;
  }

  /** A peer that has no WebSocket setting yet. */
  predicate NoWs(p: UPeer) {
    && p.wsUrl.None? && p.wstunnelTarget.None? && p.wsBearer.None? && !p.wsMask
    && p.tlsCa.None? && p.tlsCert.None? && p.tlsKey.None? && !p.tlsInsecure
    && p.ping == 0 && p.backoffMin == 0 && p.backoffMax == 0
  }

  lemma WsNamesFold(net: Net, p: UPeer, u: UPeer)
    requires NoWs(p) && OneLineOpt(u.wsUrl) && OneLineOpt(u.wstunnelTarget) && OneLineOpt(u.wsBearer)
    ensures Folds(net, p, WsNames(u), p.(wsUrl := u.wsUrl, wstunnelTarget := u.wstunnelTarget, wsBearer := u.wsBearer, wsMask := u.wsMask))
  {
    hide Folds, NameOf, KeyText, IfText, If, Plain, OneLine, EndpointKey, ParseIp, HexKey, Num;
    ValuesPlain();
    var p1 := p.(wsUrl := u.wsUrl);
    var p2 := p1.(wstunnelTarget := u.wstunnelTarget);
    var p3 := p2.(wsBearer := u.wsBearer);
    var p4 := p3.(wsMask := u.wsMask);
    var a, b := IfText(KeyText(WsUrl), u.wsUrl), IfText(KeyText(WstunnelTarget), u.wstunnelTarget);
    var c, d := IfText(KeyText(WsBearer), u.wsBearer), If(u.wsMask, KeyText(WsMask), "true");
    FoldsText(net, p, WsUrl, u.wsUrl, p1);
    FoldsText(net, p1, WstunnelTarget, u.wstunnelTarget, p2);
    FoldsText(net, p2, WsBearer, u.wsBearer, p3);
    FoldsIf(net, p3, u.wsMask, WsMask, "true", p4);
    FoldsJoin(net, p, a, p1, b, p2);
    FoldsJoin(net, p, a + b, p2, c, p3);
    FoldsJoin(net, p, a + b + c, p3, d, p4);
  }

  lemma WsTlsFold(net: Net, p: UPeer, u: UPeer)
    requires p.tlsCa.None? && p.tlsCert.None? && p.tlsKey.None? && !p.tlsInsecure
    requires OneLineOpt(u.tlsCa) && OneLineOpt(u.tlsCert) && OneLineOpt(u.tlsKey)
    ensures Folds(net, p, WsTls(u), p.(tlsCa := u.tlsCa, tlsCert := u.tlsCert, tlsKey := u.tlsKey, tlsInsecure := u.tlsInsecure))
  {
    hide Folds, NameOf, KeyText, IfText, If, Plain, OneLine, EndpointKey, ParseIp, HexKey, Num;
    ValuesPlain();
    var p1 := p.(tlsCa := u.tlsCa);
    var p2 := p1.(tlsCert := u.tlsCert);
    var p3 := p2.(tlsKey := u.tlsKey);
    var p4 := p3.(tlsInsecure := u.tlsInsecure);
    var a, b := IfText(KeyText(WsTlsCa), u.tlsCa), IfText(KeyText(WsTlsCert), u.tlsCert);
    var c, d := IfText(KeyText(WsTlsKey), u.tlsKey), If(u.tlsInsecure, KeyText(WsTlsInsecure), "true");
    FoldsText(net, p, WsTlsCa, u.tlsCa, p1);
    FoldsText(net, p1, WsTlsCert, u.tlsCert, p2);
    FoldsText(net, p2, WsTlsKey, u.tlsKey, p3);
    FoldsIf(net, p3, u.tlsInsecure, WsTlsInsecure, "true", p4);
    FoldsJoin(net, p, a, p1, b, p2);
    FoldsJoin(net, p, a + b, p2, c, p3);
    FoldsJoin(net, p, a + b + c, p3, d, p4);
  }

  /** One of the three times. */
  lemma TimeFold(net: Net, p: UPeer, n: Name, i: nat, q: UPeer)
    requires i <= 0xffff_ffff
    requires (n == WsPing && p.ping == 0 && q == p.(ping := i))
          || (n == WsBackoffMin && p.backoffMin == 0 && q == p.(backoffMin := i))
          || (n == WsBackoffMax && p.backoffMax == 0 && q == p.(backoffMax := i))
    ensures Folds(net, p, IfSet(KeyText(n), i), q)
  {
    hide Folds, NameOf, KeyText, IfSet, EndpointKey, ParseIp, HexKey, Num, Dec;
    NumRoundTrips(i, 0xffff_ffff);
    FoldsSet(net, p, n, i, q);
  }

  lemma WsTimesFold(net: Net, p: UPeer, u: UPeer)
    requires p.ping == 0 && p.backoffMin == 0 && p.backoffMax == 0
    requires u.ping <= 0xffff_ffff && u.backoffMin <= 0xffff_ffff && u.backoffMax <= 0xffff_ffff
    ensures Folds(net, p, WsTimes(u), p.(ping := u.ping, backoffMin := u.backoffMin, backoffMax := u.backoffMax))
  {
    hide Folds, NameOf, KeyText, IfSet;
    var p1 := p.(ping := u.ping);
    var p2 := p1.(backoffMin := u.backoffMin);
    var p3 := p2.(backoffMax := u.backoffMax);
    var a, b, c := IfSet(KeyText(WsPing), u.ping), IfSet(KeyText(WsBackoffMin), u.backoffMin), IfSet(KeyText(WsBackoffMax), u.backoffMax);
    TimeFold(net, p, WsPing, u.ping, p1);
    TimeFold(net, p1, WsBackoffMin, u.backoffMin, p2);
    TimeFold(net, p2, WsBackoffMax, u.backoffMax, p3);
    FoldsJoin(net, p, a, p1, b, p2);
    FoldsJoin(net, p, a + b, p2, c, p3);
  }

  function WithWs(p: UPeer, u: UPeer): UPeer {
    p.(wsUrl := u.wsUrl, wstunnelTarget := u.wstunnelTarget, wsBearer := u.wsBearer, wsMask := u.wsMask,
       tlsCa := u.tlsCa, tlsCert := u.tlsCert, tlsKey := u.tlsKey, tlsInsecure := u.tlsInsecure,
       ping := u.ping, backoffMin := u.backoffMin, backoffMax := u.backoffMax)
  }

  lemma WsFold(net: Net, p: UPeer, s: SetPeer)
    requires NoWs(p) && PeerFits(s)
    ensures Folds(net, p, if WritesWs(s) then WsPairs(s.peer) else [], if WritesWs(s) then WithWs(p, s.peer) else p)
  {
    hide Folds, WsPairs, WsNames, WsTls, WsTimes, IsSocket, OneLineOpt;
    var u := s.peer;
    var p1 := p.(wsUrl := u.wsUrl, wstunnelTarget := u.wstunnelTarget, wsBearer := u.wsBearer, wsMask := u.wsMask);
    var p2 := p1.(tlsCa := u.tlsCa, tlsCert := u.tlsCert, tlsKey := u.tlsKey, tlsInsecure := u.tlsInsecure);
    if WritesWs(s) {
      WsPairsAre(u);
      WsNamesFold(net, p, u);
      WsTlsFold(net, p1, u);
      WsTimesFold(net, p2, u);
      FoldsJoin(net, p, WsNames(u), p1, WsTls(u), p2);
      FoldsJoin(net, p, WsNames(u) + WsTls(u), p2, WsTimes(u), WithWs(p, u));
    } else {
      FoldsNone(net, p);
    }
  }

  // ----- the other keys of a peer -----

  function PskView(o: Option<Bytes>): Option<Bytes> {
    if o.Some? && AllZero(o.value) then None else o
  }

  lemma PskFold(net: Net, p: UPeer, o: Option<Bytes>)
    requires p.psk.None? && (o.Some? ==> |o.value| == KEY_LEN)
    ensures Folds(net, p, IfKey(KeyText(PresharedKey), o), p.(psk := PskView(o)))
  {
    hide Folds, NameOf, KeyText, Plain, HexText, HexKey, OneLine;
    if o.Some? {
      HexTextRoundTrips(o.value);
      FoldsKey(net, p, PresharedKey, HexText(o.value), p.(psk := PskView(o)));
    } else {
      FoldsNone(net, p);
    }
  }

  lemma TransportFold(net: Net, p: UPeer, u: UPeer)
    requires !p.hasTransport && p.transport == Udp
    ensures Folds(net, p, If(u.hasTransport, KeyText(TransportName), TransportText(u.transport)),
                  p.(hasTransport := u.hasTransport, transport := if u.hasTransport then u.transport else Udp))
  {
    hide Folds, NameOf, KeyText, Plain, OneLine, If;
    ValuesPlain();
    TransportTexts(u.transport);
    FoldsIf(net, p, u.hasTransport, TransportName, TransportText(u.transport),
            p.(hasTransport := u.hasTransport, transport := if u.hasTransport then u.transport else Udp));
  }

  lemma TransportTexts(t: Transport)
    ensures var v := TransportText(t); (if v == "wstunnel" then Wstunnel else if v == "websocket" then Websocket else Udp) == t
  {
  }

  lemma EndpointFold(net: Net, p: UPeer, o: Option<Bytes>)
    requires p.endpoint.None? && (o.Some? ==> IsSocket(o.value) && SocketOk(net, o.value))
    ensures Folds(net, p, EndpointPair(net, o), p.(endpoint := o))
  {
    hide Folds, NameOf, KeyText, Plain, OneLine, EndpointKey, EndpointText, IsSocket, SocketOk;
    if o.Some? {
      EndpointRoundTrips(net, p, o.value);
      FoldsKey(net, p, Endpoint, EndpointText(net, o.value).value, p.(endpoint := o));
    } else {
      FoldsNone(net, p);
    }
  }

  lemma KeepaliveFold(net: Net, p: UPeer, o: Option<nat>)
    requires p.keepalive.None? && (o.Some? ==> o.value <= 0xffff)
    ensures Folds(net, p, IfNum(KeyText(Keepalive), o), p.(keepalive := o))
  {
    hide Folds, NameOf, KeyText, Plain, Dec, Num;
    if o.Some? {
      NumRoundTrips(o.value, 0xffff);
      FoldsKey(net, p, Keepalive, Dec(o.value), p.(keepalive := o));
    } else {
      FoldsNone(net, p);
    }
  }

  lemma ReplaceFold(net: Net, p: UPeer, b: bool)
    ensures Folds(net, p, If(b, "replace_allowed_ips", "true"), p)
  {
    hide Folds, NameOf, Plain, OneLine;
    RequestKeys();
    ValuesPlain();
    if b { FoldsOne(net, p, "replace_allowed_ips", "true", p); } else { FoldsNone(net, p); }
  }

  function Ips(ips: seq<SetIp>): (r: seq<Ip>)
    ensures |r| == |ips|
  {
    seq(|ips|, i requires 0 <= i < |ips| => ips[i].ip)
  }

  lemma IpFold(net: Net, p: UPeer, i: SetIp)
    requires NetOk(net) && IpOk(i)
    ensures Folds(net, p, IpPair(net, i), p.(ips := p.ips + [i.ip]))
  {
    hide Folds, NameOf, KeyText, Plain, OneLine, ParseIp, IpPair, AddressOk;
    assert AddressOk(net, i.ip.family, i.ip.addr);
    IpRoundTrips(net, i);
    FoldsKey(net, p, AllowedIp, IpPair(net, i)[0].value, p.(ips := p.ips + [i.ip]));
    assert IpPair(net, i) == [Pair(KeyText(AllowedIp), IpPair(net, i)[0].value)];
  }

  lemma {:induction false} IpsFold(net: Net, p: UPeer, ips: seq<SetIp>)
    requires NetOk(net) && p.ips == [] && forall i :: 0 <= i < |ips| ==> IpOk(ips[i])
    ensures Folds(net, p, IpPairs(net, ips), p.(ips := Ips(ips)))
    decreases |ips|
  {
    hide Folds, IpPair, NetOk, IpOk;
    if ips == [] {
      FoldsNone(net, p);
    } else {
      var n := |ips| - 1;
      var q, r := p.(ips := Ips(ips[..n])), p.(ips := Ips(ips));
      IpsFold(net, p, ips[..n]);
      IpFold(net, q, ips[n]);
      assert Ips(ips) == Ips(ips[..n]) + [ips[n].ip];
      FoldsJoin(net, p, IpPairs(net, ips[..n]), q, IpPair(net, ips[n]), r);
    }
  }

  // ----- the counters, which only the daemon writes -----

  function TimePairs(sec: nat, nsec: nat): seq<Pair> {
    [Pair(KeyText(HandshakeSec), Dec(sec))] + [Pair(KeyText(HandshakeNsec), Dec(nsec))]
  }

  function BytePairs(rx: nat, tx: nat): seq<Pair> {
    [Pair(KeyText(RxBytes), Dec(rx))] + [Pair(KeyText(TxBytes), Dec(tx))]
  }

  lemma CounterFold(net: Net, p: UPeer, n: Name, i: nat, max: nat, q: UPeer)
    requires OfPeer(n) && i <= max <= 0xffff_ffff_ffff_ffff && PeerKey(net, p, n, Dec(i)) == Keep(q)
    ensures Folds(net, p, [Pair(KeyText(n), Dec(i))], q)
  {
    hide NameOf, KeyText, PeerKey, Folds, Dec;
    NumRoundTrips(i, max);
    FoldsKey(net, p, n, Dec(i), q);
  }

  /** The times of a reply end up in their fields. */
  lemma TimesFold(net: Net, p: UPeer, sec: nat, nsec: nat)
    requires sec <= 0x7fff_ffff_ffff_ffff && nsec <= 0x7fff_ffff_ffff_ffff
    ensures Folds(net, p, TimePairs(sec, nsec), p.(handshakeSec := sec, handshakeNsec := nsec))
  {
    hide NameOf, KeyText, Folds, Dec, Num, Plain, EndpointKey, ParseIp, HexKey;
    NumRoundTrips(sec, 0x7fff_ffff_ffff_ffff);
    NumRoundTrips(nsec, 0x7fff_ffff_ffff_ffff);
    var q := p.(handshakeSec := sec);
    var r := q.(handshakeNsec := nsec);
    CounterFold(net, p, HandshakeSec, sec, 0x7fff_ffff_ffff_ffff, q);
    CounterFold(net, q, HandshakeNsec, nsec, 0x7fff_ffff_ffff_ffff, r);
    FoldsJoin(net, p, [Pair(KeyText(HandshakeSec), Dec(sec))], q, [Pair(KeyText(HandshakeNsec), Dec(nsec))], r);
  }

  /** So do the byte counters. */
  lemma BytesFold(net: Net, p: UPeer, rx: nat, tx: nat)
    requires rx <= 0xffff_ffff_ffff_ffff && tx <= 0xffff_ffff_ffff_ffff
    ensures Folds(net, p, BytePairs(rx, tx), p.(rx := rx, tx := tx))
  {
    hide NameOf, KeyText, Folds, Dec, Num, Plain, EndpointKey, ParseIp, HexKey;
    NumRoundTrips(rx, 0xffff_ffff_ffff_ffff);
    NumRoundTrips(tx, 0xffff_ffff_ffff_ffff);
    var q := p.(rx := rx);
    var r := q.(tx := tx);
    CounterFold(net, p, RxBytes, rx, 0xffff_ffff_ffff_ffff, q);
    CounterFold(net, q, TxBytes, tx, 0xffff_ffff_ffff_ffff, r);
    FoldsJoin(net, p, [Pair(KeyText(RxBytes), Dec(rx))], q, [Pair(KeyText(TxBytes), Dec(tx))], r);
  }

  // ----- the whole peer -----

  /** The peer that the reply to a request describes. */
  function PeerView(s: SetPeer): UPeer {
    var u := s.peer;
    var p := EmptyPeer(u.publicKey).(
      psk := PskView(u.psk), hasTransport := u.hasTransport, transport := if u.hasTransport then u.transport else Udp,
      endpoint := u.endpoint, keepalive := u.keepalive, ips := Ips(s.ips));
    if WritesWs(s) then WithWs(p, u) else p
  }

  ghost predicate PeerOk(net: Net, s: SetPeer) {
    && PeerFits(s) && !s.remove && (s.peer.endpoint.Some? ==> SocketOk(net, s.peer.endpoint.value))
    && forall i :: 0 <= i < |s.ips| ==> IpOk(s.ips[i])
  }

  function FirstOptions(net: Net, s: SetPeer): seq<Pair>
    requires PeerFits(s)
  {
    IfKey(KeyText(PresharedKey), s.peer.psk) + If(s.peer.hasTransport, KeyText(TransportName), TransportText(s.peer.transport))
    + EndpointPair(net, s.peer.endpoint)
  }

  function LastOptions(s: SetPeer): seq<Pair> {
    (if WritesWs(s) then WsPairs(s.peer) else [])
    + IfNum(KeyText(Keepalive), s.peer.keepalive) + If(s.replaceIps, "replace_allowed_ips", "true")
  }

  lemma OptionPairsAre(net: Net, s: SetPeer)
    requires PeerFits(s)
    ensures OptionPairs(net, s) == FirstOptions(net, s) + LastOptions(s)
  {
    hide IfKey, If, EndpointPair, WsPairs, IfNum, PeerFits;
    OptionFits(s);
  }

  /** The peer between the two halves. */
  function Halfway(s: SetPeer): UPeer {
    var u := s.peer;
    EmptyPeer(u.publicKey).(psk := PskView(u.psk), hasTransport := u.hasTransport,
                            transport := if u.hasTransport then u.transport else Udp, endpoint := u.endpoint)
  }

  lemma FirstFold(net: Net, s: SetPeer)
    requires PeerFits(s) && (s.peer.endpoint.Some? ==> SocketOk(net, s.peer.endpoint.value))
    ensures Folds(net, EmptyPeer(s.peer.publicKey), FirstOptions(net, s), Halfway(s))
  {
    hide Folds, IfKey, If, EndpointPair, SocketOk, PeerFits, PskView, TransportText;
    OptionFits(s);
    var u := s.peer;
    var p := EmptyPeer(u.publicKey);
    var p1 := p.(psk := PskView(u.psk));
    var p2 := p1.(hasTransport := u.hasTransport, transport := if u.hasTransport then u.transport else Udp);
    var a, b := IfKey(KeyText(PresharedKey), u.psk), If(u.hasTransport, KeyText(TransportName), TransportText(u.transport));
    var c := EndpointPair(net, u.endpoint);
    PskFold(net, p, u.psk);
    TransportFold(net, p1, u);
    EndpointFold(net, p2, u.endpoint);
    FoldsJoin(net, p, a, p1, b, p2);
    FoldsJoin(net, p, a + b, p2, c, Halfway(s));
  }

  lemma LastFold(net: Net, s: SetPeer)
    requires PeerFits(s)
    ensures Folds(net, Halfway(s), LastOptions(s), PeerView(s).(ips := []))
  {
    hide Folds, If, WsPairs, IfNum, PeerFits, PskView;
    OptionFits(s);
    var u := s.peer;
    var p := Halfway(s);
    var p1 := if WritesWs(s) then WithWs(p, u) else p;
    var p2 := p1.(keepalive := u.keepalive);
    var a, b := if WritesWs(s) then WsPairs(u) else [], IfNum(KeyText(Keepalive), u.keepalive);
    var c := If(s.replaceIps, "replace_allowed_ips", "true");
    WsFold(net, p, s);
    KeepaliveFold(net, p1, u.keepalive);
    ReplaceFold(net, p2, s.replaceIps);
    FoldsJoin(net, p, a, p1, b, p2);
    FoldsJoin(net, p, a + b, p2, c, p2);
  }

  lemma OptionsFold(net: Net, s: SetPeer)
    requires PeerFits(s) && (s.peer.endpoint.Some? ==> SocketOk(net, s.peer.endpoint.value))
    ensures Folds(net, EmptyPeer(s.peer.publicKey), OptionPairs(net, s), PeerView(s).(ips := []))
  {
    hide Folds, FirstOptions, LastOptions, OptionPairs, SocketOk, PeerFits, PeerView, Halfway;
    FirstFold(net, s);
    LastFold(net, s);
    OptionPairsAre(net, s);
    FoldsJoin(net, EmptyPeer(s.peer.publicKey), FirstOptions(net, s), Halfway(s), LastOptions(s), PeerView(s).(ips := []));
  }

  lemma OptionFits(s: SetPeer)
    requires PeerFits(s)
    ensures |s.peer.publicKey| == KEY_LEN
    ensures (s.peer.psk.Some? ==> |s.peer.psk.value| == KEY_LEN) && (s.peer.endpoint.Some? ==> IsSocket(s.peer.endpoint.value))
    ensures s.peer.keepalive.Some? ==> s.peer.keepalive.value <= 0xffff
  {
  }

  lemma ViewIps(s: SetPeer)
    ensures PeerView(s).ips == Ips(s.ips)
  {
  }

  /** A peer written and read back. */
  lemma PeerReadsBack(net: Net, s: SetPeer)
    requires NetOk(net) && PeerOk(net, s)
    ensures Folds(net, EmptyPeer(s.peer.publicKey), OptionPairs(net, s) + IpPairs(net, s.ips), PeerView(s))
  {
    hide Folds, OptionPairs, NetOk, SocketOk, WritesWs, PeerFits, IpOk, IpPairs, WithWs, PeerView;
    OptionsFold(net, s);
    var p := PeerView(s).(ips := []);
    assert p.(ips := Ips(s.ips)) == PeerView(s) by { ViewIps(s); }
    IpsFold(net, p, s.ips);
    FoldsJoin(net, EmptyPeer(s.peer.publicKey), OptionPairs(net, s), p, IpPairs(net, s.ips), PeerView(s));
  }

  // ----- the whole device -----

  lemma PeerRun(net: Net, d: UDevice, ret: int, s: SetPeer)
    requires NetOk(net) && PeerOk(net, s)
    ensures Run(net, Reading(d, ret), LinesOf(PeerPairs(net, s))) == Reading(d.(peers := d.peers + [PeerView(s)]), ret)
  {
    hide Folds, OptionPairs, IpPairs, NetOk, PeerFits, PeerView, NameOf, KeyText, Plain, OneLine, HexText, HexKey, Run, LinesOf, EmptyPeer;
    OptionFits(s);
    var key := Pair(KeyText(PublicKey), HexText(s.peer.publicKey));
    var rest := OptionPairs(net, s) + IpPairs(net, s.ips);
    KeyRead(net, d, ret, s);
    PeerReadsBack(net, s);
    assert PeerPairs(net, s) == [key] + rest;
    LinesJoin([key], rest);
    RunAppend(net, Reading(d, ret), LinesOf([key]), LinesOf(rest));
    FoldsRun(net, d, ret, d.peers, EmptyPeer(s.peer.publicKey), rest, PeerView(s));
  }

  lemma FoldsRun(net: Net, d: UDevice, ret: int, before: seq<UPeer>, p: UPeer, ps: seq<Pair>, q: UPeer)
    requires Folds(net, p, ps, q)
    ensures Run(net, Reading(d.(peers := before + [p]), ret), LinesOf(ps)) == Reading(d.(peers := before + [q]), ret)
  {
    hide Run, Fold, LinesOf, Sound, NameOf, KeyText;
    RunFold(net, d, ret, before, p, ps);
  }

  lemma KeyRead(net: Net, d: UDevice, ret: int, s: SetPeer)
    requires PeerFits(s)
    ensures Run(net, Reading(d, ret), LinesOf([Pair(KeyText(PublicKey), HexText(s.peer.publicKey))])) ==
            Reading(d.(peers := d.peers + [EmptyPeer(s.peer.publicKey)]), ret)
  {
    hide HexText, HexKey, NameOf, KeyText, Plain;
    HexTextRoundTrips(s.peer.publicKey);
    NameOfKey(PublicKey);
    OnePair(net, d, ret, Pair(KeyText(PublicKey), HexText(s.peer.publicKey)));
  }

  lemma OnePair(net: Net, d: UDevice, ret: int, p: Pair)
    requires Plain(p.key) && OneLine(p.value)
    ensures Run(net, Reading(d, ret), LinesOf([p])) == KeyValue(net, d, ret, NameOf(p.key), p.value)
  {
    hide NameOf, KeyText, KeyValue, TextOf, Step;
    StepIs(net, d, ret, p);
    assert LinesOf([p]) == [TextOf(p) + "\n"];
    assert LinesOf([p])[1..] == [];
  }

  function Views(ps: seq<SetPeer>): (r: seq<UPeer>)
    ensures |r| == |ps|
  {
    seq(|ps|, i requires 0 <= i < |ps| => PeerView(ps[i]))
  }

  lemma {:induction false} PeersRun(net: Net, d: UDevice, ret: int, ps: seq<SetPeer>)
    requires NetOk(net) && d.peers == [] && (forall i :: 0 <= i < |ps| ==> PeerFits(ps[i]))
    requires forall i :: 0 <= i < |ps| ==> PeerOk(net, ps[i])
    ensures Run(net, Reading(d, ret), LinesOf(AllPeerPairs(net, ps))) == Reading(d.(peers := Views(ps)), ret)
    decreases |ps|
  {
    hide Run, LinesOf, PeerPairs, PeerView, NetOk, PeerFits;
    if ps == [] {
      NoRun(net, Reading(d, ret));
    } else {
      var n := |ps| - 1;
      PeersRun(net, d, ret, ps[..n]);
      PeerRun(net, d.(peers := Views(ps[..n])), ret, ps[n]);
      LinesJoin(AllPeerPairs(net, ps[..n]), PeerPairs(net, ps[n]));
      RunAppend(net, Reading(d, ret), LinesOf(AllPeerPairs(net, ps[..n])), LinesOf(PeerPairs(net, ps[n])));
      assert Views(ps) == Views(ps[..n]) + [PeerView(ps[n])];
    }
  }

  lemma NoRun(net: Net, s: Loop)
    ensures Run(net, s, LinesOf([])) == s
  {
  }

  // ----- the keys of the device -----

  lemma RunJoin(net: Net, s: Loop, a: seq<Pair>, t: Loop, b: seq<Pair>, u: Loop)
    requires Run(net, s, LinesOf(a)) == t && Run(net, t, LinesOf(b)) == u
    ensures Run(net, s, LinesOf(a + b)) == u
  {
    hide Run, LinesOf;
    LinesJoin(a, b);
    RunAppend(net, s, LinesOf(a), LinesOf(b));
  }

  lemma RunText(net: Net, d: UDevice, ret: int, n: Name, o: Option<string>, e: UDevice)
    requires n != Unknown && OneLineOpt(o)
    requires if o.Some? then KeyValue(net, d, ret, n, o.value) == Reading(e, ret) else e == d
    ensures Run(net, Reading(d, ret), LinesOf(IfText(KeyText(n), o))) == Reading(e, ret)
  {
    hide Run, LinesOf, NameOf, KeyText, KeyValue, Plain;
    NameOfKey(n);
    if o.Some? { OnePair(net, d, ret, Pair(KeyText(n), o.value)); } else { NoRun(net, Reading(d, ret)); }
  }

  /** One of the five texts. */
  lemma DeviceText(net: Net, d: UDevice, ret: int, n: Name, o: Option<string>, e: UDevice)
    requires d.peers == [] && OneLineOpt(o)
    requires (n == WsListen && d.wsListen.None? && e == d.(wsListen := o)) || (n == WsServerCert && d.wsCert.None? && e == d.(wsCert := o))
          || (n == WsServerKey && d.wsKey.None? && e == d.(wsKey := o)) || (n == WsServerBearer && d.wsBearer.None? && e == d.(wsBearer := o))
          || (n == WsProxies && d.wsProxies.None? && e == d.(wsProxies := o))
    ensures Run(net, Reading(d, ret), LinesOf(IfText(KeyText(n), o))) == Reading(e, ret)
  {
    hide Run, LinesOf, NameOf, KeyText, Plain, OneLine, IfText, HexKey, Num, PeerKey;
    RunText(net, d, ret, n, o, e);
  }

  lemma WsHead(net: Net, d: UDevice, ret: int, u: UDevice)
    requires d.peers == [] && d.wsListen.None? && d.wsCert.None? && d.wsKey.None? && d.wsBearer.None? && d.wsProxies.None?
    requires OneLineOpt(u.wsListen) && OneLineOpt(u.wsCert) && OneLineOpt(u.wsKey) && OneLineOpt(u.wsBearer) && OneLineOpt(u.wsProxies)
    ensures Run(net, Reading(d, ret), LinesOf(IfText(KeyText(WsListen), u.wsListen) + IfText(KeyText(WsServerCert), u.wsCert)
                  + IfText(KeyText(WsServerKey), u.wsKey) + IfText(KeyText(WsServerBearer), u.wsBearer) + IfText(KeyText(WsProxies), u.wsProxies))) ==
            Reading(d.(wsListen := u.wsListen, wsCert := u.wsCert, wsKey := u.wsKey, wsBearer := u.wsBearer, wsProxies := u.wsProxies), ret)
  {
    hide Run, LinesOf, NameOf, KeyText, Plain, OneLine, IfText, KeyValue;
    var d1 := d.(wsListen := u.wsListen);
    var d2 := d1.(wsCert := u.wsCert);
    var d3 := d2.(wsKey := u.wsKey);
    var d4 := d3.(wsBearer := u.wsBearer);
    var d5 := d4.(wsProxies := u.wsProxies);
    var a, b := IfText(KeyText(WsListen), u.wsListen), IfText(KeyText(WsServerCert), u.wsCert);
    var c, e, f := IfText(KeyText(WsServerKey), u.wsKey), IfText(KeyText(WsServerBearer), u.wsBearer), IfText(KeyText(WsProxies), u.wsProxies);
    DeviceText(net, d, ret, WsListen, u.wsListen, d1);
    DeviceText(net, d1, ret, WsServerCert, u.wsCert, d2);
    DeviceText(net, d2, ret, WsServerKey, u.wsKey, d3);
    DeviceText(net, d3, ret, WsServerBearer, u.wsBearer, d4);
    DeviceText(net, d4, ret, WsProxies, u.wsProxies, d5);
    RunJoin(net, Reading(d, ret), a, Reading(d1, ret), b, Reading(d2, ret));
    RunJoin(net, Reading(d, ret), a + b, Reading(d2, ret), c, Reading(d3, ret));
    RunJoin(net, Reading(d, ret), a + b + c, Reading(d3, ret), e, Reading(d4, ret));
    RunJoin(net, Reading(d, ret), a + b + c + e, Reading(d4, ret), f, Reading(d5, ret));
  }

  lemma RunIgnored(net: Net, d: UDevice, ret: int, b: bool, k: string, v: string)
    requires d.peers == [] && Plain(k) && OneLine(v) && NameOf(k) == Unknown
    ensures Run(net, Reading(d, ret), LinesOf(If(b, k, v))) == Reading(d, ret)
  {
    hide Run, LinesOf, NameOf, KeyText, Plain;
    if b { OnePair(net, d, ret, Pair(k, v)); } else { NoRun(net, Reading(d, ret)); }
  }

  lemma RunNum(net: Net, d: UDevice, ret: int, n: Name, o: Option<nat>, e: UDevice, max: nat)
    requires n != Unknown && max <= 0xffff_ffff && (o.Some? ==> o.value <= max)
    requires if o.Some? then KeyValue(net, d, ret, n, Dec(o.value)) == Reading(e, ret) else e == d
    ensures Run(net, Reading(d, ret), LinesOf(IfNum(KeyText(n), o))) == Reading(e, ret)
  {
    hide Run, LinesOf, NameOf, KeyText, KeyValue, Plain, Dec;
    if o.Some? {
      NameOfKey(n);
      NumRoundTrips(o.value, max);
      OnePair(net, d, ret, Pair(KeyText(n), Dec(o.value)));
    } else {
      NoRun(net, Reading(d, ret));
    }
  }

  /** The public key that goes with a private key. */
  function Derived(net: Net, o: Option<Bytes>): Option<Bytes> {
    if o.None? then None else Some(net.derive(o.value))
  }

  lemma RunPrivateKey(net: Net, d: UDevice, ret: int, o: Option<Bytes>)
    requires d.peers == [] && d.privateKey.None? && d.publicKey.None? && (o.Some? ==> |o.value| == KEY_LEN)
    ensures Run(net, Reading(d, ret), LinesOf(IfKey(KeyText(PrivateKey), o))) ==
            Reading(d.(privateKey := o, publicKey := Derived(net, o)), ret)
  {
    hide Run, LinesOf, NameOf, KeyText, Plain, HexText, HexKey;
    if o.Some? {
      NameOfKey(PrivateKey);
      HexTextRoundTrips(o.value);
      OnePair(net, d, ret, Pair(KeyText(PrivateKey), HexText(o.value)));
    } else {
      NoRun(net, Reading(d, ret));
    }
  }

  /** The keys of the device that are not about WebSocket. */
  lemma PlainHead(net: Net, ret: int, u: UDevice)
    requires (u.privateKey.Some? ==> |u.privateKey.value| == KEY_LEN) && (u.listenPort.Some? ==> u.listenPort.value <= 0xffff)
    requires u.fwmark.Some? ==> u.fwmark.value <= 0xffff_ffff
    ensures Run(net, Reading(EmptyDevice(), ret), LinesOf([Pair("set", "1")] + IfKey(KeyText(PrivateKey), u.privateKey)
                  + IfNum(KeyText(ListenPort), u.listenPort) + IfNum(KeyText(Fwmark), u.fwmark))) ==
            Reading(EmptyDevice().(privateKey := u.privateKey, publicKey := Derived(net, u.privateKey),
                                   listenPort := u.listenPort, fwmark := u.fwmark), ret)
  {
    hide Run, LinesOf, NameOf, KeyText, Plain, OneLine, IfKey, IfNum, Dec, Num, HexKey, PeerKey;
    RequestKeys();
    ValuesPlain();
    var d := EmptyDevice();
    var d1 := d.(privateKey := u.privateKey, publicKey := Derived(net, u.privateKey));
    var d2 := d1.(listenPort := u.listenPort);
    var d3 := d2.(fwmark := u.fwmark);
    RunIgnored(net, d, ret, true, "set", "1");
    RunPrivateKey(net, d, ret, u.privateKey);
    if u.listenPort.Some? { NumRoundTrips(u.listenPort.value, 0xffff); }
    RunNum(net, d1, ret, ListenPort, u.listenPort, d2, 0xffff);
    if u.fwmark.Some? { NumRoundTrips(u.fwmark.value, 0xffff_ffff); }
    RunNum(net, d2, ret, Fwmark, u.fwmark, d3, 0xffff_ffff);
    var a, b := [Pair("set", "1")], IfKey(KeyText(PrivateKey), u.privateKey);
    var c, e := IfNum(KeyText(ListenPort), u.listenPort), IfNum(KeyText(Fwmark), u.fwmark);
    RunJoin(net, Reading(d, ret), a, Reading(d, ret), b, Reading(d1, ret));
    RunJoin(net, Reading(d, ret), a + b, Reading(d1, ret), c, Reading(d2, ret));
    RunJoin(net, Reading(d, ret), a + b + c, Reading(d2, ret), e, Reading(d3, ret));
  }

  /** The device that the reply describes, before its peers. */
  function HeadView(net: Net, s: SetDevice): UDevice {
    s.dev.(peers := [], publicKey := Derived(net, s.dev.privateKey))
  }

  lemma HeadRun(net: Net, ret: int, s: SetDevice)
    requires DeviceFits(s)
    ensures Run(net, Reading(EmptyDevice(), ret), LinesOf(HeadPairs(s))) == Reading(HeadView(net, s), ret)
  {
    hide Run, LinesOf, NameOf, KeyText, Plain, OneLine, IfKey, IfNum, IfText, If, PeerFits;
    var u, d := s.dev, EmptyDevice();
    var d1 := d.(privateKey := u.privateKey, publicKey := Derived(net, u.privateKey), listenPort := u.listenPort, fwmark := u.fwmark);
    var a := [Pair("set", "1")] + IfKey(KeyText(PrivateKey), u.privateKey) + IfNum(KeyText(ListenPort), u.listenPort) + IfNum(KeyText(Fwmark), u.fwmark);
    var b := IfText(KeyText(WsListen), u.wsListen) + IfText(KeyText(WsServerCert), u.wsCert)
             + IfText(KeyText(WsServerKey), u.wsKey) + IfText(KeyText(WsServerBearer), u.wsBearer) + IfText(KeyText(WsProxies), u.wsProxies);
    var c := If(s.replacePeers, "replace_peers", "true");
    PlainHead(net, ret, u);
    WsHead(net, d1, ret, u);
    RequestKeys();
    ValuesPlain();
    RunIgnored(net, HeadView(net, s), ret, s.replacePeers, "replace_peers", "true");
    RunJoin(net, Reading(d, ret), a, Reading(d1, ret), b, Reading(HeadView(net, s), ret));
    RunJoin(net, Reading(d, ret), a + b, Reading(HeadView(net, s), ret), c, Reading(HeadView(net, s), ret));
    HeadPairsAre(s, a, b, c);
  }

  lemma HeadPairsAre(s: SetDevice, a: seq<Pair>, b: seq<Pair>, c: seq<Pair>)
    requires DeviceFits(s)
    requires var u := s.dev;
             && a == [Pair("set", "1")] + IfKey(KeyText(PrivateKey), u.privateKey) + IfNum(KeyText(ListenPort), u.listenPort) + IfNum(KeyText(Fwmark), u.fwmark)
             && b == IfText(KeyText(WsListen), u.wsListen) + IfText(KeyText(WsServerCert), u.wsCert)
                     + IfText(KeyText(WsServerKey), u.wsKey) + IfText(KeyText(WsServerBearer), u.wsBearer) + IfText(KeyText(WsProxies), u.wsProxies)
             && c == If(s.replacePeers, "replace_peers", "true")
    ensures HeadPairs(s) == a + b + c
  {
    hide IfKey, IfNum, IfText, If;
  }

  /** The device that the reply describes. */
  function DeviceView(net: Net, s: SetDevice): UDevice {
    HeadView(net, s).(peers := Views(s.peers))
  }

  /** The lines of a request, the line `errno=0` and a blank line, given to the
      reader, describe the device that was written. */
  lemma DeviceReadsBack(net: Net, s: SetDevice)
    requires NetOk(net) && DeviceFits(s) && forall i :: 0 <= i < |s.peers| ==> PeerOk(net, s.peers[i])
    ensures Returned(Run(net, START, LinesOf(SetPairs(net, s) + [Pair(KeyText(Errno), "0")]) + ["\n"])) == Some(DeviceView(net, s))
  {
    hide Run, LinesOf, NetOk, HeadPairs, AllPeerPairs, PeerOk, NameOf, KeyText, Plain, OneLine;
    var d := HeadView(net, s);
    var e := Reading(d, -EPROTO);
    HeadRun(net, -EPROTO, s);
    PeersRun(net, d, -EPROTO, s.peers);
    RunJoin(net, START, HeadPairs(s), e, AllPeerPairs(net, s.peers), Reading(DeviceView(net, s), -EPROTO));
    ErrnoRead(net, DeviceView(net, s), -EPROTO);
    RunJoin(net, START, SetPairs(net, s), Reading(DeviceView(net, s), -EPROTO), [Pair(KeyText(Errno), "0")], Reading(DeviceView(net, s), 0));
    RunAppend(net, START, LinesOf(SetPairs(net, s) + [Pair(KeyText(Errno), "0")]), ["\n"]);
    BlankRead(net, DeviceView(net, s), 0);
  }

  lemma ErrnoRead(net: Net, d: UDevice, ret: int)
    ensures Run(net, Reading(d, ret), LinesOf([Pair(KeyText(Errno), "0")])) == Reading(d, 0)
  {
    hide Run, LinesOf, NameOf, KeyText, Plain;
    NameOfKey(Errno);
    ValuesPlain();
    OnePair(net, d, ret, Pair(KeyText(Errno), "0"));
    assert AllDigits("0") && NumberOf("0") == 0 by { ZeroIs(); }
  }

  lemma ZeroIs()
    ensures AllDigits("0") && NumberOf("0") == 0
  {
    assert "0"[..0] == "";
  }

  lemma BlankRead(net: Net, d: UDevice, ret: int)
    ensures Run(net, Reading(d, ret), ["\n"]) == Done(d, ret)
  {
    IndexNone("\n", '\0');
    assert "\n"[..1] == "\n";
    assert ["\n"][1..] == [];
  }

  // ----- the two sides together -----

  lemma SoundJoin(a: seq<Pair>, b: seq<Pair>)
    requires AllSound(a) && AllSound(b)
    ensures AllSound(a + b)
  {
    hide Sound;
  }

  lemma SoundIf(b: bool, k: string, v: string)
    requires Plain(k) && OneLine(v)
    ensures AllSound(If(b, k, v))
  {
  }

  lemma SoundTextOf(n: Name, o: Option<string>)
    requires n != Unknown && OneLineOpt(o)
    ensures AllSound(IfText(KeyText(n), o))
  {
    hide KeyText, NameOf;
    NameOfKey(n);
  }

  lemma SoundNum(k: string, o: Option<nat>)
    requires Plain(k)
    ensures AllSound(IfNum(k, o))
  {
    hide Dec;
    if o.Some? {
      DecRoundTrip(o.value);
      DigitsOnly(Dec(o.value));
    }
  }

  lemma SoundKey(k: string, o: Option<Bytes>)
    requires Plain(k) && (o.Some? ==> |o.value| == KEY_LEN)
    ensures AllSound(IfKey(k, o))
  {
    hide HexText, HexKey;
    if o.Some? {
      HexTextRoundTrips(o.value);
    }
  }

  lemma HeadSound(s: SetDevice)
    requires DeviceFits(s)
    ensures AllSound(HeadPairs(s))
  {
    hide AllSound, IfKey, IfNum, IfText, If, Plain, NameOf, KeyText, OneLine, PeerFits;
    var u := s.dev;
    var a, b := If(true, "set", "1"), IfKey(KeyText(PrivateKey), u.privateKey);
    var c, d := IfNum(KeyText(ListenPort), u.listenPort), IfNum(KeyText(Fwmark), u.fwmark);
    RequestKeys();
    NameOfKey(PrivateKey);
    NameOfKey(ListenPort);
    NameOfKey(Fwmark);
    ValuesPlain();
    SoundIf(true, "set", "1");
    SoundKey(KeyText(PrivateKey), u.privateKey);
    SoundNum(KeyText(ListenPort), u.listenPort);
    SoundNum(KeyText(Fwmark), u.fwmark);
    SoundJoin(a, b);
    SoundJoin(a + b, c);
    SoundJoin(a + b + c, d);
    WsHeadSound(s);
    var e := IfText(KeyText(WsListen), u.wsListen) + IfText(KeyText(WsServerCert), u.wsCert)
             + IfText(KeyText(WsServerKey), u.wsKey) + IfText(KeyText(WsServerBearer), u.wsBearer) + IfText(KeyText(WsProxies), u.wsProxies);
    var f := If(s.replacePeers, "replace_peers", "true");
    SoundJoin(a + b + c + d, e);
    SoundJoin(a + b + c + d + e, f);
    assert a == [Pair("set", "1")] by { IfYes("set", "1"); }
    HeadPairsAre(s, a + b + c + d, e, f);
  }

  lemma IfYes(k: string, v: string)
    ensures If(true, k, v) == [Pair(k, v)]
  {
  }

  lemma WsHeadSound(s: SetDevice)
    requires DeviceFits(s)
    ensures var u := s.dev;
            && AllSound(IfText(KeyText(WsListen), u.wsListen) + IfText(KeyText(WsServerCert), u.wsCert)
                        + IfText(KeyText(WsServerKey), u.wsKey) + IfText(KeyText(WsServerBearer), u.wsBearer) + IfText(KeyText(WsProxies), u.wsProxies))
            && AllSound(If(s.replacePeers, "replace_peers", "true"))
  {
    hide AllSound, IfText, If, Plain, NameOf, KeyText, OneLine, PeerFits;
    var u := s.dev;
    var a, b := IfText(KeyText(WsListen), u.wsListen), IfText(KeyText(WsServerCert), u.wsCert);
    var c, e, f := IfText(KeyText(WsServerKey), u.wsKey), IfText(KeyText(WsServerBearer), u.wsBearer), IfText(KeyText(WsProxies), u.wsProxies);
    RequestKeys();
    ValuesPlain();
    SoundTextOf(WsListen, u.wsListen);
    SoundTextOf(WsServerCert, u.wsCert);
    SoundTextOf(WsServerKey, u.wsKey);
    SoundTextOf(WsServerBearer, u.wsBearer);
    SoundTextOf(WsProxies, u.wsProxies);
    SoundIf(s.replacePeers, "replace_peers", "true");
    SoundJoin(a, b);
    SoundJoin(a + b, c);
    SoundJoin(a + b + c, e);
    SoundJoin(a + b + c + e, f);
  }

  lemma PeerSound(net: Net, s: SetPeer)
    requires NetOk(net) && PeerOk(net, s)
    ensures AllSound(PeerPairs(net, s))
  {
    hide Sound, NameOf, KeyText, Fold, OptionPairs, IpPairs, NetOk, PeerFits, HexText, Plain;
    PeerReadsBack(net, s);
    OptionFits(s);
    var key := Pair(KeyText(PublicKey), HexText(s.peer.publicKey));
    assert Sound(key) by { SoundPublicKey(s.peer.publicKey); }
    assert AllSound(OptionPairs(net, s) + IpPairs(net, s.ips));
    SoundJoin([key], OptionPairs(net, s) + IpPairs(net, s.ips));
  }

  lemma SoundPublicKey(k: Bytes)
    requires |k| == KEY_LEN
    ensures Sound(Pair(KeyText(PublicKey), HexText(k)))
  {
    hide HexText, HexKey, NameOf, KeyText;
    NameOfKey(PublicKey);
    HexTextRoundTrips(k);
  }

  lemma {:induction false} PeersSound(net: Net, ps: seq<SetPeer>)
    requires NetOk(net) && (forall i :: 0 <= i < |ps| ==> PeerFits(ps[i])) && forall i :: 0 <= i < |ps| ==> PeerOk(net, ps[i])
    ensures AllSound(AllPeerPairs(net, ps))
    decreases |ps|
  {
    hide Sound, NetOk, PeerPairs, PeerFits, PeerOk;
    if ps != [] {
      var n := |ps| - 1;
      PeersSound(net, ps[..n]);
      PeerSound(net, ps[n]);
      SoundJoin(AllPeerPairs(net, ps[..n]), PeerPairs(net, ps[n]));
    }
  }

  lemma TextLines(ps: seq<Pair>)
    requires AllSound(ps)
    ensures Lines(Unlines(TextsOf(ps)) + "\n") == LinesOf(ps) + ["\n"]
  {
    hide Lines, TextOf;
    var ls := TextsOf(ps) + [""];
    forall i | 0 <= i < |ps|
      ensures OneLine(TextsOf(ps)[i])
    {
      SoundText(ps[i]);
    }
    LinesOfUnlines(ls);
    UnlinesAppend(TextsOf(ps), [""]);
    assert Unlines([""]) == "" + "\n" + Unlines([""][1..]) == "\n";
    assert "" + "\n" == "\n";
    assert Terminated(ls) == LinesOf(ps) + ["\n"];
  }

  lemma SoundText(p: Pair)
    requires Sound(p)
    ensures OneLine(TextOf(p))
  {
  }

  /** The reply that repeats a request and reports success. */
  function Echo(net: Net, s: SetDevice): string
    requires DeviceFits(s)
  {
    Unlines(TextsOf(SetPairs(net, s) + [Pair(KeyText(Errno), "0")])) + "\n"
  }

  /** The text that the writer writes, read by the reader, is the device. */
  lemma EchoReadsBack(net: Net, s: SetDevice)
    requires NetOk(net) && DeviceFits(s) && forall i :: 0 <= i < |s.peers| ==> PeerOk(net, s.peers[i])
    ensures Returned(Run(net, START, Lines(Echo(net, s)))) == Some(DeviceView(net, s))
  {
    hide NetOk, HeadPairs, AllPeerPairs, Run, Lines, Unlines, TextsOf, LinesOf, PeerOk, Sound;
    HeadSound(s);
    PeersSound(net, s.peers);
    SoundJoin(HeadPairs(s), AllPeerPairs(net, s.peers));
    assert AllSound([Pair(KeyText(Errno), "0")]) by { SoundErrno(); }
    SoundJoin(SetPairs(net, s), [Pair(KeyText(Errno), "0")]);
    TextLines(SetPairs(net, s) + [Pair(KeyText(Errno), "0")]);
    DeviceReadsBack(net, s);
  }

  lemma SoundErrno()
    ensures AllSound([Pair(KeyText(Errno), "0")])
  {
    hide NameOf, KeyText;
    NameOfKey(Errno);
    ValuesPlain();
  }

  // ----- when nothing is lost -----

  /** The request says all there is to say about the peer: its preshared key is
      not zero, its transport is declared unless it is UDP, a UDP peer has no
      WebSocket settings, and it has no counters. */
  predicate Faithful(s: SetPeer) {
    var u := s.peer;
    && !(u.psk.Some? && AllZero(u.psk.value)) && (u.hasTransport || u.transport == Udp) && (WritesWs(s) || NoWs(u))
    && u.handshakeSec == 0 && u.handshakeNsec == 0 && u.rx == 0 && u.tx == 0
  }

  /** The peer itself, as a reader should see it. */
  function Itself(s: SetPeer): UPeer {
    s.peer.(ips := Ips(s.ips))
  }

  /** A peer written and read back is that peer exactly if it is faithful. */
  lemma ReadsItself(net: Net, s: SetPeer)
    requires NetOk(net) && PeerOk(net, s)
    ensures Fold(net, EmptyPeer(s.peer.publicKey), OptionPairs(net, s) + IpPairs(net, s.ips)) == Some(Itself(s)) <==> Faithful(s)
  {
    hide OptionPairs, IpPairs, NetOk, Fold, PeerNames, PeerFits, Ips;
    PeerReadsBack(net, s);
    ViewIsPeer(s);
  }

  lemma ViewIsPeer(s: SetPeer)
    ensures PeerView(s) == Itself(s) <==> Faithful(s)
  {
  }

  /** A zero preshared key, which asks the daemon to remove the key, is read as none. */
  lemma ZeroKeyIsLost(net: Net, s: SetPeer)
    requires NetOk(net) && PeerOk(net, s) && s.peer.psk == Some(seq(KEY_LEN, i => 0))
    ensures var r := Fold(net, EmptyPeer(s.peer.publicKey), OptionPairs(net, s) + IpPairs(net, s.ips));
            r.Some? && r.value.psk == None && r != Some(Itself(s))
  {
    hide OptionPairs, IpPairs, NetOk, Fold, PeerNames, PeerFits, Ips;
    PeerReadsBack(net, s);
    assert AllZero(s.peer.psk.value);
  }

  function Themselves(ps: seq<SetPeer>): (r: seq<UPeer>)
    ensures |r| == |ps|
  {
    seq(|ps|, i requires 0 <= i < |ps| => Itself(ps[i]))
  }

  /** The text that is written for a device is read as that device exactly if
      every peer is faithful. */
  lemma EchoIsDevice(net: Net, s: SetDevice)
    requires NetOk(net) && DeviceFits(s) && forall i :: 0 <= i < |s.peers| ==> PeerOk(net, s.peers[i])
    ensures Returned(Run(net, START, Lines(Echo(net, s)))) == Some(HeadView(net, s).(peers := Themselves(s.peers))) <==>
            forall i :: 0 <= i < |s.peers| ==> Faithful(s.peers[i])
  {
    hide NetOk, Run, Lines, Echo, PeerOk, DeviceFits, PeerView, Itself, Faithful, HeadView;
    EchoReadsBack(net, s);
    var a, b := Views(s.peers), Themselves(s.peers);
    forall i | 0 <= i < |s.peers|
      ensures a[i] == b[i] <==> Faithful(s.peers[i])
    {
      ViewIsPeer(s.peers[i]);
    }
    if a == b {
      assert forall i :: 0 <= i < |s.peers| ==> a[i] == b[i];
    } else {
      assert exists i :: 0 <= i < |s.peers| && a[i] != b[i];
    }
  }

  // ----- the writer -----

  /** A request with the line that reports success put before its blank line. */
  function AsReply(request: string): string
    requires request != ""
  {
    request[..|request| - 1] + "errno=0\n\n"
  }

  lemma AsReplyIs(net: Net, s: SetDevice)
    requires DeviceFits(s)
    ensures AsReply(Unlines(TextsOf(SetPairs(net, s))) + "\n") == Echo(net, s)
  {
    hide Unlines, TextsOf, SetPairs;
    var ps, e := SetPairs(net, s), [Pair(KeyText(Errno), "0")];
    TextsAppend(ps, e);
    assert Unlines(TextsOf(e)) == "errno=0\n" by { ErrnoText(); }
    var text := Unlines(TextsOf(ps));
    assert (text + "\n")[..|text|] == text;
  }

  lemma ErrnoText()
    ensures Unlines(TextsOf([Pair(KeyText(Errno), "0")])) == "errno=0\n"
  {
    var ls := TextsOf([Pair(KeyText(Errno), "0")]);
    assert ls[0] == "errno" + "=" + "0" == "errno=0";
    assert ls[1..] == [];
  }
}

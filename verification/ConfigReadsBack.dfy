/** A device printed by showconf and parsed again, peer by peer and as a whole. */
module ConfigReadsBack {
  import opened Common
  import opened Letters
  import opened Text
  import opened UapiReader
  import opened UapiWriter
  import opened UapiRoundTrip
  import opened ConfigParser
  import opened ConfigNames
  import opened ShowConf
  import opened ConfigRoundTrip

  // ----- what the parser guarantees of an accepted peer -----

  /** A text that came out of a clean line and is not empty. */
  predicate Fine(o: Option<string>) {
    o.Some? ==> Tight(o.value) && o.value != ""
  }

  /** One that may be empty. */
  predicate Clear(o: Option<string>) {
    o.Some? ==> Tight(o.value)
  }

  predicate NoWsFields(p: CPeer) {
    && p.target.None? && p.bearer.None? && !p.mask && p.tlsCa.None? && p.tlsCert.None? && p.tlsKey.None? && !p.insecure
    && p.ping == 0 && p.backoffMin == 0 && p.backoffMax == 0
  }

  predicate TextsFine(p: CPeer) {
    && Fine(p.wsUrl) && Fine(p.target) && Fine(p.bearer) && Fine(p.tlsCa) && Fine(p.tlsCert) && Fine(p.tlsKey)
    && (p.target.Some? ==> IsTarget(p.target.value))
    && p.ping <= 0xffff_ffff && p.backoffMin <= 0xffff_ffff && p.backoffMax <= 0xffff_ffff
  }

  ghost predicate PeerWell(lib: Lib, p: CPeer) {
    && PeerPrints(p) && IpsRead(lib.net, p.ips) && Interval(p) <= 65535
    && TextsFine(p) && ValidWs(p) && (!p.hasWs ==> NoWsFields(p))
    && (p.wsUrl.Some? ==> IsWsUrl(p.wsUrl.value) && ParseWsEndpoint(lib.net, p.wsUrl.value).Some?)
    && (p.endpoint.Some? ==> SocketReads(lib.net, p.endpoint.value))
  }

  /** The peer that is read back.  An interval of zero is not printed, an entry that
      was to be removed is printed like any other, and the address of a WebSocket
      peer is resolved again from its URL. */
  function Again(net: Net, p: CPeer): CPeer {
    p.(replaceIps := true, ips := Shown(p.ips),
       keepalive := if p.keepalive == Some(0) then None else p.keepalive,
       endpoint := if p.transport == Udp then p.endpoint else if p.wsUrl.Some? then ParseWsEndpoint(net, p.wsUrl.value) else None,
       hasWs := !NoWsFields(p))
  }

  // ----- WebSocket settings -----

  function WsFirst(u: CPeer): seq<string> {
    [Entry(Spelled(KMode), ModeText(u.transport))] + IfValue(Spelled(KEndpoint), u.wsUrl) + IfValue(Spelled(KTarget), u.target)
    + IfValue(Spelled(KBearer), u.bearer)
  }

  function WsSecond(u: CPeer): seq<string> {
    IfTrue(Spelled(KMask), u.mask) + IfValue(Spelled(KTlsCa), u.tlsCa) + IfValue(Spelled(KTlsCert), u.tlsCert) + IfValue(Spelled(KTlsKey), u.tlsKey)
  }

  function WsThird(u: CPeer): seq<string> {
    IfTrue(Spelled(KInsecure), u.insecure) + IfNonZero(Spelled(KPing), u.ping) + IfNonZero(Spelled(KBackoffMin), u.backoffMin)
    + IfNonZero(Spelled(KBackoffMax), u.backoffMax)
  }

  lemma WsLinesAre(u: CPeer)
    ensures WsLines(u) == WsFirst(u) + WsSecond(u) + WsThird(u)
  {
    hide Entry, IfValue, IfTrue, IfNonZero, Spelled;
  }

  function AfterFirst(net: Net, p: CPeer, u: CPeer): CPeer {
    p.(transport := u.transport, endpoint := if u.wsUrl.Some? then ParseWsEndpoint(net, u.wsUrl.value) else p.endpoint,
       wsUrl := u.wsUrl, target := u.target, bearer := u.bearer, hasWs := p.hasWs || u.target.Some? || u.bearer.Some?)
  }

  function AfterSecond(p: CPeer, u: CPeer): CPeer {
    p.(mask := u.mask, tlsCa := u.tlsCa, tlsCert := u.tlsCert, tlsKey := u.tlsKey,
       hasWs := p.hasWs || u.mask || u.tlsCa.Some? || u.tlsCert.Some? || u.tlsKey.Some?)
  }

  function AfterThird(p: CPeer, u: CPeer): CPeer {
    p.(insecure := u.insecure, ping := u.ping, backoffMin := u.backoffMin, backoffMax := u.backoffMax,
       hasWs := p.hasWs || u.insecure || u.ping != 0 || u.backoffMin != 0 || u.backoffMax != 0)
  }

  lemma ModeReads(t: Transport)
    requires t != Udp
    ensures ParseMode(ModeText(t)) == Some(t) && Tight(ModeText(t)) && ModeText(t) != ""
  {
  }

  lemma ModeMoves(lib: Lib, d: CDevice, b: seq<CPeer>, p: CPeer, t: Transport)
    requires t != Udp
    ensures Moves(lib, At(d, b, p), [Entry(Spelled(KMode), ModeText(t))], At(d, b, p.(transport := t)))
  {
    hide Moves, Clean, PeerName, ModeText, Entry, ParseMode, Spelled;
    ModeReads(t);
    CleanTight(ModeText(t));
    PeerMoves(lib, d, b, p, KMode, ModeText(t), p.(transport := t));
  }

  /** A text setting of a peer, and the peer with another. */
  function TextAt(p: CPeer, n: Key): Option<string> {
    match n
    case KTarget => p.target
    case KBearer => p.bearer
    case KTlsCa => p.tlsCa
    case KTlsCert => p.tlsCert
    case _ => p.tlsKey
  }

  function WithText(p: CPeer, n: Key, o: Option<string>): CPeer {
    var q := p.(hasWs := p.hasWs || o.Some?);
    match n
    case KTarget => q.(target := o)
    case KBearer => q.(bearer := o)
    case KTlsCa => q.(tlsCa := o)
    case KTlsCert => q.(tlsCert := o)
    case _ => q.(tlsKey := o)
  }

  lemma TextMoves(lib: Lib, d: CDevice, b: seq<CPeer>, p: CPeer, n: Key, o: Option<string>)
    requires n in {KTarget, KBearer, KTlsCa, KTlsCert, KTlsKey} && TextAt(p, n).None? && Fine(o)
    requires n == KTarget && o.Some? ==> IsTarget(o.value)
    ensures Moves(lib, At(d, b, p), IfValue(Spelled(n), o), At(d, b, WithText(p, n, o)))
  {
    hide Moves, IfValue, IsTarget, At, Tight, PeerName, Spelled;
    PeerMovesIf(lib, d, b, p, n, o, WithText(p, n, o));
  }

  lemma UrlMoves(lib: Lib, d: CDevice, b: seq<CPeer>, p: CPeer, o: Option<string>)
    requires p.wsUrl.None? && Fine(o)
    requires o.Some? ==> IsWsUrl(o.value) && ParseWsEndpoint(lib.net, o.value).Some?
    ensures Moves(lib, At(d, b, p), IfValue(Spelled(KEndpoint), o),
                  At(d, b, p.(wsUrl := o, endpoint := if o.Some? then ParseWsEndpoint(lib.net, o.value) else p.endpoint)))
  {
    hide Moves, IfValue, IsWsUrl, ParseWsEndpoint, At, Tight, PeerName, Spelled;
    PeerMovesIf(lib, d, b, p, KEndpoint, o,
                p.(wsUrl := o, endpoint := if o.Some? then ParseWsEndpoint(lib.net, o.value) else p.endpoint));
  }

  lemma FirstMoves(lib: Lib, d: CDevice, b: seq<CPeer>, p: CPeer, u: CPeer)
    requires p.wsUrl.None? && p.target.None? && p.bearer.None? && u.transport != Udp && TextsFine(u)
    requires u.wsUrl.Some? ==> IsWsUrl(u.wsUrl.value) && ParseWsEndpoint(lib.net, u.wsUrl.value).Some?
    ensures Moves(lib, At(d, b, p), WsFirst(u), At(d, b, AfterFirst(lib.net, p, u)))
  {
    hide Moves, IfValue, Entry, IsWsUrl, ParseWsEndpoint, IsTarget, ModeText, At, Fine, Spelled;
    var p1 := p.(transport := u.transport);
    var p2 := p1.(wsUrl := u.wsUrl, endpoint := if u.wsUrl.Some? then ParseWsEndpoint(lib.net, u.wsUrl.value) else p.endpoint);
    var p3 := p2.(target := u.target, hasWs := p2.hasWs || u.target.Some?);
    var p4 := p3.(bearer := u.bearer, hasWs := p3.hasWs || u.bearer.Some?);
    ModeMoves(lib, d, b, p, u.transport);
    UrlMoves(lib, d, b, p1, u.wsUrl);
    TextMoves(lib, d, b, p2, KTarget, u.target);
    TextMoves(lib, d, b, p3, KBearer, u.bearer);
    var w, x := [Entry(Spelled(KMode), ModeText(u.transport))], IfValue(Spelled(KEndpoint), u.wsUrl);
    var y, z := IfValue(Spelled(KTarget), u.target), IfValue(Spelled(KBearer), u.bearer);
    MovesJoin(lib, At(d, b, p), w, At(d, b, p1), x, At(d, b, p2));
    MovesJoin(lib, At(d, b, p), w + x, At(d, b, p2), y, At(d, b, p3));
    MovesJoin(lib, At(d, b, p), w + x + y, At(d, b, p3), z, At(d, b, p4));
  }

  lemma SecondMoves(lib: Lib, d: CDevice, b: seq<CPeer>, p: CPeer, u: CPeer)
    requires !p.mask && p.tlsCa.None? && p.tlsCert.None? && p.tlsKey.None? && TextsFine(u)
    ensures Moves(lib, At(d, b, p), WsSecond(u), At(d, b, AfterSecond(p, u)))
  {
    hide Moves, IfValue, IfTrue, IsTarget, At, Fine, Spelled, WithText, TextAt;
    var p1 := p.(mask := u.mask, hasWs := p.hasWs || u.mask);
    var p2 := WithText(p1, KTlsCa, u.tlsCa);
    var p3 := WithText(p2, KTlsCert, u.tlsCert);
    var p4 := WithText(p3, KTlsKey, u.tlsKey);
    ThreeTexts(p1, u);
    SwitchMoves(lib, d, b, p, KMask, u.mask, p1);
    TextMoves(lib, d, b, p1, KTlsCa, u.tlsCa);
    TextMoves(lib, d, b, p2, KTlsCert, u.tlsCert);
    TextMoves(lib, d, b, p3, KTlsKey, u.tlsKey);
    var w, x := IfTrue(Spelled(KMask), u.mask), IfValue(Spelled(KTlsCa), u.tlsCa);
    var y, z := IfValue(Spelled(KTlsCert), u.tlsCert), IfValue(Spelled(KTlsKey), u.tlsKey);
    MovesJoin(lib, At(d, b, p), w, At(d, b, p1), x, At(d, b, p2));
    MovesJoin(lib, At(d, b, p), w + x, At(d, b, p2), y, At(d, b, p3));
    MovesJoin(lib, At(d, b, p), w + x + y, At(d, b, p3), z, At(d, b, p4));
  }

  lemma ThreeTexts(p: CPeer, u: CPeer)
    requires p.tlsCa.None? && p.tlsCert.None? && p.tlsKey.None?
    ensures var q := WithText(p, KTlsCa, u.tlsCa);
            var r := WithText(q, KTlsCert, u.tlsCert);
            && TextAt(p, KTlsCa).None? && TextAt(q, KTlsCert).None? && TextAt(r, KTlsKey).None?
            && WithText(r, KTlsKey, u.tlsKey) == p.(tlsCa := u.tlsCa, tlsCert := u.tlsCert, tlsKey := u.tlsKey,
                                                    hasWs := p.hasWs || u.tlsCa.Some? || u.tlsCert.Some? || u.tlsKey.Some?)
  {
  }

  lemma ThirdMoves(lib: Lib, d: CDevice, b: seq<CPeer>, p: CPeer, u: CPeer)
    requires !p.insecure && p.ping == 0 && p.backoffMin == 0 && p.backoffMax == 0 && TextsFine(u)
    ensures Moves(lib, At(d, b, p), WsThird(u), At(d, b, AfterThird(p, u)))
  {
    hide Moves, IfTrue, IfNonZero, IsTarget, At, Fine, ParseBool, ParseMillis, Dec, PeerName, Spelled;
    var p1 := p.(insecure := u.insecure, hasWs := p.hasWs || u.insecure);
    var p2 := p1.(ping := u.ping, hasWs := p1.hasWs || u.ping != 0);
    var p3 := p2.(backoffMin := u.backoffMin, hasWs := p2.hasWs || u.backoffMin != 0);
    var p4 := p3.(backoffMax := u.backoffMax, hasWs := p3.hasWs || u.backoffMax != 0);
    SwitchMoves(lib, d, b, p, KInsecure, u.insecure, p1);
    MillisMoves(lib, d, b, p1, KPing, u.ping, p2);
    MillisMoves(lib, d, b, p2, KBackoffMin, u.backoffMin, p3);
    MillisMoves(lib, d, b, p3, KBackoffMax, u.backoffMax, p4);
    var w, x := IfTrue(Spelled(KInsecure), u.insecure), IfNonZero(Spelled(KPing), u.ping);
    var y, z := IfNonZero(Spelled(KBackoffMin), u.backoffMin), IfNonZero(Spelled(KBackoffMax), u.backoffMax);
    MovesJoin(lib, At(d, b, p), w, At(d, b, p1), x, At(d, b, p2));
    MovesJoin(lib, At(d, b, p), w + x, At(d, b, p2), y, At(d, b, p3));
    MovesJoin(lib, At(d, b, p), w + x + y, At(d, b, p3), z, At(d, b, p4));
  }

  /** One of the two switches. */
  lemma SwitchMoves(lib: Lib, d: CDevice, b: seq<CPeer>, p: CPeer, n: Key, v: bool, q: CPeer)
    requires (n == KMask && !p.mask && q == p.(mask := v, hasWs := p.hasWs || v))
          || (n == KInsecure && !p.insecure && q == p.(insecure := v, hasWs := p.hasWs || v))
    ensures Moves(lib, At(d, b, p), IfTrue(Spelled(n), v), At(d, b, q))
  {
    hide Moves, PeerName, IfTrue, ParseBool, Spelled, At;
    TrueReads();
    TrueMoves(lib, d, b, p, n, v, q);
  }

  /** One of the three times. */
  lemma MillisMoves(lib: Lib, d: CDevice, b: seq<CPeer>, p: CPeer, n: Key, i: nat, q: CPeer)
    requires i <= 0xffff_ffff
    requires (n == KPing && p.ping == 0 && q == p.(ping := i, hasWs := p.hasWs || i != 0))
          || (n == KBackoffMin && p.backoffMin == 0 && q == p.(backoffMin := i, hasWs := p.hasWs || i != 0))
          || (n == KBackoffMax && p.backoffMax == 0 && q == p.(backoffMax := i, hasWs := p.hasWs || i != 0))
    ensures Moves(lib, At(d, b, p), IfNonZero(Spelled(n), i), At(d, b, q))
  {
    hide Moves, PeerName, IfNonZero, ParseMillis, Dec, Spelled, At;
    MillisRoundTrips(i);
    assert Dec(i) != "" by { DecTight(i); }
    NumberMoves(lib, d, b, p, n, i, q);
  }

  lemma WsMoves(lib: Lib, d: CDevice, b: seq<CPeer>, p: CPeer, u: CPeer)
    requires NoWsFields(p) && p.wsUrl.None? && u.transport != Udp && TextsFine(u)
    requires u.wsUrl.Some? ==> IsWsUrl(u.wsUrl.value) && ParseWsEndpoint(lib.net, u.wsUrl.value).Some?
    ensures Moves(lib, At(d, b, p), WsLines(u), At(d, b, AfterThird(AfterSecond(AfterFirst(lib.net, p, u), u), u)))
  {
    hide Moves, WsLines, WsFirst, WsSecond, WsThird, IsWsUrl, ParseWsEndpoint, TextsFine, At;
    var p1 := AfterFirst(lib.net, p, u);
    var p2 := AfterSecond(p1, u);
    WsLinesAre(u);
    FirstMoves(lib, d, b, p, u);
    SecondMoves(lib, d, b, p1, u);
    ThirdMoves(lib, d, b, p2, u);
    MovesJoin(lib, At(d, b, p), WsFirst(u), At(d, b, p1), WsSecond(u), At(d, b, p2));
    MovesJoin(lib, At(d, b, p), WsFirst(u) + WsSecond(u), At(d, b, p2), WsThird(u), At(d, b, AfterThird(p2, u)));
  }

  // ----- the other lines of a peer -----

  lemma SectionTexts()
    ensures Tight("[Peer]") && Tight("[Interface]") && !Same("[Peer]", "[Interface]")
  {
  }

  lemma SectionMoves(lib: Lib, c: Ctx)
    ensures Moves(lib, c, ["[Peer]"], At(c.dev, c.dev.peers, NewPeer()))
    ensures Moves(lib, c, ["[Interface]"], c.(section := InInterface))
  {
    hide Moves, Clean, Same;
    SectionTexts();
    CleanTight("[Peer]");
    CleanTight("[Interface]");
    CleanSeparators();
    CleanAppend("[Peer]", "\n");
    CleanAppend("[Interface]", "\n");
    assert "[Peer]" + "" == "[Peer]" && "[Interface]" + "" == "[Interface]";
    assert Same("[Peer]", "[Peer]") && Same("[Interface]", "[Interface]") by { SameItself("[Peer]"); SameItself("[Interface]"); }
    MovesOne(lib, c, "[Peer]", At(c.dev, c.dev.peers, NewPeer()));
    MovesOne(lib, c, "[Interface]", c.(section := InInterface));
  }

  lemma BlankMoves(lib: Lib, c: Ctx)
    ensures Moves(lib, c, [""], c)
  {
    hide Moves, Clean;
    CleanSeparators();
    assert "" + "\n" == "\n";
    MovesOne(lib, c, "", c);
  }

  lemma KeyMoves(lib: Lib, d: CDevice, b: seq<CPeer>, p: CPeer, key: Bytes)
    requires |key| == KEY_LEN
    ensures Moves(lib, At(d, b, p), [Entry(Spelled(KPublicKey), Base64Text(key))], At(d, b, p.(publicKey := Some(key))))
    ensures Moves(lib, At(d, b, p), [Entry(Spelled(KPresharedKey), Base64Text(key))], At(d, b, p.(psk := Some(key))))
  {
    hide Moves, Clean, PeerName, Base64Text, ParseKey, Entry, Spelled;
    Base64RoundTrips(key);
    CleanTight(Base64Text(key));
    PeerMoves(lib, d, b, p, KPublicKey, Base64Text(key), p.(publicKey := Some(key)));
    PeerMoves(lib, d, b, p, KPresharedKey, Base64Text(key), p.(psk := Some(key)));
  }

  lemma IpsMoves(lib: Lib, d: CDevice, b: seq<CPeer>, p: CPeer, ips: seq<CIp>)
    requires p.ips == [] && p.replaceIps && IpsRead(lib.net, ips)
    ensures Moves(lib, At(d, b, p), if ips != [] then [Entry(Spelled(KAllowedIps), IpsText(lib.net, ips))] else [], At(d, b, p.(ips := Shown(ips))))
  {
    hide Moves, Clean, PeerName, IpsRead, IpText, ParseEntries, Entry, IpsText, Spelled;
    if ips == [] {
      MovesNone(lib, At(d, b, p));
    } else {
      IpsHaveText(lib.net, ips);
      CleanIps(lib.net, ips);
      EntriesRead(lib.net, p, ips);
      CommasNonEmpty(lib.net, ips);
      assert p.(replaceIps := true) == p && p.(ips := [] + Shown(ips)) == p.(ips := Shown(ips));
      PeerMoves(lib, d, b, p, KAllowedIps, IpsText(lib.net, ips), p.(ips := Shown(ips)));
    }
  }

  lemma CommasNonEmpty(net: Net, ips: seq<CIp>)
    requires ips != [] && IpsRead(net, ips) && forall i :: 0 <= i < |ips| ==> IpText(net, ips[i]).Some?
    ensures Commas(net, ips) != ""
  {
    hide IpText, AddressReads, ParseEntry;
    EntryReads(net, ips[0]);
  }

  lemma EndpointMoves(lib: Lib, d: CDevice, b: seq<CPeer>, p: CPeer, u: CPeer)
    requires p.endpoint.None? && (u.endpoint.Some? ==> IsSocket(u.endpoint.value) && SocketReads(lib.net, u.endpoint.value))
    ensures Moves(lib, At(d, b, p), EndpointLines(lib.net, u), At(d, b, p.(endpoint := u.endpoint)))
  {
    hide Moves, PeerName, IsSocket, SocketReads, EndpointText, IfValue, IsWsUrl, ParseEndpoint, Tight, Spelled;
    if u.endpoint.None? {
      MovesNone(lib, At(d, b, p));
    } else {
      EndpointReads(lib.net, u.endpoint.value);
      PeerMovesIf(lib, d, b, p, KEndpoint, EndpointText(lib.net, u.endpoint.value), p.(endpoint := u.endpoint));
    }
  }

  lemma EndpointReads(net: Net, e: Bytes)
    requires IsSocket(e) && SocketReads(net, e)
    ensures var t := EndpointText(net, e);
            && t.Some? && Tight(t.value) && t.value != "" && !IsWsUrl(t.value) && ParseEndpoint(net, t.value) == Some(e)
  {
    hide Index, LastIndex, IsWsUrl;
    EndpointRoundTrips(net, EmptyPeer([]), e);
  }

  lemma KeepaliveMoves(lib: Lib, d: CDevice, b: seq<CPeer>, p: CPeer, u: CPeer)
    requires p.keepalive.None? && Interval(u) <= 65535
    ensures Moves(lib, At(d, b, p), IfNonZero(Spelled(KKeepalive), Interval(u)),
                  At(d, b, p.(keepalive := if u.keepalive == Some(0) then None else u.keepalive)))
  {
    hide Moves, PeerName, Dec, ParseKeepalive, IfNonZero, Spelled, At;
    KeepaliveRoundTrips(Interval(u));
    assert Dec(Interval(u)) != "" by { DecTight(Interval(u)); }
    NumberMoves(lib, d, b, p, KKeepalive, Interval(u), p.(keepalive := if u.keepalive == Some(0) then None else u.keepalive));
  }

  // ----- the whole peer -----

  function KeyLines(net: Net, u: CPeer): seq<string>
    requires PeerPrints(u)
  {
    ["[Peer]", Entry(Spelled(KPublicKey), Base64Text(u.publicKey.value))]
    + (if u.psk.Some? then [Entry(Spelled(KPresharedKey), Base64Text(u.psk.value))] else [])
    + (if u.ips != [] then [Entry(Spelled(KAllowedIps), IpsText(net, u.ips))] else [])
  }

  /** The peer once its keys and allowed IPs were read. */
  function Keyed(u: CPeer): CPeer {
    NewPeer().(publicKey := u.publicKey, psk := u.psk, ips := Shown(u.ips))
  }

  lemma KeyLinesMove(lib: Lib, c: Ctx, u: CPeer)
    requires PeerPrints(u) && IpsRead(lib.net, u.ips)
    ensures Moves(lib, c, KeyLines(lib.net, u), At(c.dev, c.dev.peers, Keyed(u)))
  {
    hide Moves, Entry, Base64Text, IpsText, IsSocket, IpsRead, At, Spelled;
    var d, b := c.dev, c.dev.peers;
    var p := NewPeer();
    var p1 := p.(publicKey := u.publicKey);
    var p2 := p1.(psk := u.psk);
    var w, x := ["[Peer]"], [Entry(Spelled(KPublicKey), Base64Text(u.publicKey.value))];
    var y := if u.psk.Some? then [Entry(Spelled(KPresharedKey), Base64Text(u.psk.value))] else [];
    var z := if u.ips != [] then [Entry(Spelled(KAllowedIps), IpsText(lib.net, u.ips))] else [];
    SectionMoves(lib, c);
    KeyMoves(lib, d, b, p, u.publicKey.value);
    MovesJoin(lib, c, w, At(d, b, p), x, At(d, b, p1));
    if u.psk.Some? {
      KeyMoves(lib, d, b, p1, u.psk.value);
    } else {
      MovesNone(lib, At(d, b, p1));
    }
    MovesJoin(lib, c, w + x, At(d, b, p1), y, At(d, b, p2));
    IpsMoves(lib, d, b, p2, u.ips);
    MovesJoin(lib, c, w + x + y, At(d, b, p2), z, At(d, b, Keyed(u)));
    assert w + x == ["[Peer]", Entry(Spelled(KPublicKey), Base64Text(u.publicKey.value))];
  }

  /** The peer once its endpoint or its WebSocket settings were read. */
  function Connected(net: Net, u: CPeer): CPeer {
    var p := Keyed(u);
    if u.transport == Udp then p.(endpoint := u.endpoint) else AfterThird(AfterSecond(AfterFirst(net, p, u), u), u)
  }

  lemma ConnectedMove(lib: Lib, c: Ctx, u: CPeer)
    requires PeerWell(lib, u)
    ensures Moves(lib, At(c.dev, c.dev.peers, Keyed(u)), if u.transport != Udp then WsLines(u) else EndpointLines(lib.net, u),
                  At(c.dev, c.dev.peers, Connected(lib.net, u)))
  {
    hide Moves, WsLines, EndpointLines, IsSocket, SocketReads, IsWsUrl, ParseWsEndpoint, TextsFine, IpsRead, At;
    if u.transport == Udp {
      EndpointMoves(lib, c.dev, c.dev.peers, Keyed(u), u);
    } else {
      WsMoves(lib, c.dev, c.dev.peers, Keyed(u), u);
    }
  }

  lemma ConnectedIs(lib: Lib, u: CPeer)
    requires PeerWell(lib, u)
    ensures Connected(lib.net, u).(keepalive := if u.keepalive == Some(0) then None else u.keepalive) == Again(lib.net, u)
  {
    hide IsSocket, SocketReads, IsWsUrl, ParseWsEndpoint, TextsFine, IpsRead;
  }

  /** A peer printed and read back. */
  lemma PeerReads(lib: Lib, c: Ctx, u: CPeer)
    requires PeerWell(lib, u)
    ensures Moves(lib, c, PeerLines(lib.net, u), At(c.dev, c.dev.peers, Again(lib.net, u)))
  {
    hide Moves, WsLines, EndpointLines, KeyLines, IsSocket, SocketReads, IsWsUrl, ParseWsEndpoint, TextsFine, IpsRead, At, Keyed, Connected, Again, Entry, Dec, IfNonZero, Spelled;
    var p := Connected(lib.net, u);
    var w, x := KeyLines(lib.net, u), if u.transport != Udp then WsLines(u) else EndpointLines(lib.net, u);
    var y := IfNonZero(Spelled(KKeepalive), Interval(u));
    KeyLinesMove(lib, c, u);
    ConnectedMove(lib, c, u);
    MovesJoin(lib, c, w, At(c.dev, c.dev.peers, Keyed(u)), x, At(c.dev, c.dev.peers, p));
    assert p.keepalive.None? by { NoKeepalive(lib.net, u); }
    KeepaliveMoves(lib, c.dev, c.dev.peers, p, u);
    ConnectedIs(lib, u);
    MovesJoin(lib, c, w + x, At(c.dev, c.dev.peers, p), y, At(c.dev, c.dev.peers, Again(lib.net, u)));
    PeerLinesAre(lib.net, u, w, x, y);
  }

  lemma NoKeepalive(net: Net, u: CPeer)
    ensures Connected(net, u).keepalive.None?
  {
  }

  lemma PeerLinesAre(net: Net, u: CPeer, w: seq<string>, x: seq<string>, y: seq<string>)
    requires PeerPrints(u) && w == KeyLines(net, u) && x == (if u.transport != Udp then WsLines(u) else EndpointLines(net, u))
    requires y == IfNonZero(Spelled(KKeepalive), Interval(u))
    ensures PeerLines(net, u) == w + x + y
  {
    hide WsLines, EndpointLines, Entry, Dec, Base64Text, IpsText, IsSocket, Spelled;
  }

  // ----- all peers -----

  function Agains(net: Net, ps: seq<CPeer>): (r: seq<CPeer>)
    ensures |r| == |ps|
  {
    seq(|ps|, i requires 0 <= i < |ps| => Again(net, ps[i]))
  }

  lemma {:induction false} PeersRead(lib: Lib, c: Ctx, ps: seq<CPeer>)
    requires (forall i :: 0 <= i < |ps| ==> PeerPrints(ps[i])) && forall i :: 0 <= i < |ps| ==> PeerWell(lib, ps[i])
    ensures var e := Ctx(c.dev.(peers := c.dev.peers + Agains(lib.net, ps)), if ps == [] then c.section else InPeer);
            Moves(lib, c, PeersLines(lib.net, ps), e)
    decreases |ps|
  {
    hide Moves, PeerLines, PeerPrints, PeerWell, Again;
    if ps == [] {
      MovesNone(lib, c);
      assert c.dev.peers + Agains(lib.net, ps) == c.dev.peers;
    } else {
      var c1 := At(c.dev, c.dev.peers, Again(lib.net, ps[0]));
      var w, x := PeerLines(lib.net, ps[0]), if |ps| > 1 then [""] else [];
      PeerReads(lib, c, ps[0]);
      if |ps| > 1 { BlankMoves(lib, c1); } else { MovesNone(lib, c1); }
      MovesJoin(lib, c, w, c1, x, c1);
      PeersRead(lib, c1, ps[1..]);
      var e := Ctx(c.dev.(peers := c.dev.peers + Agains(lib.net, ps)), InPeer);
      assert c.dev.peers + [Again(lib.net, ps[0])] + Agains(lib.net, ps[1..]) == c.dev.peers + Agains(lib.net, ps);
      MovesJoin(lib, c, w + x, c1, PeersLines(lib.net, ps[1..]), e);
    }
  }

  // ----- the interface -----

  ghost predicate DeviceWell(lib: Lib, d: CDevice) {
    && d.listenPort <= 0xffff && d.fwmark <= 0xffff_ffff && |d.privateKey| == KEY_LEN
    && Clear(d.wsListen) && Clear(d.wsCert) && Clear(d.wsKey) && Clear(d.wsBearer) && Clear(d.wsProxies)
    && (d.wsListen.Some? && d.wsListen.value != "" ==> IsWsUrl(d.wsListen.value))
    && (forall i :: 0 <= i < |d.peers| ==> PeerWell(lib, d.peers[i]))
  }

  lemma PortMoves(lib: Lib, d: CDevice, n: nat)
    requires LibOk(lib) && d.listenPort == 0 && n <= 0xffff
    ensures Moves(lib, Ctx(d, InInterface), IfNonZero(Spelled(KListenPort), n), Ctx(d.(listenPort := n), InInterface))
  {
    hide Moves, Clean, DeviceName, Dec, Entry, SocketReads, AddressReads, Spelled;
    if n == 0 {
      MovesNone(lib, Ctx(d, InInterface));
    } else {
      DecTight(n);
      DeviceMoves(lib, d, KListenPort, Dec(n), d.(listenPort := n));
    }
  }

  lemma FwmarkMoves(lib: Lib, d: CDevice, n: nat)
    requires d.fwmark == 0 && n <= 0xffff_ffff
    ensures Moves(lib, Ctx(d, InInterface), if n != 0 then [Entry(Spelled(KFwMark), "0x" + HexDec(n))] else [], Ctx(d.(fwmark := n), InInterface))
  {
    hide Moves, Clean, DeviceName, HexDec, Entry, ParseFwmark, Spelled;
    if n == 0 {
      MovesNone(lib, Ctx(d, InInterface));
    } else {
      FwmarkRoundTrips(n);
      DeviceMoves(lib, d, KFwMark, "0x" + HexDec(n), d.(fwmark := n));
    }
  }

  lemma PrivateKeyMoves(lib: Lib, d: CDevice, key: Bytes)
    requires |key| == KEY_LEN
    ensures Moves(lib, Ctx(d, InInterface), [Entry(Spelled(KPrivateKey), Base64Text(key))], Ctx(d.(privateKey := key), InInterface))
  {
    hide Moves, Clean, DeviceName, Base64Text, ParseKey, Entry, Spelled;
    Base64RoundTrips(key);
    CleanTight(Base64Text(key));
    DeviceMoves(lib, d, KPrivateKey, Base64Text(key), d.(privateKey := key));
  }

  function PlainLines(d: CDevice): seq<string>
    requires |d.privateKey| == KEY_LEN
  {
    ["[Interface]"]
    + IfNonZero(Spelled(KListenPort), d.listenPort)
    + (if d.fwmark != 0 then [Entry(Spelled(KFwMark), "0x" + HexDec(d.fwmark))] else [])
    + [Entry(Spelled(KPrivateKey), Base64Text(d.privateKey))]
  }

  function ServerLines(d: CDevice): seq<string> {
    IfValue(Spelled(KWsListen), NonEmpty(d.wsListen)) + IfValue(Spelled(KWsServerCert), NonEmpty(d.wsCert))
    + IfValue(Spelled(KWsServerKey), NonEmpty(d.wsKey)) + IfValue(Spelled(KWsServerBearer), NonEmpty(d.wsBearer))
    + IfValue(Spelled(KWsProxies), NonEmpty(d.wsProxies))
  }

  lemma HeadLinesAre(d: CDevice)
    requires |d.privateKey| == KEY_LEN
    ensures HeadLines(d) == PlainLines(d) + ServerLines(d) + [""]
  {
    hide Entry, Dec, HexDec, Base64Text, IfValue, NonEmpty, Spelled;
  }

  lemma PlainMoves(lib: Lib, u: CDevice)
    requires LibOk(lib) && DeviceWell(lib, u)
    ensures Moves(lib, FRESH, PlainLines(u),
                  Ctx(NewDevice().(listenPort := u.listenPort, fwmark := u.fwmark, privateKey := u.privateKey), InInterface))
  {
    hide Moves, Entry, Dec, HexDec, Base64Text, LibOk, PeerWell, Clear, IsWsUrl, Spelled;
    var d := NewDevice();
    var d1 := d.(listenPort := u.listenPort);
    var d2 := d1.(fwmark := u.fwmark);
    var d3 := d2.(privateKey := u.privateKey);
    var w := ["[Interface]"];
    var x := IfNonZero(Spelled(KListenPort), u.listenPort);
    var y := if u.fwmark != 0 then [Entry(Spelled(KFwMark), "0x" + HexDec(u.fwmark))] else [];
    var z := [Entry(Spelled(KPrivateKey), Base64Text(u.privateKey))];
    SectionMoves(lib, FRESH);
    PortMoves(lib, d, u.listenPort);
    FwmarkMoves(lib, d1, u.fwmark);
    PrivateKeyMoves(lib, d2, u.privateKey);
    MovesJoin(lib, FRESH, w, Ctx(d, InInterface), x, Ctx(d1, InInterface));
    MovesJoin(lib, FRESH, w + x, Ctx(d1, InInterface), y, Ctx(d2, InInterface));
    MovesJoin(lib, FRESH, w + x + y, Ctx(d2, InInterface), z, Ctx(d3, InInterface));
  }

  /** The device that is read back, before its peers: a text that is set and empty
      is not printed. */
  function HeadAgain(d: CDevice): CDevice {
    d.(wsListen := NonEmpty(d.wsListen), wsCert := NonEmpty(d.wsCert), wsKey := NonEmpty(d.wsKey),
       wsBearer := NonEmpty(d.wsBearer), wsProxies := NonEmpty(d.wsProxies), peers := [])
  }

  lemma ServerMoves(lib: Lib, d: CDevice, u: CDevice)
    requires d.wsListen.None? && d.wsCert.None? && d.wsKey.None? && d.wsBearer.None? && d.wsProxies.None? && DeviceWell(lib, u)
    ensures var e := HeadAgain(u);
            Moves(lib, Ctx(d, InInterface), ServerLines(u),
                  Ctx(d.(wsListen := e.wsListen, wsCert := e.wsCert, wsKey := e.wsKey, wsBearer := e.wsBearer, wsProxies := e.wsProxies), InInterface))
  {
    hide Moves, IfValue, PeerWell, IsWsUrl, Tight, DeviceName, Spelled;
    var d1 := d.(wsListen := NonEmpty(u.wsListen));
    var d2 := d1.(wsCert := NonEmpty(u.wsCert));
    var d3 := d2.(wsKey := NonEmpty(u.wsKey));
    var d4 := d3.(wsBearer := NonEmpty(u.wsBearer));
    var d5 := d4.(wsProxies := NonEmpty(u.wsProxies));
    var v, w := IfValue(Spelled(KWsListen), NonEmpty(u.wsListen)), IfValue(Spelled(KWsServerCert), NonEmpty(u.wsCert));
    var x, y := IfValue(Spelled(KWsServerKey), NonEmpty(u.wsKey)), IfValue(Spelled(KWsServerBearer), NonEmpty(u.wsBearer));
    var z := IfValue(Spelled(KWsProxies), NonEmpty(u.wsProxies));
    DeviceMovesIf(lib, d, KWsListen, NonEmpty(u.wsListen), d1);
    DeviceMovesIf(lib, d1, KWsServerCert, NonEmpty(u.wsCert), d2);
    DeviceMovesIf(lib, d2, KWsServerKey, NonEmpty(u.wsKey), d3);
    DeviceMovesIf(lib, d3, KWsServerBearer, NonEmpty(u.wsBearer), d4);
    DeviceMovesIf(lib, d4, KWsProxies, NonEmpty(u.wsProxies), d5);
    MovesJoin(lib, Ctx(d, InInterface), v, Ctx(d1, InInterface), w, Ctx(d2, InInterface));
    MovesJoin(lib, Ctx(d, InInterface), v + w, Ctx(d2, InInterface), x, Ctx(d3, InInterface));
    MovesJoin(lib, Ctx(d, InInterface), v + w + x, Ctx(d3, InInterface), y, Ctx(d4, InInterface));
    MovesJoin(lib, Ctx(d, InInterface), v + w + x + y, Ctx(d4, InInterface), z, Ctx(d5, InInterface));
  }

  lemma HeadMoves(lib: Lib, u: CDevice)
    requires LibOk(lib) && DeviceWell(lib, u)
    ensures Moves(lib, FRESH, HeadLines(u), Ctx(HeadAgain(u), InInterface))
  {
    hide Moves, PlainLines, ServerLines, HeadLines, LibOk, PeerWell, Clear, IsWsUrl, NonEmpty;
    var d := NewDevice().(listenPort := u.listenPort, fwmark := u.fwmark, privateKey := u.privateKey);
    var e := Ctx(HeadAgain(u), InInterface);
    HeadLinesAre(u);
    PlainMoves(lib, u);
    ServerMoves(lib, d, u);
    BlankMoves(lib, e);
    MovesJoin(lib, FRESH, PlainLines(u), Ctx(d, InInterface), ServerLines(u), e);
    MovesJoin(lib, FRESH, PlainLines(u) + ServerLines(u), e, [""], e);
  }

  // ----- the whole device -----

  lemma WellPrints(lib: Lib, d: CDevice)
    requires DeviceWell(lib, d)
    ensures DevicePrints(d)
  {
    hide Clear, IsWsUrl, IsSocket, IpsRead, TextsFine, SocketReads, ParseWsEndpoint;
    forall i | 0 <= i < |d.peers|
      ensures PeerPrints(d.peers[i])
    {
      assert PeerWell(lib, d.peers[i]);
    }
  }

  function DeviceAgain(net: Net, d: CDevice): CDevice {
    HeadAgain(d).(peers := Agains(net, d.peers))
  }

  /** The printed lines lead the parser to the device. */
  lemma LinesRead(lib: Lib, d: CDevice)
    requires LibOk(lib) && DeviceWell(lib, d) && DevicePrints(d)
    ensures Unbroken(ShowLines(lib.net, d))
    ensures var c := ReadLines(lib, FRESH, Terminated(ShowLines(lib.net, d))); c.Some? && c.value.dev == DeviceAgain(lib.net, d)
  {
    hide ReadLines, HeadLines, PeersLines, LibOk, PeerWell, PeerPrints, Clear, IsWsUrl;
    var c := Ctx(HeadAgain(d), InInterface);
    HeadMoves(lib, d);
    PeersRead(lib, c, d.peers);
    assert [] + Agains(lib.net, d.peers) == Agains(lib.net, d.peers);
    MovesJoin(lib, FRESH, HeadLines(d), c, PeersLines(lib.net, d.peers),
              Ctx(DeviceAgain(lib.net, d), if d.peers == [] then InInterface else InPeer));
  }

  lemma AgainFinished(lib: Lib, d: CDevice)
    requires DeviceWell(lib, d)
    ensures Finished(DeviceAgain(lib.net, d))
  {
    hide Clear, IsWsUrl, IsSocket, IpsRead, SocketReads, ParseWsEndpoint;
    forall i | 0 <= i < |d.peers|
      ensures Again(lib.net, d.peers[i]).publicKey.Some? && ValidWs(Again(lib.net, d.peers[i]))
    {
      assert PeerWell(lib, d.peers[i]);
    }
  }

  /** A well-formed device, printed and parsed. */
  lemma DeviceReads(lib: Lib, d: CDevice)
    requires LibOk(lib) && DeviceWell(lib, d)
    ensures DevicePrints(d) && Parse(lib, Unlines(ShowLines(lib.net, d))) == Some(DeviceAgain(lib.net, d))
  {
    hide LibOk, DeviceWell, DevicePrints, ShowLines, ReadLines, Finished, Lines, Unlines;
    WellPrints(lib, d);
    LinesRead(lib, d);
    LinesOfUnlines(ShowLines(lib.net, d));
    AgainFinished(lib, d);
  }

  /** showconf_main, from the device on.  Parsed, its text is the device again. */
  method ShowDevice(lib: Lib, d: CDevice) returns (out: string)
    requires DevicePrints(d)
    ensures out == Unlines(ShowLines(lib.net, d))
    ensures LibOk(lib) && DeviceWell(lib, d) ==> Parse(lib, out) == Some(DeviceAgain(lib.net, d))
  {
    hide HeadLines, PeerLines, PeerPrints, LibOk, DeviceWell, Parse, DeviceAgain;
    out := PrintLines(HeadLines(d));
    var i := 0;
    assert d.peers[0..] == d.peers;
    while i < |d.peers|
      invariant 0 <= i <= |d.peers|
      invariant out + Unlines(PeersLines(lib.net, d.peers[i..])) == Unlines(HeadLines(d)) + Unlines(PeersLines(lib.net, d.peers))
    {
      var ls := PeerLines(lib.net, d.peers[i]) + if i + 1 < |d.peers| then [""] else [];
      var text := PrintLines(ls);
      out := out + text;
      assert d.peers[i..][1..] == d.peers[i + 1..];
      UnlinesAppend(ls, PeersLines(lib.net, d.peers[i + 1..]));
      i := i + 1;
    }
    UnlinesAppend(HeadLines(d), PeersLines(lib.net, d.peers));
    assert out == Unlines(ShowLines(lib.net, d));
    if LibOk(lib) && DeviceWell(lib, d) {
      DeviceReads(lib, d);
    }
  }
}

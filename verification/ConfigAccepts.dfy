/** Whatever file is parsed: an accepted device is one that showconf can print and
    the parser reads back. */
module ConfigAccepts {
  import opened Common
  import opened Letters
  import opened Text
  import opened KeyCodec
  import opened UapiReader
  import opened ConfigParser
  import opened ConfigNames
  import opened ShowConf
  import opened ConfigRoundTrip
  import opened ConfigReadsBack

  lemma {:induction false} CleanIsTight(s: string)
    ensures Tight(Clean(s))
  {
    if s != "" && s[0] != '#' {
      CleanIsTight(s[1..]);
    }
  }

  predicate IpInv(i: CIp) {
    (i.ip.family == AF_INET && |i.ip.addr| == 4 && i.ip.cidr <= 32) || (i.ip.family == AF_INET6 && |i.ip.addr| == 16 && i.ip.cidr <= 128)
  }

  /** What every line keeps of every peer. */
  ghost predicate PeerInv(lib: Lib, p: CPeer) {
    && (p.publicKey.Some? ==> |p.publicKey.value| == KEY_LEN) && (p.psk.Some? ==> |p.psk.value| == KEY_LEN)
    && (p.endpoint.Some? ==> IsSocket(p.endpoint.value) && SocketReads(lib.net, p.endpoint.value))
    && (forall i :: 0 <= i < |p.ips| ==> IpInv(p.ips[i]))
    && Interval(p) <= 65535 && TextsFine(p) && (!p.hasWs ==> NoWsFields(p))
    && (p.wsUrl.Some? ==> IsWsUrl(p.wsUrl.value) && ParseWsEndpoint(lib.net, p.wsUrl.value).Some?)
  }

  ghost predicate DeviceInv(lib: Lib, d: CDevice) {
    && d.listenPort <= 0xffff && d.fwmark <= 0xffff_ffff && |d.privateKey| == KEY_LEN
    && Clear(d.wsListen) && Clear(d.wsCert) && Clear(d.wsKey) && Clear(d.wsBearer) && Clear(d.wsProxies)
    && (d.wsListen.Some? && d.wsListen.value != "" ==> IsWsUrl(d.wsListen.value))
    && (forall i :: 0 <= i < |d.peers| ==> PeerInv(lib, d.peers[i]))
  }

  // ----- values -----

  lemma EntryInv(lib: Lib, t: string)
    requires LibOk(lib) && ParseEntry(lib.net, t).Some?
    ensures IpInv(CIp(ParseEntry(lib.net, t).value, false)) && IpInv(CIp(ParseEntry(lib.net, t).value, true))
  {
    hide SocketReads, AddressReads, Index, Dec, IsSocket;
  }

  lemma {:induction false} EntriesInv(lib: Lib, p: CPeer, v: string)
    requires LibOk(lib) && (forall i :: 0 <= i < |p.ips| ==> IpInv(p.ips[i])) && ParseEntries(lib.net, p, v).Some?
    ensures var q := ParseEntries(lib.net, p, v).value;
            q == p.(ips := q.ips, replaceIps := q.replaceIps) && forall i :: 0 <= i < |q.ips| ==> IpInv(q.ips[i])
    decreases |v|
  {
    hide LibOk, ParseEntry, Index, IpInv;
    var k := Index(v, ',');
    var e := v[..k];
    var sign := e != "" && (e[0] == '-' || e[0] == '+');
    EntryInv(lib, if sign then e[1..] else e);
    if k < |v| {
      var ip := ParseEntry(lib.net, if sign then e[1..] else e).value;
      EntriesInv(lib, p.(ips := p.ips + [CIp(ip, e != "" && e[0] == '-')], replaceIps := p.replaceIps && !sign), v[k + 1..]);
    }
  }

  lemma EndpointInv(lib: Lib, v: string)
    requires LibOk(lib) && ParseEndpoint(lib.net, v).Some?
    ensures var e := ParseEndpoint(lib.net, v).value; IsSocket(e) && SocketReads(lib.net, e)
  {
    hide SocketReads, AddressReads, HostService, Dec, IsSocket;
  }

  lemma EndpointLineInv(lib: Lib, p: CPeer, v: string)
    requires LibOk(lib) && PeerInv(lib, p) && Tight(v) && v != "" && EndpointLine(lib.net, p, v).Some?
    ensures PeerInv(lib, EndpointLine(lib.net, p, v).value)
  {
    hide LibOk, SocketReads, IsWsUrl, SplitWsUrl, IsTarget, ParseEndpoint, IpInv, IsSocket;
    if IsWsUrl(v) {
      var hp := SplitWsUrl(v).value;
      EndpointInv(lib, if ':' in hp.0 then "[" + hp.0 + "]:" + hp.1 else hp.0 + ":" + hp.1);
    } else {
      EndpointInv(lib, v);
    }
  }

  lemma PeerLineInv(lib: Lib, p: CPeer, n: Key, v: string)
    requires LibOk(lib) && PeerInv(lib, p) && Tight(v) && PeerLine(lib, p, n, v).Some?
    ensures PeerInv(lib, PeerLine(lib, p, n, v).value)
  {
    hide LibOk, SocketReads, IsWsUrl, ParseWsEndpoint, IsTarget, IpInv, IsSocket, EndpointLine, ParseEntries, Canonical, Decoded, Tight, Same, NumberOf, AllDigits;
    if n == KEndpoint {
      EndpointLineInv(lib, p, v);
    } else if n == KAllowedIps {
      EntriesInv(lib, p.(replaceIps := true), v);
    }
  }

  lemma DeviceLineInv(lib: Lib, d: CDevice, n: Key, v: string)
    requires DeviceInv(lib, d) && Tight(v) && DeviceLine(lib, d, n, v).Some?
    ensures DeviceInv(lib, DeviceLine(lib, d, n, v).value)
  {
    hide PeerInv, IsWsUrl, Canonical, Decoded, Tight, Same, NumberOf, AllDigits, HexNumber, AllHex;
  }

  lemma NewPeerInv(lib: Lib)
    ensures PeerInv(lib, NewPeer())
  {
  }

  lemma ProcessInv(lib: Lib, c: Ctx, line: string)
    requires LibOk(lib) && DeviceInv(lib, c.dev) && Tight(line) && ProcessLine(lib, c, line).Some?
    ensures DeviceInv(lib, ProcessLine(lib, c, line).value.dev)
  {
    hide LibOk, PeerInv, PeerLine, DeviceLine, PeerName, DeviceName, Same, Index, Clear, IsWsUrl, NewPeer;
    NewPeerInv(lib);
    var k := Index(line, '=');
    if k < |line| {
      var v := line[k + 1..];
      assert Tight(v);
      if c.section == InInterface {
        if DeviceLine(lib, c.dev, DeviceName(line[..k]), v).Some? {
          DeviceLineInv(lib, c.dev, DeviceName(line[..k]), v);
        }
      } else if c.section == InPeer && c.dev.peers != [] {
        var p := c.dev.peers[|c.dev.peers| - 1];
        if PeerLine(lib, p, PeerName(line[..k]), v).Some? {
          PeerLineInv(lib, p, PeerName(line[..k]), v);
        }
      }
    }
  }

  lemma {:induction false} ReadInv(lib: Lib, c: Ctx, ls: seq<string>)
    requires LibOk(lib) && DeviceInv(lib, c.dev) && ReadLines(lib, c, ls).Some?
    ensures DeviceInv(lib, ReadLines(lib, c, ls).value.dev)
    decreases |ls|
  {
    hide LibOk, DeviceInv, ProcessLine, Clean, Tight;
    if ls != [] {
      CleanIsTight(ls[0]);
      if Clean(ls[0]) != "" {
        ProcessInv(lib, c, Clean(ls[0]));
      }
      ReadInv(lib, ReadLine(lib, c, ls[0]).value, ls[1..]);
    }
  }

  lemma FreshInv(lib: Lib)
    ensures DeviceInv(lib, FRESH.dev)
  {
  }

  // ----- the main statement -----

  lemma InvIsWell(lib: Lib, p: CPeer)
    requires LibOk(lib) && PeerInv(lib, p) && p.publicKey.Some? && ValidWs(p)
    ensures PeerWell(lib, p)
  {
    hide SocketReads, AddressReads, IsWsUrl, ParseWsEndpoint, TextsFine, IsSocket, Dec, ValidWs;
    forall i | 0 <= i < |p.ips|
      ensures IpReads(p.ips[i]) && AddressReads(lib.net, p.ips[i].ip.family, p.ips[i].ip.addr)
    {
      assert IpInv(p.ips[i]);
    }
  }

  lemma AcceptedIsWell(lib: Lib, text: string, d: CDevice)
    requires LibOk(lib) && Parse(lib, text) == Some(d)
    ensures DeviceWell(lib, d) && Finished(d)
  {
    hide LibOk, PeerInv, PeerWell, ReadLines, Lines, Clear, IsWsUrl, ValidWs;
    FreshInv(lib);
    ReadInv(lib, FRESH, Lines(text));
    forall i | 0 <= i < |d.peers|
      ensures PeerWell(lib, d.peers[i])
    {
      InvIsWell(lib, d.peers[i]);
    }
  }

  /** Any accepted file: what showconf prints of its device is accepted, and gives
      the device again, as far as showconf prints it. */
  lemma ShowConfRoundTrip(lib: Lib, text: string, d: CDevice)
    requires LibOk(lib) && Parse(lib, text) == Some(d)
    ensures DevicePrints(d) && Parse(lib, Unlines(ShowLines(lib.net, d))) == Some(DeviceAgain(lib.net, d))
  {
    hide LibOk, DeviceWell, DevicePrints, ShowLines, Parse, Unlines, Finished;
    AcceptedIsWell(lib, text, d);
    DeviceReads(lib, d);
  }

  // ----- what is lost -----

  /** Nothing of the peer is lost: no allowed IP is removed or was added with a sign,
      the interval is not set to zero, no WebSocket setting was given its default,
      and the address of a WebSocket peer is that of its URL. */
  predicate PeerSurvives(net: Net, p: CPeer) {
    && p.replaceIps && (forall i :: 0 <= i < |p.ips| ==> !p.ips[i].remove)
    && p.keepalive != Some(0) && (p.hasWs ==> !NoWsFields(p))
    && (p.transport != Udp && p.wsUrl.Some? ==> p.endpoint == ParseWsEndpoint(net, p.wsUrl.value))
  }

  /** Nor of the device: no text is set to be empty. */
  predicate Survives(net: Net, d: CDevice) {
    && d.wsListen != Some("") && d.wsCert != Some("") && d.wsKey != Some("") && d.wsBearer != Some("") && d.wsProxies != Some("")
    && forall i :: 0 <= i < |d.peers| ==> PeerSurvives(net, d.peers[i])
  }

  lemma PeerAgain(lib: Lib, p: CPeer)
    requires PeerWell(lib, p)
    ensures Again(lib.net, p) == p <==> PeerSurvives(lib.net, p)
  {
    hide PeerPrints, IpsRead, TextsFine, SocketReads, IsWsUrl, ParseWsEndpoint;
    ShownSame(p.ips);
  }

  lemma ShownSame(ips: seq<CIp>)
    ensures Shown(ips) == ips <==> forall i :: 0 <= i < |ips| ==> !ips[i].remove
  {
    if Shown(ips) == ips {
      assert forall i :: 0 <= i < |ips| ==> ips[i] == Shown(ips)[i];
    } else {
      assert exists i :: 0 <= i < |ips| && ips[i] != Shown(ips)[i];
    }
  }

  /** Showing and parsing again gives the very device exactly if it survives. */
  lemma SameAgain(lib: Lib, text: string, d: CDevice)
    requires LibOk(lib) && Parse(lib, text) == Some(d)
    ensures DevicePrints(d) && (Parse(lib, Unlines(ShowLines(lib.net, d))) == Some(d) <==> Survives(lib.net, d))
  {
    hide LibOk, PeerWell, DevicePrints, ShowLines, Parse, Unlines, Finished, Again, PeerSurvives, Clear, IsWsUrl;
    AcceptedIsWell(lib, text, d);
    ShowConfRoundTrip(lib, text, d);
    var a, b := d.peers, Agains(lib.net, d.peers);
    forall i | 0 <= i < |a|
      ensures a[i] == b[i] <==> PeerSurvives(lib.net, a[i])
    {
      PeerAgain(lib, a[i]);
    }
    if a == b {
      assert forall i :: 0 <= i < |a| ==> a[i] == b[i];
    } else {
      assert exists i :: 0 <= i < |a| && a[i] != b[i];
    }
  }

  /** A text that is lost: WSListen set to be empty, which clears the listener. */
  lemma EmptyListenIsLost(lib: Lib)
    requires LibOk(lib)
    ensures var text := Unlines(["[Interface]", Entry(Spelled(KWsListen), "")]);
            var d := NewDevice().(wsListen := Some(""));
            Parse(lib, text) == Some(d) && Parse(lib, Unlines(ShowLines(lib.net, d))) == Some(NewDevice())
  {
    hide LibOk, Moves, Entry, Spelled, ShowLines, DevicePrints, Unlines;
    var d := NewDevice().(wsListen := Some(""));
    var w, x := ["[Interface]"], [Entry(Spelled(KWsListen), "")];
    SectionMoves(lib, FRESH);
    CleanTight("");
    DeviceMoves(lib, NewDevice(), KWsListen, "", d);
    MovesJoin(lib, FRESH, w, Ctx(NewDevice(), InInterface), x, Ctx(d, InInterface));
    assert w + x == ["[Interface]", Entry(Spelled(KWsListen), "")];
    MovesParse(lib, w + x, Ctx(d, InInterface));
    ShowConfRoundTrip(lib, Unlines(w + x), d);
    assert Agains(lib.net, []) == [];
  }

  lemma MovesParse(lib: Lib, ls: seq<string>, c: Ctx)
    requires Moves(lib, FRESH, ls, c) && Finished(c.dev)
    ensures Parse(lib, Unlines(ls)) == Some(c.dev)
  {
    hide ReadLines, Lines, Unlines, Finished;
    LinesOfUnlines(ls);
  }

  /** Another: an interval that is switched off, which the kernel is to be told. */
  lemma KeepaliveOffIsLost(lib: Lib, key: Bytes)
    requires LibOk(lib) && |key| == KEY_LEN
    ensures var text := Unlines(["[Peer]", Entry(Spelled(KPublicKey), Base64Text(key)), Entry(Spelled(KKeepalive), "off")]);
            var p := NewPeer().(publicKey := Some(key));
            var d := NewDevice().(peers := [p.(keepalive := Some(0))]);
            && Parse(lib, text) == Some(d) && DevicePrints(d)
            && Parse(lib, Unlines(ShowLines(lib.net, d))) == Some(NewDevice().(peers := [p]))
  {
    hide LibOk, Moves, Entry, Spelled, ShowLines, Unlines, Base64Text, ParseKeepalive, Clean, At;
    var p := NewPeer().(publicKey := Some(key));
    var q := p.(keepalive := Some(0));
    var d := NewDevice().(peers := [q]);
    var w, x, y := ["[Peer]"], [Entry(Spelled(KPublicKey), Base64Text(key))], [Entry(Spelled(KKeepalive), "off")];
    var c := FRESH.dev;
    SectionMoves(lib, FRESH);
    KeyMoves(lib, c, c.peers, NewPeer(), key);
    FwmarkReads(0);
    CleanTight("off");
    PeerMoves(lib, c, c.peers, p, KKeepalive, "off", q);
    MovesJoin(lib, FRESH, w, At(c, c.peers, NewPeer()), x, At(c, c.peers, p));
    MovesJoin(lib, FRESH, w + x, At(c, c.peers, p), y, At(c, c.peers, q));
    assert w + x + y == ["[Peer]", Entry(Spelled(KPublicKey), Base64Text(key)), Entry(Spelled(KKeepalive), "off")];
    assert At(c, c.peers, q).dev == d by { AtFresh(q); }
    MovesParse(lib, w + x + y, At(c, c.peers, q));
    ShowConfRoundTrip(lib, Unlines(w + x + y), d);
    assert Agains(lib.net, [q]) == [p] by { OffAgain(lib.net, p); }
  }

  lemma AtFresh(p: CPeer)
    ensures At(FRESH.dev, [], p).dev == NewDevice().(peers := [p])
  {
    assert [] + [p] == [p];
  }

  lemma OffAgain(net: Net, p: CPeer)
    requires p == NewPeer().(publicKey := p.publicKey)
    ensures Agains(net, [p.(keepalive := Some(0))]) == [p]
  {
    assert Shown([]) == [];
  }
}

/** The lines that a configuration file may hold (src/config.c), by the very text of
    their keys and values: what each makes of the device, and what is refused. */
module ConfigForms {
  import opened Letters
  import opened Text
  import opened Common
  import opened UapiReader
  import opened ConfigParser
  import opened ConfigNames

  // ----- the key of a line -----

  lemma LineSplits(lib: Lib, c: Ctx, k: string, v: string)
    requires '=' !in k
    ensures var line := k + "=" + v;
            && !Same(line, "[Interface]") && !Same(line, "[Peer]")
            && Index(line, '=') == |k| < |line| && line[..|k|] == k && line[|k| + 1..] == v
  {
    hide Index;
    var line := k + "=" + v;
    IndexOf(k, '=', v);
    assert line[|k|] == '=';
    NoEquals(line, |k|);
  }

  lemma NoEquals(line: string, i: nat)
    requires i < |line| && line[i] == '='
    ensures !Same(line, "[Interface]") && !Same(line, "[Peer]")
  {
  }

  /** A line of the interface section. */
  function InterfaceLine(lib: Lib, d: CDevice, k: string, v: string): Option<Ctx> {
    ProcessLine(lib, Ctx(d, InInterface), k + "=" + v)
  }

  function DeviceIf(ok: bool, d: CDevice): Option<Ctx> {
    if ok then Some(Ctx(d, InInterface)) else None
  }

  lemma InterfaceLineIs(lib: Lib, d: CDevice, n: Key, k: string, v: string)
    requires '=' !in k && InDeviceSection(n) && Same(k, Spelled(n))
    ensures InterfaceLine(lib, d, k, v) == var r := DeviceLine(lib, d, n, v); if r.None? then None else Some(Ctx(r.value, InInterface))
  {
    hide DeviceLine, Index, Same;
    LineSplits(lib, Ctx(d, InInterface), k, v);
    DeviceNameOf(n, k);
  }

  lemma DeviceNameOf(n: Key, k: string)
    requires InDeviceSection(n) && Same(k, Spelled(n))
    ensures DeviceName(k) == n
  {
    hide Same;
    DeviceNamed(n);
    SameLength(k, Spelled(n));
    SameTwice(k, Spelled(n), "FwMark");
    SameTwice(k, Spelled(n), "WSListen");
    SameTwice(k, Spelled(n), "ListenPort");
    SameTwice(k, Spelled(n), "PrivateKey");
    SameTwice(k, Spelled(n), "WSServerTLSKey");
    SameTwice(k, Spelled(n), "WSServerBearer");
    SameTwice(k, Spelled(n), "WSServerTLSCert");
    SameTwice(k, Spelled(n), "WSTrustedProxies");
  }

  // ----- the interface section -----

  /** Keys in any case.  The texts of the WebSocket server may be empty. */
  lemma ServerLines(lib: Lib, d: CDevice, k: string, v: string)
    requires '=' !in k
    ensures Same(k, "WSServerTLSCert") ==> InterfaceLine(lib, d, k, v) == DeviceIf(true, d.(wsCert := Some(v)))
    ensures Same(k, "WSServerTLSKey") ==> InterfaceLine(lib, d, k, v) == DeviceIf(true, d.(wsKey := Some(v)))
    ensures Same(k, "WSServerBearer") ==> InterfaceLine(lib, d, k, v) == DeviceIf(true, d.(wsBearer := Some(v)))
    ensures Same(k, "WSTrustedProxies") ==> InterfaceLine(lib, d, k, v) == DeviceIf(true, d.(wsProxies := Some(v)))
    ensures Same(k, "WSListen") ==> InterfaceLine(lib, d, k, v) == DeviceIf(v == "" || IsWsUrl(v), d.(wsListen := Some(v)))
  {
    hide Same, InterfaceLine, IsWsUrl;
    if Same(k, "WSServerTLSCert") { InterfaceLineIs(lib, d, KWsServerCert, k, v); }
    if Same(k, "WSServerTLSKey") { InterfaceLineIs(lib, d, KWsServerKey, k, v); }
    if Same(k, "WSServerBearer") { InterfaceLineIs(lib, d, KWsServerBearer, k, v); }
    if Same(k, "WSTrustedProxies") { InterfaceLineIs(lib, d, KWsProxies, k, v); }
    if Same(k, "WSListen") { InterfaceLineIs(lib, d, KWsListen, k, v); }
  }

  lemma InterfaceLines(lib: Lib, d: CDevice, k: string, v: string)
    requires '=' !in k
    ensures Same(k, "ListenPort") ==>
              var p := lib.port(v);
              InterfaceLine(lib, d, k, v) ==
              DeviceIf(v != "" && p.Some? && p.value <= 65535, d.(listenPort := if p.Some? then p.value else 0))
    ensures Same(k, "PrivateKey") ==>
              var b := ParseKey(v);
              InterfaceLine(lib, d, k, v) == DeviceIf(b.Some?, d.(privateKey := if b.Some? then b.value else []))
    ensures Same(k, "FwMark") ==>
              var m := ParseFwmark(v);
              InterfaceLine(lib, d, k, v) == DeviceIf(m.Some?, d.(fwmark := if m.Some? then m.value else 0))
  {
    hide Same, InterfaceLine, ParseKey, ParseFwmark;
    if Same(k, "ListenPort") { InterfaceLineIs(lib, d, KListenPort, k, v); }
    if Same(k, "PrivateKey") { InterfaceLineIs(lib, d, KPrivateKey, k, v); }
    if Same(k, "FwMark") { InterfaceLineIs(lib, d, KFwMark, k, v); }
  }

  const INTERFACE_KEYS := ["ListenPort", "FwMark", "PrivateKey", "WSListen", "WSServerTLSCert", "WSServerTLSKey", "WSServerBearer",
                           "WSTrustedProxies"]

  /** Any other key is refused in this section. */
  lemma OtherInterfaceLine(lib: Lib, d: CDevice, k: string, v: string)
    requires '=' !in k && !Among(k, INTERFACE_KEYS)
    ensures InterfaceLine(lib, d, k, v).None?
  {
    hide Same, Index;
    LineSplits(lib, Ctx(d, InInterface), k, v);
    var ns := INTERFACE_KEYS;
    assert ns[0] == "ListenPort" && ns[1] == "FwMark" && ns[2] == "PrivateKey" && ns[3] == "WSListen";
    assert ns[4] == "WSServerTLSCert" && ns[5] == "WSServerTLSKey" && ns[6] == "WSServerBearer" && ns[7] == "WSTrustedProxies";
    assert DeviceName(k) == KUnknown;
  }

  // ----- a peer section -----

  /** The context whose current peer is `p`. */
  function InThe(d: CDevice, before: seq<CPeer>, p: CPeer): Ctx {
    Ctx(d.(peers := before + [p]), InPeer)
  }

  function PeerIf(ok: bool, d: CDevice, before: seq<CPeer>, p: CPeer): Option<Ctx> {
    if ok then Some(InThe(d, before, p)) else None
  }

  function SectionLine(lib: Lib, d: CDevice, before: seq<CPeer>, p: CPeer, k: string, v: string): Option<Ctx> {
    ProcessLine(lib, InThe(d, before, p), k + "=" + v)
  }

  lemma PeerNameOf(n: Key, k: string)
    requires InPeerSection(n) && Same(k, Spelled(n))
    ensures PeerName(k) == n
  {
    hide Same;
    PeerNamed(n);
    var s := Spelled(n);
    SameLength(k, s);
    SameTwice(k, s, "WSMode");
    SameTwice(k, s, "WSMask");
    SameTwice(k, s, "WSTLSCA");
    SameTwice(k, s, "Endpoint");
    SameTwice(k, s, "WSBearer");
    SameTwice(k, s, "WSTLSKey");
    SameTwice(k, s, "PublicKey");
    SameTwice(k, s, "WSTLSCert");
    SameTwice(k, s, "AllowedIPs");
    SameTwice(k, s, "PresharedKey");
    SameTwice(k, s, "WSBackoffMin");
    SameTwice(k, s, "WSBackoffMax");
    SameTwice(k, s, "WSTLSInsecure");
    SameTwice(k, s, "WSTunnelTarget");
    SameTwice(k, s, "WSPingInterval");
    SameTwice(k, s, "PersistentKeepalive");
  }

  lemma SectionLineIs(lib: Lib, d: CDevice, before: seq<CPeer>, p: CPeer, n: Key, k: string, v: string)
    requires '=' !in k && InPeerSection(n) && Same(k, Spelled(n))
    ensures SectionLine(lib, d, before, p, k, v) ==
            var r := PeerLine(lib, p, n, v); if r.None? then None else Some(InThe(d, before, r.value))
  {
    hide PeerLine, PeerName, Index, Same, Spelled;
    LineSplits(lib, InThe(d, before, p), k, v);
    PeerNameOf(n, k);
    var r := PeerLine(lib, p, n, v);
    if r.Some? {
      assert (before + [p])[|before| := r.value] == before + [r.value];
    }
  }

  lemma KeyLines(lib: Lib, d: CDevice, before: seq<CPeer>, p: CPeer, k: string, v: string)
    requires '=' !in k
    ensures Same(k, "PublicKey") ==>
              SectionLine(lib, d, before, p, k, v) == PeerIf(v != "" && ParseKey(v).Some?, d, before, p.(publicKey := ParseKey(v)))
    ensures Same(k, "PresharedKey") ==>
              SectionLine(lib, d, before, p, k, v) == PeerIf(v != "" && ParseKey(v).Some?, d, before, p.(psk := ParseKey(v)))
    ensures Same(k, "PersistentKeepalive") ==>
              SectionLine(lib, d, before, p, k, v) == PeerIf(v != "" && ParseKeepalive(v).Some?, d, before, p.(keepalive := ParseKeepalive(v)))
    ensures Same(k, "AllowedIPs") && v != "" ==>
              var q := ParseAllowedIps(lib.net, p, v);
              SectionLine(lib, d, before, p, k, v) == PeerIf(q.Some?, d, before, if q.Some? then q.value else p)
  {
    hide Same, SectionLine, ParseKey, ParseKeepalive, ParseAllowedIps, InThe;
    if Same(k, "PublicKey") { SectionLineIs(lib, d, before, p, KPublicKey, k, v); }
    if Same(k, "PresharedKey") { SectionLineIs(lib, d, before, p, KPresharedKey, k, v); }
    if Same(k, "PersistentKeepalive") { SectionLineIs(lib, d, before, p, KKeepalive, k, v); }
    if Same(k, "AllowedIPs") { SectionLineIs(lib, d, before, p, KAllowedIps, k, v); }
  }

  /** Each of these makes the peer one with WebSocket settings. */
  lemma TextLines(lib: Lib, d: CDevice, before: seq<CPeer>, p: CPeer, k: string, v: string)
    requires '=' !in k
    ensures Same(k, "WSBearer") ==> SectionLine(lib, d, before, p, k, v) == PeerIf(v != "", d, before, p.(bearer := Some(v), hasWs := true))
    ensures Same(k, "WSTLSCA") ==> SectionLine(lib, d, before, p, k, v) == PeerIf(v != "", d, before, p.(tlsCa := Some(v), hasWs := true))
    ensures Same(k, "WSTLSCert") ==> SectionLine(lib, d, before, p, k, v) == PeerIf(v != "", d, before, p.(tlsCert := Some(v), hasWs := true))
    ensures Same(k, "WSTLSKey") ==> SectionLine(lib, d, before, p, k, v) == PeerIf(v != "", d, before, p.(tlsKey := Some(v), hasWs := true))
    ensures Same(k, "WSTunnelTarget") ==>
              SectionLine(lib, d, before, p, k, v) == PeerIf(IsTarget(v), d, before, p.(target := Some(v), hasWs := true))
  {
    hide Same, SectionLine, IsTarget, InThe;
    if Same(k, "WSBearer") { SectionLineIs(lib, d, before, p, KBearer, k, v); }
    if Same(k, "WSTLSCA") { SectionLineIs(lib, d, before, p, KTlsCa, k, v); }
    if Same(k, "WSTLSCert") { SectionLineIs(lib, d, before, p, KTlsCert, k, v); }
    if Same(k, "WSTLSKey") { SectionLineIs(lib, d, before, p, KTlsKey, k, v); }
    if Same(k, "WSTunnelTarget") { SectionLineIs(lib, d, before, p, KTarget, k, v); }
    assert !IsTarget("") by { NoTarget(); }
  }

  lemma NoTarget()
    ensures !IsTarget("")
  {
  }

  /** Words are taken as they are written. */
  lemma WordLines(lib: Lib, d: CDevice, before: seq<CPeer>, p: CPeer, k: string, v: string)
    requires '=' !in k
    ensures Same(k, "WSMask") ==>
              SectionLine(lib, d, before, p, k, v) == PeerIf(v == "true" || v == "false", d, before, p.(mask := v == "true", hasWs := true))
    ensures Same(k, "WSTLSInsecure") ==>
              SectionLine(lib, d, before, p, k, v) == PeerIf(v == "true" || v == "false", d, before, p.(insecure := v == "true", hasWs := true))
    ensures Same(k, "WSMode") ==>
              SectionLine(lib, d, before, p, k, v) ==
              PeerIf(v == "websocket" || v == "wstunnel", d, before, p.(transport := if v == "wstunnel" then Wstunnel else Websocket))
  {
    hide Same, SectionLine, InThe;
    if Same(k, "WSMask") { SectionLineIs(lib, d, before, p, KMask, k, v); }
    if Same(k, "WSTLSInsecure") { SectionLineIs(lib, d, before, p, KInsecure, k, v); }
    if Same(k, "WSMode") { SectionLineIs(lib, d, before, p, KMode, k, v); }
  }

  lemma MillisLines(lib: Lib, d: CDevice, before: seq<CPeer>, p: CPeer, k: string, v: string)
    requires '=' !in k
    ensures var m := ParseMillis(v);
            var n := if m.Some? then m.value else 0;
            && (Same(k, "WSPingInterval") ==> SectionLine(lib, d, before, p, k, v) == PeerIf(m.Some?, d, before, p.(ping := n, hasWs := true)))
            && (Same(k, "WSBackoffMin") ==> SectionLine(lib, d, before, p, k, v) == PeerIf(m.Some?, d, before, p.(backoffMin := n, hasWs := true)))
            && (Same(k, "WSBackoffMax") ==> SectionLine(lib, d, before, p, k, v) == PeerIf(m.Some?, d, before, p.(backoffMax := n, hasWs := true)))
  {
    hide Same, SectionLine, InThe, ParseMillis;
    assert ParseMillis("").None? by { NoMillis(); }
    if Same(k, "WSPingInterval") { SectionLineIs(lib, d, before, p, KPing, k, v); }
    if Same(k, "WSBackoffMin") { SectionLineIs(lib, d, before, p, KBackoffMin, k, v); }
    if Same(k, "WSBackoffMax") { SectionLineIs(lib, d, before, p, KBackoffMax, k, v); }
  }

  lemma NoMillis()
    ensures ParseMillis("").None?
  {
  }

  const SECTION_KEYS := ["Endpoint", "PublicKey", "AllowedIPs", "PersistentKeepalive", "PresharedKey", "WSMode", "WSTunnelTarget",
                         "WSBearer", "WSMask", "WSTLSCA", "WSTLSCert", "WSTLSKey", "WSTLSInsecure", "WSPingInterval", "WSBackoffMin",
                         "WSBackoffMax"]

  /** Any other key, and any key without a value, is refused in this section. */
  lemma OtherSectionLine(lib: Lib, d: CDevice, before: seq<CPeer>, p: CPeer, k: string, v: string)
    requires '=' !in k && (!Among(k, SECTION_KEYS) || v == "")
    ensures SectionLine(lib, d, before, p, k, v).None?
  {
    hide Same, Index, Among;
    LineSplits(lib, InThe(d, before, p), k, v);
    if v != "" {
      UnknownPeerName(k);
    }
  }

  lemma UnknownPeerName(k: string)
    requires !Among(k, SECTION_KEYS)
    ensures PeerName(k) == KUnknown
  {
    hide Same;
    var ns := SECTION_KEYS;
    assert ns[0] == "Endpoint" && ns[1] == "PublicKey" && ns[2] == "AllowedIPs" && ns[3] == "PersistentKeepalive";
    assert ns[4] == "PresharedKey" && ns[5] == "WSMode" && ns[6] == "WSTunnelTarget" && ns[7] == "WSBearer";
    assert ns[8] == "WSMask" && ns[9] == "WSTLSCA" && ns[10] == "WSTLSCert" && ns[11] == "WSTLSKey";
    assert ns[12] == "WSTLSInsecure" && ns[13] == "WSPingInterval" && ns[14] == "WSBackoffMin" && ns[15] == "WSBackoffMax";
  }

  // ----- headings -----

  /** A heading in any case; `[Peer]` begins a peer, whose list replaces. */
  lemma Headings(lib: Lib, c: Ctx, line: string)
    ensures Same(line, "[Interface]") ==> ProcessLine(lib, c, line) == Some(Ctx(c.dev, InInterface))
    ensures Same(line, "[Peer]") ==>
              var p := CPeer(None, None, None, None, true, [], Udp, None, false, None, None, false, None, None, None, false, 0, 0, 0);
              ProcessLine(lib, c, line) == Some(Ctx(c.dev.(peers := c.dev.peers + [p]), InPeer))
    ensures '=' !in line && !Same(line, "[Interface]") && !Same(line, "[Peer]") ==> ProcessLine(lib, c, line).None?
    ensures c.section == NoSection && !Same(line, "[Interface]") && !Same(line, "[Peer]") ==> ProcessLine(lib, c, line).None?
  {
    if Same(line, "[Peer]") {
      assert |line| == 6;
    }
    if '=' !in line {
      IndexNone(line, '=');
    }
  }

  // ----- blanks and comments -----

  /** What a comment sign begins is dropped. */
  lemma {:induction false} CommentDropped(a: string, b: string)
    requires '#' !in a
    ensures Clean(a + "#" + b) == Clean(a)
  {
    if a == "" {
      assert a + "#" + b == "#" + b;
    } else {
      assert (a + "#" + b)[1..] == a[1..] + "#" + b;
      CommentDropped(a[1..], b);
    }
  }

  /** So are blanks, anywhere in the line. */
  lemma {:induction false} BlankDropped(a: string, c: char, b: string)
    requires '#' !in a && c in " \t\n\r\U{0B}\U{0C}"
    ensures Clean(a + [c] + b) == Clean(a + b)
  {
    if a == "" {
      assert a + [c] + b == [c] + b && a + b == b && ([c] + b)[1..] == b;
    } else {
      assert (a + [c] + b)[1..] == a[1..] + [c] + b && (a + b)[1..] == a[1..] + b;
      BlankDropped(a[1..], c, b);
    }
  }

  /** Every other character is kept. */
  lemma OtherKept(c: char, b: string)
    requires c !in " \t\n\r\U{0B}\U{0C}#"
    ensures Clean([c] + b) == [c] + Clean(b)
  {
    assert ([c] + b)[1..] == b;
    assert c as int != 9 && c as int != 10 && c as int != 11 && c as int != 12 && c as int != 13 by {
      var s := " \t\n\r\U{0B}\U{0C}#";
      assert s[1] as int == 9 && s[2] as int == 10 && s[3] as int == 13 && s[4] as int == 11 && s[5] as int == 12;
    }
  }

  // ----- the beginning of a file -----

  /** A file without lines leaves everything unset. */
  lemma EmptyFile(lib: Lib)
    ensures Parse(lib, "") == Some(CDevice(0, 0, seq(32, i => 0), None, None, None, None, None, []))
  {
  }

  /** The first line that says something must be a heading. */
  lemma HeadingFirst(lib: Lib, line: string, rest: string)
    requires '\n' !in line && Clean(line + "\n") != ""
    requires !Same(Clean(line + "\n"), "[Interface]") && !Same(Clean(line + "\n"), "[Peer]")
    ensures Parse(lib, line + "\n" + rest).None?
  {
    hide Clean, ProcessLine, Lines, Same;
    FirstLine(line, rest);
    Headings(lib, FRESH, Clean(line + "\n"));
    assert Lines(line + "\n" + rest)[0] == line + "\n";
  }
}

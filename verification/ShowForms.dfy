/** The very text that showconf (src/showconf.c) prints: exact names and digits,
    where the parser would take others too. */
module ShowForms {
  import opened UapiReader
  import opened UapiWriter
  import opened ConfigParser
  import opened ShowConf

  /** Marks are printed in lower-case hex digits. */
  lemma HexText(n: nat)
    ensures n < 16 ==> HexDec(n) == ["0123456789abcdef"[n]]
    ensures n >= 16 ==> HexDec(n) == HexDec(n / 16) + ["0123456789abcdef"[n % 16]]
  {
    var s := "0123456789abcdef";
    assert forall i :: 0 <= i < 16 ==> HexChar(i) == s[i];
  }

  lemma InterfaceText(d: CDevice)
    requires |d.privateKey| == 32
    ensures HeadLines(d) ==
            ["[Interface]"] + IfNonZero("ListenPort", d.listenPort)
            + (if d.fwmark == 0 then [] else [Entry("FwMark", "0x" + HexDec(d.fwmark))])
            + [Entry("PrivateKey", Base64Text(d.privateKey))]
            + IfValue("WSListen", NonEmpty(d.wsListen)) + IfValue("WSServerTLSCert", NonEmpty(d.wsCert))
            + IfValue("WSServerTLSKey", NonEmpty(d.wsKey)) + IfValue("WSServerBearer", NonEmpty(d.wsBearer))
            + IfValue("WSTrustedProxies", NonEmpty(d.wsProxies)) + [""]
  {
    hide Base64Text, HexDec, NonEmpty, Entry, IfValue, IfNonZero;
  }

  lemma Spellings()
    ensures Spelled(KMode) == "WSMode" && Spelled(KEndpoint) == "Endpoint" && Spelled(KTarget) == "WSTunnelTarget"
    ensures Spelled(KBearer) == "WSBearer" && Spelled(KMask) == "WSMask" && Spelled(KTlsCa) == "WSTLSCA"
    ensures Spelled(KTlsCert) == "WSTLSCert" && Spelled(KTlsKey) == "WSTLSKey" && Spelled(KInsecure) == "WSTLSInsecure"
    ensures Spelled(KPing) == "WSPingInterval" && Spelled(KBackoffMin) == "WSBackoffMin" && Spelled(KBackoffMax) == "WSBackoffMax"
  {
  }

  lemma WsText(p: CPeer)
    requires p.transport != Udp
    ensures WsLines(p) ==
            [Entry("WSMode", if p.transport == Websocket then "websocket" else "wstunnel")] + IfValue("Endpoint", p.wsUrl)
            + IfValue("WSTunnelTarget", p.target) + IfValue("WSBearer", p.bearer) + IfTrue("WSMask", p.mask)
            + IfValue("WSTLSCA", p.tlsCa) + IfValue("WSTLSCert", p.tlsCert) + IfValue("WSTLSKey", p.tlsKey) + IfTrue("WSTLSInsecure", p.insecure)
            + IfNonZero("WSPingInterval", p.ping) + IfNonZero("WSBackoffMin", p.backoffMin) + IfNonZero("WSBackoffMax", p.backoffMax)
  {
    hide Entry, IfValue, IfTrue, IfNonZero, Spelled;
    Spellings();
  }

  /** An interval that was not set, or set to zero, is not printed. */
  lemma PeerText(net: Net, p: CPeer)
    requires PeerPrints(p)
    ensures PeerLines(net, p) ==
            ["[Peer]", Entry("PublicKey", Base64Text(p.publicKey.value))]
            + (if p.psk.None? then [] else [Entry("PresharedKey", Base64Text(p.psk.value))])
            + (if p.ips == [] then [] else [Entry("AllowedIPs", IpsText(net, p.ips))])
            + (if p.transport != Udp then WsLines(p)
               else if p.endpoint.None? then [] else IfValue("Endpoint", EndpointText(net, p.endpoint.value)))
            + IfNonZero("PersistentKeepalive", if p.keepalive.None? then 0 else p.keepalive.value)
  {
    hide Base64Text, IpsText, WsLines, EndpointText, Entry, IfValue, IfNonZero;
  }
}

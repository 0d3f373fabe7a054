/** The values that a configuration file may hold (src/config.c): every written form
    of a mark, an interval, an endpoint, a URL and a list of allowed IPs. */
module ConfigValues {
  import opened Letters
  import opened Text
  import opened Common
  import opened UapiReader
  import opened UapiRoundTrip
  import opened ConfigParser
  import opened ConfigForms
  import opened ShowConf
  import ConfigRoundTrip

  // ----- numbers -----

  /** The word off, in any case. */
  lemma OffReads(v: string)
    requires Same(v, "off")
    ensures ParseFwmark(v) == Some(0) && ParseKeepalive(v) == Some(0)
  {
  }

  lemma NotOff(v: string)
    requires v != "" && IsDigit(v[0])
    ensures !Same(v, "off")
  {
    assert Upper(v[0]) != Upper("off"[0]);
  }

  lemma DecimalReads(n: nat)
    ensures ParseFwmark(Dec(n)) == if n <= 0xffff_ffff then Some(n) else None
    ensures ParseKeepalive(Dec(n)) == if n <= 65535 then Some(n) else None
    ensures ParseMillis(Dec(n)) == ParseMillis("+" + Dec(n)) == if n <= 0xffff_ffff then Some(n) else None
  {
    hide Dec, NumberOf, HexNumber, Same;
    DecRoundTrip(n);
    var v := Dec(n);
    assert IsDigit(v[0]);
    NotOff(v);
    assert |v| > 1 ==> IsDigit(v[1]);
    assert ("+" + v)[1..] == v;
  }

  /** A negative count is taken modulo 2^64, so that only the largest are small. */
  lemma NegativeReads(n: nat)
    ensures ParseMillis("-" + Dec(n)) ==
            if n == 0 then Some(0)
            else if 0xffff_ffff_0000_0001 <= n <= 0xffff_ffff_ffff_ffff then Some(0x1_0000_0000_0000_0000 - n) else None
  {
    hide Dec, NumberOf;
    DecRoundTrip(n);
    assert ("-" + Dec(n))[1..] == Dec(n);
  }

  lemma {:induction false} HexCaseless(s: string, t: string)
    requires AllHex(s) && Same(s, t)
    ensures AllHex(t) && HexNumber(t) == HexNumber(s)
  {
    assert forall i :: 0 <= i < |t| ==> Upper(t[i]) == Upper(s[i]) && IsHexDigit(s[i]) && IsHexDigit(t[i]);
    if s != "" {
      HexCaseless(s[..|s| - 1], t[..|t| - 1]);
    }
  }

  /** A mark in hex digits of either case. */
  lemma HexReads(n: nat, h: string)
    requires Same(HexDec(n), h)
    ensures ParseFwmark("0x" + h) == if n <= 0xffff_ffff then Some(n) else None
  {
    hide HexDec, HexNumber, Same;
    ConfigRoundTrip.HexDecRoundTrips(n);
    HexCaseless(HexDec(n), h);
    SameLength(HexDec(n), h);
    var v := "0x" + h;
    assert v[0] == '0' && v[1] == 'x' && v[2..] == h;
    NotOff(v);
  }

  /** Nothing else is a mark: in particular no other prefix makes it hexadecimal. */
  lemma FwmarkExactly(v: string)
    ensures ParseFwmark(v).Some? <==>
            || Same(v, "off")
            || (v != "" && AllDigits(v) && NumberOf(v) <= 0xffff_ffff)
            || (|v| > 2 && v[..2] == "0x" && AllHex(v[2..]) && HexNumber(v[2..]) <= 0xffff_ffff)
  {
    hide NumberOf, HexNumber;
    if |v| > 2 {
      assert v[..2] == "0x" <==> v[0] == '0' && v[1] == 'x';
      assert v[1] == 'x' ==> !IsDigit(v[1]);
    }
    if v != "" && IsDigit(v[0]) {
      NotOff(v);
    }
  }

  /** What the digits stand for. */
  lemma HexDigits(s: string, c: char)
    requires AllHex(s) && IsHexDigit(c)
    ensures AllHex(s + [c]) && HexNumber(s + [c]) == 16 * HexNumber(s) + HexDigitValue(c)
    ensures HexDigitValue('0') == 0 && HexDigitValue('9') == 9
    ensures HexDigitValue('a') == HexDigitValue('A') == 10 && HexDigitValue('f') == HexDigitValue('F') == 15
  {
    assert (s + [c])[..|s|] == s;
  }

  // ----- host and port -----

  /** A target is a host, a colon and digits. */
  lemma TargetIs(v: string)
    ensures IsTarget(v) <==> exists h: string, p: string {:trigger h + ":" + p} :: h != "" && p != "" && AllDigits(p) && v == h + ":" + p
  {
    hide LastIndex;
    var k := LastIndex(v, ':');
    if IsTarget(v) {
      var h, p := v[..k], v[k + 1..];
      assert v == h + ":" + p;
    }
    forall h: string, p: string | h != "" && p != "" && AllDigits(p) && v == h + ":" + p
      ensures IsTarget(v)
    {
      DigitsOnly(p);
      LastIndexOf(h, ':', p);
      assert v[|h| + 1..] == p;
    }
  }

  function Socket(o: Option<Bytes>): Option<Bytes> {
    if o.Some? && IsSocket(o.value) then o else None
  }

  /** `[host]:service` and `host:service`. */
  lemma EndpointReads(net: Net, h: string, s: string)
    requires s != ""
    ensures ']' !in h ==> ParseEndpoint(net, "[" + h + "]:" + s) == Socket(net.resolve(h, s))
    ensures h != "" && h[0] != '[' && ':' !in s ==> ParseEndpoint(net, h + ":" + s) == Socket(net.resolve(h, s))
  {
    hide HostService, IsSocket;
    if ']' !in h {
      BracketSplit(h, s);
    }
    if h != "" && h[0] != '[' && ':' !in s {
      PlainSplit(h, s);
    }
  }

  /** Without a host or a service there is no endpoint. */
  lemma EndpointRefused(net: Net, v: string)
    requires v == "" || ':' !in v || (if v[0] == '[' then ']' !in v else v[|v| - 1] == ':')
    ensures ParseEndpoint(net, v).None?
  {
    hide Index, LastIndex;
    if v != "" {
      var k, j := LastIndex(v, ':'), Index(v, ']');
      assert k < |v| ==> v[k] == ':';
      assert j < |v| ==> v[j] == ']';
    }
  }

  // ----- URLs -----

  predicate Scheme(s: string) {
    Same(s, "ws://") || Same(s, "wss://")
  }

  /** A scheme in any case. */
  lemma SchemeReads(s: string, rest: string)
    requires Scheme(s)
    ensures IsWsUrl(s + rest)
    ensures SplitWsUrl(s + rest) == SplitHost(rest)
  {
    hide Index, LastIndex, UpToSlash, Bounded;
    var v := s + rest;
    if Same(s, "ws://") {
      assert v[..5] == s && v[5..] == rest;
      assert |v| >= 6 ==> Upper(v[..6][2]) != Upper("wss://"[2]) by { assert v[2] == s[2]; }
    } else {
      assert v[..6] == s && v[6..] == rest;
    }
  }

  /** What comes after the scheme. */
  function SplitHost(p: string): Option<(string, string)> {
    if p != "" && p[0] == '[' then
      var h := Index(p, ']');
      if h + 1 >= |p| || p[h + 1] != ':' then None
      else Bounded(p[1..h], UpToSlash(p[h + 2..]))
    else
      var a := UpToSlash(p);
      var k := LastIndex(a, ':');
      if k == |a| then None else Bounded(a[..k], a[k + 1..])
  }

  lemma SlashSplits(a: string, path: string)
    requires '/' !in a && (path == "" || path[0] == '/')
    ensures UpToSlash(a + path) == a
  {
    hide Index;
    if path == "" {
      assert a + path == a;
      IndexNone(a, '/');
    } else {
      assert a + path == a + ['/'] + path[1..];
      IndexOf(a, '/', path[1..]);
    }
  }

  /** Host and port of `ws(s)://host:port/path` and of `ws(s)://[host]:port/path`. */
  lemma UrlSplits(s: string, h: string, p: string, path: string)
    requires Scheme(s) && h != "" && p != "" && '/' !in p && ':' !in p && (path == "" || path[0] == '/')
    ensures h[0] != '[' && '/' !in h ==>
              SplitWsUrl(s + (h + ":" + p + path)) == if |h| < 256 && |p| < 16 then Some((h, p)) else None
    ensures ']' !in h ==>
              SplitWsUrl(s + ("[" + h + "]:" + p + path)) == if |h| < 256 && |p| < 16 then Some((h, p)) else None
  {
    hide Index, LastIndex, UpToSlash, SplitWsUrl;
    SchemeReads(s, h + ":" + p + path);
    SchemeReads(s, "[" + h + "]:" + p + path);
    if h[0] != '[' && '/' !in h {
      var a := h + ":" + p;
      SlashSplits(a, path);
      LastIndexOf(h, ':', p);
      assert (a + path)[0] == h[0] && a[..|h|] == h && a[|h| + 1..] == p;
    }
    if ']' !in h {
      BracketHost(h, p, path);
    }
  }

  lemma BracketHost(h: string, p: string, path: string)
    requires h != "" && p != "" && ']' !in h && '/' !in p && (path == "" || path[0] == '/')
    ensures SplitHost("[" + h + "]:" + p + path) == if |h| < 256 && |p| < 16 then Some((h, p)) else None
  {
    hide Index, LastIndex, UpToSlash;
    var v := "[" + h + "]:" + p + path;
    assert v == ("[" + h) + [']'] + (":" + p + path);
    IndexOf("[" + h, ']', ":" + p + path);
    assert v[|h| + 2] == ':' && v[1..|h| + 1] == h && v[|h| + 3..] == p + path;
    SlashSplits(p, path);
  }

  /** The address of a URL is that of its host and port, and the URL is kept. */
  lemma UrlLine(lib: Lib, d: CDevice, before: seq<CPeer>, p: CPeer, k: string, v: string, h: string, port: string)
    requires '=' !in k && Same(k, "Endpoint") && v != "" && IsWsUrl(v) && SplitWsUrl(v) == Some((h, port))
    requires h != "" && h[0] != '[' && ']' !in h && port != "" && ':' !in port
    ensures var e := Socket(lib.net.resolve(h, port));
            SectionLine(lib, d, before, p, k, v) == PeerIf(e.Some?, d, before, p.(endpoint := e, wsUrl := Some(v)))
  {
    hide Same, SectionLine, InThe, SplitWsUrl, IsWsUrl, IsSocket, ParseEndpoint;
    SectionLineIs(lib, d, before, p, KEndpoint, k, v);
    EndpointReads(lib.net, h, port);
  }

  /** Anything else is an endpoint of UDP. */
  lemma UdpLine(lib: Lib, d: CDevice, before: seq<CPeer>, p: CPeer, k: string, v: string)
    requires '=' !in k && Same(k, "Endpoint") && v != ""
    requires forall s :: Scheme(s) && |s| <= |v| ==> v[..|s|] != s
    ensures var e := ParseEndpoint(lib.net, v); SectionLine(lib, d, before, p, k, v) == PeerIf(e.Some?, d, before, p.(endpoint := e))
  {
    hide SectionLine, InThe, ParseEndpoint, SplitWsUrl;
    SectionLineIs(lib, d, before, p, KEndpoint, k, v);
    assert |v| >= 5 ==> !Same(v[..5], "ws://");
    assert |v| >= 6 ==> !Same(v[..6], "wss://");
  }

  // ----- allowed IPs -----

  predicate Sign(s: string) {
    s == "" || s == "+" || s == "-"
  }

  function Masked(mask: Option<string>): string {
    if mask.None? then "" else "/" + mask.value
  }

  /** An entry is an address, without a mask or with one that is not too long; a
      colon makes it IPv6. */
  function EntryValue(net: Net, a: string, mask: Option<string>): Option<Ip> {
    var f, width := if ':' in a then 10 else 2, if ':' in a then 128 else 32;
    var b := net.pton(f, a);
    if b.None? then None
    else if mask.None? then Some(Ip(f, b.value, width))
    else if mask.value != "" && AllDigits(mask.value) && NumberOf(mask.value) <= width then Some(Ip(f, b.value, NumberOf(mask.value)))
    else None
  }

  lemma EntryReads(net: Net, a: string, mask: Option<string>)
    requires '/' !in a
    ensures ParseEntry(net, a + Masked(mask)) == EntryValue(net, a, mask)
  {
    hide Index, NumberOf;
    var t := a + Masked(mask);
    if mask.None? {
      assert t == a;
      IndexNone(a, '/');
    } else {
      assert t == a + ['/'] + mask.value;
      IndexOf(a, '/', mask.value);
      assert t[|a| + 1..] == mask.value;
    }
    assert t[..|a|] == a;
  }

  /** The peer with one more entry; a sign stops the list from replacing. */
  function Added(p: CPeer, s: string, ip: Ip): CPeer {
    p.(ips := p.ips + [CIp(ip, s == "-")], replaceIps := p.replaceIps && s == "")
  }

  lemma NoComma(a: string, mask: Option<string>)
    requires ',' !in a && (mask.Some? ==> ',' !in mask.value)
    ensures ',' !in a + Masked(mask)
  {
  }

  lemma SignSplits(s: string, a: string, mask: Option<string>)
    requires Sign(s) && (s == "" ==> a != "" && a[0] != '+' && a[0] != '-')
    requires ',' !in a && (mask.Some? ==> ',' !in mask.value)
    ensures var e := s + a + Masked(mask);
            && e != "" && ',' !in e && (e[0] == '-' <==> s == "-") && (e[0] == '-' || e[0] == '+' <==> s != "")
            && (if s == "" then e else e[1..]) == a + Masked(mask)
  {
    hide Masked;
    NoComma(a, mask);
    var e, t := s + a + Masked(mask), a + Masked(mask);
    if s == "" {
      assert e == t && t[0] == a[0];
    } else {
      assert e == [s[0]] + t && e[1..] == t;
    }
  }

  /** An entry that ends a list, and one that a comma ends. */
  lemma AllowedEntry(net: Net, p: CPeer, s: string, a: string, mask: Option<string>, rest: string)
    requires Sign(s) && '/' !in a && ',' !in a && (mask.Some? ==> ',' !in mask.value)
    requires s == "" ==> a != "" && a[0] != '+' && a[0] != '-'
    ensures var e, ip := s + a + Masked(mask), EntryValue(net, a, mask);
            && ParseEntries(net, p, e) == (if ip.None? then None else Some(Added(p, s, ip.value)))
            && ParseEntries(net, p, e + "," + rest) == (if ip.None? then None else ParseEntries(net, Added(p, s, ip.value), rest))
  {
    hide Index, ParseEntry, EntryValue, Masked;
    var e := s + a + Masked(mask);
    EntryReads(net, a, mask);
    SignSplits(s, a, mask);
    FirstOfList(e, rest);
  }

  lemma FirstOfList(e: string, rest: string)
    requires ',' !in e
    ensures Index(e, ',') == |e| && e[..|e|] == e
    ensures var v := e + "," + rest; Index(v, ',') == |e| && v[..|e|] == e && v[|e| + 1..] == rest
  {
    hide Index;
    IndexNone(e, ',');
    IndexOf(e, ',', rest);
  }

  /** A line with one entry: it is appended to what the peer has, and the list
      replaces unless the entry has a sign. */
  lemma AllowedLine(net: Net, p: CPeer, s: string, a: string, mask: Option<string>)
    requires Sign(s) && '/' !in a && ',' !in a && (mask.Some? ==> ',' !in mask.value)
    requires a != "" && (s == "" ==> a[0] != '+' && a[0] != '-')
    ensures var e, ip := s + a + Masked(mask), EntryValue(net, a, mask);
            ParseAllowedIps(net, p, e) ==
            if ip.None? then None else Some(p.(ips := p.ips + [CIp(ip.value, s == "-")], replaceIps := s == ""))
  {
    hide ParseEntries, EntryValue;
    AllowedEntry(net, p.(replaceIps := true), s, a, mask, "");
  }

  /** An address alone is the whole address. */
  lemma BareAddress(net: Net, p: CPeer, f: nat, a: Bytes, s: string)
    requires ((f == 2 && |a| == 4) || (f == 10 && |a| == 16)) && Sign(s)
    requires ConfigRoundTrip.AddressReads(net, f, a)
    ensures ParseAllowedIps(net, p, s + net.ntop(f, a).value) ==
            Some(p.(ips := p.ips + [CIp(Ip(f, a, if f == 2 then 32 else 128), s == "-")], replaceIps := s == ""))
  {
    hide ParseAllowedIps;
    var t := net.ntop(f, a).value;
    assert s + t + Masked(None) == s + t;
    AllowedLine(net, p, s, t, None);
  }

  // ----- a peer as a whole -----

  /** Which settings of a transport go together. */
  lemma TransportsExactly(p: CPeer)
    ensures ValidWs(p) <==>
            match p.transport
            case Udp => p.wsUrl.None? && !p.hasWs
            case Websocket => p.target.None? && (p.wsUrl.Some? <==> p.endpoint.Some?)
            case Wstunnel => p.wsUrl.Some? && p.endpoint.Some? && p.target.Some?
  {
  }
}

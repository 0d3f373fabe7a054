/** The configuration file parser of src/config.c: lines are cleaned, recognised
    by section and key, and build a device. */
module ConfigParser {
  import opened Letters
  import opened Text
  import opened Common
  import opened KeyCodec
  import opened UapiReader

  // ----- the device -----

  datatype CIp = CIp(ip: Ip, remove: bool)

  /** An option is a value with its HAS flag, or a string that is not null. */
  datatype CPeer = CPeer(
    publicKey: Option<Bytes>, psk: Option<Bytes>, endpoint: Option<Bytes>, keepalive: Option<nat>,
    replaceIps: bool, ips: seq<CIp>, transport: Transport, wsUrl: Option<string>, hasWs: bool,
    target: Option<string>, bearer: Option<string>, mask: bool,
    tlsCa: Option<string>, tlsCert: Option<string>, tlsKey: Option<string>, insecure: bool,
    ping: nat, backoffMin: nat, backoffMax: nat)

  /** A text is there when its HAS flag is set; without a string it is empty. */
  datatype CDevice = CDevice(
    listenPort: nat, fwmark: nat, privateKey: Bytes,
    wsListen: Option<string>, wsCert: Option<string>, wsKey: Option<string>, wsBearer: Option<string>, wsProxies: Option<string>,
    peers: seq<CPeer>)

  /** What `[Peer]` allocates. */
  function NewPeer(): CPeer {
    CPeer(None, None, None, None, true, [], Udp, None, false, None, None, false, None, None, None, false, 0, 0, 0)
  }

  function NewDevice(): CDevice {
    CDevice(0, 0, seq(KEY_LEN, i => 0), None, None, None, None, None, [])
  }

  /** The C library, and the service names of ports. */
  datatype Lib = Lib(net: Net, port: string -> Option<nat>)

  // ----- values -----

  function ParseKey(v: string): Option<Bytes> {
    if IsBytes(v) && Canonical(AsBytes(v)) then Some(Decoded(AsBytes(v))) else None
  }

  predicate IsHexDigit(c: char) {
    '0' <= c <= '9' || 'a' <= c <= 'f' || 'A' <= c <= 'F'
  }

  predicate AllHex(s: string) {
    forall i :: 0 <= i < |s| ==> IsHexDigit(s[i])
  }

  function HexDigitValue(c: char): nat
    requires IsHexDigit(c)
  {
    if '0' <= c <= '9' then (c - '0') as nat else if 'a' <= c <= 'f' then 10 + (c - 'a') as nat else 10 + (c - 'A') as nat
  }

  function HexNumber(s: string): nat
    requires AllHex(s)
  {
    if s == "" then 0 else 16 * HexNumber(s[..|s| - 1]) + HexDigitValue(s[|s| - 1])
  }

  /** parse_fwmark. */
  function ParseFwmark(v: string): Option<nat> {
    if Same(v, "off") then Some(0)
    else if v == "" || !IsDigit(v[0]) then None
    else if |v| > 2 && v[0] == '0' && v[1] == 'x' then
      if AllHex(v[2..]) && HexNumber(v[2..]) <= 0xffff_ffff then Some(HexNumber(v[2..])) else None
    else if AllDigits(v) && NumberOf(v) <= 0xffff_ffff then Some(NumberOf(v))
    else None
  }

  /** parse_persistent_keepalive. */
  function ParseKeepalive(v: string): Option<nat> {
    if Same(v, "off") then Some(0)
    else if v != "" && AllDigits(v) && NumberOf(v) <= 65535 then Some(NumberOf(v))
    else None
  }

  /** parse_ws_millis.  strtoull takes a sign, and negates modulo 2^64. */
  function ParseMillis(v: string): Option<nat> {
    if v == "" then None
    else
      var signed := v[0] == '+' || v[0] == '-';
      var digits := if signed then v[1..] else v;
      if digits == "" || !AllDigits(digits) then None
      else
        var n := NumberOf(digits);
        var r := if n > 0xffff_ffff_ffff_ffff then 0xffff_ffff_ffff_ffff
                 else if v[0] == '-' then (0x1_0000_0000_0000_0000 - n) % 0x1_0000_0000_0000_0000 else n;
        if r <= 0xffff_ffff then Some(r) else None
  }

  function ParseBool(v: string): Option<bool> {
    if v == "true" then Some(true) else if v == "false" then Some(false) else None
  }

  /** parse_ws_mode. */
  function ParseMode(v: string): Option<Transport> {
    if v == "websocket" then Some(Websocket) else if v == "wstunnel" then Some(Wstunnel) else None
  }

  /** parse_ws_target: a host, a colon and digits. */
  predicate IsTarget(v: string) {
    var k := LastIndex(v, ':');
    0 < k < |v| - 1 && AllDigits(v[k + 1..])
  }

  /** parse_endpoint. */
  function ParseEndpoint(net: Net, v: string): Option<Bytes> {
    var hs := HostService(v);
    if hs.None? then None
    else
      var b := net.resolve(hs.value.0, hs.value.1);
      if b.Some? && IsSocket(b.value) then b else None
  }

  predicate IsWsUrl(v: string) {
    (|v| >= 5 && Same(v[..5], "ws://")) || (|v| >= 6 && Same(v[..6], "wss://"))
  }

  /** ws_url_split: host and port of `ws(s)://host:port/path`. */
  function SplitWsUrl(v: string): Option<(string, string)> {
    if !IsWsUrl(v) then None
    else
      var p := if |v| >= 6 && Same(v[..6], "wss://") then v[6..] else v[5..];
      if p != "" && p[0] == '[' then
        var h := Index(p, ']');
        if h + 1 >= |p| || p[h + 1] != ':' then None
        else Bounded(p[1..h], UpToSlash(p[h + 2..]))
      else
        var a := UpToSlash(p);
        var k := LastIndex(a, ':');
        if k == |a| then None else Bounded(a[..k], a[k + 1..])
  }

  function UpToSlash(s: string): string {
    s[..Index(s, '/')]
  }

  /** Neither empty nor longer than its buffer. */
  function Bounded(host: string, port: string): Option<(string, string)> {
    if host == "" || port == "" || |host| >= 256 || |port| >= 16 then None else Some((host, port))
  }

  /** parse_ws_endpoint: the address that a URL resolves to. */
  function ParseWsEndpoint(net: Net, v: string): Option<Bytes> {
    var hp := SplitWsUrl(v);
    if hp.None? then None
    else ParseEndpoint(net, if ':' in hp.value.0 then "[" + hp.value.0 + "]:" + hp.value.1 else hp.value.0 + ":" + hp.value.1)
  }

  // ----- allowed IPs -----

  /** One entry of the list, after its sign. */
  function ParseEntry(net: Net, t: string): Option<Ip> {
    var k := Index(t, '/');
    var ip := t[..k];
    var family := if ':' in ip then AF_INET6 else AF_INET;
    var max := if family == AF_INET6 then 128 else 32;
    var addr := net.pton(family, ip);
    if addr.None? then None
    else if k == |t| then Some(Ip(family, addr.value, max))
    else
      var mask := t[k + 1..];
      if mask != "" && AllDigits(mask) && NumberOf(mask) <= max then Some(Ip(family, addr.value, NumberOf(mask))) else None
  }

  /** The entries of a list, one strsep after the other. */
  function ParseEntries(net: Net, p: CPeer, v: string): Option<CPeer>
    decreases |v|
  {
    var k := Index(v, ',');
    var e := v[..k];
    var sign := e != "" && (e[0] == '-' || e[0] == '+');
    var ip := ParseEntry(net, if sign then e[1..] else e);
    if ip.None? then None
    else
      var q := p.(ips := p.ips + [CIp(ip.value, e != "" && e[0] == '-')], replaceIps := p.replaceIps && !sign);
      if k == |v| then Some(q) else ParseEntries(net, q, v[k + 1..])
  }

  /** parse_allowedips. */
  function ParseAllowedIps(net: Net, p: CPeer, v: string): Option<CPeer> {
    if v == "" then Some(p.(replaceIps := true)) else ParseEntries(net, p.(replaceIps := true), v)
  }

  // ----- lines -----

  predicate IsSpace(c: char) {
    9 <= c as int <= 13 || c == ' '
  }

  /** The line without its comment and its spaces. */
  function Clean(s: string): string {
    if s == "" || s[0] == '#' then "" else if IsSpace(s[0]) then Clean(s[1..]) else [s[0]] + Clean(s[1..])
  }

  datatype Key =
    | KListenPort | KFwMark | KPrivateKey | KWsListen | KWsServerCert | KWsServerKey | KWsServerBearer | KWsProxies
    | KEndpoint | KPublicKey | KAllowedIps | KKeepalive | KPresharedKey | KMode | KTarget | KBearer | KMask
    | KTlsCa | KTlsCert | KTlsKey | KInsecure | KPing | KBackoffMin | KBackoffMax | KUnknown

  /** The spelling that showconf uses. */
  function Spelled(n: Key): string
    requires n != KUnknown
  {
    match n
    case KListenPort => "ListenPort"
    case KFwMark => "FwMark"
    case KPrivateKey => "PrivateKey"
    case KWsListen => "WSListen"
    case KWsServerCert => "WSServerTLSCert"
    case KWsServerKey => "WSServerTLSKey"
    case KWsServerBearer => "WSServerBearer"
    case KWsProxies => "WSTrustedProxies"
    case KEndpoint => "Endpoint"
    case KPublicKey => "PublicKey"
    case KAllowedIps => "AllowedIPs"
    case KKeepalive => "PersistentKeepalive"
    case KPresharedKey => "PresharedKey"
    case KMode => "WSMode"
    case KTarget => "WSTunnelTarget"
    case KBearer => "WSBearer"
    case KMask => "WSMask"
    case KTlsCa => "WSTLSCA"
    case KTlsCert => "WSTLSCert"
    case KTlsKey => "WSTLSKey"
    case KInsecure => "WSTLSInsecure"
    case KPing => "WSPingInterval"
    case KBackoffMin => "WSBackoffMin"
    case KBackoffMax => "WSBackoffMax"
  }

  /** The keys of a section; they are distinct, and listed by length. */
  function DeviceName(k: string): Key {
    match |k|
    case 6 => if Same(k, "FwMark") then KFwMark else KUnknown
    case 8 => if Same(k, "WSListen") then KWsListen else KUnknown
    case 10 => if Same(k, "ListenPort") then KListenPort else if Same(k, "PrivateKey") then KPrivateKey else KUnknown
    case 14 => if Same(k, "WSServerTLSKey") then KWsServerKey else if Same(k, "WSServerBearer") then KWsServerBearer else KUnknown
    case 15 => if Same(k, "WSServerTLSCert") then KWsServerCert else KUnknown
    case 16 => if Same(k, "WSTrustedProxies") then KWsProxies else KUnknown
    case _ => KUnknown
  }

  function PeerName(k: string): Key {
    match |k|
    case 6 => if Same(k, "WSMode") then KMode else if Same(k, "WSMask") then KMask else KUnknown
    case 7 => if Same(k, "WSTLSCA") then KTlsCa else KUnknown
    case 8 => if Same(k, "Endpoint") then KEndpoint else if Same(k, "WSBearer") then KBearer else if Same(k, "WSTLSKey") then KTlsKey else KUnknown
    case 9 => if Same(k, "PublicKey") then KPublicKey else if Same(k, "WSTLSCert") then KTlsCert else KUnknown
    case 10 => if Same(k, "AllowedIPs") then KAllowedIps else KUnknown
    case 12 => if Same(k, "PresharedKey") then KPresharedKey else if Same(k, "WSBackoffMin") then KBackoffMin
               else if Same(k, "WSBackoffMax") then KBackoffMax else KUnknown
    case 13 => if Same(k, "WSTLSInsecure") then KInsecure else KUnknown
    case 14 => if Same(k, "WSTunnelTarget") then KTarget else if Same(k, "WSPingInterval") then KPing else KUnknown
    case 19 => if Same(k, "PersistentKeepalive") then KKeepalive else KUnknown
    case _ => KUnknown
  }

  /** A key of the interface section.  The WebSocket keys take an empty value. */
  function DeviceLine(lib: Lib, d: CDevice, n: Key, v: string): Option<CDevice> {
    match n
    case KListenPort =>
      if v == "" || lib.port(v).None? || lib.port(v).value > 0xffff then None else Some(d.(listenPort := lib.port(v).value))
    case KFwMark => if ParseFwmark(v).None? then None else Some(d.(fwmark := ParseFwmark(v).value))
    case KPrivateKey => if ParseKey(v).None? then None else Some(d.(privateKey := ParseKey(v).value))
    case KWsListen => if v != "" && !IsWsUrl(v) then None else Some(d.(wsListen := Some(v)))
    case KWsServerCert => Some(d.(wsCert := Some(v)))
    case KWsServerKey => Some(d.(wsKey := Some(v)))
    case KWsServerBearer => Some(d.(wsBearer := Some(v)))
    case KWsProxies => Some(d.(wsProxies := Some(v)))
    case _ => None
  }

  /** A key of a peer section.  get_value refuses an empty value. */
  function PeerLine(lib: Lib, p: CPeer, n: Key, v: string): Option<CPeer> {
    if v == "" then None
    else
      match n
      case KEndpoint => EndpointLine(lib.net, p, v)
      case KPublicKey => if ParseKey(v).None? then None else Some(p.(publicKey := ParseKey(v)))
      case KAllowedIps => ParseAllowedIps(lib.net, p, v)
      case KKeepalive => if ParseKeepalive(v).None? then None else Some(p.(keepalive := ParseKeepalive(v)))
      case KPresharedKey => if ParseKey(v).None? then None else Some(p.(psk := ParseKey(v)))
      case KMode => if ParseMode(v).None? then None else Some(p.(transport := ParseMode(v).value))
      case KTarget => if !IsTarget(v) then None else Some(p.(target := Some(v), hasWs := true))
      case KBearer => Some(p.(bearer := Some(v), hasWs := true))
      case KMask => if ParseBool(v).None? then None else Some(p.(mask := ParseBool(v).value, hasWs := true))
      case KTlsCa => Some(p.(tlsCa := Some(v), hasWs := true))
      case KTlsCert => Some(p.(tlsCert := Some(v), hasWs := true))
      case KTlsKey => Some(p.(tlsKey := Some(v), hasWs := true))
      case KInsecure => if ParseBool(v).None? then None else Some(p.(insecure := ParseBool(v).value, hasWs := true))
      case KPing => if ParseMillis(v).None? then None else Some(p.(ping := ParseMillis(v).value, hasWs := true))
      case KBackoffMin => if ParseMillis(v).None? then None else Some(p.(backoffMin := ParseMillis(v).value, hasWs := true))
      case KBackoffMax => if ParseMillis(v).None? then None else Some(p.(backoffMax := ParseMillis(v).value, hasWs := true))
      case _ => None
  }

  function EndpointLine(net: Net, p: CPeer, v: string): Option<CPeer> {
    if IsWsUrl(v) then
      var e := ParseWsEndpoint(net, v);
      if e.None? then None else Some(p.(endpoint := e, wsUrl := Some(v)))
    else
      var e := ParseEndpoint(net, v);
      if e.None? then None else Some(p.(endpoint := e))
  }

  datatype Section = NoSection | InInterface | InPeer

  /** struct config_ctx; the last peer is the current one. */
  datatype Ctx = Ctx(dev: CDevice, section: Section)

  /** process_line, on a clean line. */
  function ProcessLine(lib: Lib, c: Ctx, line: string): Option<Ctx> {
    if Same(line, "[Interface]") then Some(c.(section := InInterface))
    else if Same(line, "[Peer]") then Some(Ctx(c.dev.(peers := c.dev.peers + [NewPeer()]), InPeer))
    else
      var k := Index(line, '=');
      if k == |line| then None
      else
        var key, v := line[..k], line[k + 1..];
        if c.section == InInterface then
          var d := DeviceLine(lib, c.dev, DeviceName(key), v);
          if d.None? then None else Some(c.(dev := d.value))
        else if c.section == InPeer && c.dev.peers != [] then
          var last := |c.dev.peers| - 1;
          var p := PeerLine(lib, c.dev.peers[last], PeerName(key), v);
          if p.None? then None else Some(c.(dev := c.dev.(peers := c.dev.peers[last := p.value])))
        else None
  }

  /** config_read_line. */
  function ReadLine(lib: Lib, c: Ctx, input: string): Option<Ctx> {
    if Clean(input) == "" then Some(c) else ProcessLine(lib, c, Clean(input))
  }

  function ReadLines(lib: Lib, c: Ctx, ls: seq<string>): Option<Ctx>
    decreases |ls|
  {
    if ls == [] then Some(c)
    else
      var r := ReadLine(lib, c, ls[0]);
      if r.None? then None else ReadLines(lib, r.value, ls[1..])
  }

  /** validate_ws_peer, for a peer that declares its transport. */
  predicate ValidWs(p: CPeer) {
    if p.transport == Udp then p.wsUrl.None? && !p.hasWs
    else
      && (if p.wsUrl.Some? then p.endpoint.Some? && (p.transport == Wstunnel ==> p.target.Some?)
          else p.endpoint.None? && p.transport != Wstunnel && p.target.None?)
      && !(p.transport == Websocket && p.target.Some?)
  }

  /** config_read_finish. */
  predicate Finished(d: CDevice) {
    forall i :: 0 <= i < |d.peers| ==> d.peers[i].publicKey.Some? && ValidWs(d.peers[i])
  }

  const FRESH := Ctx(NewDevice(), NoSection)

  /** A whole file. */
  function Parse(lib: Lib, text: string): Option<CDevice> {
    var c := ReadLines(lib, FRESH, Lines(text));
    if c.Some? && Finished(c.value.dev) then Some(c.value.dev) else None
  }

  // ----- the loops -----

  /** The cleaning loop of config_read_line. */
  method CleanLine(input: string) returns (line: string)
    ensures line == Clean(input)
  {
    var len := Index(input, '#');
    line := "";
    var i := 0;
    while i < len
      invariant 0 <= i <= len
      invariant line + Clean(input[i..]) == Clean(input)
    {
      if !IsSpace(input[i]) {
        line := line + [input[i]];
      }
      assert input[i..][1..] == input[i + 1..];
      i := i + 1;
    }
    assert Clean(input[len..]) == "";
  }

  /** The loop of setconf over the lines of a file. */
  method ParseConfig(lib: Lib, text: string) returns (r: Option<CDevice>)
    ensures r == Parse(lib, text)
  {
    hide ProcessLine, Clean, Lines;
    var c := FRESH;
    var ls := Lines(text);
    var i := 0;
    while i < |ls|
      invariant 0 <= i <= |ls|
      invariant ReadLines(lib, c, ls[i..]) == ReadLines(lib, FRESH, ls)
    {
      var line := CleanLine(ls[i]);
      if line != "" {
        var next := ProcessLine(lib, c, line);
        if next.None? {
          return None;
        }
        c := next.value;
      }
      assert ls[i..][1..] == ls[i + 1..];
      i := i + 1;
    }
    r := if Finished(c.dev) then Some(c.dev) else None;
  }
}

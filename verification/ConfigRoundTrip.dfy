/** What showconf prints, the configuration parser reads back. */
module ConfigRoundTrip {
  import opened Machine
  import opened Letters
  import opened Text
  import opened Common
  import opened KeyCodec
  import opened UapiReader
  import opened UapiWriter
  import opened UapiRoundTrip
  import opened ConfigParser
  import opened ConfigNames
  import opened ShowConf

  // ----- cleaning -----

  lemma {:induction false} CleanAppend(a: string, b: string)
    requires '#' !in a
    ensures Clean(a + b) == Clean(a) + Clean(b)
  {
    if a == "" {
      assert a + b == b;
    } else {
      assert (a + b)[1..] == a[1..] + b;
      CleanAppend(a[1..], b);
    }
  }

  lemma {:induction false} CleanTight(s: string)
    requires Tight(s)
    ensures Clean(s) == s
  {
    if s != "" {
      CleanTight(s[1..]);
    }
  }

  lemma CleanSeparators()
    ensures Clean(" = ") == "=" && Clean("\n") == "" && Clean(", ") == ","
  {
    assert " = "[1..] == "= " && "= "[1..] == " " && " "[1..] == "";
    assert "\n"[1..] == "" && ", "[1..] == " ";
  }

  /** A printed entry, read as a line. */
  lemma CleanEntry(k: string, v: string)
    requires Word(k) && '#' !in v
    ensures Clean(Entry(k, v) + "\n") == k + "=" + Clean(v)
  {
    hide Clean;
    CleanSeparators();
    CleanTight(k);
    assert '#' !in k;
    assert Entry(k, v) + "\n" == k + (" = " + (v + "\n"));
    CleanAppend(k, " = " + (v + "\n"));
    CleanAppend(" = ", v + "\n");
    CleanAppend(v, "\n");
    assert k + ("=" + (Clean(v) + "")) == k + "=" + Clean(v);
  }

  lemma NotSection(line: string)
    requires '=' in line
    ensures !Same(line, "[Interface]") && !Same(line, "[Peer]")
  {
    var i :| 0 <= i < |line| && line[i] == '=';
  }

  /** An entry with its value is that key with that value. */
  lemma EntryIs(lib: Lib, c: Ctx, k: string, v: string)
    requires Word(k) && '#' !in v
    ensures var line := Clean(Entry(k, v) + "\n");
            && line != "" && ReadLine(lib, c, Entry(k, v) + "\n") == ProcessLine(lib, c, line)
            && !Same(line, "[Interface]") && !Same(line, "[Peer]")
            && Index(line, '=') == |k| && line[..|k|] == k && |k| < |line| && line[|k| + 1..] == Clean(v)
  {
    hide Clean, ProcessLine, Index;
    CleanEntry(k, v);
    var line := k + "=" + Clean(v);
    assert line[|k|] == '=';
    NotSection(line);
    IndexOf(k, '=', Clean(v));
  }

  lemma PeerEntry(lib: Lib, d: CDevice, before: seq<CPeer>, p: CPeer, k: string, v: string)
    requires Word(k) && '#' !in v
    ensures var r := PeerLine(lib, p, PeerName(k), Clean(v));
            ReadLine(lib, Ctx(d.(peers := before + [p]), InPeer), Entry(k, v) + "\n") ==
            if r.None? then None else Some(Ctx(d.(peers := before + [r.value]), InPeer))
  {
    hide Clean, PeerLine, PeerName, Index, Same, ReadLine, Entry;
    var c := Ctx(d.(peers := before + [p]), InPeer);
    EntryIs(lib, c, k, v);
    var r := PeerLine(lib, p, PeerName(k), Clean(v));
    if r.Some? {
      assert (before + [p])[|before| := r.value] == before + [r.value];
    }
  }

  lemma DeviceEntry(lib: Lib, d: CDevice, k: string, v: string)
    requires Word(k) && '#' !in v
    ensures var r := DeviceLine(lib, d, DeviceName(k), Clean(v));
            ReadLine(lib, Ctx(d, InInterface), Entry(k, v) + "\n") == if r.None? then None else Some(Ctx(r.value, InInterface))
  {
    hide Clean, DeviceLine, DeviceName, Index, Same, ReadLine, Entry;
    EntryIs(lib, Ctx(d, InInterface), k, v);
  }

  // ----- sequences of lines -----

  lemma {:induction false} ReadAppend(lib: Lib, c: Ctx, a: seq<string>, b: seq<string>)
    ensures ReadLines(lib, c, a + b) == var r := ReadLines(lib, c, a); if r.None? then None else ReadLines(lib, r.value, b)
    decreases |a|
  {
    hide ReadLine;
    if a == [] {
      assert a + b == b;
    } else {
      assert (a + b)[1..] == a[1..] + b;
      var r := ReadLine(lib, c, a[0]);
      if r.Some? {
        ReadAppend(lib, r.value, a[1..], b);
      }
    }
  }

  predicate Unbroken(ls: seq<string>) {
    forall i :: 0 <= i < |ls| ==> '\n' !in ls[i]
  }

  /** These printed lines take the parser from one state to another. */
  ghost predicate Moves(lib: Lib, c: Ctx, ls: seq<string>, e: Ctx) {
    Unbroken(ls) && ReadLines(lib, c, Terminated(ls)) == Some(e)
  }

  lemma MovesJoin(lib: Lib, c: Ctx, a: seq<string>, e: Ctx, b: seq<string>, f: Ctx)
    requires Moves(lib, c, a, e) && Moves(lib, e, b, f)
    ensures Moves(lib, c, a + b, f)
  {
    hide ReadLines;
    assert Terminated(a + b) == Terminated(a) + Terminated(b);
    ReadAppend(lib, c, Terminated(a), Terminated(b));
  }

  lemma MovesNone(lib: Lib, c: Ctx)
    ensures Moves(lib, c, [], c)
  {
  }

  lemma MovesOne(lib: Lib, c: Ctx, l: string, e: Ctx)
    requires '\n' !in l && ReadLine(lib, c, l + "\n") == Some(e)
    ensures Moves(lib, c, [l], e)
  {
    hide ReadLine;
    assert Terminated([l]) == [l + "\n"];
    assert Terminated([l])[1..] == [];
    assert ReadLines(lib, e, []) == Some(e);
  }

  lemma EntryUnbroken(k: string, v: string)
    requires Word(k) && '\n' !in v
    ensures '\n' !in Entry(k, v)
  {
    assert '\n' !in k;
  }

  /** The context whose current peer is `p`. */
  function At(d: CDevice, before: seq<CPeer>, p: CPeer): Ctx {
    Ctx(d.(peers := before + [p]), InPeer)
  }

  lemma PeerMoves(lib: Lib, d: CDevice, before: seq<CPeer>, p: CPeer, n: Key, v: string, q: CPeer)
    requires InPeerSection(n) && '#' !in v && '\n' !in v && PeerLine(lib, p, n, Clean(v)) == Some(q)
    ensures Moves(lib, At(d, before, p), [Entry(Spelled(n), v)], At(d, before, q))
  {
    hide Clean, PeerLine, PeerName, ReadLine, Moves, Spelled, Word;
    WordOfKey(n);
    PeerNamed(n);
    EntryUnbroken(Spelled(n), v);
    PeerEntry(lib, d, before, p, Spelled(n), v);
    MovesOne(lib, At(d, before, p), Entry(Spelled(n), v), At(d, before, q));
  }

  /** A line that is printed when there is a text. */
  lemma PeerMovesIf(lib: Lib, d: CDevice, before: seq<CPeer>, p: CPeer, n: Key, o: Option<string>, q: CPeer)
    requires InPeerSection(n) && (o.Some? ==> Tight(o.value))
    requires if o.Some? then PeerLine(lib, p, n, o.value) == Some(q) else q == p
    ensures Moves(lib, At(d, before, p), IfValue(Spelled(n), o), At(d, before, q))
  {
    hide PeerLine, PeerName, Moves, Clean, Spelled;
    if o.Some? {
      CleanTight(o.value);
      PeerMoves(lib, d, before, p, n, o.value, q);
    } else {
      MovesNone(lib, At(d, before, p));
    }
  }

  /** A line that is printed when a switch is on. */
  lemma TrueMoves(lib: Lib, d: CDevice, before: seq<CPeer>, p: CPeer, n: Key, v: bool, q: CPeer)
    requires InPeerSection(n) && (if v then PeerLine(lib, p, n, "true") == Some(q) else q == p)
    ensures Moves(lib, At(d, before, p), IfTrue(Spelled(n), v), At(d, before, q))
  {
    hide Moves, PeerName, PeerLine, Clean, Spelled;
    if v {
      TrueReads();
      CleanTight("true");
      PeerMoves(lib, d, before, p, n, "true", q);
    } else {
      MovesNone(lib, At(d, before, p));
    }
  }

  lemma TrueReads()
    ensures ParseBool("true") == Some(true) && Tight("true")
  {
  }

  /** A line that is printed when a number is not zero. */
  lemma NumberMoves(lib: Lib, d: CDevice, before: seq<CPeer>, p: CPeer, n: Key, i: nat, q: CPeer)
    requires InPeerSection(n) && (if i != 0 then PeerLine(lib, p, n, Dec(i)) == Some(q) else q == p)
    ensures Moves(lib, At(d, before, p), IfNonZero(Spelled(n), i), At(d, before, q))
  {
    hide Moves, PeerName, PeerLine, Clean, Dec, Spelled;
    if i != 0 {
      DecTight(i);
      PeerMoves(lib, d, before, p, n, Dec(i), q);
    } else {
      MovesNone(lib, At(d, before, p));
    }
  }

  lemma DeviceMoves(lib: Lib, d: CDevice, n: Key, v: string, e: CDevice)
    requires InDeviceSection(n) && '#' !in v && '\n' !in v && DeviceLine(lib, d, n, Clean(v)) == Some(e)
    ensures Moves(lib, Ctx(d, InInterface), [Entry(Spelled(n), v)], Ctx(e, InInterface))
  {
    hide Clean, DeviceLine, DeviceName, ReadLine, Moves, Spelled, Word;
    WordOfKey(n);
    DeviceNamed(n);
    EntryUnbroken(Spelled(n), v);
    DeviceEntry(lib, d, Spelled(n), v);
    MovesOne(lib, Ctx(d, InInterface), Entry(Spelled(n), v), Ctx(e, InInterface));
  }

  lemma DeviceMovesIf(lib: Lib, d: CDevice, n: Key, o: Option<string>, e: CDevice)
    requires InDeviceSection(n) && (o.Some? ==> Tight(o.value))
    requires if o.Some? then DeviceLine(lib, d, n, o.value) == Some(e) else e == d
    ensures Moves(lib, Ctx(d, InInterface), IfValue(Spelled(n), o), Ctx(e, InInterface))
  {
    hide DeviceLine, DeviceName, Moves, Clean, Spelled;
    if o.Some? {
      CleanTight(o.value);
      DeviceMoves(lib, d, n, o.value, e);
    } else {
      MovesNone(lib, Ctx(d, InInterface));
    }
  }

  // ----- values -----

  lemma Base64RoundTrips(k: Bytes)
    requires |k| == KEY_LEN
    ensures ParseKey(Base64Text(k)) == Some(k) && Tight(Base64Text(k)) && Base64Text(k) != ""
  {
    hide Encoded, Decoded, Canonical;
    KeyRoundTrip(k);
    var b := Encoded(k);
    assert AsBytes(AsText(b)) == b;
    forall i | 0 <= i < |b|
      ensures !IsSpace(AsText(b)[i]) && AsText(b)[i] != '#'
    {
      CanonicalVisible(b, i);
    }
  }

  lemma CanonicalVisible(b: seq<u8>, i: nat)
    requires Canonical(b) && i < |b|
    ensures b[i] > 32 && b[i] != 35
  {
  }

  lemma DecTight(n: nat)
    ensures Tight(Dec(n)) && Dec(n) != "" && AllDigits(Dec(n)) && NumberOf(Dec(n)) == n && Clean(Dec(n)) == Dec(n)
  {
    hide Dec, NumberOf, Clean;
    DecRoundTrip(n);
    DigitsTight(Dec(n));
    CleanTight(Dec(n));
  }

  lemma DigitsTight(s: string)
    requires AllDigits(s)
    ensures Tight(s)
  {
    forall i | 0 <= i < |s|
      ensures !IsSpace(s[i]) && s[i] != '#'
    {
      assert IsDigit(s[i]);
    }
  }

  lemma {:induction false} HexDecRoundTrips(n: nat)
    ensures AllHex(HexDec(n)) && HexNumber(HexDec(n)) == n
  {
    var s := HexDec(n);
    if n < 16 {
      assert s[..0] == "";
    } else {
      HexDecRoundTrips(n / 16);
      assert s[..|s| - 1] == HexDec(n / 16);
    }
  }

  lemma FwmarkRoundTrips(n: nat)
    requires n <= 0xffff_ffff
    ensures var v := "0x" + HexDec(n); ParseFwmark(v) == Some(n) && Tight(v) && Clean(v) == v
  {
    hide HexDec, HexNumber, Clean;
    var v := "0x" + HexDec(n);
    HexDecRoundTrips(n);
    assert v[0] == '0' && v[1] == 'x' && v[2..] == HexDec(n);
    assert !Same(v, "off") by { assert Upper(v[0]) != Upper("off"[0]); }
    forall i | 0 <= i < |v|
      ensures !IsSpace(v[i]) && v[i] != '#'
    {
      if i >= 2 {
        assert IsHexDigit(HexDec(n)[i - 2]);
      }
    }
    CleanTight(v);
  }

  /** A mark in decimal, and the word off. */
  lemma FwmarkReads(n: nat)
    requires n <= 0xffff_ffff
    ensures ParseFwmark(Dec(n)) == Some(n) && ParseFwmark("off") == Some(0) && ParseKeepalive("off") == Some(0)
  {
    hide Dec, NumberOf, HexNumber;
    DecRoundTrip(n);
    var v := Dec(n);
    assert IsDigit(v[0]);
    assert !Same(v, "off") by { assert Upper(v[0]) != Upper("off"[0]); }
    assert |v| > 1 ==> IsDigit(v[1]);
  }

  lemma KeepaliveRoundTrips(n: nat)
    requires n <= 65535
    ensures ParseKeepalive(Dec(n)) == Some(n)
  {
    hide Dec, NumberOf;
    DecRoundTrip(n);
    var v := Dec(n);
    assert IsDigit(v[0]);
    assert !Same(v, "off") by { assert Upper(v[0]) != Upper("off"[0]); }
  }

  lemma MillisRoundTrips(n: nat)
    requires n <= 0xffff_ffff
    ensures ParseMillis(Dec(n)) == Some(n)
  {
    hide Dec, NumberOf;
    DecRoundTrip(n);
    assert IsDigit(Dec(n)[0]);
  }

  // ----- allowed IPs -----

  predicate IpReads(i: CIp) {
    (i.ip.family == AF_INET && |i.ip.addr| == 4 && i.ip.cidr <= 32) || (i.ip.family == AF_INET6 && |i.ip.addr| == 16 && i.ip.cidr <= 128)
  }

  /** An address text: on one line, without the signs that the list uses. */
  ghost predicate AddressReads(net: Net, f: nat, a: Bytes) {
    && AddressOk(net, f, a)
    && var t := net.ntop(f, a).value; Tight(t) && ',' !in t && t != "" && t[0] != '-' && t[0] != '+'
  }

  ghost predicate SocketReads(net: Net, e: Bytes) {
    SocketOk(net, e) && Tight(net.nameInfo(e).value.0) && Tight(net.nameInfo(e).value.1)
    && (IsSocket(e) ==> !IsWsUrl(EndpointText(net, e).value))
  }

  /** The C library as the parser needs it: what was resolved has a numeric form
      that resolves to it again, and addresses and ports can be read back. */
  ghost predicate LibOk(lib: Lib) {
    && (forall h, s :: lib.net.resolve(h, s).Some? && IsSocket(lib.net.resolve(h, s).value) ==>
          SocketReads(lib.net, lib.net.resolve(h, s).value))
    && (forall f, a :: (f == AF_INET && |a| == 4) || (f == AF_INET6 && |a| == 16) ==> AddressReads(lib.net, f, a))
    && (forall f, t :: (f == AF_INET || f == AF_INET6) && lib.net.pton(f, t).Some? ==>
          |lib.net.pton(f, t).value| == if f == AF_INET then 4 else 16)
    && (forall n: nat :: n <= 0xffff ==> lib.port(Dec(n)) == Some(n))
  }

  lemma EntryReads(net: Net, i: CIp)
    requires IpReads(i) && AddressReads(net, i.ip.family, i.ip.addr)
    ensures var t := IpText(net, i);
            && t.Some? && Tight(t.value) && ',' !in t.value && t.value != "" && t.value[0] != '-' && t.value[0] != '+'
            && ParseEntry(net, t.value) == Some(i.ip)
  {
    hide Index, Dec, NumberOf, Clean;
    var a, n := net.ntop(i.ip.family, i.ip.addr).value, i.ip.cidr;
    DecTight(n);
    var v := a + "/" + Dec(n);
    IndexOf(a, '/', Dec(n));
    assert v[..|a|] == a && v[|a| + 1..] == Dec(n) && v[0] == a[0];
    DigitsOnlyComma(Dec(n));
  }

  lemma DigitsOnlyComma(s: string)
    requires AllDigits(s)
    ensures ',' !in s
  {
    forall i | 0 <= i < |s|
      ensures s[i] != ','
    {
      assert IsDigit(s[i]);
    }
  }

  /** The printed list without its spaces. */
  function Commas(net: Net, ips: seq<CIp>): string
    requires forall i :: 0 <= i < |ips| ==> IpText(net, ips[i]).Some?
  {
    if ips == [] then ""
    else IpText(net, ips[0]).value + (if |ips| > 1 then "," else "") + Commas(net, ips[1..])
  }

  ghost predicate IpsRead(net: Net, ips: seq<CIp>) {
    forall i :: 0 <= i < |ips| ==> IpReads(ips[i]) && AddressReads(net, ips[i].ip.family, ips[i].ip.addr)
  }

  lemma IpsHaveText(net: Net, ips: seq<CIp>)
    requires IpsRead(net, ips)
    ensures forall i :: 0 <= i < |ips| ==> IpText(net, ips[i]).Some? && Tight(IpText(net, ips[i]).value)
  {
    hide IpText, AddressReads, IpReads;
    forall i | 0 <= i < |ips|
      ensures IpText(net, ips[i]).Some? && Tight(IpText(net, ips[i]).value)
    {
      EntryReads(net, ips[i]);
    }
  }

  lemma {:induction false} CleanIps(net: Net, ips: seq<CIp>)
    requires forall i :: 0 <= i < |ips| ==> IpText(net, ips[i]).Some? && Tight(IpText(net, ips[i]).value)
    ensures '#' !in IpsText(net, ips) && '\n' !in IpsText(net, ips) && Clean(IpsText(net, ips)) == Commas(net, ips)
    decreases |ips|
  {
    hide IpText, Clean;
    CleanTight("");
    if ips != [] {
      CleanIps(net, ips[1..]);
      CleanSeparators();
      var t, rest := IpText(net, ips[0]).value, IpsText(net, ips[1..]);
      var sep := if |ips| > 1 then ", " else "";
      CleanTight(t);
      assert IpsText(net, ips) == t + (sep + rest);
      CleanAppend(t, sep + rest);
      CleanAppend(sep, rest);
    }
  }

  /** What is read back: an entry that was to be removed is printed like any other. */
  function Shown(ips: seq<CIp>): (r: seq<CIp>)
    ensures |r| == |ips|
  {
    seq(|ips|, i requires 0 <= i < |ips| => ips[i].(remove := false))
  }

  lemma FirstEntry(net: Net, p: CPeer, i: CIp, t: string, rest: string)
    requires p.replaceIps && ',' !in t && t != "" && t[0] != '-' && t[0] != '+' && ParseEntry(net, t) == Some(i.ip)
    ensures ParseEntries(net, p, t) == Some(p.(ips := p.ips + [CIp(i.ip, false)]))
    ensures ParseEntries(net, p, t + "," + rest) == ParseEntries(net, p.(ips := p.ips + [CIp(i.ip, false)]), rest)
  {
    hide ParseEntry, Index;
    var v := t + "," + rest;
    IndexNone(t, ',');
    IndexOf(t, ',', rest);
    assert t[..|t|] == t && v[..|t|] == t && v[|t| + 1..] == rest;
  }

  /** An entry with a sign: it is added or removed, and the list no longer replaces. */
  lemma SignedEntryReads(net: Net, p: CPeer, i: CIp, sign: char)
    requires IpReads(i) && AddressReads(net, i.ip.family, i.ip.addr) && (sign == '+' || sign == '-')
    ensures var t := IpText(net, i);
            t.Some? && ParseAllowedIps(net, p, [sign] + t.value) ==
                       Some(p.(ips := p.ips + [CIp(i.ip, sign == '-')], replaceIps := false))
  {
    hide ParseEntry, Index, IpText, AddressReads;
    EntryReads(net, i);
    var t := IpText(net, i).value;
    var v := [sign] + t;
    IndexNone(v, ',');
    assert v[..|v|] == v && v[1..] == t && v[0] == sign;
  }

  /** A list read back. */
  lemma {:induction false} EntriesRead(net: Net, p: CPeer, ips: seq<CIp>)
    requires ips != [] && IpsRead(net, ips) && p.replaceIps
    requires forall i :: 0 <= i < |ips| ==> IpText(net, ips[i]).Some?
    ensures ParseEntries(net, p, Commas(net, ips)) == Some(p.(ips := p.ips + Shown(ips)))
    decreases |ips|
  {
    hide IpText, ParseEntry, ParseEntries, AddressReads;
    EntryReads(net, ips[0]);
    var t, rest := IpText(net, ips[0]).value, Commas(net, ips[1..]);
    FirstEntry(net, p, ips[0], t, rest);
    if |ips| == 1 {
      assert Commas(net, ips) == t;
      assert Shown(ips) == [CIp(ips[0].ip, false)];
    } else {
      EntriesRead(net, p.(ips := p.ips + [CIp(ips[0].ip, false)]), ips[1..]);
      assert p.ips + [CIp(ips[0].ip, false)] + Shown(ips[1..]) == p.ips + Shown(ips);
    }
  }
}

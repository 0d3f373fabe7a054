/** The attribute callbacks of src/ipc-linux.h: what they make of the messages of a
    dump, whatever the bytes are, and a dump that the kernel wrote read into peers. */
module DumpParser {
  import opened Machine
  import opened Common
  import opened LittleEndian
  import opened Tlv
  import opened WgMessage
  import opened WgDevice
  import opened Coalesce
  import opened Reassembly

  // ----- the callbacks -----

  function ZeroIp(): AllowedIp {
    AllowedIp(0, seq(16, i => 0), 0, 0)
  }

  /** parse_allowedip: a payload of the wrong length is passed over. */
  function IpAttr(ip: AllowedIp, v: View): (AllowedIp, int) {
    var b := v.payload;
    (if v.typ == WGALLOWEDIP_A_FAMILY && |b| == 2 then ip.(family := Get16(b, 0))
     else if v.typ == WGALLOWEDIP_A_IPADDR && |b| == 4 then ip.(addr := b + ip.addr[4..])
     else if v.typ == WGALLOWEDIP_A_IPADDR && |b| == 16 then ip.(addr := b)
     else if v.typ == WGALLOWEDIP_A_CIDR_MASK && |b| == 1 then ip.(cidr := b[0])
     else ip, CB_OK)
  }

  predicate ValidIp(ip: AllowedIp) {
    (ip.family == AF_INET && ip.cidr <= 32) || (ip.family == AF_INET6 && ip.cidr <= 128)
  }

  /** parse_allowedips: an invalid entry is an error, and stays in the list. */
  function IpEntry(ips: seq<AllowedIp>, v: View): (seq<AllowedIp>, int) {
    var r := Walk(IpAttr, ZeroIp(), CB_OK, Inside(v.payload));
    (ips + [r.0], if r.1 == CB_STOP then r.1 else if ValidIp(r.0) then CB_OK else CB_ERROR)
  }

  /** The peer being read. */
  datatype Partial = Partial(hasKey: bool, key: Key, info: Info, ips: seq<AllowedIp>)

  function EmptyPartial(): Partial {
    Partial(false, ZeroKey(), Info(ZeroKey(), false, seq(28, i => 0), 0, seq(16, i => 0), 0, 0), [])
  }

  /** What parse_peer keeps besides the public key and the allowed IPs. */
  function InfoAttr(i: Info, v: View): Info {
    var b := v.payload;
    if v.typ == WGPEER_A_PRESHARED_KEY && |b| == KEY_LEN then
      i.(presharedKey := b, hasPresharedKey := i.hasPresharedKey || b != ZeroKey())
    else if v.typ == WGPEER_A_ENDPOINT && |b| == 16 && Get16(b, 0) == AF_INET then i.(endpoint := b + i.endpoint[16..])
    else if v.typ == WGPEER_A_ENDPOINT && |b| == 28 && Get16(b, 0) == AF_INET6 then i.(endpoint := b)
    else if v.typ == WGPEER_A_PERSISTENT_KEEPALIVE_INTERVAL && |b| == 2 then i.(keepalive := Get16(b, 0))
    else if v.typ == WGPEER_A_LAST_HANDSHAKE_TIME && |b| == 16 then i.(handshake := b)
    else if v.typ == WGPEER_A_RX_BYTES && |b| == 8 then i.(rx := LE(b))
    else if v.typ == WGPEER_A_TX_BYTES && |b| == 8 then i.(tx := LE(b))
    else i
  }

  /** parse_peer: an error among the allowed IPs ends the peer. */
  function PeerAttr(p: Partial, v: View): (Partial, int) {
    if v.typ == WGPEER_A_ALLOWEDIPS then
      var r := Walk(IpEntry, p.ips, CB_OK, Inside(v.payload));
      (p.(ips := r.0), r.1)
    else if v.typ == WGPEER_A_PUBLIC_KEY && |v.payload| == KEY_LEN then (p.(key := v.payload, hasKey := true), CB_OK)
    else (p.(info := InfoAttr(p.info, v)), CB_OK)
  }

  function FragmentFrom(p: Partial): Fragment {
    Fragment(p.key, p.info, p.ips, false)
  }

  /** parse_peers: of what went wrong inside the peer only a stop is passed on; a
      peer without a key is an error. */
  function PeerEntry(fs: seq<Fragment>, v: View): (seq<Fragment>, int) {
    var r := Walk(PeerAttr, EmptyPartial(), CB_OK, Inside(v.payload));
    (fs + [FragmentFrom(r.0)], if r.1 == CB_STOP then r.1 else if r.0.hasKey then CB_OK else CB_ERROR)
  }

  /** parse_device, as far as the peers go. */
  function DeviceAttr(fs: seq<Fragment>, v: View): (seq<Fragment>, int) {
    if v.typ == WGDEVICE_A_PEERS then Walk(PeerEntry, fs, CB_OK, Inside(v.payload)) else (fs, CB_OK)
  }

  /** read_device_cb for one message after the other. */
  function ReadFrom(fs: seq<Fragment>, ms: seq<Bytes>): Option<seq<Fragment>>
    decreases |ms|
  {
    if ms == [] then Some(fs)
    else
      var r := Walk(DeviceAttr, fs, CB_OK, Views(ms[0], HEADER, |ms[0]|));
      if r.1 < CB_STOP then None else if r.1 == CB_STOP then Some(r.0) else ReadFrom(r.0, ms[1..])
  }

  function ReadDump(ms: seq<Bytes>): Option<seq<Fragment>> {
    ReadFrom([], ms)
  }

  // ----- which dumps are refused -----

  /** An allowed-IPs attribute with an invalid entry. */
  predicate BadIps(v: View) {
    v.typ == WGPEER_A_ALLOWEDIPS
    && exists i :: 0 <= i < |Inside(v.payload)| && !ValidIp(Walk(IpAttr, ZeroIp(), CB_OK, Inside(Inside(v.payload)[i].payload)).0)
  }

  predicate KeyAttr(v: View) {
    v.typ == WGPEER_A_PUBLIC_KEY && |v.payload| == KEY_LEN
  }

  /** A key comes before the first invalid allowed IP. */
  predicate KeyRead(vs: seq<View>) {
    exists i :: 0 <= i < |vs| && KeyAttr(vs[i]) && forall j :: 0 <= j < i ==> !BadIps(vs[j])
  }

  lemma {:induction false} IpAttrRet(ip: AllowedIp, vs: seq<View>)
    ensures Walk(IpAttr, ip, CB_OK, vs).1 == CB_OK
    decreases |vs|
  {
    if vs != [] {
      IpAttrRet(IpAttr(ip, vs[0]).0, vs[1..]);
    }
  }

  lemma {:induction false} IpEntriesRet(ips: seq<AllowedIp>, vs: seq<View>)
    ensures var r := Walk(IpEntry, ips, CB_OK, vs).1;
            && (r == CB_OK || r == CB_ERROR)
            && (r == CB_ERROR <==> exists i :: 0 <= i < |vs| && !ValidIp(Walk(IpAttr, ZeroIp(), CB_OK, Inside(vs[i].payload)).0))
    decreases |vs|
  {
    hide Inside, ValidIp, IpAttr;
    if vs != [] {
      var r := IpEntry(ips, vs[0]);
      IpAttrRet(ZeroIp(), Inside(vs[0].payload));
      if r.1 == CB_OK {
        IpEntriesRet(r.0, vs[1..]);
        assert forall i :: 0 <= i < |vs| - 1 ==> vs[1..][i] == vs[i + 1];
        assert forall i :: 0 < i < |vs| ==> vs[i] == vs[1..][i - 1];
      }
    }
  }

  lemma PeerAttrRet(p: Partial, v: View)
    ensures var r := PeerAttr(p, v);
            && r.1 == (if BadIps(v) then CB_ERROR else CB_OK)
            && r.0.hasKey == (p.hasKey || KeyAttr(v))
  {
    hide Inside, ValidIp, IpAttr, IpEntry;
    if v.typ == WGPEER_A_ALLOWEDIPS {
      IpEntriesRet(p.ips, Inside(v.payload));
    }
  }

  /** Errors among the allowed IPs decide nothing but where the peer ends. */
  lemma {:induction false} PeerAttrsRet(p: Partial, vs: seq<View>)
    ensures var r := Walk(PeerAttr, p, CB_OK, vs);
            r.1 != CB_STOP && r.0.hasKey == (p.hasKey || KeyRead(vs))
    decreases |vs|
  {
    hide PeerAttr, BadIps, KeyAttr;
    if vs != [] {
      var r := PeerAttr(p, vs[0]);
      PeerAttrRet(p, vs[0]);
      if r.1 == CB_OK {
        PeerAttrsRet(r.0, vs[1..]);
        KeyReadNext(vs);
      } else if KeyRead(vs) {
        var i :| 0 <= i < |vs| && KeyAttr(vs[i]) && forall j :: 0 <= j < i ==> !BadIps(vs[j]);
        assert i == 0;
      }
    }
  }

  lemma KeyReadNext(vs: seq<View>)
    requires vs != [] && !BadIps(vs[0])
    ensures KeyRead(vs) <==> KeyAttr(vs[0]) || KeyRead(vs[1..])
  {
    hide BadIps, KeyAttr;
    if KeyRead(vs) && !KeyAttr(vs[0]) {
      var i :| 0 <= i < |vs| && KeyAttr(vs[i]) && forall j :: 0 <= j < i ==> !BadIps(vs[j]);
      assert KeyAttr(vs[1..][i - 1]) && forall j :: 0 <= j < i - 1 ==> !BadIps(vs[1..][j]);
    }
    if KeyRead(vs[1..]) {
      var i :| 0 <= i < |vs[1..]| && KeyAttr(vs[1..][i]) && forall j :: 0 <= j < i ==> !BadIps(vs[1..][j]);
      assert KeyAttr(vs[i + 1]);
      assert forall j :: 0 < j < i + 1 ==> vs[j] == vs[1..][j - 1];
    }
  }

  /** The peers of a message are refused exactly if one has no key before its first
      invalid allowed IP: an invalid allowed IP by itself is not an error. */
  lemma {:induction false} RefusedExactly(fs: seq<Fragment>, vs: seq<View>)
    ensures var r := Walk(PeerEntry, fs, CB_OK, vs).1;
            && (r == CB_OK || r == CB_ERROR)
            && (r == CB_OK <==> forall i :: 0 <= i < |vs| ==> KeyRead(Inside(vs[i].payload)))
    decreases |vs|
  {
    hide Inside, PeerAttr, KeyRead;
    if vs != [] {
      PeerAttrsRet(EmptyPartial(), Inside(vs[0].payload));
      var r := PeerEntry(fs, vs[0]);
      if r.1 == CB_OK {
        RefusedExactly(r.0, vs[1..]);
        assert forall i :: 0 <= i < |vs| - 1 ==> vs[1..][i] == vs[i + 1];
        assert forall i :: 0 < i < |vs| ==> vs[i] == vs[1..][i - 1];
      }
    }
  }

  /** What comes after an invalid allowed IP of a peer is not looked at. */
  lemma InvalidIpEndsPeer(p: Partial, a: seq<View>, v: View, b: seq<View>)
    requires BadIps(v)
    ensures Walk(PeerAttr, p, CB_OK, a + [v] + b) == Walk(PeerAttr, p, CB_OK, a + [v])
  {
    hide PeerAttr, BadIps;
    var r := Walk(PeerAttr, p, CB_OK, a);
    WalkAppend(PeerAttr, p, CB_OK, a + [v], b);
    WalkAppend(PeerAttr, p, CB_OK, a, [v]);
    PeerAttrRet(r.0, v);
    assert [v][1..] == [];
  }

  // ----- a dump that the kernel wrote -----

  /** An allowed IP and a peer of a dump: the payloads of their attributes. */
  datatype DumpIp = DumpIp(family: nat, addr: Bytes, cidr: u8)

  datatype DumpPeer = DumpPeer(key: Bytes, psk: Option<Bytes>, endpoint: Option<Bytes>, keepalive: Option<Bytes>,
                               handshake: Option<Bytes>, rx: Option<Bytes>, tx: Option<Bytes>, ips: Option<seq<DumpIp>>)

  predicate GoodIp(w: DumpIp) {
    (w.family == AF_INET && |w.addr| == 4 && w.cidr <= 32) || (w.family == AF_INET6 && |w.addr| == 16 && w.cidr <= 128)
  }

  predicate GoodSocket(b: Bytes) {
    (|b| == 16 && Get16(b, 0) == AF_INET) || (|b| == 28 && Get16(b, 0) == AF_INET6)
  }

  predicate Sized(o: Option<Bytes>, n: nat) {
    o.Some? ==> |o.value| == n
  }

  predicate GoodPeer(w: DumpPeer) {
    && |w.key| == KEY_LEN && Sized(w.psk, KEY_LEN) && (w.endpoint.Some? ==> GoodSocket(w.endpoint.value))
    && Sized(w.keepalive, 2) && Sized(w.handshake, 16) && Sized(w.rx, 8) && Sized(w.tx, 8)
    && (w.ips.Some? ==> forall i :: 0 <= i < |w.ips.value| ==> GoodIp(w.ips.value[i]))
  }

  function IpOf(w: DumpIp): AllowedIp
    requires GoodIp(w)
  {
    AllowedIp(w.family, if |w.addr| == 4 then w.addr + seq(12, i => 0) else w.addr, w.cidr, 0)
  }

  function IpsFrom(ws: seq<DumpIp>): (r: seq<AllowedIp>)
    requires forall i :: 0 <= i < |ws| ==> GoodIp(ws[i])
    ensures |r| == |ws|
  {
    seq(|ws|, i requires 0 <= i < |ws| => IpOf(ws[i]))
  }

  function Padded(o: Option<Bytes>): SockUnion
    requires o.Some? ==> GoodSocket(o.value)
  {
    if o.None? then seq(28, i => 0) else if |o.value| == 16 then o.value + seq(12, i => 0) else o.value
  }

  function InfoOf(psk: Option<Bytes>, endpoint: Option<Bytes>, keepalive: Option<Bytes>, handshake: Option<Bytes>,
                  rx: Option<Bytes>, tx: Option<Bytes>): Info
    requires Sized(psk, KEY_LEN) && (endpoint.Some? ==> GoodSocket(endpoint.value))
    requires Sized(keepalive, 2) && Sized(handshake, 16) && Sized(rx, 8) && Sized(tx, 8)
  {
    Info(if psk.Some? then psk.value else ZeroKey(), psk.Some? && psk.value != ZeroKey(), Padded(endpoint),
         if keepalive.Some? then Get16(keepalive.value, 0) else 0, if handshake.Some? then handshake.value else seq(16, i => 0),
         if rx.Some? then LE(rx.value) else 0, if tx.Some? then LE(tx.value) else 0)
  }

  /** The fragment that a peer of the dump describes. */
  function FragmentOf(w: DumpPeer): Fragment
    requires GoodPeer(w)
  {
    Fragment(w.key, InfoOf(w.psk, w.endpoint, w.keepalive, w.handshake, w.rx, w.tx),
             if w.ips.Some? then IpsFrom(w.ips.value) else [], false)
  }

  function FragmentsOf(ws: seq<DumpPeer>): (r: seq<Fragment>)
    requires forall i :: 0 <= i < |ws| ==> GoodPeer(ws[i])
    ensures |r| == |ws|
  {
    seq(|ws|, i requires 0 <= i < |ws| => FragmentOf(ws[i]))
  }

  // ----- attributes in any order -----

  /** No attribute comes twice. */
  predicate Distinct(vs: seq<View>) {
    forall i, j :: 0 <= i < j < |vs| ==> vs[i].typ != vs[j].typ
  }

  /** These attributes, in any order and among others, describe that entry. */
  predicate ShowsIp(vs: seq<View>, w: DumpIp) {
    && Distinct(vs) && GoodIp(w)
    && Find(vs, WGALLOWEDIP_A_FAMILY) == Some(LE16(w.family)) && Find(vs, WGALLOWEDIP_A_IPADDR) == Some(w.addr)
    && Find(vs, WGALLOWEDIP_A_CIDR_MASK) == Some([w.cidr])
  }

  predicate ShowsIps(vs: seq<View>, ws: seq<DumpIp>) {
    |vs| == |ws| && forall i :: 0 <= i < |ws| ==> ShowsIp(Inside(vs[i].payload), ws[i])
  }

  predicate ShowsPeer(vs: seq<View>, w: DumpPeer) {
    && Distinct(vs) && GoodPeer(w)
    && Find(vs, WGPEER_A_PUBLIC_KEY) == Some(w.key) && Find(vs, WGPEER_A_PRESHARED_KEY) == w.psk
    && Find(vs, WGPEER_A_ENDPOINT) == w.endpoint && Find(vs, WGPEER_A_PERSISTENT_KEEPALIVE_INTERVAL) == w.keepalive
    && Find(vs, WGPEER_A_LAST_HANDSHAKE_TIME) == w.handshake
    && Find(vs, WGPEER_A_RX_BYTES) == w.rx && Find(vs, WGPEER_A_TX_BYTES) == w.tx
    && var b := Find(vs, WGPEER_A_ALLOWEDIPS);
       if w.ips.None? then b.None? else b.Some? && ShowsIps(Inside(b.value), w.ips.value)
  }

  predicate ShowsPeers(vs: seq<View>, ws: seq<DumpPeer>) {
    |vs| == |ws| && forall i :: 0 <= i < |ws| ==> ShowsPeer(Inside(vs[i].payload), ws[i])
  }

  /** A message with these peers; one may have none. */
  predicate ShowsMessage(m: Bytes, ws: seq<DumpPeer>) {
    var vs := Views(m, HEADER, |m|);
    var b := Find(vs, WGDEVICE_A_PEERS);
    Distinct(vs) && if b.None? then ws == [] else ShowsPeers(Inside(b.value), ws)
  }

  lemma FindSnoc(vs: seq<View>, v: View, t: nat)
    requires Distinct(vs + [v])
    ensures Distinct(vs) && Find(vs, v.typ).None?
    ensures Find(vs + [v], t) == if t == v.typ then Some(v.payload) else Find(vs, t)
  {
    hide Find;
    FindAppend(vs, [v], t);
    assert Find([v], t) == if t == v.typ then Some(v.payload) else None by { FindOne(v, t); }
    forall i | 0 <= i < |vs|
      ensures vs[i].typ != v.typ
    {
      assert (vs + [v])[i] == vs[i] && (vs + [v])[|vs|] == v;
    }
    FindNone(vs, v.typ);
    forall i, j | 0 <= i < j < |vs|
      ensures vs[i].typ != vs[j].typ
    {
      assert (vs + [v])[i] == vs[i] && (vs + [v])[j] == vs[j];
    }
  }

  lemma FindOne(v: View, t: nat)
    ensures Find([v], t) == if t == v.typ then Some(v.payload) else None
  {
    assert [v][1..] == [];
    assert Find([], t) == None;
  }

  lemma {:induction false} FindNone(vs: seq<View>, t: nat)
    requires forall i :: 0 <= i < |vs| ==> vs[i].typ != t
    ensures Find(vs, t).None?
  {
    if vs != [] {
      FindNone(vs[1..], t);
    }
  }

  /** The attribute found is the one there is. */
  lemma {:induction false} FindAt(vs: seq<View>, i: nat)
    requires Distinct(vs) && i < |vs|
    ensures Find(vs, vs[i].typ) == Some(vs[i].payload)
  {
    if i == 0 {
      FindNone(vs[1..], vs[0].typ);
    } else {
      FindAt(vs[1..], i - 1);
    }
  }

  // ----- reading an allowed IP -----

  predicate IpFormed(v: View) {
    && (v.typ == WGALLOWEDIP_A_FAMILY ==> |v.payload| == 2) && (v.typ == WGALLOWEDIP_A_CIDR_MASK ==> |v.payload| == 1)
    && (v.typ == WGALLOWEDIP_A_IPADDR ==> |v.payload| == 4 || |v.payload| == 16)
  }

  predicate IpSized(f: Option<Bytes>, a: Option<Bytes>, c: Option<Bytes>) {
    Sized(f, 2) && Sized(c, 1) && (a.Some? ==> |a.value| == 4 || |a.value| == 16)
  }

  function IpFrom(f: Option<Bytes>, a: Option<Bytes>, c: Option<Bytes>): AllowedIp
    requires IpSized(f, a, c)
  {
    AllowedIp(if f.Some? then Get16(f.value, 0) else 0,
              if a.None? then seq(16, i => 0) else if |a.value| == 4 then a.value + seq(12, i => 0) else a.value,
              if c.Some? then c.value[0] else 0, 0)
  }

  /** One attribute more of an allowed IP. */
  lemma IpStep(f: Option<Bytes>, a: Option<Bytes>, c: Option<Bytes>, v: View)
    requires IpSized(f, a, c) && IpFormed(v) && (v.typ == WGALLOWEDIP_A_IPADDR ==> a.None?)
    ensures var f' := if v.typ == WGALLOWEDIP_A_FAMILY then Some(v.payload) else f;
            var a' := if v.typ == WGALLOWEDIP_A_IPADDR then Some(v.payload) else a;
            var c' := if v.typ == WGALLOWEDIP_A_CIDR_MASK then Some(v.payload) else c;
            IpSized(f', a', c') && IpAttr(IpFrom(f, a, c), v) == (IpFrom(f', a', c'), CB_OK)
  {
    var z: Bytes := seq(16, i => 0);
    assert z[4..] == seq(12, i => 0);
  }

  lemma {:induction false} IpWalk(vs: seq<View>)
    requires Distinct(vs) && forall i :: 0 <= i < |vs| ==> IpFormed(vs[i])
    ensures var f, a, c := Find(vs, WGALLOWEDIP_A_FAMILY), Find(vs, WGALLOWEDIP_A_IPADDR), Find(vs, WGALLOWEDIP_A_CIDR_MASK);
            IpSized(f, a, c) && Walk(IpAttr, ZeroIp(), CB_OK, vs) == (IpFrom(f, a, c), CB_OK)
    decreases |vs|
  {
    hide IpAttr, Find, IpFormed, IpSized, IpFrom, Distinct;
    if vs == [] {
      IpNothing();
    } else {
      var n := |vs| - 1;
      var a, v := vs[..n], vs[n];
      assert vs == a + [v];
      FindSnoc(a, v, WGALLOWEDIP_A_FAMILY);
      FindSnoc(a, v, WGALLOWEDIP_A_IPADDR);
      FindSnoc(a, v, WGALLOWEDIP_A_CIDR_MASK);
      IpWalk(a);
      WalkSnoc(IpAttr, ZeroIp(), CB_OK, a, v);
      IpStep(Find(a, WGALLOWEDIP_A_FAMILY), Find(a, WGALLOWEDIP_A_IPADDR), Find(a, WGALLOWEDIP_A_CIDR_MASK), v);
    }
  }

  lemma IpNothing()
    ensures Find([], WGALLOWEDIP_A_FAMILY).None? && Find([], WGALLOWEDIP_A_IPADDR).None? && Find([], WGALLOWEDIP_A_CIDR_MASK).None?
    ensures IpSized(None, None, None) && ZeroIp() == IpFrom(None, None, None)
  {
  }

  lemma IpReads(vs: seq<View>, w: DumpIp)
    requires ShowsIp(vs, w)
    ensures Walk(IpAttr, ZeroIp(), CB_OK, vs) == (IpOf(w), CB_OK) && ValidIp(IpOf(w))
  {
    hide IpAttr, Find, LE16, Distinct;
    forall i | 0 <= i < |vs|
      ensures IpFormed(vs[i])
    {
      FindAt(vs, i);
    }
    IpWalk(vs);
    Get16Back(w.family);
  }

  lemma Get16Back(v: nat)
    requires v < 0x10000
    ensures Get16(LE16(v), 0) == v
  {
  }

  lemma {:induction false} IpsRead(ips: seq<AllowedIp>, vs: seq<View>, ws: seq<DumpIp>)
    requires ShowsIps(vs, ws)
    ensures (forall i :: 0 <= i < |ws| ==> GoodIp(ws[i])) && Walk(IpEntry, ips, CB_OK, vs) == (ips + IpsFrom(ws), CB_OK)
    decreases |vs|
  {
    hide ShowsIp, Inside, IpAttr, GoodIp, IpOf, ValidIp;
    forall i | 0 <= i < |ws|
      ensures GoodIp(ws[i])
    {
      ShownGood(Inside(vs[i].payload), ws[i]);
    }
    if vs == [] {
      assert ips + IpsFrom(ws) == ips;
    } else {
      IpReads(Inside(vs[0].payload), ws[0]);
      assert forall i :: 0 <= i < |ws[1..]| ==> vs[1..][i] == vs[i + 1] && ws[1..][i] == ws[i + 1];
      IpsRead(ips + [IpOf(ws[0])], vs[1..], ws[1..]);
      assert ips + [IpOf(ws[0])] + IpsFrom(ws[1..]) == ips + IpsFrom(ws);
    }
  }

  lemma ShownGood(vs: seq<View>, w: DumpIp)
    requires ShowsIp(vs, w)
    ensures GoodIp(w)
  {
  }

  // ----- reading a peer -----

  /** The payloads found so far. */
  datatype Found = Found(key: Option<Bytes>, psk: Option<Bytes>, endpoint: Option<Bytes>, keepalive: Option<Bytes>,
                         handshake: Option<Bytes>, rx: Option<Bytes>, tx: Option<Bytes>, ips: Option<Bytes>)

  function FoundIn(vs: seq<View>): Found {
    Found(Find(vs, WGPEER_A_PUBLIC_KEY), Find(vs, WGPEER_A_PRESHARED_KEY), Find(vs, WGPEER_A_ENDPOINT),
          Find(vs, WGPEER_A_PERSISTENT_KEEPALIVE_INTERVAL), Find(vs, WGPEER_A_LAST_HANDSHAKE_TIME),
          Find(vs, WGPEER_A_RX_BYTES), Find(vs, WGPEER_A_TX_BYTES), Find(vs, WGPEER_A_ALLOWEDIPS))
  }

  function Added(f: Found, v: View): Found {
    if v.typ == WGPEER_A_PUBLIC_KEY then f.(key := Some(v.payload))
    else if v.typ == WGPEER_A_PRESHARED_KEY then f.(psk := Some(v.payload))
    else if v.typ == WGPEER_A_ENDPOINT then f.(endpoint := Some(v.payload))
    else if v.typ == WGPEER_A_PERSISTENT_KEEPALIVE_INTERVAL then f.(keepalive := Some(v.payload))
    else if v.typ == WGPEER_A_LAST_HANDSHAKE_TIME then f.(handshake := Some(v.payload))
    else if v.typ == WGPEER_A_RX_BYTES then f.(rx := Some(v.payload))
    else if v.typ == WGPEER_A_TX_BYTES then f.(tx := Some(v.payload))
    else if v.typ == WGPEER_A_ALLOWEDIPS then f.(ips := Some(v.payload))
    else f
  }

  predicate FoundOk(f: Found) {
    && Sized(f.key, KEY_LEN) && Sized(f.psk, KEY_LEN) && (f.endpoint.Some? ==> GoodSocket(f.endpoint.value))
    && Sized(f.keepalive, 2) && Sized(f.handshake, 16) && Sized(f.rx, 8) && Sized(f.tx, 8)
    && (f.ips.Some? ==> Walk(IpEntry, [], CB_OK, Inside(f.ips.value)).1 == CB_OK)
  }

  function PartialOf(f: Found): Partial
    requires FoundOk(f)
  {
    Partial(f.key.Some?, if f.key.Some? then f.key.value else ZeroKey(),
            FoundInfo(f),
            if f.ips.Some? then Walk(IpEntry, [], CB_OK, Inside(f.ips.value)).0 else [])
  }

  function FoundInfo(f: Found): Info
    requires FoundOk(f)
  {
    InfoOf(f.psk, f.endpoint, f.keepalive, f.handshake, f.rx, f.tx)
  }

  lemma SocketStep(f: Found, v: View)
    requires FoundOk(f) && FoundOk(Added(f, v)) && v.typ == WGPEER_A_ENDPOINT && f.endpoint.None?
    ensures InfoAttr(FoundInfo(f), v) == FoundInfo(Added(f, v))
  {
    hide Walk, Inside, IpEntry, LE, ZeroKey;
    var z: Bytes := seq(28, i => 0);
    assert z[16..] == seq(12, i => 0);
  }

  lemma KeyStep(f: Found, v: View)
    requires FoundOk(f) && FoundOk(Added(f, v)) && v.typ == WGPEER_A_PRESHARED_KEY && f.psk.None?
    ensures InfoAttr(FoundInfo(f), v) == FoundInfo(Added(f, v))
  {
    hide Walk, Inside, IpEntry, LE, Get16, Padded;
  }

  lemma TimeStep(f: Found, v: View)
    requires FoundOk(f) && FoundOk(Added(f, v))
    requires v.typ == WGPEER_A_PERSISTENT_KEEPALIVE_INTERVAL || v.typ == WGPEER_A_LAST_HANDSHAKE_TIME
    ensures InfoAttr(FoundInfo(f), v) == FoundInfo(Added(f, v))
  {
    hide Walk, Inside, IpEntry, LE, Get16, ZeroKey, Padded, GoodSocket;
  }

  lemma CountStep(f: Found, v: View)
    requires FoundOk(f) && FoundOk(Added(f, v)) && (v.typ == WGPEER_A_RX_BYTES || v.typ == WGPEER_A_TX_BYTES)
    ensures InfoAttr(FoundInfo(f), v) == FoundInfo(Added(f, v))
  {
    hide Walk, Inside, IpEntry, LE, Get16, ZeroKey, Padded, GoodSocket;
  }

  /** Attributes that are not part of the information. */
  predicate Elsewhere(t: nat) {
    && t != WGPEER_A_PRESHARED_KEY && t != WGPEER_A_ENDPOINT && t != WGPEER_A_PERSISTENT_KEEPALIVE_INTERVAL
    && t != WGPEER_A_LAST_HANDSHAKE_TIME && t != WGPEER_A_RX_BYTES && t != WGPEER_A_TX_BYTES
  }

  lemma OtherStep(f: Found, v: View)
    requires FoundOk(f) && FoundOk(Added(f, v)) && Elsewhere(v.typ)
    ensures FoundInfo(f) == FoundInfo(Added(f, v)) && forall i: Info :: InfoAttr(i, v) == i
  {
    hide Walk, Inside, IpEntry, LE, Get16, ZeroKey, Padded, GoodSocket, InfoOf;
  }

  /** One attribute more of a peer. */
  lemma PeerStep(f: Found, v: View)
    requires FoundOk(f) && FoundOk(Added(f, v))
    requires (v.typ == WGPEER_A_PRESHARED_KEY ==> f.psk.None?) && (v.typ == WGPEER_A_ENDPOINT ==> f.endpoint.None?)
    requires v.typ == WGPEER_A_ALLOWEDIPS ==> f.ips.None?
    ensures PeerAttr(PartialOf(f), v) == (PartialOf(Added(f, v)), CB_OK)
  {
    hide Walk, Inside, IpEntry, InfoAttr, FoundInfo, GoodSocket, ZeroKey;
    if v.typ == WGPEER_A_ENDPOINT {
      SocketStep(f, v);
    } else if v.typ == WGPEER_A_PRESHARED_KEY {
      KeyStep(f, v);
    } else if v.typ == WGPEER_A_PERSISTENT_KEEPALIVE_INTERVAL || v.typ == WGPEER_A_LAST_HANDSHAKE_TIME {
      TimeStep(f, v);
    } else if v.typ == WGPEER_A_RX_BYTES || v.typ == WGPEER_A_TX_BYTES {
      CountStep(f, v);
    } else {
      OtherStep(f, v);
    }
  }

  lemma FoundSnoc(vs: seq<View>, v: View)
    requires Distinct(vs + [v])
    ensures Distinct(vs) && FoundIn(vs + [v]) == Added(FoundIn(vs), v) && Find(vs, v.typ).None?
  {
    hide Find, Distinct;
    FindSnoc(vs, v, WGPEER_A_PUBLIC_KEY);
    FindSnoc(vs, v, WGPEER_A_PRESHARED_KEY);
    FindSnoc(vs, v, WGPEER_A_ENDPOINT);
    FindSnoc(vs, v, WGPEER_A_PERSISTENT_KEEPALIVE_INTERVAL);
    FindSnoc(vs, v, WGPEER_A_LAST_HANDSHAKE_TIME);
    FindSnoc(vs, v, WGPEER_A_RX_BYTES);
    FindSnoc(vs, v, WGPEER_A_TX_BYTES);
    FindSnoc(vs, v, WGPEER_A_ALLOWEDIPS);
  }

  /** Fewer attributes are good if more are. */
  lemma FoundLess(f: Found, v: View)
    requires FoundOk(Added(f, v))
    requires (v.typ == WGPEER_A_PUBLIC_KEY ==> f.key.None?) && (v.typ == WGPEER_A_PRESHARED_KEY ==> f.psk.None?)
    requires (v.typ == WGPEER_A_ENDPOINT ==> f.endpoint.None?) && (v.typ == WGPEER_A_PERSISTENT_KEEPALIVE_INTERVAL ==> f.keepalive.None?)
    requires (v.typ == WGPEER_A_LAST_HANDSHAKE_TIME ==> f.handshake.None?) && (v.typ == WGPEER_A_RX_BYTES ==> f.rx.None?)
    requires (v.typ == WGPEER_A_TX_BYTES ==> f.tx.None?) && (v.typ == WGPEER_A_ALLOWEDIPS ==> f.ips.None?)
    ensures FoundOk(f)
  {
    hide Walk, Inside, IpEntry, GoodSocket;
  }

  /** Attributes in any order make the peer that they describe. */
  lemma {:induction false} PeerWalk(vs: seq<View>)
    requires Distinct(vs) && FoundOk(FoundIn(vs))
    ensures Walk(PeerAttr, EmptyPartial(), CB_OK, vs) == (PartialOf(FoundIn(vs)), CB_OK)
    decreases |vs|
  {
    hide PeerAttr, Find, Distinct, FoundOk, PartialOf, Added;
    if vs == [] {
      PeerNothing();
    } else {
      var n := |vs| - 1;
      var a, v := vs[..n], vs[n];
      assert vs == a + [v];
      FoundSnoc(a, v);
      FoundLess(FoundIn(a), v);
      PeerWalk(a);
      WalkSnoc(PeerAttr, EmptyPartial(), CB_OK, a, v);
      PeerStep(FoundIn(a), v);
    }
  }

  lemma PeerNothing()
    ensures FoundIn([]) == Found(None, None, None, None, None, None, None, None)
    ensures FoundOk(FoundIn([])) && EmptyPartial() == PartialOf(FoundIn([]))
  {
  }

  /** A peer of the dump is read as its fragment. */
  lemma PeerReads(vs: seq<View>, w: DumpPeer)
    requires ShowsPeer(vs, w)
    ensures var r := Walk(PeerAttr, EmptyPartial(), CB_OK, vs); r.1 == CB_OK && r.0.hasKey && FragmentFrom(r.0) == FragmentOf(w)
  {
    hide PeerAttr, Find, Distinct, ShowsIps, GoodSocket, GoodIp, IpEntry, Walk, Inside, InfoOf;
    var f := FoundIn(vs);
    if w.ips.Some? {
      IpsRead([], Inside(f.ips.value), w.ips.value);
      assert [] + IpsFrom(w.ips.value) == IpsFrom(w.ips.value);
    }
    PeerWalk(vs);
  }

  lemma {:induction false} PeersRead(fs: seq<Fragment>, vs: seq<View>, ws: seq<DumpPeer>)
    requires ShowsPeers(vs, ws)
    ensures (forall i :: 0 <= i < |ws| ==> GoodPeer(ws[i])) && Walk(PeerEntry, fs, CB_OK, vs) == (fs + FragmentsOf(ws), CB_OK)
    decreases |vs|
  {
    hide ShowsPeer, Inside, PeerAttr, GoodPeer, FragmentOf;
    forall i | 0 <= i < |ws|
      ensures GoodPeer(ws[i])
    {
      PeerGood(Inside(vs[i].payload), ws[i]);
    }
    if vs == [] {
      assert fs + FragmentsOf(ws) == fs;
    } else {
      PeerReads(Inside(vs[0].payload), ws[0]);
      assert forall i :: 0 <= i < |ws[1..]| ==> vs[1..][i] == vs[i + 1] && ws[1..][i] == ws[i + 1];
      PeersRead(fs + [FragmentOf(ws[0])], vs[1..], ws[1..]);
      assert fs + [FragmentOf(ws[0])] + FragmentsOf(ws[1..]) == fs + FragmentsOf(ws);
    }
  }

  lemma PeerGood(vs: seq<View>, w: DumpPeer)
    requires ShowsPeer(vs, w)
    ensures GoodPeer(w)
  {
  }

  // ----- reading messages -----

  /** The peers nest is walked once, wherever it is among the attributes. */
  lemma {:induction false} NestWalk(fs: seq<Fragment>, vs: seq<View>, ws: seq<DumpPeer>)
    requires Distinct(vs) && var b := Find(vs, WGDEVICE_A_PEERS); b.Some? ==> ShowsPeers(Inside(b.value), ws)
    ensures var b := Find(vs, WGDEVICE_A_PEERS);
            && (b.Some? ==> forall i :: 0 <= i < |ws| ==> GoodPeer(ws[i]))
            && Walk(DeviceAttr, fs, CB_OK, vs) == (if b.Some? then fs + FragmentsOf(ws) else fs, CB_OK)
    decreases |vs|
  {
    hide Find, Distinct, ShowsPeers, Inside, GoodPeer, FragmentOf, PeerEntry;
    if vs == [] {
      assert Find([], WGDEVICE_A_PEERS).None? by { FindNone([], WGDEVICE_A_PEERS); }
    } else {
      var n := |vs| - 1;
      var a, v := vs[..n], vs[n];
      assert vs == a + [v];
      FindSnoc(a, v, WGDEVICE_A_PEERS);
      NestWalk(fs, a, ws);
      WalkSnoc(DeviceAttr, fs, CB_OK, a, v);
      if v.typ == WGDEVICE_A_PEERS {
        PeersRead(fs, Inside(v.payload), ws);
      }
    }
  }

  lemma MessageReads(fs: seq<Fragment>, m: Bytes, ws: seq<DumpPeer>)
    requires ShowsMessage(m, ws)
    ensures (forall i :: 0 <= i < |ws| ==> GoodPeer(ws[i]))
    ensures Walk(DeviceAttr, fs, CB_OK, Views(m, HEADER, |m|)) == (fs + FragmentsOf(ws), CB_OK)
  {
    hide Find, Distinct, ShowsPeers, Inside, GoodPeer, FragmentOf, DeviceAttr, Walk;
    NestWalk(fs, Views(m, HEADER, |m|), ws);
    if ws == [] {
      assert fs + FragmentsOf(ws) == fs;
    }
  }

  function Concat(pss: seq<seq<DumpPeer>>): seq<DumpPeer> {
    if pss == [] then [] else pss[0] + Concat(pss[1..])
  }

  /** The messages of a dump, one after the other. */
  lemma {:induction false} MessagesRead(fs: seq<Fragment>, ms: seq<Bytes>, pss: seq<seq<DumpPeer>>)
    requires |ms| == |pss| && forall i :: 0 <= i < |ms| ==> ShowsMessage(ms[i], pss[i])
    ensures (forall i :: 0 <= i < |Concat(pss)| ==> GoodPeer(Concat(pss)[i]))
    ensures ReadFrom(fs, ms) == Some(fs + FragmentsOf(Concat(pss)))
    decreases |ms|
  {
    hide ShowsMessage, GoodPeer, FragmentOf, DeviceAttr, Walk, Views;
    if ms == [] {
      assert fs + FragmentsOf([]) == fs;
    } else {
      MessageReads(fs, ms[0], pss[0]);
      assert forall i :: 0 <= i < |ms[1..]| ==> ms[1..][i] == ms[i + 1] && pss[1..][i] == pss[i + 1];
      var gs := fs + FragmentsOf(pss[0]);
      MessagesRead(gs, ms[1..], pss[1..]);
      assert gs + FragmentsOf(Concat(pss[1..])) == fs + FragmentsOf(Concat(pss));
    }
  }

  /** Peers cut into fragments, in as many messages as it takes, are rebuilt by
      reading the attributes and coalescing. */
  lemma DumpRebuilds(ms: seq<Bytes>, pss: seq<seq<DumpPeer>>, ps: seq<Fragment>, rs: seq<Run>)
    requires |ms| == |pss| && forall i :: 0 <= i < |ms| ==> ShowsMessage(ms[i], pss[i])
    requires forall i :: 0 <= i < |Concat(pss)| ==> GoodPeer(Concat(pss)[i])
    requires FragmentsOf(Concat(pss)) == Flatten(rs)
    requires |rs| == |ps| && Fresh(ps) && forall i :: 0 <= i < |ps| ==> CutOf(rs[i], ps[i])
    requires forall i, j :: 0 <= i < j < |ps| && j == i + 1 ==> ps[i].key != ps[j].key
    ensures ReadDump(ms) == Some(Flatten(rs)) && SafeFrom(Flatten(rs), 0) && MergeFrom(Flatten(rs), 0) == ps
  {
    hide ShowsMessage, GoodPeer, FragmentOf, ReadFrom, Flatten, CutOf, SafeFrom, MergeFrom, Concat;
    MessagesRead([], ms, pss);
    assert [] + Flatten(rs) == Flatten(rs);
    Reassembles(ps, rs);
  }

  // ----- in the heap -----

  /** kernel_get_device: every message is read, then the fragments are coalesced.
      The pointer to the last peer is right exactly if that peer is whole. */
  method KernelGetDevice(ms: seq<Bytes>) returns (ok: bool, first: PeerNode?, last: PeerNode?, ghost s: Shape)
    requires ReadDump(ms).Some? ==> AllTidy(ReadDump(ms).value)
    ensures ok <==> ReadDump(ms).Some?
    ensures ok ==> Linked(first, s) && Fragments(s) == MergeFrom(ReadDump(ms).value, 0)
    ensures ok && ReadDump(ms).value != [] ==>
              && last != null && s.peers != []
              && (last in s.peers <==> LastWhole(ReadDump(ms).value))
              && (LastWhole(ReadDump(ms).value) ==> last == s.peers[|s.peers| - 1])
  {
    hide Linked, Fragments, MergeFrom, AllTidy, LastWhole, DeviceAttr, Walk, Views;
    var fs: seq<Fragment> := [];
    var i := 0;
    s := Shape([], [], [], []);
    assert ms[0..] == ms;
    while i < |ms|
      invariant 0 <= i <= |ms|
      invariant ReadFrom(fs, ms[i..]) == ReadDump(ms)
    {
      var ret: int;
      fs, ret := Parse(ms[i], HEADER, |ms[i]|, DeviceAttr, fs);
      if ret < CB_STOP {
        return false, null, null, s;
      }
      if ret == CB_STOP {
        break;
      }
      assert ms[i..][1..] == ms[i + 1..];
      i := i + 1;
    }
    assert ReadDump(ms) == Some(fs);
    assert Fresh(fs) by { DumpFresh([], ms); }
    first, last, s := GetPeers(fs);
    ok := true;
  }

  /** What is read has all its tail pointers. */
  lemma {:induction false} EntriesFresh(fs: seq<Fragment>, ret: int, vs: seq<View>)
    requires Fresh(fs)
    ensures Fresh(Walk(PeerEntry, fs, ret, vs).0)
    decreases |vs|
  {
    hide Walk, Inside, PeerAttr;
    if vs == [] {
      assert Walk(PeerEntry, fs, ret, vs) == (fs, ret) by { WalkNothing(PeerEntry, fs, ret); }
    } else {
      WalkFirst(PeerEntry, fs, ret, vs);
      EntriesFresh(PeerEntry(fs, vs[0]).0, PeerEntry(fs, vs[0]).1, vs[1..]);
    }
  }

  lemma WalkNothing<S>(cb: (S, View) -> (S, int), st: S, ret: int)
    ensures Walk(cb, st, ret, []) == (st, ret)
  {
  }

  lemma WalkFirst<S>(cb: (S, View) -> (S, int), st: S, ret: int, vs: seq<View>)
    requires vs != []
    ensures var r := cb(st, vs[0]); Walk(cb, st, ret, vs) == if r.1 <= CB_STOP then r else Walk(cb, r.0, r.1, vs[1..])
  {
  }

  lemma {:induction false} AttrsFresh(fs: seq<Fragment>, ret: int, vs: seq<View>)
    requires Fresh(fs)
    ensures Fresh(Walk(DeviceAttr, fs, ret, vs).0)
    decreases |vs|
  {
    hide Walk, Inside, PeerEntry;
    if vs == [] {
      WalkNothing(DeviceAttr, fs, ret);
    } else {
      WalkFirst(DeviceAttr, fs, ret, vs);
      EntriesFresh(fs, CB_OK, Inside(vs[0].payload));
      AttrsFresh(DeviceAttr(fs, vs[0]).0, DeviceAttr(fs, vs[0]).1, vs[1..]);
    }
  }

  lemma {:induction false} DumpFresh(fs: seq<Fragment>, ms: seq<Bytes>)
    requires Fresh(fs) && ReadFrom(fs, ms).Some?
    ensures Fresh(ReadFrom(fs, ms).value)
    decreases |ms|
  {
    hide Walk, Views, DeviceAttr;
    if ms != [] {
      AttrsFresh(fs, CB_OK, Views(ms[0], HEADER, |ms[0]|));
      var r := Walk(DeviceAttr, fs, CB_OK, Views(ms[0], HEADER, |ms[0]|));
      if r.1 > CB_STOP {
        DumpFresh(r.0, ms[1..]);
      }
    }
  }
}

/** The WireGuard set-device message of src/uapi/linux/linux/wireguard.h: what it
    carries, the attribute trees that carry it, and how the kernel reads it. */
module WgMessage {
  import opened Common
  import opened Machine
  import opened Tlv

  const WGDEVICE_A_IFNAME := 2
  const WGDEVICE_A_PRIVATE_KEY := 3
  const WGDEVICE_A_FLAGS := 5
  const WGDEVICE_A_LISTEN_PORT := 6
  const WGDEVICE_A_FWMARK := 7
  const WGDEVICE_A_PEERS := 8
  const WGPEER_A_PUBLIC_KEY := 1
  const WGPEER_A_PRESHARED_KEY := 2
  const WGPEER_A_FLAGS := 3
  const WGPEER_A_ENDPOINT := 4
  const WGPEER_A_PERSISTENT_KEEPALIVE_INTERVAL := 5
  const WGPEER_A_LAST_HANDSHAKE_TIME := 6
  const WGPEER_A_RX_BYTES := 7
  const WGPEER_A_TX_BYTES := 8
  const WGPEER_A_ALLOWEDIPS := 9
  const WGALLOWEDIP_A_FAMILY := 1
  const WGALLOWEDIP_A_IPADDR := 2
  const WGALLOWEDIP_A_CIDR_MASK := 3
  const WGALLOWEDIP_A_FLAGS := 4

  // ----- what a message carries -----

  datatype WireIp = WireIp(family: nat, addr: Option<Bytes>, cidr: u8, flags: nat)

  datatype WirePeer = WirePeer(key: Bytes, psk: Option<Bytes>, endpoint: Option<Bytes>, keepalive: Option<nat>,
                               flags: nat, ips: Option<seq<WireIp>>)

  datatype WireDevice = WireDevice(name: Bytes, privateKey: Option<Bytes>, port: Option<nat>, fwmark: Option<nat>,
                                   flags: nat, peers: Option<seq<WirePeer>>)

  predicate IpOk(w: WireIp) {
    w.family < 0x10000 && w.flags < 0x100000000
  }

  predicate PeerOk(w: WirePeer) {
    && (w.keepalive.Some? ==> w.keepalive.value < 0x10000) && w.flags < 0x100000000
    && (w.ips.Some? ==> forall i :: 0 <= i < |w.ips.value| ==> IpOk(w.ips.value[i]))
  }

  predicate DeviceOk(w: WireDevice) {
    && (w.port.Some? ==> w.port.value < 0x10000) && (w.fwmark.Some? ==> w.fwmark.value < 0x100000000)
    && w.flags < 0x100000000
    && (w.peers.Some? ==> forall i :: 0 <= i < |w.peers.value| ==> PeerOk(w.peers.value[i]))
  }

  // ----- the trees -----

  function LE32(v: nat): (s: Bytes)
    requires v < 0x100000000
    ensures |s| == 4
  {
    LE16(v % 0x10000) + LE16(v / 0x10000)
  }

  function LeafIf(t: nat, o: Option<Bytes>): seq<Attr> {
    if o.None? then [] else [Leaf(t, o.value)]
  }

  function Short(o: Option<nat>): Option<Bytes>
    requires o.Some? ==> o.value < 0x10000
  {
    if o.None? then None else Some(LE16(o.value))
  }

  function Word(o: Option<nat>): Option<Bytes>
    requires o.Some? ==> o.value < 0x100000000
  {
    if o.None? then None else Some(LE32(o.value))
  }

  /** Flags are sent only when there are any. */
  function NonZero(flags: nat): Option<nat> {
    if flags == 0 then None else Some(flags)
  }

  function IpKids(w: WireIp): seq<Attr>
    requires IpOk(w)
  {
    [Leaf(WGALLOWEDIP_A_FAMILY, LE16(w.family))]
    + LeafIf(WGALLOWEDIP_A_IPADDR, w.addr)
    + [Leaf(WGALLOWEDIP_A_CIDR_MASK, [w.cidr])]
    + LeafIf(WGALLOWEDIP_A_FLAGS, Word(NonZero(w.flags)))
  }

  function IpTrees(ws: seq<WireIp>): (r: seq<Attr>)
    requires forall i :: 0 <= i < |ws| ==> IpOk(ws[i])
    ensures |r| == |ws|
  {
    seq(|ws|, i requires 0 <= i < |ws| => Nest(0, IpKids(ws[i])))
  }

  /** Everything of a peer that comes before its allowed IPs. */
  function PeerHead(w: WirePeer): seq<Attr>
    requires PeerOk(w)
  {
    [Leaf(WGPEER_A_PUBLIC_KEY, w.key)]
    + LeafIf(WGPEER_A_PRESHARED_KEY, w.psk)
    + LeafIf(WGPEER_A_ENDPOINT, w.endpoint)
    + LeafIf(WGPEER_A_PERSISTENT_KEEPALIVE_INTERVAL, Short(w.keepalive))
    + LeafIf(WGPEER_A_FLAGS, Word(NonZero(w.flags)))
  }

  function PeerKids(w: WirePeer): seq<Attr>
    requires PeerOk(w)
  {
    PeerHead(w) + if w.ips.None? then [] else [Nest(WGPEER_A_ALLOWEDIPS, IpTrees(w.ips.value))]
  }

  function PeerTrees(ws: seq<WirePeer>): (r: seq<Attr>)
    requires forall i :: 0 <= i < |ws| ==> PeerOk(ws[i])
    ensures |r| == |ws|
  {
    seq(|ws|, i requires 0 <= i < |ws| => Nest(0, PeerKids(ws[i])))
  }

  function DeviceHead(w: WireDevice): seq<Attr>
    requires DeviceOk(w)
  {
    [Leaf(WGDEVICE_A_IFNAME, w.name)]
    + LeafIf(WGDEVICE_A_PRIVATE_KEY, w.privateKey)
    + LeafIf(WGDEVICE_A_LISTEN_PORT, Short(w.port))
    + LeafIf(WGDEVICE_A_FWMARK, Word(w.fwmark))
    + LeafIf(WGDEVICE_A_FLAGS, Word(NonZero(w.flags)))
  }

  function DeviceKids(w: WireDevice): seq<Attr>
    requires DeviceOk(w)
  {
    DeviceHead(w) + if w.peers.None? then [] else [Nest(WGDEVICE_A_PEERS, PeerTrees(w.peers.value))]
  }

  // ----- reading -----

  /** The payload recorded for a type: the last one wins. */
  function Find(vs: seq<View>, t: nat): Option<Bytes> {
    if vs == [] then None
    else
      var rest := Find(vs[1..], t);
      if rest.Some? then rest else if vs[0].typ == t then Some(vs[0].payload) else None
  }

  function GetShort(o: Option<Bytes>): Option<nat> {
    if o.None? || |o.value| < 2 then None else Some(Get16(o.value, 0))
  }

  function GetWord(o: Option<Bytes>): Option<nat> {
    if o.None? || |o.value| < 4 then None else Some(Get16(o.value, 0) + 0x10000 * Get16(o.value, 2))
  }

  function OrZero(o: Option<nat>): nat {
    if o.None? then 0 else o.value
  }

  function Inside(b: Bytes): seq<View> {
    Views(b, 0, |b|)
  }

  function ReadIp(b: Bytes): WireIp {
    var vs := Inside(b);
    var cidr := Find(vs, WGALLOWEDIP_A_CIDR_MASK);
    WireIp(OrZero(GetShort(Find(vs, WGALLOWEDIP_A_FAMILY))), Find(vs, WGALLOWEDIP_A_IPADDR),
           if cidr.Some? && |cidr.value| >= 1 then cidr.value[0] else 0,
           OrZero(GetWord(Find(vs, WGALLOWEDIP_A_FLAGS))))
  }

  function ReadIps(b: Bytes): seq<WireIp> {
    var vs := Inside(b);
    seq(|vs|, i requires 0 <= i < |vs| => ReadIp(vs[i].payload))
  }

  function ReadPeer(b: Bytes): WirePeer {
    var vs := Inside(b);
    var key, ips := Find(vs, WGPEER_A_PUBLIC_KEY), Find(vs, WGPEER_A_ALLOWEDIPS);
    WirePeer(if key.None? then [] else key.value, Find(vs, WGPEER_A_PRESHARED_KEY), Find(vs, WGPEER_A_ENDPOINT),
             GetShort(Find(vs, WGPEER_A_PERSISTENT_KEEPALIVE_INTERVAL)), OrZero(GetWord(Find(vs, WGPEER_A_FLAGS))),
             if ips.None? then None else Some(ReadIps(ips.value)))
  }

  function ReadPeers(b: Bytes): seq<WirePeer> {
    var vs := Inside(b);
    seq(|vs|, i requires 0 <= i < |vs| => ReadPeer(vs[i].payload))
  }

  function ReadDevice(vs: seq<View>): WireDevice {
    var name, peers := Find(vs, WGDEVICE_A_IFNAME), Find(vs, WGDEVICE_A_PEERS);
    WireDevice(if name.None? then [] else name.value, Find(vs, WGDEVICE_A_PRIVATE_KEY),
               GetShort(Find(vs, WGDEVICE_A_LISTEN_PORT)), GetWord(Find(vs, WGDEVICE_A_FWMARK)),
               OrZero(GetWord(Find(vs, WGDEVICE_A_FLAGS))),
               if peers.None? then None else Some(ReadPeers(peers.value)))
  }

  function ReadMessage(m: Bytes): WireDevice
    requires |m| >= HEADER
  {
    ReadDevice(Views(m, HEADER, |m|))
  }

  // ----- reading undoes writing -----

  /** What is found in a list of attributes. */
  ghost function FindIn(s: seq<Attr>, t: nat): Option<Bytes>
    requires AllFit(s)
  {
    Find(ViewsOf(s), t)
  }

  lemma {:induction false} FindAppend(a: seq<View>, b: seq<View>, t: nat)
    ensures Find(a + b, t) == if Find(b, t).Some? then Find(b, t) else Find(a, t)
  {
    if a == [] {
      assert a + b == b;
    } else {
      assert (a + b)[1..] == a[1..] + b;
      FindAppend(a[1..], b, t);
    }
  }

  lemma {:induction false} ViewsOfAppend(s: seq<Attr>, r: seq<Attr>)
    requires AllFit(s) && AllFit(r)
    ensures AllFit(s + r) && ViewsOf(s + r) == ViewsOf(s) + ViewsOf(r)
  {
    hide ViewOf, Fits;
    if s == [] {
      assert s + r == r;
    } else {
      assert (s + r)[1..] == s[1..] + r;
      ViewsOfAppend(s[1..], r);
    }
  }

  lemma FindInAppend(s: seq<Attr>, r: seq<Attr>, t: nat)
    requires AllFit(s + r)
    ensures AllFit(s) && AllFit(r)
    ensures FindIn(s + r, t) == if FindIn(r, t).Some? then FindIn(r, t) else FindIn(s, t)
  {
    hide AllFit, ViewsOf, Find;
    SizesAppend(s, r);
    ViewsOfAppend(s, r);
    FindAppend(ViewsOf(s), ViewsOf(r), t);
  }

  lemma FindInOne(a: Attr, t: nat)
    requires AllFit([a])
    ensures Fits(a) && FindIn([a], t) == if a.typ == t then Some(Body(a)) else None
  {
    hide Fits, Body;
    assert ViewsOf([a]) == [ViewOf(a)] + ViewsOf([a][1..]);
    assert Find([ViewOf(a)][1..], t) == None;
  }

  lemma FindInLeafIf(u: nat, o: Option<Bytes>, t: nat)
    requires AllFit(LeafIf(u, o))
    ensures FindIn(LeafIf(u, o), t) == if u == t then o else None
  {
    hide AllFit, ViewsOf, Find;
    if o.Some? {
      FindInOne(Leaf(u, o.value), t);
    } else {
      assert FindIn([], t) == None by { EmptyFind(t); }
    }
  }

  lemma EmptyFind(t: nat)
    ensures FindIn([], t) == None
  {
  }

  lemma ShortRoundTrip(o: Option<nat>)
    requires o.Some? ==> o.value < 0x10000
    ensures GetShort(Short(o)) == o
  {
  }

  lemma WordRoundTrip(o: Option<nat>)
    requires o.Some? ==> o.value < 0x100000000
    ensures GetWord(Word(o)) == o
  {
    if o.Some? {
      var lo, hi := LE16(o.value % 0x10000), LE16(o.value / 0x10000);
      var w := lo + hi;
      assert w[0] == lo[0] && w[1] == lo[1] && w[2] == hi[0] && w[3] == hi[1];
    }
  }

  lemma BodyInside(t: nat, kids: seq<Attr>)
    requires Fits(Nest(t, kids))
    ensures Inside(Body(Nest(t, kids))) == ViewsOf(kids)
  {
    NestedRoundTrip(t, kids);
  }

  lemma IpFinds(w: WireIp, t: nat)
    requires IpOk(w) && AllFit(IpKids(w))
    ensures FindIn(IpKids(w), t) ==
            if t == WGALLOWEDIP_A_FAMILY then Some(LE16(w.family))
            else if t == WGALLOWEDIP_A_IPADDR then w.addr
            else if t == WGALLOWEDIP_A_CIDR_MASK then Some([w.cidr])
            else if t == WGALLOWEDIP_A_FLAGS then Word(NonZero(w.flags)) else None
  {
    hide LE16, Word, FindIn, AllFit, LeafIf, Fits;
    var family, cidr := Leaf(WGALLOWEDIP_A_FAMILY, LE16(w.family)), Leaf(WGALLOWEDIP_A_CIDR_MASK, [w.cidr]);
    var addr := LeafIf(WGALLOWEDIP_A_IPADDR, w.addr);
    var flags := LeafIf(WGALLOWEDIP_A_FLAGS, Word(NonZero(w.flags)));
    FindInAppend([family] + addr + [cidr], flags, t);
    FindInAppend([family] + addr, [cidr], t);
    FindInAppend([family], addr, t);
    FindInOne(family, t);
    FindInOne(cidr, t);
    FindInLeafIf(WGALLOWEDIP_A_IPADDR, w.addr, t);
    FindInLeafIf(WGALLOWEDIP_A_FLAGS, Word(NonZero(w.flags)), t);
    LeafBody(family);
    LeafBody(cidr);
  }

  lemma IpRoundTrip(w: WireIp)
    requires IpOk(w) && Fits(Nest(0, IpKids(w)))
    ensures ReadIp(Body(Nest(0, IpKids(w)))) == w
  {
    var kids := IpKids(w);
    hide IpKids, Inside, ViewsOf, Find, Body, LE16, Get16, Views;
    BodyInside(0, kids);
    IpFinds(w, WGALLOWEDIP_A_FAMILY);
    IpFinds(w, WGALLOWEDIP_A_IPADDR);
    IpFinds(w, WGALLOWEDIP_A_CIDR_MASK);
    IpFinds(w, WGALLOWEDIP_A_FLAGS);
    ShortRoundTrip(Some(w.family));
    WordRoundTrip(NonZero(w.flags));
  }

  lemma {:induction false} ViewsOfAt(s: seq<Attr>, i: nat)
    requires AllFit(s) && i < |s|
    ensures |ViewsOf(s)| == |s| && Fits(s[i]) && ViewsOf(s)[i] == ViewOf(s[i])
  {
    hide Fits, ViewOf;
    if i > 0 {
      ViewsOfAt(s[1..], i - 1);
    } else if |s| > 1 {
      ViewsOfAt(s[1..], 0);
    }
  }

  lemma ViewsOfLength(s: seq<Attr>)
    requires AllFit(s)
    ensures |ViewsOf(s)| == |s|
  {
    if s != [] {
      ViewsOfAt(s, 0);
    }
  }

  lemma IpsRoundTrip(t: nat, ws: seq<WireIp>)
    requires forall i :: 0 <= i < |ws| ==> IpOk(ws[i])
    requires Fits(Nest(t, IpTrees(ws)))
    ensures ReadIps(Body(Nest(t, IpTrees(ws)))) == ws
  {
    hide IpKids, Inside, ViewsOf, ReadIp, Body, AllFit;
    var trees := IpTrees(ws);
    assert AllFit(trees);
    BodyInside(t, trees);
    ViewsOfLength(trees);
    forall i | 0 <= i < |ws|
      ensures ReadIp(ViewsOf(trees)[i].payload) == ws[i]
    {
      ViewsOfAt(trees, i);
      IpRoundTrip(ws[i]);
    }
  }

  lemma PeerHeadFinds(w: WirePeer, t: nat)
    requires PeerOk(w) && AllFit(PeerHead(w))
    ensures FindIn(PeerHead(w), t) ==
            if t == WGPEER_A_PUBLIC_KEY then Some(w.key)
            else if t == WGPEER_A_PRESHARED_KEY then w.psk
            else if t == WGPEER_A_ENDPOINT then w.endpoint
            else if t == WGPEER_A_PERSISTENT_KEEPALIVE_INTERVAL then Short(w.keepalive)
            else if t == WGPEER_A_FLAGS then Word(NonZero(w.flags)) else None
  {
    hide LE16, Word, Short, FindIn, AllFit, LeafIf, Fits;
    var key := Leaf(WGPEER_A_PUBLIC_KEY, w.key);
    var psk, endpoint := LeafIf(WGPEER_A_PRESHARED_KEY, w.psk), LeafIf(WGPEER_A_ENDPOINT, w.endpoint);
    var keepalive := LeafIf(WGPEER_A_PERSISTENT_KEEPALIVE_INTERVAL, Short(w.keepalive));
    var flags := LeafIf(WGPEER_A_FLAGS, Word(NonZero(w.flags)));
    FindInAppend([key] + psk + endpoint + keepalive, flags, t);
    FindInAppend([key] + psk + endpoint, keepalive, t);
    FindInAppend([key] + psk, endpoint, t);
    FindInAppend([key], psk, t);
    FindInOne(key, t);
    FindInLeafIf(WGPEER_A_PRESHARED_KEY, w.psk, t);
    FindInLeafIf(WGPEER_A_ENDPOINT, w.endpoint, t);
    FindInLeafIf(WGPEER_A_PERSISTENT_KEEPALIVE_INTERVAL, Short(w.keepalive), t);
    FindInLeafIf(WGPEER_A_FLAGS, Word(NonZero(w.flags)), t);
    LeafBody(key);
  }

  lemma PeerFinds(w: WirePeer, t: nat)
    requires PeerOk(w) && AllFit(PeerKids(w))
    ensures AllFit(PeerHead(w))
    ensures t != WGPEER_A_ALLOWEDIPS ==> FindIn(PeerKids(w), t) == FindIn(PeerHead(w), t)
    ensures t == WGPEER_A_ALLOWEDIPS && w.ips.None? ==> FindIn(PeerKids(w), t) == None
    ensures t == WGPEER_A_ALLOWEDIPS && w.ips.Some? ==>
              var a := Nest(t, IpTrees(w.ips.value)); Fits(a) && FindIn(PeerKids(w), t) == Some(Body(a))
  {
    hide PeerHead, IpTrees, FindIn, AllFit, Fits, Body;
    if w.ips.Some? {
      var a := Nest(WGPEER_A_ALLOWEDIPS, IpTrees(w.ips.value));
      FindInAppend(PeerHead(w), [a], t);
      FindInOne(a, t);
    } else {
      assert PeerKids(w) == PeerHead(w);
    }
    PeerHeadFinds(w, t);
  }

  lemma PeerRoundTrip(w: WirePeer)
    requires PeerOk(w) && Fits(Nest(0, PeerKids(w)))
    ensures ReadPeer(Body(Nest(0, PeerKids(w)))) == w
  {
    var kids := PeerKids(w);
    hide PeerKids, PeerHead, Inside, ViewsOf, Find, Body, LE16, Get16, Views, IpTrees, ReadIps, GetShort, GetWord, Short, Word;
    BodyInside(0, kids);
    PeerFindsAll(w);
    ShortRoundTrip(w.keepalive);
    WordRoundTrip(NonZero(w.flags));
    if w.ips.Some? {
      IpsRoundTrip(WGPEER_A_ALLOWEDIPS, w.ips.value);
    }
  }

  lemma PeerFindsAll(w: WirePeer)
    requires PeerOk(w) && AllFit(PeerKids(w))
    ensures var k := PeerKids(w);
            && FindIn(k, WGPEER_A_PUBLIC_KEY) == Some(w.key) && FindIn(k, WGPEER_A_PRESHARED_KEY) == w.psk
            && FindIn(k, WGPEER_A_ENDPOINT) == w.endpoint
            && FindIn(k, WGPEER_A_PERSISTENT_KEEPALIVE_INTERVAL) == Short(w.keepalive)
            && FindIn(k, WGPEER_A_FLAGS) == Word(NonZero(w.flags))
    ensures w.ips.None? ==> FindIn(PeerKids(w), WGPEER_A_ALLOWEDIPS) == None
    ensures w.ips.Some? ==>
              var a := Nest(WGPEER_A_ALLOWEDIPS, IpTrees(w.ips.value));
              Fits(a) && FindIn(PeerKids(w), WGPEER_A_ALLOWEDIPS) == Some(Body(a))
  {
    hide PeerKids, PeerHead, FindIn, AllFit, Fits, Body, Short, Word, IpTrees;
    PeerFinds(w, WGPEER_A_PUBLIC_KEY);
    PeerFinds(w, WGPEER_A_PRESHARED_KEY);
    PeerFinds(w, WGPEER_A_ENDPOINT);
    PeerFinds(w, WGPEER_A_PERSISTENT_KEEPALIVE_INTERVAL);
    PeerFinds(w, WGPEER_A_FLAGS);
    PeerFinds(w, WGPEER_A_ALLOWEDIPS);
    PeerHeadFinds(w, WGPEER_A_PUBLIC_KEY);
    PeerHeadFinds(w, WGPEER_A_PRESHARED_KEY);
    PeerHeadFinds(w, WGPEER_A_ENDPOINT);
    PeerHeadFinds(w, WGPEER_A_PERSISTENT_KEEPALIVE_INTERVAL);
    PeerHeadFinds(w, WGPEER_A_FLAGS);
  }

  lemma PeersRoundTrip(t: nat, ws: seq<WirePeer>)
    requires forall i :: 0 <= i < |ws| ==> PeerOk(ws[i])
    requires Fits(Nest(t, PeerTrees(ws)))
    ensures ReadPeers(Body(Nest(t, PeerTrees(ws)))) == ws
  {
    hide PeerKids, Inside, ViewsOf, ReadPeer, Body, AllFit, PeerOk;
    var trees := PeerTrees(ws);
    assert AllFit(trees);
    BodyInside(t, trees);
    ViewsOfLength(trees);
    forall i | 0 <= i < |ws|
      ensures ReadPeer(ViewsOf(trees)[i].payload) == ws[i]
    {
      ViewsOfAt(trees, i);
      PeerRoundTrip(ws[i]);
    }
  }

  lemma DeviceHeadFinds(w: WireDevice, t: nat)
    requires DeviceOk(w) && AllFit(DeviceHead(w))
    ensures FindIn(DeviceHead(w), t) ==
            if t == WGDEVICE_A_IFNAME then Some(w.name)
            else if t == WGDEVICE_A_PRIVATE_KEY then w.privateKey
            else if t == WGDEVICE_A_LISTEN_PORT then Short(w.port)
            else if t == WGDEVICE_A_FWMARK then Word(w.fwmark)
            else if t == WGDEVICE_A_FLAGS then Word(NonZero(w.flags)) else None
  {
    hide LE16, Word, Short, FindIn, AllFit, LeafIf, Fits;
    var name := Leaf(WGDEVICE_A_IFNAME, w.name);
    var key, port := LeafIf(WGDEVICE_A_PRIVATE_KEY, w.privateKey), LeafIf(WGDEVICE_A_LISTEN_PORT, Short(w.port));
    var fwmark := LeafIf(WGDEVICE_A_FWMARK, Word(w.fwmark));
    var flags := LeafIf(WGDEVICE_A_FLAGS, Word(NonZero(w.flags)));
    FindInAppend([name] + key + port + fwmark, flags, t);
    FindInAppend([name] + key + port, fwmark, t);
    FindInAppend([name] + key, port, t);
    FindInAppend([name], key, t);
    FindInOne(name, t);
    FindInLeafIf(WGDEVICE_A_PRIVATE_KEY, w.privateKey, t);
    FindInLeafIf(WGDEVICE_A_LISTEN_PORT, Short(w.port), t);
    FindInLeafIf(WGDEVICE_A_FWMARK, Word(w.fwmark), t);
    FindInLeafIf(WGDEVICE_A_FLAGS, Word(NonZero(w.flags)), t);
    LeafBody(name);
  }

  lemma DeviceFinds(w: WireDevice, t: nat)
    requires DeviceOk(w) && AllFit(DeviceKids(w))
    ensures AllFit(DeviceHead(w))
    ensures t != WGDEVICE_A_PEERS ==> FindIn(DeviceKids(w), t) == FindIn(DeviceHead(w), t)
    ensures t == WGDEVICE_A_PEERS && w.peers.None? ==> FindIn(DeviceKids(w), t) == None
    ensures t == WGDEVICE_A_PEERS && w.peers.Some? ==>
              var a := Nest(t, PeerTrees(w.peers.value)); Fits(a) && FindIn(DeviceKids(w), t) == Some(Body(a))
  {
    hide DeviceHead, PeerTrees, FindIn, AllFit, Fits, Body;
    if w.peers.Some? {
      var a := Nest(WGDEVICE_A_PEERS, PeerTrees(w.peers.value));
      FindInAppend(DeviceHead(w), [a], t);
      FindInOne(a, t);
    } else {
      assert DeviceKids(w) == DeviceHead(w);
    }
    DeviceHeadFinds(w, t);
  }

  lemma DeviceFindsAll(w: WireDevice)
    requires DeviceOk(w) && AllFit(DeviceKids(w))
    ensures var k := DeviceKids(w);
            && FindIn(k, WGDEVICE_A_IFNAME) == Some(w.name) && FindIn(k, WGDEVICE_A_PRIVATE_KEY) == w.privateKey
            && FindIn(k, WGDEVICE_A_LISTEN_PORT) == Short(w.port)
            && FindIn(k, WGDEVICE_A_FWMARK) == Word(w.fwmark)
            && FindIn(k, WGDEVICE_A_FLAGS) == Word(NonZero(w.flags))
    ensures w.peers.None? ==> FindIn(DeviceKids(w), WGDEVICE_A_PEERS) == None
    ensures w.peers.Some? ==>
              var a := Nest(WGDEVICE_A_PEERS, PeerTrees(w.peers.value));
              Fits(a) && FindIn(DeviceKids(w), WGDEVICE_A_PEERS) == Some(Body(a))
  {
    hide DeviceKids, DeviceHead, FindIn, AllFit, Fits, Body, Short, Word, PeerTrees;
    DeviceFinds(w, WGDEVICE_A_IFNAME);
    DeviceFinds(w, WGDEVICE_A_PRIVATE_KEY);
    DeviceFinds(w, WGDEVICE_A_LISTEN_PORT);
    DeviceFinds(w, WGDEVICE_A_FWMARK);
    DeviceFinds(w, WGDEVICE_A_FLAGS);
    DeviceFinds(w, WGDEVICE_A_PEERS);
    DeviceHeadFinds(w, WGDEVICE_A_IFNAME);
    DeviceHeadFinds(w, WGDEVICE_A_PRIVATE_KEY);
    DeviceHeadFinds(w, WGDEVICE_A_LISTEN_PORT);
    DeviceHeadFinds(w, WGDEVICE_A_FWMARK);
    DeviceHeadFinds(w, WGDEVICE_A_FLAGS);
  }

  /** A message read by the kernel is the message that was written. */
  lemma MessageRoundTrip(m: Bytes, w: WireDevice)
    requires DeviceOk(w) && AllFit(DeviceKids(w))
    requires |m| >= HEADER && m[HEADER..] == EncodeAll(DeviceKids(w))
    ensures ReadMessage(m) == w
  {
    var kids := DeviceKids(w);
    hide EncodeAll, AllFit, Fits, DeviceKids, DeviceHead, ViewsOf, Find, Body, LE16, Get16, Views, PeerTrees, ReadPeers, GetShort, GetWord, Short, Word;
    ViewsRoundTrip(m[..HEADER], kids, []);
    assert m == m[..HEADER] + EncodeAll(kids) + [];
    DeviceFindsAll(w);
    ShortRoundTrip(w.port);
    WordRoundTrip(w.fwmark);
    WordRoundTrip(NonZero(w.flags));
    if w.peers.Some? {
      PeersRoundTrip(WGDEVICE_A_PEERS, w.peers.value);
    }
  }
}

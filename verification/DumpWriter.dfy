/** A dump as the kernel writes it: attributes in the order of
    src/uapi/linux/linux/wireguard.h, in as many messages as it takes. */
module DumpWriter {
  import opened Common
  import opened Tlv
  import opened WgMessage
  import opened Coalesce
  import opened Reassembly
  import opened DumpParser

  const WGPEER_A_PROTOCOL_VERSION := 10

  function DumpIpKids(w: DumpIp): seq<Attr>
    requires GoodIp(w)
  {
    [Leaf(WGALLOWEDIP_A_FAMILY, LE16(w.family)), Leaf(WGALLOWEDIP_A_IPADDR, w.addr), Leaf(WGALLOWEDIP_A_CIDR_MASK, [w.cidr])]
  }

  function DumpIpTrees(ws: seq<DumpIp>): (r: seq<Attr>)
    requires forall i :: 0 <= i < |ws| ==> GoodIp(ws[i])
    ensures |r| == |ws|
  {
    seq(|ws|, i requires 0 <= i < |ws| => Nest(0, DumpIpKids(ws[i])))
  }

  function DumpIpNest(w: DumpPeer): seq<Attr>
    requires GoodPeer(w)
  {
    if w.ips.None? then [] else [Nest(WGPEER_A_ALLOWEDIPS, DumpIpTrees(w.ips.value))]
  }

  function DumpPeerKids(w: DumpPeer): seq<Attr>
    requires GoodPeer(w)
  {
    [Leaf(WGPEER_A_PUBLIC_KEY, w.key)] + LeafIf(WGPEER_A_PRESHARED_KEY, w.psk) + LeafIf(WGPEER_A_ENDPOINT, w.endpoint)
    + LeafIf(WGPEER_A_PERSISTENT_KEEPALIVE_INTERVAL, w.keepalive) + LeafIf(WGPEER_A_LAST_HANDSHAKE_TIME, w.handshake)
    + LeafIf(WGPEER_A_RX_BYTES, w.rx) + LeafIf(WGPEER_A_TX_BYTES, w.tx) + DumpIpNest(w)
    + [Leaf(WGPEER_A_PROTOCOL_VERSION, [1, 0, 0, 0])]
  }

  function DumpPeerTrees(ws: seq<DumpPeer>): (r: seq<Attr>)
    requires forall i :: 0 <= i < |ws| ==> GoodPeer(ws[i])
    ensures |r| == |ws|
  {
    seq(|ws|, i requires 0 <= i < |ws| => Nest(0, DumpPeerKids(ws[i])))
  }

  // ----- attributes of rising type -----

  /** Types rise and are below `n`. */
  predicate Rising(kids: seq<Attr>, n: nat) {
    && (forall i, j :: 0 <= i < j < |kids| ==> kids[i].typ < kids[j].typ)
    && (forall i :: 0 <= i < |kids| ==> kids[i].typ < n)
  }

  lemma RisingAppend(kids: seq<Attr>, piece: seq<Attr>, t: nat)
    requires Rising(kids, t) && |piece| <= 1 && (piece != [] ==> piece[0].typ == t)
    ensures Rising(kids + piece, t + 1)
  {
  }

  lemma RisingMore(kids: seq<Attr>, t: nat, n: nat)
    requires Rising(kids, t) && t <= n
    ensures Rising(kids, n)
  {
  }

  lemma RisingDistinct(kids: seq<Attr>, n: nat)
    requires AllFit(kids) && Rising(kids, n)
    ensures Distinct(ViewsOf(kids))
  {
    hide AllFit, ViewsOf;
    ViewsOfLength(kids);
    var vs := ViewsOf(kids);
    forall i, j | 0 <= i < j < |vs|
      ensures vs[i].typ != vs[j].typ
    {
      ViewsOfAt(kids, i);
      ViewsOfAt(kids, j);
    }
  }

  // ----- what is written shows what was meant -----

  lemma IpShows(w: DumpIp)
    requires GoodIp(w) && Fits(Nest(0, DumpIpKids(w)))
    ensures ShowsIp(Inside(Body(Nest(0, DumpIpKids(w)))), w)
  {
    hide LE16, AllFit, Find, Distinct, Body, Inside, ViewsOf;
    var kids := DumpIpKids(w);
    assert AllFit(kids) by { NestFits(kids); }
    BodyInside(0, kids);
    RisingDistinct(kids, 4);
    IpFindings(w, WGALLOWEDIP_A_FAMILY);
    IpFindings(w, WGALLOWEDIP_A_IPADDR);
    IpFindings(w, WGALLOWEDIP_A_CIDR_MASK);
  }

  lemma IpFindings(w: DumpIp, t: nat)
    requires GoodIp(w) && AllFit(DumpIpKids(w))
    ensures FindIn(DumpIpKids(w), t) ==
            if t == WGALLOWEDIP_A_FAMILY then Some(LE16(w.family)) else if t == WGALLOWEDIP_A_IPADDR then Some(w.addr)
            else if t == WGALLOWEDIP_A_CIDR_MASK then Some([w.cidr]) else None
  {
    hide LE16, FindIn, AllFit, Fits;
    var a, b, c := Leaf(WGALLOWEDIP_A_FAMILY, LE16(w.family)), Leaf(WGALLOWEDIP_A_IPADDR, w.addr), Leaf(WGALLOWEDIP_A_CIDR_MASK, [w.cidr]);
    assert DumpIpKids(w) == [a] + [b] + [c];
    FindInAppend([a] + [b], [c], t);
    FindInAppend([a], [b], t);
    FindInOne(a, t);
    FindInOne(b, t);
    FindInOne(c, t);
    LeafBody(a);
    LeafBody(b);
    LeafBody(c);
  }

  lemma IpsShow(t: nat, ws: seq<DumpIp>)
    requires (forall i :: 0 <= i < |ws| ==> GoodIp(ws[i])) && Fits(Nest(t, DumpIpTrees(ws)))
    ensures ShowsIps(Inside(Body(Nest(t, DumpIpTrees(ws)))), ws)
  {
    hide DumpIpKids, Inside, ViewsOf, Body, AllFit, GoodIp, ShowsIp;
    var trees := DumpIpTrees(ws);
    assert AllFit(trees);
    BodyInside(t, trees);
    ViewsOfLength(trees);
    forall i | 0 <= i < |ws|
      ensures ShowsIp(Inside(ViewsOf(trees)[i].payload), ws[i])
    {
      ViewsOfAt(trees, i);
      IpShows(ws[i]);
    }
  }

  /** The parts of a peer, in order. */
  lemma PeerFindings(w: DumpPeer, t: nat)
    requires GoodPeer(w) && AllFit(DumpPeerKids(w))
    ensures AllFit(DumpIpNest(w))
    ensures FindIn(DumpPeerKids(w), t) ==
            if t == WGPEER_A_PUBLIC_KEY then Some(w.key) else if t == WGPEER_A_PRESHARED_KEY then w.psk
            else if t == WGPEER_A_ENDPOINT then w.endpoint else if t == WGPEER_A_PERSISTENT_KEEPALIVE_INTERVAL then w.keepalive
            else if t == WGPEER_A_LAST_HANDSHAKE_TIME then w.handshake else if t == WGPEER_A_RX_BYTES then w.rx
            else if t == WGPEER_A_TX_BYTES then w.tx else if t == WGPEER_A_ALLOWEDIPS then FindIn(DumpIpNest(w), t)
            else if t == WGPEER_A_PROTOCOL_VERSION then Some([1, 0, 0, 0]) else None
  {
    hide FindIn, AllFit, LeafIf, Fits, GoodPeer, DumpIpNest;
    var key, version := Leaf(WGPEER_A_PUBLIC_KEY, w.key), Leaf(WGPEER_A_PROTOCOL_VERSION, [1, 0, 0, 0]);
    var a := [key] + LeafIf(WGPEER_A_PRESHARED_KEY, w.psk);
    var b := a + LeafIf(WGPEER_A_ENDPOINT, w.endpoint);
    var c := b + LeafIf(WGPEER_A_PERSISTENT_KEEPALIVE_INTERVAL, w.keepalive);
    var d := c + LeafIf(WGPEER_A_LAST_HANDSHAKE_TIME, w.handshake);
    var e := d + LeafIf(WGPEER_A_RX_BYTES, w.rx);
    var f := e + LeafIf(WGPEER_A_TX_BYTES, w.tx);
    FindInAppend(f + DumpIpNest(w), [version], t);
    FindInAppend(f, DumpIpNest(w), t);
    FindInAppend(e, LeafIf(WGPEER_A_TX_BYTES, w.tx), t);
    FindInAppend(d, LeafIf(WGPEER_A_RX_BYTES, w.rx), t);
    FindInAppend(c, LeafIf(WGPEER_A_LAST_HANDSHAKE_TIME, w.handshake), t);
    FindInAppend(b, LeafIf(WGPEER_A_PERSISTENT_KEEPALIVE_INTERVAL, w.keepalive), t);
    FindInAppend(a, LeafIf(WGPEER_A_ENDPOINT, w.endpoint), t);
    FindInAppend([key], LeafIf(WGPEER_A_PRESHARED_KEY, w.psk), t);
    FindInOne(key, t);
    FindInOne(version, t);
    FindInLeafIf(WGPEER_A_PRESHARED_KEY, w.psk, t);
    FindInLeafIf(WGPEER_A_ENDPOINT, w.endpoint, t);
    FindInLeafIf(WGPEER_A_PERSISTENT_KEEPALIVE_INTERVAL, w.keepalive, t);
    FindInLeafIf(WGPEER_A_LAST_HANDSHAKE_TIME, w.handshake, t);
    FindInLeafIf(WGPEER_A_RX_BYTES, w.rx, t);
    FindInLeafIf(WGPEER_A_TX_BYTES, w.tx, t);
    NestFindings(w, t);
    LeafBody(key);
    LeafBody(version);
  }

  lemma NestFindings(w: DumpPeer, t: nat)
    requires GoodPeer(w) && AllFit(DumpIpNest(w))
    ensures t != WGPEER_A_ALLOWEDIPS ==> FindIn(DumpIpNest(w), t).None?
  {
    hide FindIn, AllFit, Fits, GoodIp, DumpIpTrees;
    if w.ips.None? {
      EmptyFind(t);
    } else {
      FindInOne(Nest(WGPEER_A_ALLOWEDIPS, DumpIpTrees(w.ips.value)), t);
    }
  }

  lemma PeerRising(w: DumpPeer)
    requires GoodPeer(w)
    ensures Rising(DumpPeerKids(w), 11)
  {
    hide Rising, GoodPeer, DumpIpTrees;
    var a := [Leaf(WGPEER_A_PUBLIC_KEY, w.key)];
    assert Rising([], 1) && [] + a == a by { NoneRises(1); }
    RisingAppend([], a, 1);
    var b := a + LeafIf(WGPEER_A_PRESHARED_KEY, w.psk);
    RisingAppend(a, LeafIf(WGPEER_A_PRESHARED_KEY, w.psk), 2);
    RisingMore(b, 3, 4);
    var c := b + LeafIf(WGPEER_A_ENDPOINT, w.endpoint);
    RisingAppend(b, LeafIf(WGPEER_A_ENDPOINT, w.endpoint), 4);
    var d := c + LeafIf(WGPEER_A_PERSISTENT_KEEPALIVE_INTERVAL, w.keepalive);
    RisingAppend(c, LeafIf(WGPEER_A_PERSISTENT_KEEPALIVE_INTERVAL, w.keepalive), 5);
    var e := d + LeafIf(WGPEER_A_LAST_HANDSHAKE_TIME, w.handshake);
    RisingAppend(d, LeafIf(WGPEER_A_LAST_HANDSHAKE_TIME, w.handshake), 6);
    var f := e + LeafIf(WGPEER_A_RX_BYTES, w.rx);
    RisingAppend(e, LeafIf(WGPEER_A_RX_BYTES, w.rx), 7);
    var g := f + LeafIf(WGPEER_A_TX_BYTES, w.tx);
    RisingAppend(f, LeafIf(WGPEER_A_TX_BYTES, w.tx), 8);
    RisingAppend(g, DumpIpNest(w), 9);
    RisingAppend(g + DumpIpNest(w), [Leaf(WGPEER_A_PROTOCOL_VERSION, [1, 0, 0, 0])], 10);
  }

  lemma NoneRises(n: nat)
    ensures Rising([], n)
  {
  }

  lemma PeerShows(w: DumpPeer)
    requires GoodPeer(w) && Fits(Nest(0, DumpPeerKids(w)))
    ensures ShowsPeer(Inside(Body(Nest(0, DumpPeerKids(w)))), w)
  {
    hide AllFit, Find, Distinct, Body, Inside, DumpPeerKids, GoodPeer, ShowsIps, ViewsOf;
    var kids := DumpPeerKids(w);
    assert AllFit(kids) by { NestFits(kids); }
    BodyInside(0, kids);
    PeerRising(w);
    RisingDistinct(kids, 11);
    PeerFindings(w, WGPEER_A_PUBLIC_KEY);
    PeerFindings(w, WGPEER_A_PRESHARED_KEY);
    PeerFindings(w, WGPEER_A_ENDPOINT);
    PeerFindings(w, WGPEER_A_PERSISTENT_KEEPALIVE_INTERVAL);
    PeerFindings(w, WGPEER_A_LAST_HANDSHAKE_TIME);
    PeerFindings(w, WGPEER_A_RX_BYTES);
    PeerFindings(w, WGPEER_A_TX_BYTES);
    PeerFindings(w, WGPEER_A_ALLOWEDIPS);
    NestShows(w);
  }

  lemma NestFits(kids: seq<Attr>)
    requires Fits(Nest(0, kids))
    ensures AllFit(kids)
  {
  }

  lemma NestShows(w: DumpPeer)
    requires GoodPeer(w) && AllFit(DumpIpNest(w))
    ensures var b := FindIn(DumpIpNest(w), WGPEER_A_ALLOWEDIPS);
            if w.ips.None? then b.None? else b.Some? && ShowsIps(Inside(b.value), w.ips.value)
  {
    hide FindIn, AllFit, Fits, ShowsIps, Inside, Body, GoodIp, DumpIpTrees;
    if w.ips.None? {
      EmptyFind(WGPEER_A_ALLOWEDIPS);
    } else {
      FindInOne(Nest(WGPEER_A_ALLOWEDIPS, DumpIpTrees(w.ips.value)), WGPEER_A_ALLOWEDIPS);
      IpsShow(WGPEER_A_ALLOWEDIPS, w.ips.value);
    }
  }

  lemma PeersShow(t: nat, ws: seq<DumpPeer>)
    requires (forall i :: 0 <= i < |ws| ==> GoodPeer(ws[i])) && Fits(Nest(t, DumpPeerTrees(ws)))
    ensures ShowsPeers(Inside(Body(Nest(t, DumpPeerTrees(ws)))), ws)
  {
    hide DumpPeerKids, Inside, ViewsOf, Body, AllFit, GoodPeer, ShowsPeer;
    var trees := DumpPeerTrees(ws);
    assert AllFit(trees);
    BodyInside(t, trees);
    ViewsOfLength(trees);
    forall i | 0 <= i < |ws|
      ensures ShowsPeer(Inside(ViewsOf(trees)[i].payload), ws[i])
    {
      ViewsOfAt(trees, i);
      PeerShows(ws[i]);
    }
  }

  /** A message of the dump: attributes of the device, and a nest of peers. */
  predicate Writes(m: Bytes, head: seq<Attr>, ws: seq<DumpPeer>) {
    && |m| >= HEADER && Rising(head, WGDEVICE_A_PEERS) && (forall i :: 0 <= i < |ws| ==> GoodPeer(ws[i]))
    && var kids := head + [Nest(WGDEVICE_A_PEERS, DumpPeerTrees(ws))];
       AllFit(kids) && m[HEADER..] == EncodeAll(kids)
  }

  lemma MessageShows(m: Bytes, head: seq<Attr>, ws: seq<DumpPeer>)
    requires Writes(m, head, ws)
    ensures ShowsMessage(m, ws)
  {
    hide AllFit, Find, Distinct, Body, Inside, DumpPeerTrees, GoodPeer, ShowsPeers, ViewsOf, Views, EncodeAll, Sizes, Fits;
    var nest := Nest(WGDEVICE_A_PEERS, DumpPeerTrees(ws));
    var kids := head + [nest];
    ViewsRoundTrip(m[..HEADER], kids, []);
    assert m == m[..HEADER] + EncodeAll(kids) + [];
    RisingAppend(head, [nest], WGDEVICE_A_PEERS);
    RisingDistinct(kids, WGDEVICE_A_PEERS + 1);
    FindInAppend(head, [nest], WGDEVICE_A_PEERS);
    FindInOne(nest, WGDEVICE_A_PEERS);
    PeersShow(WGDEVICE_A_PEERS, ws);
  }

  /** Peers cut into fragments and written, in as many messages as it takes, come
      back whole in the lists of kernel_get_device. */
  method WrittenDumpRebuilds(ms: seq<Bytes>, ghost heads: seq<seq<Attr>>, ghost pss: seq<seq<DumpPeer>>,
                             ghost ps: seq<Fragment>, ghost rs: seq<Run>)
    returns (first: PeerNode?, ghost s: Shape)
    requires |ms| == |pss| == |heads| && forall i :: 0 <= i < |ms| ==> Writes(ms[i], heads[i], pss[i])
    requires forall i :: 0 <= i < |Concat(pss)| ==> GoodPeer(Concat(pss)[i])
    requires FragmentsOf(Concat(pss)) == Flatten(rs)
    requires |rs| == |ps| && Fresh(ps) && forall i :: 0 <= i < |ps| ==> CutOf(rs[i], ps[i])
    requires forall i, j :: 0 <= i < j < |ps| && j == i + 1 ==> ps[i].key != ps[j].key
    ensures Linked(first, s) && Fragments(s) == ps
  {
    hide Writes, GoodPeer, FragmentOf, Flatten, CutOf, Linked, Fragments, ShowsMessage, ReadDump, Concat, MergeFrom, SafeFrom, AllTidy, LastWhole;
    forall i | 0 <= i < |ms|
      ensures ShowsMessage(ms[i], pss[i])
    {
      MessageShows(ms[i], heads[i], pss[i]);
    }
    DumpRebuilds(ms, pss, ps, rs);
    assert AllTidy(Flatten(rs)) by { TidyWhenSafe(ms, Flatten(rs)); }
    var ok, last;
    ok, first, last, s := KernelGetDevice(ms);
  }

  lemma TidyWhenSafe(ms: seq<Bytes>, f: seq<Fragment>)
    requires ReadDump(ms) == Some(f) && SafeFrom(f, 0)
    ensures AllTidy(f)
  {
    hide ReadFrom, SafeFrom, AllTidy;
    DumpFresh([], ms);
    SafeExactly(f);
  }
}

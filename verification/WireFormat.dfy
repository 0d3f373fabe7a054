/** The bytes of the messages, attribute by attribute, with the numbers of
    src/uapi/linux/linux/wireguard.h written out. */
module WireFormat {
  import opened Machine
  import opened Common
  import opened Tlv
  import opened WgMessage
  import opened WgDevice
  import opened Coalesce
  import opened DumpParser
  import opened DumpWriter

  /** Length with the header, type, payload, and zeros up to a multiple of four. */
  function Chunk(t: u8, high: u8, p: Bytes): Bytes
    requires |p| + 4 < 0x10000
  {
    var n := |p| + 4;
    [(n % 256) as u8, (n / 256) as u8, t, high] + p + seq((4 - |p| % 4) % 4, i => 0)
  }

  function ChunkIf(t: u8, o: Option<Bytes>): Bytes
    requires o.Some? ==> |o.value| + 4 < 0x10000
  {
    if o.None? then [] else Chunk(t, 0, o.value)
  }

  function Two(n: nat): Bytes
    requires n < 0x10000
  {
    [(n % 256) as u8, (n / 256) as u8]
  }

  function Four(n: nat): Bytes
    requires n < 0x1_0000_0000
  {
    [(n % 256) as u8, (n / 256 % 256) as u8, (n / 65536 % 256) as u8, (n / 16777216) as u8]
  }

  lemma WordIs(n: nat)
    requires n < 0x1_0000_0000
    ensures LE32(n) == Four(n)
  {
    assert n % 65536 % 256 == n % 256 && n % 65536 / 256 == n / 256 % 256;
    assert n / 65536 / 256 == n / 16777216;
  }

  lemma Padding(n: nat)
    ensures Align(n) - n == (4 - n % 4) % 4
  {
  }

  lemma ChunkIs(raw: nat, p: Bytes)
    requires raw < 0x10000 && |p| + 4 < 0x10000
    ensures Wire(raw, p) == Chunk((raw % 256) as u8, (raw / 256) as u8, p)
  {
    Padding(|p|);
  }

  lemma LeafIs(t: nat, p: Bytes)
    requires t < 256 && |p| + 4 < 0x10000
    ensures AllFit([Leaf(t, p)]) && EncodeAll([Leaf(t, p)]) == Chunk(t as u8, 0, p)
  {
    hide Chunk, Wire;
    ChunkIs(t, p);
    assert [Leaf(t, p)][1..] == [];
    assert Encode(Leaf(t, p)) == Wire(t, p);
    assert EncodeAll([]) == [];
  }

  lemma LeafIfIs(t: nat, o: Option<Bytes>)
    requires t < 256 && (o.Some? ==> |o.value| + 4 < 0x10000)
    ensures AllFit(LeafIf(t, o)) && EncodeAll(LeafIf(t, o)) == ChunkIf(t as u8, o)
  {
    hide Chunk;
    if o.Some? {
      LeafIs(t, o.value);
    }
  }

  /** A nest is marked in its type and holds its children. */
  lemma NestIs(t: nat, kids: seq<Attr>)
    requires t < 256 && AllFit(kids) && Sizes(kids) + 4 < 0x10000
    ensures AllFit([Nest(t, kids)]) && EncodeAll([Nest(t, kids)]) == Chunk(t as u8, 0x80, EncodeAll(kids))
  {
    hide Chunk, Wire, AllFit, EncodeAll;
    NestAlone(t, kids);
    ChunkIs(0x8000 + t, EncodeAll(kids));
  }

  lemma NestAlone(t: nat, kids: seq<Attr>)
    requires t < 256 && AllFit(kids) && Sizes(kids) + 4 < 0x10000
    ensures AllFit([Nest(t, kids)]) && EncodeAll([Nest(t, kids)]) == Wire(0x8000 + t, EncodeAll(kids))
  {
    hide Wire;
    assert [Nest(t, kids)][1..] == [];
    assert Fits(Nest(t, kids));
    assert Encode(Nest(t, kids)) == Wire(0x8000 + t, EncodeAll(kids));
    assert EncodeAll([]) == [];
  }

  /** Short payloads. */
  predicate Short(o: Option<Bytes>) {
    o.Some? ==> |o.value| <= 28
  }

  function TwoIf(o: Option<nat>): Option<Bytes>
    requires o.Some? ==> o.value < 0x10000
  {
    if o.None? then None else Some(Two(o.value))
  }

  function FourIf(b: bool, n: nat): Option<Bytes>
    requires n < 0x1_0000_0000
  {
    if b then Some(Four(n)) else None
  }

  /** An allowed IP of a set-device message. */
  lemma IpBytes(w: WireIp)
    requires IpOk(w) && Short(w.addr)
    ensures AllFit(IpKids(w))
    ensures EncodeAll(IpKids(w)) ==
            Chunk(1, 0, Two(w.family)) + ChunkIf(2, w.addr) + Chunk(3, 0, [w.cidr]) + ChunkIf(4, FourIf(w.flags != 0, w.flags))
  {
    hide EncodeAll, AllFit, Chunk, ChunkIf;
    LeafIs(1, Two(w.family));
    LeafIfIs(2, w.addr);
    LeafIs(3, [w.cidr]);
    WordIs(w.flags);
    LeafIfIs(4, Word(NonZero(w.flags)));
    var a, b := [Leaf(1, Two(w.family))], LeafIf(2, w.addr);
    EncodeAppend(a, b);
    EncodeAppend(a + b, [Leaf(3, [w.cidr])]);
    EncodeAppend(a + b + [Leaf(3, [w.cidr])], LeafIf(4, Word(NonZero(w.flags))));
  }

  /** A peer of a set-device message, before its allowed IPs, which are nested in 9. */
  lemma PeerBytes(w: WirePeer)
    requires PeerOk(w) && |w.key| == 32 && Short(w.endpoint) && (w.psk.Some? ==> |w.psk.value| == 32)
    ensures AllFit(PeerHead(w))
    ensures EncodeAll(PeerHead(w)) ==
            Chunk(1, 0, w.key) + ChunkIf(2, w.psk) + ChunkIf(4, w.endpoint) + ChunkIf(5, TwoIf(w.keepalive))
            + ChunkIf(3, FourIf(w.flags != 0, w.flags))
    ensures w.ips.Some? ==> PeerKids(w) == PeerHead(w) + [Nest(9, IpTrees(w.ips.value))]
  {
    hide EncodeAll, AllFit, Chunk, ChunkIf;
    LeafIs(1, w.key);
    LeafIfIs(2, w.psk);
    LeafIfIs(4, w.endpoint);
    LeafIfIs(5, TwoIf(w.keepalive));
    WordIs(w.flags);
    LeafIfIs(3, Word(NonZero(w.flags)));
    var a, b, c, d := [Leaf(1, w.key)], LeafIf(2, w.psk), LeafIf(4, w.endpoint), LeafIf(5, TwoIf(w.keepalive));
    EncodeAppend(a, b);
    EncodeAppend(a + b, c);
    EncodeAppend(a + b + c, d);
    EncodeAppend(a + b + c + d, LeafIf(3, Word(NonZero(w.flags))));
  }

  /** A set-device message, before its peers, which are nested in 8. */
  lemma DeviceBytes(w: WireDevice)
    requires DeviceOk(w) && |w.name| <= 16 && (w.privateKey.Some? ==> |w.privateKey.value| == 32)
    ensures AllFit(DeviceHead(w))
    ensures EncodeAll(DeviceHead(w)) ==
            Chunk(2, 0, w.name) + ChunkIf(3, w.privateKey) + ChunkIf(6, TwoIf(w.port))
            + ChunkIf(7, if w.fwmark.None? then None else Some(Four(w.fwmark.value))) + ChunkIf(5, FourIf(w.flags != 0, w.flags))
    ensures w.peers.Some? ==> DeviceKids(w) == DeviceHead(w) + [Nest(8, PeerTrees(w.peers.value))]
  {
    hide EncodeAll, AllFit, Chunk, ChunkIf;
    if w.fwmark.Some? {
      WordIs(w.fwmark.value);
    }
    WordIs(w.flags);
    LeafIs(2, w.name);
    LeafIfIs(3, w.privateKey);
    LeafIfIs(6, TwoIf(w.port));
    LeafIfIs(7, Word(w.fwmark));
    LeafIfIs(5, Word(NonZero(w.flags)));
    var a, b, c, d := [Leaf(2, w.name)], LeafIf(3, w.privateKey), LeafIf(6, TwoIf(w.port)), LeafIf(7, Word(w.fwmark));
    EncodeAppend(a, b);
    EncodeAppend(a + b, c);
    EncodeAppend(a + b + c, d);
    EncodeAppend(a + b + c + d, LeafIf(5, Word(NonZero(w.flags))));
  }

  // ----- dumps -----

  /** The attributes of a peer in a dump, by number. */
  lemma DumpBytes(w: DumpPeer)
    requires GoodPeer(w)
    ensures DumpPeerKids(w) ==
            [Leaf(1, w.key)] + LeafIf(2, w.psk) + LeafIf(4, w.endpoint) + LeafIf(5, w.keepalive) + LeafIf(6, w.handshake)
            + LeafIf(7, w.rx) + LeafIf(8, w.tx) + (if w.ips.None? then [] else [Nest(9, DumpIpTrees(w.ips.value))])
            + [Leaf(10, [1, 0, 0, 0])]
  {
    hide GoodPeer, DumpIpTrees, LeafIf;
  }

  /** What an attribute of an allowed IP changes: a short address only the first bytes
      of the union, and a payload of another length nothing. */
  lemma IpAttribute(ip: AllowedIp, t: nat, b: Bytes)
    ensures var r := IpAttr(ip, View(t, b)).0;
            && r.family == (if t == 1 && |b| == 2 then b[0] as nat + 256 * b[1] as nat else ip.family)
            && r.cidr == (if t == 3 && |b| == 1 then b[0] else ip.cidr)
            && r.flags == ip.flags
            && (t == 2 && (|b| == 4 || |b| == 16) ==> r.addr[..|b|] == b && r.addr[|b|..] == ip.addr[|b|..])
            && (t != 2 || (|b| != 4 && |b| != 16) ==> r.addr == ip.addr)
  {
  }

  /** Which entries are good ones. */
  lemma IpAccepted(ips: seq<AllowedIp>, v: View)
    ensures var r := IpEntry(ips, v);
            && |r.0| == |ips| + 1 && r.0[..|ips|] == ips
            && var ip := r.0[|ips|];
            (r.1 == CB_OK <==> (ip.family == 2 && ip.cidr <= 32) || (ip.family == 10 && ip.cidr <= 128))
  {
    hide Inside, IpAttr;
    IpAttrRet(ZeroIp(), Inside(v.payload));
  }

  /** An endpoint must have the size of its family. */
  lemma EndpointAttribute(i: Info, b: Bytes)
    ensures var r := InfoAttr(i, View(4, b));
            && r == i.(endpoint := r.endpoint)
            && (if |b| == 16 && b[0] == 2 && b[1] == 0 then r.endpoint[..16] == b && r.endpoint[16..] == i.endpoint[16..]
                else if |b| == 28 && b[0] == 10 && b[1] == 0 then r.endpoint == b
                else r.endpoint == i.endpoint)
  {
  }

  /** The other attributes of a peer; a key of zeros is no preshared key. */
  lemma PeerAttribute(i: Info, t: nat, b: Bytes)
    requires t != 4
    ensures var r := InfoAttr(i, View(t, b));
            && r.endpoint == i.endpoint
            && r.presharedKey == (if t == 2 && |b| == 32 then b else i.presharedKey)
            && (r.hasPresharedKey <==> i.hasPresharedKey || (t == 2 && |b| == 32 && exists k :: 0 <= k < 32 && b[k] != 0))
            && r.keepalive == (if t == 5 && |b| == 2 then b[0] as nat + 256 * b[1] as nat else i.keepalive)
            && r.handshake == (if t == 6 && |b| == 16 then b else i.handshake)
            && r.rx == (if t == 7 && |b| == 8 then LittleEndian.LE(b) else i.rx)
            && r.tx == (if t == 8 && |b| == 8 then LittleEndian.LE(b) else i.tx)
  {
    hide LittleEndian.LE;
    if |b| == 32 {
      assert b == ZeroKey() <==> forall k :: 0 <= k < 32 ==> b[k] == 0;
    }
  }
}

/** kernel_set_device (src/ipc-linux.h): a device is written into as many messages
    as the socket buffer needs, splitting between peers and between the allowed IPs
    of a peer.  The two cursors are indices; None is the null pointer. */
module SetDevice {
  import opened Tlv
  import opened TlvMessage
  import opened Common
  import opened WgMessage
  import opened Kernel
  import opened WgDevice
  import SetMeaning

  /** Room for the fixed part of a first message, one peer and one allowed IP:
      20 + 84 + 124 + 52.  The smallest socket buffer is a page. */
  const MIN_BUFFER := 280

  /** A message has at least its two headers. */
  type Packet = b: Bytes | |b| >= HEADER witness Zeros(HEADER)

  ghost function Grown(o: Open, kids: seq<Attr>): Open {
    o.(kids := o.kids + kids)
  }

  function Room(o: Option<Bytes>): nat {
    if o.None? then 0 else HDRLEN + Align(|o.value|)
  }

  /** An attribute that is there or not, with the room check. */
  method PutCheckIf(m: Message, size: nat, typ: nat, o: Option<Bytes>) returns (ok: bool)
    requires m.Valid() && m.len <= size <= m.buf.Length && typ <= NLA_TYPE_MASK
    requires o.Some? ==> HDRLEN + |o.value| < 0x10000
    modifies m, m.buf
    ensures m.Valid() && ok == (old(m.len) + Room(o) <= size)
    ensures m.len == if ok then old(m.len) + Room(o) else old(m.len)
    ensures m.open == if ok then Grown(old(m.open), LeafIf(typ, o)) else old(m.open)
  {
    hide Layout, Align;
    if o.None? {
      assert m.open.kids + [] == m.open.kids;
      return true;
    }
    ok := m.PutCheck(size, typ, o.value);
  }

  // ----- one allowed IP -----

  method WriteIpAttrs(m: Message, size: nat, w: WireIp) returns (ok: bool)
    requires m.Valid() && m.len <= size <= m.buf.Length
    requires IpOk(w) && (w.addr.Some? ==> |w.addr.value| <= 16)
    modifies m, m.buf
    ensures m.Valid() && old(m.len) <= m.len <= size
    ensures ok ==> m.open == Grown(old(m.open), IpKids(w))
    ensures !ok ==> old(m.len) + 44 > size && exists kids :: m.open == Grown(old(m.open), kids)
  {
    hide Layout, LE16, Align;
    ghost var o := m.open;
    var family, cidr, flags := Some(LE16(w.family)), Some([w.cidr]), Word(NonZero(w.flags));
    AlignSmall();
    ok := PutCheckIf(m, size, WGALLOWEDIP_A_FAMILY, family);
    if !ok { assert m.open == Grown(o, []); return; }
    ghost var k1 := LeafIf(WGALLOWEDIP_A_FAMILY, family);
    ok := PutCheckIf(m, size, WGALLOWEDIP_A_IPADDR, w.addr);
    if !ok { assert m.open == Grown(o, k1); return; }
    ghost var k2 := k1 + LeafIf(WGALLOWEDIP_A_IPADDR, w.addr);
    assert m.open == Grown(o, k2);
    ok := PutCheckIf(m, size, WGALLOWEDIP_A_CIDR_MASK, cidr);
    if !ok { return; }
    ghost var k3 := k2 + LeafIf(WGALLOWEDIP_A_CIDR_MASK, cidr);
    assert m.open == Grown(o, k3);
    ok := PutCheckIf(m, size, WGALLOWEDIP_A_FLAGS, flags);
    if !ok { return; }
    assert m.open == Grown(o, k3 + LeafIf(WGALLOWEDIP_A_FLAGS, flags));
  }

  lemma AlignSmall()
    ensures Align(1) == 4 && Align(2) == 4 && Align(4) == 4 && Align(16) == 16 && Align(28) == 28 && Align(32) == 32
    ensures forall n: nat :: n <= 16 ==> Align(n) <= 16
  {
  }

  /** A nest that does not fit is cancelled, and the message is as before. */
  method WriteIp(m: Message, size: nat, ip: AllowedIp) returns (ok: bool)
    requires m.Valid() && m.len <= size <= m.buf.Length && size < 0x10000
    modifies m, m.buf
    ensures m.Valid() && m.len <= size
    ensures ok ==> m.open == With(old(m.open), Nest(0, IpKids(IpWire(ip))))
    ensures !ok ==> old(m.len) + 48 > size && m.len == old(m.len) && m.open == old(m.open)
  {
    hide Layout, IpKids;
    var nest;
    ok, nest := m.NestStartCheck(size, 0);
    if !ok { return; }
    ok := WriteIpAttrs(m, size, IpWire(ip));
    if !ok {
      m.NestCancel(nest);
      return;
    }
    assert m.open.kids == IpKids(IpWire(ip));
    m.NestEnd(nest);
  }

  lemma IpTreesSnoc(ws: seq<WireIp>, w: WireIp)
    requires (forall i :: 0 <= i < |ws| ==> IpOk(ws[i])) && IpOk(w)
    ensures IpTrees(ws + [w]) == IpTrees(ws) + [Nest(0, IpKids(w))]
  {
    hide IpKids;
  }

  /** The allowed IPs from `from` on, as far as they fit. */
  method WriteIps(m: Message, size: nat, p: Peer, from: nat) returns (ok: bool, next: nat)
    requires m.Valid() && m.len <= size <= m.buf.Length && size < 0x10000
    requires m.open.In? && m.open.kids == [] && from <= |p.allowedIps|
    modifies m, m.buf
    ensures m.Valid() && m.len <= size
    ensures from <= next <= |p.allowedIps| && (ok <==> next == |p.allowedIps|)
    ensures m.open == old(m.open).(kids := IpTrees(IpWires(p.allowedIps[from..next])))
    ensures next == from && !ok ==> old(m.len) + 48 > size
  {
    hide Layout, IpKids;
    next := from;
    assert IpWires(p.allowedIps[from..from]) == [];
    while next < |p.allowedIps|
      invariant from <= next <= |p.allowedIps|
      invariant m.Valid() && m.len <= size
      invariant m.open == old(m.open).(kids := IpTrees(IpWires(p.allowedIps[from..next])))
      invariant next == from ==> m.len == old(m.len)
    {
      ghost var ws, w := IpWires(p.allowedIps[from..next]), IpWire(p.allowedIps[next]);
      ok := WriteIp(m, size, p.allowedIps[next]);
      if !ok { return; }
      IpTreesSnoc(ws, w);
      assert ws + [w] == IpWires(p.allowedIps[from..next + 1]);
      next := next + 1;
    }
    ok := true;
  }

  // ----- one peer -----

  /** What the options of a peer take. */
  function OptionRoom(w: WirePeer): nat
    requires PeerOk(w)
  {
    Room(w.psk) + Room(w.endpoint) + Room(Short(w.keepalive))
  }

  predicate OptionsOk(w: WirePeer) {
    && PeerOk(w) && |w.key| == 32 && (w.psk.Some? ==> |w.psk.value| == 32)
    && (w.endpoint.Some? ==> |w.endpoint.value| == 16 || |w.endpoint.value| == 28)
  }

  method WriteKeys(m: Message, size: nat, w: WirePeer) returns (ok: bool)
    requires m.Valid() && m.len <= size <= m.buf.Length && OptionsOk(w)
    modifies m, m.buf
    ensures m.Valid() && old(m.len) <= m.len <= size
    ensures ok ==> m.len == old(m.len) + 36 + Room(w.psk)
    ensures ok ==> m.open == Grown(old(m.open), [Leaf(WGPEER_A_PUBLIC_KEY, w.key)] + LeafIf(WGPEER_A_PRESHARED_KEY, w.psk))
    ensures !ok ==> old(m.len) + 36 + Room(w.psk) > size && exists kids :: m.open == Grown(old(m.open), kids)
  {
    hide Layout, Align, LeafIf, PeerOk;
    ghost var o := m.open;
    AlignSmall();
    ok := m.PutCheck(size, WGPEER_A_PUBLIC_KEY, w.key);
    if !ok { assert m.open == Grown(o, []); return; }
    ghost var k1 := [Leaf(WGPEER_A_PUBLIC_KEY, w.key)];
    assert m.open == Grown(o, k1);
    ok := PutCheckIf(m, size, WGPEER_A_PRESHARED_KEY, w.psk);
    if !ok { return; }
    assert m.open == Grown(o, k1 + LeafIf(WGPEER_A_PRESHARED_KEY, w.psk));
  }

  method WriteOptions(m: Message, size: nat, w: WirePeer) returns (ok: bool)
    requires m.Valid() && m.len <= size <= m.buf.Length && OptionsOk(w)
    modifies m, m.buf
    ensures m.Valid() && old(m.len) <= m.len <= size
    ensures ok ==> m.open == Grown(old(m.open), PeerHead(w)) && m.len <= old(m.len) + 44 + OptionRoom(w)
    ensures !ok ==> old(m.len) + 44 + OptionRoom(w) > size && exists kids :: m.open == Grown(old(m.open), kids)
  {
    hide Layout, LE16, Align, LeafIf;
    ghost var o := m.open;
    var keepalive, flags := Short(w.keepalive), Word(NonZero(w.flags));
    AlignSmall();
    ok := WriteKeys(m, size, w);
    if !ok { return; }
    ghost var k2 := [Leaf(WGPEER_A_PUBLIC_KEY, w.key)] + LeafIf(WGPEER_A_PRESHARED_KEY, w.psk);
    ok := PutCheckIf(m, size, WGPEER_A_ENDPOINT, w.endpoint);
    if !ok { return; }
    ghost var k3 := k2 + LeafIf(WGPEER_A_ENDPOINT, w.endpoint);
    assert m.open == Grown(o, k3);
    ok := PutCheckIf(m, size, WGPEER_A_PERSISTENT_KEEPALIVE_INTERVAL, keepalive);
    if !ok { return; }
    ghost var k4 := k3 + LeafIf(WGPEER_A_PERSISTENT_KEEPALIVE_INTERVAL, keepalive);
    assert m.open == Grown(o, k4);
    ok := PutCheckIf(m, size, WGPEER_A_FLAGS, flags);
    if !ok { return; }
    assert m.open == Grown(o, k4 + LeafIf(WGPEER_A_FLAGS, flags));
  }

  datatype Outcome = Written | TooBigIps | TooBigPeers

  /** The allowed-IP nest of a peer; without room for its header there is none. */
  method WriteIpNest(m: Message, size: nat, p: Peer, from: nat) returns (ok: bool, next: nat, nested: bool)
    requires m.Valid() && m.len <= size <= m.buf.Length && size < 0x10000
    requires m.open.In? && from < |p.allowedIps|
    modifies m, m.buf
    ensures m.Valid() && m.len <= size
    ensures from <= next <= |p.allowedIps| && (ok <==> next == |p.allowedIps|)
    ensures !nested ==> next == from && m.open == old(m.open)
    ensures nested ==> m.open == With(old(m.open), Nest(WGPEER_A_ALLOWEDIPS, IpTrees(IpWires(p.allowedIps[from..next]))))
    ensures next == from ==> old(m.len) + 52 > size
  {
    hide Layout, IpTrees, IpWires;
    var nest;
    nested, nest := m.NestStartCheck(size, WGPEER_A_ALLOWEDIPS);
    if !nested { return false, from, false; }
    ok, next := WriteIps(m, size, p, from);
    m.NestEnd(nest);
  }

  /** What one peer takes beside its allowed IPs. */
  function HeadRoom(c: Option<nat>): nat {
    if c.None? then 124 else 48
  }

  /** One turn of the loop over the peers.  `c` is the allowed-IP cursor. */
  method WritePeer(m: Message, size: nat, p: Peer, c: Option<nat>)
    returns (r: Outcome, c': Option<nat>, ghost ips: Option<seq<AllowedIp>>)
    requires m.Valid() && m.len <= size <= m.buf.Length && size < 0x10000
    requires c.Some? ==> c.value < |p.allowedIps|
    modifies m, m.buf
    ensures m.Valid() && m.len <= size && (c'.Some? ==> c'.value < |p.allowedIps|)
    ensures r.TooBigPeers? ==> m.len == old(m.len) && m.open == old(m.open) && c' == c && old(m.len) + HeadRoom(c) > size
    ensures !r.TooBigPeers? ==>
              m.open == With(old(m.open), Nest(0, PeerKids(Piece(p, c.None?, ips))))
    ensures r.Written? ==> c'.None? && (if ips.None? then [] else ips.value) == p.allowedIps[From(c)..]
    ensures r.TooBigIps? ==> c'.Some? && From(c) <= c'.value
                             && (if ips.None? then [] else ips.value) == p.allowedIps[From(c)..c'.value]
    ensures r.TooBigIps? && c' == c ==> old(m.len) + 100 > size
  {
    hide Layout, PeerHead, IpWires, IpTrees, Piece, Align;
    ips := None;
    var ok, nest := m.NestStartCheck(size, 0);
    if !ok { return TooBigPeers, c, None; }
    ghost var w := Piece(p, c.None?, None);
    PieceRoom(p, c.None?);
    ok := WriteOptions(m, size, Piece(p, c.None?, None));
    if !ok {
      m.NestCancel(nest);
      return TooBigPeers, c, None;
    }
    assert m.open.kids == PeerHead(w);
    var complete, next, nested := true, 0, false;
    if p.allowedIps != [] {
      complete, next, nested := WriteIpNest(m, size, p, From(c));
    }
    ips := if nested then Some(p.allowedIps[From(c)..next]) else None;
    PieceKids(p, c.None?, ips);
    assert m.open.kids == PeerKids(Piece(p, c.None?, ips));
    m.NestEnd(nest);
    if complete {
      return Written, None, ips;
    }
    return TooBigIps, Some(next), ips;
  }

  lemma PieceRoom(p: Peer, first: bool)
    ensures var w := Piece(p, first, None); OptionsOk(w) && OptionRoom(w) <= if first then 76 else 0
  {
    hide Align, LE16;
    AlignSmall();
  }

  lemma PieceKids(p: Peer, first: bool, ips: Option<seq<AllowedIp>>)
    ensures PeerKids(Piece(p, first, ips)) == PeerHead(Piece(p, first, None))
            + if ips.None? then [] else [Nest(WGPEER_A_ALLOWEDIPS, IpTrees(IpWires(ips.value)))]
  {
    hide IpTrees, IpWires, EndpointWire;
  }

  // ----- one message -----

  lemma PeerTreesSnoc(ws: seq<WirePeer>, w: WirePeer)
    requires (forall i :: 0 <= i < |ws| ==> PeerOk(ws[i])) && PeerOk(w)
    ensures PeerTrees(ws + [w]) == PeerTrees(ws) + [Nest(0, PeerKids(w))]
  {
    hide PeerKids, PeerOk;
  }

  /** The cursor moved on: past the peer, into it, or along its allowed IPs. */
  ghost predicate Further(from: Cursor, to: Cursor) {
    to.peer > from.peer || (to.peer == from.peer && to.ip.Some? && (from.ip.None? || to.ip.value > from.ip.value))
  }

  /** The peers nest: as many peers from the cursor on as fit, the last perhaps in part. */
  method WritePeers(m: Message, size: nat, dev: Device, start: Cursor) returns (at: Cursor, ghost ws: seq<WirePeer>)
    requires m.Valid() && m.len <= size <= m.buf.Length && size < 0x10000
    requires m.open.In? && m.open.kids == []
    requires CursorOk(dev, start) && start.peer < |dev.peers|
    requires m.len + (if start.ip.None? then 124 else 100) <= size
    modifies m, m.buf
    ensures m.Valid() && m.len <= size
    ensures forall j :: 0 <= j < |ws| ==> PeerOk(ws[j])
    ensures m.open == old(m.open).(kids := PeerTrees(ws))
    ensures Accept(dev, start, ws) == Some(at) && Further(start, at)
  {
    hide Layout, PeerTrees, PeerKids, Piece, PeerOk, Advance;
    at, ws := start, [];
    assert PeerTrees(ws) == [];
    while at.peer < |dev.peers|
      invariant m.Valid() && m.len <= size
      invariant CursorOk(dev, at)
      invariant at.peer > start.peer || (at == start && m.len == old(m.len))
      invariant forall j :: 0 <= j < |ws| ==> PeerOk(ws[j])
      invariant m.open == old(m.open).(kids := PeerTrees(ws))
      invariant Accept(dev, start, ws) == Some(at)
      decreases |dev.peers| - at.peer
    {
      ghost var p := dev.peers[at.peer];
      var r, c, ips := WritePeer(m, size, dev.peers[at.peer], at.ip);
      if r.TooBigPeers? { return; }
      ghost var w := Piece(p, at.ip.None?, ips);
      PeerTreesSnoc(ws, w);
      AdvanceOver(dev, at, ips, if c.None? then |p.allowedIps| else c.value);
      AcceptSnoc(dev, start, ws, w);
      ws := ws + [w];
      if r.TooBigIps? {
        at := Cursor(at.peer, c);
        return;
      }
      at := Cursor(at.peer + 1, None);
    }
  }

  lemma AdvanceOver(dev: Device, at: Cursor, ips: Option<seq<AllowedIp>>, to: nat)
    requires CursorOk(dev, at) && at.peer < |dev.peers|
    requires var p := dev.peers[at.peer];
             && From(at.ip) <= to <= |p.allowedIps|
             && (if ips.None? then [] else ips.value) == p.allowedIps[From(at.ip)..to]
    ensures var p := dev.peers[at.peer];
            Advance(dev, at, Piece(p, at.ip.None?, ips)) ==
            Some(if to == |p.allowedIps| then Cursor(at.peer + 1, None) else Cursor(at.peer, Some(to)))
  {
    hide IpWire, EndpointWire;
  }

  /** The attributes before the peers; there is always room for them. */
  method WriteHeader(m: Message, dev: Device, first: bool)
    requires m.Valid() && m.len == HEADER && m.open == Top([]) && m.buf.Length >= MIN_BUFFER
    modifies m, m.buf
    ensures m.Valid() && m.len <= HEADER + if first then 80 else 20
    ensures m.open == Top(DeviceHead(Header(dev, first, None)))
  {
    hide Layout, LE16, Align;
    ghost var w := Header(dev, first, None);
    AlignSmall();
    m.Put(WGDEVICE_A_IFNAME, dev.name + [0]);
    if first {
      if dev.hasPrivateKey { m.Put(WGDEVICE_A_PRIVATE_KEY, dev.privateKey); }
      ghost var k1 := [Leaf(WGDEVICE_A_IFNAME, w.name)] + LeafIf(WGDEVICE_A_PRIVATE_KEY, w.privateKey);
      assert m.open.kids == k1;
      if dev.hasListenPort { m.Put(WGDEVICE_A_LISTEN_PORT, LE16(dev.listenPort)); }
      ghost var k2 := k1 + LeafIf(WGDEVICE_A_LISTEN_PORT, Short(w.port));
      assert m.open.kids == k2;
      if dev.hasFwmark { m.Put(WGDEVICE_A_FWMARK, LE32(dev.fwmark)); }
      ghost var k3 := k2 + LeafIf(WGDEVICE_A_FWMARK, Word(w.fwmark));
      assert m.open.kids == k3;
      var flags := if dev.replacePeers then 1 else 0;
      if flags != 0 { m.Put(WGDEVICE_A_FLAGS, LE32(flags)); }
    }
    assert m.open.kids == DeviceHead(w);
  }

  /** One message, from the cursor on. */
  method WriteMessage(dev: Device, size: nat, header: Bytes, start: Cursor, first: bool)
    returns (bytes: Packet, at: Cursor, ghost ws: seq<WirePeer>)
    requires MIN_BUFFER <= size < 0x10000 && |header| == HEADER
    requires CursorOk(dev, start) && start.peer < |dev.peers|
    ensures Good(bytes, size)
    ensures forall j :: 0 <= j < |ws| ==> PeerOk(ws[j])
    ensures ReadMessage(bytes) == Header(dev, first, Some(ws))
    ensures Accept(dev, start, ws) == Some(at) && Further(start, at)
  {
    hide PeerTrees, DeviceHead, PeerOk, ReadMessage, Accept;
    var m := new Message(size, header);
    WriteHeader(m, dev, first);
    var nest := m.NestStart(WGDEVICE_A_PEERS);
    at, ws := WritePeers(m, size, dev, start);
    m.NestEnd(nest);
    bytes := m.buf[..m.len];
    SameHead(dev, first, ws);
    assert m.open == Top(DeviceKids(Header(dev, first, Some(ws))));
    MessageRoundTrip(bytes, Header(dev, first, Some(ws)));
  }

  /** Whole words, and within the buffer. */
  predicate Good(bytes: Bytes, size: nat) {
    |bytes| <= size && |bytes| % 4 == 0
  }

  lemma SameHead(dev: Device, first: bool, ws: seq<WirePeer>)
    requires forall j :: 0 <= j < |ws| ==> PeerOk(ws[j])
    ensures DeviceKids(Header(dev, first, Some(ws))) ==
            DeviceHead(Header(dev, first, None)) + [Nest(WGDEVICE_A_PEERS, PeerTrees(ws))]
  {
    hide PeerTrees, PeerOk;
  }

  // ----- the whole run -----

  /** The kernel after it received the messages one by one. */
  function Replay(k: State, sent: seq<Packet>): State
  {
    if sent == [] then k else ApplyDevice(Replay(k, sent[..|sent| - 1]), ReadMessage(sent[|sent| - 1]))
  }

  lemma ReplaySnoc(k: State, sent: seq<Packet>, m: Packet)
    ensures Replay(k, sent + [m]) == ApplyDevice(Replay(k, sent), ReadMessage(m))
  {
    hide ApplyDevice, ReadMessage;
    assert (sent + [m])[..|sent|] == sent;
  }

  /** The peer fragments of all messages, in order. */
  function Fragments(sent: seq<Packet>): seq<WirePeer>
  {
    if sent == [] then []
    else
      var ps := ReadMessage(sent[|sent| - 1]).peers;
      Fragments(sent[..|sent| - 1]) + if ps.None? then [] else ps.value
  }

  lemma FragmentsSnoc(sent: seq<Packet>, m: Packet, ws: seq<WirePeer>)
    requires ReadMessage(m).peers == Some(ws)
    ensures Fragments(sent + [m]) == Fragments(sent) + ws
  {
    hide ReadMessage;
    assert (sent + [m])[..|sent|] == sent;
  }

  /** Only the first message touches the device's own settings. */
  ghost predicate SettingsOnce(sent: seq<Packet>)
  {
    forall j :: 0 < j < |sent| ==>
      var w := ReadMessage(sent[j]);
      w.privateKey.None? && w.port.None? && w.fwmark.None? && w.flags == 0
  }

  /** Without peers there is one message and no peers nest. */
  method SetNoPeers(dev: Device, size: nat, header: Bytes, before: State) returns (state: State, bytes: Packet)
    requires MIN_BUFFER <= size < 0x10000 && |header| == HEADER && dev.peers == []
    ensures Good(bytes, size) && ReadMessage(bytes).peers.None?
    ensures state == ApplyDevice(before, ReadMessage(bytes)) == ApplyDevice(before, Whole(dev))
  {
    hide DeviceHead, ReadMessage;
    var m := new Message(size, header);
    WriteHeader(m, dev, true);
    bytes := m.buf[..m.len];
    assert DeviceKids(Header(dev, true, None)) == DeviceHead(Header(dev, true, None));
    MessageRoundTrip(bytes, Header(dev, true, None));
    state := ApplyDevice(before, ReadMessage(bytes));
    assert Wholes(dev.peers) == [];
  }

  /** Every message is a whole number of words, fits the buffer, and is one the
      kernel can read.  The kernel, whose state is `state`, ends exactly where one
      unbounded message would have left it, refusals included, and that is the state
      the device asks for; and unless it refused, every fragment was sent, in order
      and once. */
  method KernelSetDevice(dev: Device, size: nat, header: Bytes, before: State)
    returns (state: State, sent: seq<Packet>)
    requires MIN_BUFFER <= size < 0x10000 && |header| == HEADER
    ensures forall j :: 0 <= j < |sent| ==> Good(sent[j], size)
    ensures SettingsOnce(sent)
    ensures state == Replay(before, sent) == ApplyDevice(before, Whole(dev))
    ensures SetMeaning.IsSet(before, dev, state)
    ensures !state.failed ==> Accept(dev, Cursor(0, None), Fragments(sent)) == Some(Cursor(|dev.peers|, None))
  {
    hide At, ApplyDevice, ReadMessage, Whole, Replay, Fragments, Accept, SetMeaning.IsSet;
    SetMeaning.WholeMeans(before, dev);
    var bytes, at;
    ghost var ws;
    ghost var none: seq<Packet> := [];
    assert Replay(before, none) == before && Fragments(none) == [] by { Nothing(before); }
    if dev.peers == [] {
      state, bytes := SetNoPeers(dev, size, header, before);
      sent := [bytes];
      assert none + [bytes] == [bytes];
      ReplaySnoc(before, none, bytes);
      NoFragments(dev, bytes);
      return;
    }
    bytes, at, ws := WriteMessage(dev, size, header, Cursor(0, None), true);
    sent := [bytes];
    state := ApplyDevice(before, ReadMessage(bytes));
    FirstHeader(before, dev, ws);
    AcceptMeaning(before, dev, Cursor(0, None), ws);
    assert none + [bytes] == [bytes] && Fragments(none) + ws == ws;
    ReplaySnoc(before, none, bytes);
    FragmentsSnoc(none, bytes, ws);
    while at.peer < |dev.peers| && !state.failed
      invariant CursorOk(dev, at)
      invariant state == At(before, dev, at.peer, at.ip)
      invariant forall j :: 0 <= j < |sent| ==> Good(sent[j], size)
      invariant SettingsOnce(sent)
      invariant state == Replay(before, sent)
      invariant Accept(dev, Cursor(0, None), Fragments(sent)) == Some(at)
      decreases |dev.peers| - at.peer, at.ip.None?,
                if at.ip.None? || at.peer >= |dev.peers| then 0 else |dev.peers[at.peer].allowedIps| - at.ip.value
    {
      ghost var start := at;
      bytes, at, ws := WriteMessage(dev, size, header, at, false);
      LaterHeader(state, dev, ws);
      AcceptMeaning(before, dev, start, ws);
      state := ApplyDevice(state, ReadMessage(bytes));
      ReplaySnoc(before, sent, bytes);
      FragmentsSnoc(sent, bytes, ws);
      AcceptAppend(dev, Cursor(0, None), Fragments(sent), ws);
      sent := sent + [bytes];
    }
    if state.failed {
      AtFailure(before, dev, at.peer, at.ip);
    } else {
      AtEnd(before, dev);
    }
  }

  lemma Nothing(k: State)
    ensures Replay(k, []) == k && Fragments([]) == []
  {
  }

  lemma NoFragments(dev: Device, m: Packet)
    requires ReadMessage(m).peers.None? && dev.peers == []
    ensures Accept(dev, Cursor(0, None), Fragments([m])) == Some(Cursor(0, None))
  {
    hide ReadMessage;
    assert [m][..0] == [];
    assert Fragments([m]) == [];
  }
}

/** The message under construction of src/netlink.h: a buffer, the length used so
    far, and the put / nest operations that write into it. */
module TlvMessage {
  import opened Machine
  import opened Tlv

  /** What has been written: complete attributes at the top, and the nests that
      were started inside one another and not yet ended. */
  datatype Open =
    | Top(kids: seq<Attr>)
    | In(outer: Open, start: nat, typ: nat, kids: seq<Attr>)

  /** The innermost open place receives an attribute. */
  ghost function With(o: Open, a: Attr): Open {
    o.(kids := o.kids + [a])
  }

  /** The bytes that say so.  The length field of an open nest is not yet written. */
  ghost predicate Layout(b: seq<u8>, o: Open) {
    match o
    case Top(kids) =>
      |b| >= HEADER && AllFit(kids) && b[HEADER..] == EncodeAll(kids)
    case In(outer, start, typ, kids) =>
      && HEADER <= start && start + HDRLEN <= |b| && typ <= NLA_TYPE_MASK
      && b[start + 2..start + 4] == LE16(NLA_F_NESTED + typ)
      && AllFit(kids) && b[start + HDRLEN..] == EncodeAll(kids)
      && Layout(b[..start], outer)
  }

  lemma LayoutAppend(b: seq<u8>, o: Open, a: Attr)
    requires Layout(b, o) && Fits(a)
    ensures Layout(b + Encode(a), With(o, a))
  {
    hide Encode, EncodeAll, AllFit, Fits, LE16, Sizes, Size;
    var b' := b + Encode(a);
    EncodeSnoc(o.kids, a);
    if o.Top? {
      assert b'[HEADER..] == b[HEADER..] + Encode(a);
    } else {
      assert b'[o.start + HDRLEN..] == b[o.start + HDRLEN..] + Encode(a);
      assert b'[o.start + 2..o.start + 4] == b[o.start + 2..o.start + 4];
      assert b'[..o.start] == b[..o.start];
    }
  }

  lemma LayoutStart(b: seq<u8>, o: Open, typ: nat, hdr: seq<u8>)
    requires Layout(b, o) && typ <= NLA_TYPE_MASK && |hdr| == 4 && hdr[2..4] == LE16(NLA_F_NESTED + typ)
    requires |b| >= HEADER
    ensures Layout(b + hdr, In(o, |b|, typ, []))
  {
    hide LE16;
    var b' := b + hdr;
    assert b'[..|b|] == b && b'[|b| + 2..|b| + 4] == hdr[2..4] && b'[|b| + HDRLEN..] == [];
  }

  lemma NestBytes(a: Attr)
    requires a.Nest? && Fits(a)
    ensures Encode(a) == LE16(HDRLEN + Sizes(a.kids)) + (LE16(NLA_F_NESTED + a.typ) + EncodeAll(a.kids))
  {
    assert Zeros(0) == [];
  }

  /** The bytes of an open nest with its length filled in are those of the nest. */
  lemma LayoutEnd(b: seq<u8>, o: Open, b': seq<u8>)
    requires Layout(b, o) && o.In? && |b| - o.start < 0x10000
    requires b' == b[..o.start] + LE16(|b| - o.start) + b[o.start + 2..]
    ensures Fits(Nest(o.typ, o.kids)) && Layout(b', With(o.outer, Nest(o.typ, o.kids)))
  {
    hide LE16, Encode, EncodeAll, AllFit, Sizes, Size;
    var a := Nest(o.typ, o.kids);
    assert Fits(a);
    assert |b| == o.start + HDRLEN + Sizes(o.kids);
    NestBytes(a);
    assert b[o.start + 2..] == LE16(NLA_F_NESTED + o.typ) + EncodeAll(o.kids);
    assert b' == b[..o.start] + Encode(a);
    LayoutAppend(b[..o.start], o.outer, a);
  }

  /** Everything before an open nest is a whole number of four-byte units. */
  lemma {:induction false} LayoutAligned(b: seq<u8>, o: Open)
    requires Layout(b, o)
    ensures |b| >= HEADER && |b| % 4 == 0
    ensures o.In? ==> HEADER <= o.start && o.start + HDRLEN <= |b| && o.start % 4 == 0
  {
    hide EncodeAll, AllFit, LE16, Sizes;
    if o.In? {
      LayoutAligned(b[..o.start], o.outer);
    }
  }

  class Message {
    const buf: array<u8>
    var len: nat
    ghost var open: Open

    ghost predicate Valid()
      reads this, buf
    {
      HEADER <= len <= buf.Length && len % 4 == 0 && Layout(buf[..len], open)
    }

    /** mnlg_msg_prepare: the two headers and no attribute. */
    constructor (size: nat, header: seq<u8>)
      requires HEADER <= size && |header| == HEADER
      ensures Valid() && fresh(buf) && buf.Length == size
      ensures len == HEADER && open == Top([])
    {
      buf := new u8[size](i => if 0 <= i < |header| then header[i] else 0);
      len := HEADER;
      open := Top([]);
      new;
      assert buf[..len][HEADER..] == [];
    }

    /** memcpy into the buffer. */
    method Write(at: nat, s: seq<u8>)
      requires at + |s| <= buf.Length
      modifies buf
      ensures forall j :: 0 <= j < buf.Length ==> buf[j] == if at <= j < at + |s| then s[j - at] else old(buf[j])
    {
      var i := 0;
      while i < |s|
        invariant 0 <= i <= |s|
        invariant forall j :: 0 <= j < buf.Length ==> buf[j] == if at <= j < at + i then s[j - at] else old(buf[j])
      {
        buf[at + i] := s[i];
        i := i + 1;
      }
    }

    /** The bytes of an attribute: type, length, payload and padding. */
    method WriteAttr(at: nat, typ: nat, data: seq<u8>)
      requires typ < 0x10000 && HDRLEN + |data| < 0x10000
      requires at + HDRLEN + Align(|data|) <= buf.Length
      modifies buf
      ensures buf[..at + HDRLEN + Align(|data|)] == old(buf[..at]) + Wire(typ, data)
    {
      hide LE16, Zeros, Align;
      ghost var b, w := buf[..at], Wire(typ, data);
      var n := |data|;
      Write(at + 2, LE16(typ));
      Write(at, LE16(HDRLEN + n));
      Write(at + HDRLEN, data);
      Write(at + HDRLEN + n, Zeros(Align(n) - n));
      assert forall j :: 0 <= j < |w| ==> buf[at + j] == w[j];
      assert buf[at..at + |w|] == w;
      assert buf[..at] == b;
    }

    /** mnl_attr_put.  The caller guarantees the room. */
    method Put(typ: nat, data: seq<u8>)
      requires Valid() && typ <= NLA_TYPE_MASK && HDRLEN + |data| < 0x10000
      requires len + HDRLEN + Align(|data|) <= buf.Length
      modifies this, buf
      ensures Valid() && len == old(len) + HDRLEN + Align(|data|)
      ensures open == With(old(open), Leaf(typ, data))
    {
      hide Layout, Wire, Align, EncodeAll, AllFit, Sizes;
      ghost var b, a := buf[..len], Leaf(typ, data);
      WriteAttr(len, typ, data);
      AlignHeader(|data|);
      len := len + Align(HDRLEN + |data|);
      LayoutAppend(b, open, a);
      open := With(open, a);
    }

    /** mnl_attr_put_check: nothing is written when there is no room. */
    method PutCheck(buflen: nat, typ: nat, data: seq<u8>) returns (ok: bool)
      requires Valid() && typ <= NLA_TYPE_MASK && HDRLEN + |data| < 0x10000
      requires buflen <= buf.Length
      modifies this, buf
      ensures Valid() && ok == (old(len) + HDRLEN + Align(|data|) <= buflen)
      ensures len == if ok then old(len) + HDRLEN + Align(|data|) else old(len)
      ensures open == if ok then With(old(open), Leaf(typ, data)) else old(open)
    {
      hide Layout, Align;
      if len + HDRLEN + Align(|data|) > buflen {
        return false;
      }
      Put(typ, data);
      return true;
    }

    /** mnl_attr_nest_start. */
    method NestStart(typ: nat) returns (start: nat)
      requires Valid() && typ <= NLA_TYPE_MASK && len + HDRLEN <= buf.Length
      modifies this, buf
      ensures Valid() && start == old(len) && len == old(len) + HDRLEN
      ensures open == In(old(open), start, typ, [])
    {
      hide Layout, LE16;
      ghost var b := buf[..len];
      start := len;
      Write(start + 2, LE16(NLA_F_NESTED + typ));
      len := len + HDRLEN;
      ghost var hdr, raw := buf[start..len], LE16(NLA_F_NESTED + typ);
      assert hdr[2] == raw[0] && hdr[3] == raw[1];
      assert hdr[2..4] == raw;
      assert buf[..len] == b + hdr;
      LayoutStart(b, open, typ, hdr);
      open := In(open, start, typ, []);
    }

    /** mnl_attr_nest_start_check. */
    method NestStartCheck(buflen: nat, typ: nat) returns (ok: bool, start: nat)
      requires Valid() && typ <= NLA_TYPE_MASK && buflen <= buf.Length
      modifies this, buf
      ensures Valid() && ok == (old(len) + HDRLEN <= buflen)
      ensures ok ==> start == old(len) && len == old(len) + HDRLEN && open == In(old(open), start, typ, [])
      ensures !ok ==> len == old(len) && open == old(open)
    {
      hide Layout;
      start := 0;
      if len + HDRLEN > buflen {
        return false, start;
      }
      start := NestStart(typ);
      ok := true;
    }

    method WriteLength(at: nat, v: nat)
      requires at + 2 <= len <= buf.Length && v < 0x10000
      modifies buf
      ensures buf[..len] == old(buf[..at]) + LE16(v) + old(buf[at + 2..len])
    {
      hide LE16;
      ghost var s := buf[..at] + LE16(v) + buf[at + 2..len];
      Write(at, LE16(v));
      assert forall j :: 0 <= j < len ==> buf[j] == s[j];
    }

    /** mnl_attr_nest_end: fill in the length of the innermost nest. */
    method NestEnd(start: nat)
      requires Valid() && open.In? && open.start == start && len - start < 0x10000
      modifies this, buf
      ensures Valid() && len == old(len)
      ensures Fits(Nest(old(open).typ, old(open).kids))
      ensures open == With(old(open).outer, Nest(old(open).typ, old(open).kids))
    {
      hide Layout, Encode, EncodeAll, AllFit, LE16, Sizes, Size;
      ghost var b := buf[..len];
      LayoutAligned(b, open);
      WriteLength(start, len - start);
      LayoutEnd(b, open, buf[..len]);
      open := With(open.outer, Nest(open.typ, open.kids));
    }

    /** mnl_attr_nest_cancel: forget the innermost nest. */
    method NestCancel(start: nat)
      requires Valid() && open.In? && open.start == start
      modifies this
      ensures Valid() && len == start && open == old(open).outer
    {
      ghost var b := buf[..len];
      LayoutAligned(b, open);
      len := len - (len - start);
      open := open.outer;
      assert buf[..len] == b[..start];
    }
  }

  // ----- any sequence of operations -----

  datatype Op = DoPut(typ: nat, data: seq<u8>) | DoStart(typ: nat) | DoEnd | DoCancel

  predicate OpOk(op: Op) {
    match op
    case DoPut(t, d) => t <= NLA_TYPE_MASK && HDRLEN + |d| < 0x10000
    case DoStart(t) => t <= NLA_TYPE_MASK
    case _ => true
  }

  /** What an operation does to the tree under construction, and to its size: what
      does not fit is not written, and there is nothing to end at the top. */
  ghost function After(o: Open, len: nat, size: nat, op: Op): (Open, nat) {
    match op
    case DoPut(t, d) =>
      if len + HDRLEN + Align(|d|) <= size then (With(o, Leaf(t, d)), len + HDRLEN + Align(|d|)) else (o, len)
    case DoStart(t) => if len + HDRLEN <= size then (In(o, len, t, []), len + HDRLEN) else (o, len)
    case DoEnd => if o.In? then (With(o.outer, Nest(o.typ, o.kids)), len) else (o, len)
    case DoCancel => if o.In? then (o.outer, o.start) else (o, len)
  }

  ghost function AfterAll(o: Open, len: nat, size: nat, ops: seq<Op>): (Open, nat)
    decreases |ops|
  {
    if ops == [] then (o, len)
    else
      var r := After(o, len, size, ops[0]);
      AfterAll(r.0, r.1, size, ops[1..])
  }

  /** The starts of the open nests, innermost last. */
  ghost function Starts(o: Open): seq<nat> {
    if o.Top? then [] else Starts(o.outer) + [o.start]
  }

  /** One operation, with the starts that its callers keep in variables. */
  method Apply(m: Message, size: nat, op: Op, starts: seq<nat>) returns (after: seq<nat>)
    requires m.Valid() && m.len <= size <= m.buf.Length && size < 0x10000 && OpOk(op) && starts == Starts(m.open)
    modifies m, m.buf
    ensures m.Valid() && m.len <= size && after == Starts(m.open)
    ensures (m.open, m.len) == After(old(m.open), old(m.len), size, op)
  {
    hide Layout, Align;
    after := starts;
    assert m.open.In? ==> m.open.start <= m.len by { LayoutAligned(m.buf[..m.len], m.open); }
    match op {
      case DoPut(t, d) =>
        var _ := m.PutCheck(size, t, d);
      case DoStart(t) =>
        var ok, start := m.NestStartCheck(size, t);
        if ok {
          after := starts + [start];
        }
      case DoEnd =>
        if starts != [] {
          m.NestEnd(starts[|starts| - 1]);
          after := starts[..|starts| - 1];
        }
      case DoCancel =>
        if starts != [] {
          m.NestCancel(starts[|starts| - 1]);
          after := starts[..|starts| - 1];
        }
    }
  }

  /** However a message was built: when no nest is open, the parser visits the
      attributes of the tree, and the bytes decode to the tree. */
  lemma Built(b: seq<u8>, len: nat, o: Open)
    requires len <= |b| && Layout(b[..len], o) && o.Top?
    ensures AllFit(o.kids) && Views(b, HEADER, len) == ViewsOf(o.kids) && DecodeAll(b[HEADER..len]) == o.kids
  {
    hide EncodeAll, AllFit, Views, ViewsOf, DecodeAll, Sizes;
    TreeRoundTrip(o.kids);
    assert b[HEADER..len] == b[..len][HEADER..];
    ViewsRoundTrip(b[..HEADER], o.kids, b[len..]);
    assert b == b[..HEADER] + EncodeAll(o.kids) + b[len..];
  }

  method Build(size: nat, header: seq<u8>, ops: seq<Op>) returns (m: Message)
    requires HEADER <= size < 0x10000 && |header| == HEADER && forall i :: 0 <= i < |ops| ==> OpOk(ops[i])
    ensures fresh(m) && m.Valid() && m.len <= size && (m.open, m.len) == AfterAll(Top([]), HEADER, size, ops)
    ensures m.open.Top? ==>
              && AllFit(m.open.kids) && Views(m.buf[..], HEADER, m.len) == ViewsOf(m.open.kids)
              && DecodeAll(m.buf[HEADER..m.len]) == m.open.kids
  {
    hide Layout, After, Views, ViewsOf, DecodeAll, AllFit, OpOk, Starts;
    m := new Message(size, header);
    var starts: seq<nat> := [];
    assert Starts(m.open) == [] by { NoStarts(m.open); }
    var i := 0;
    while i < |ops|
      invariant 0 <= i <= |ops|
      invariant fresh(m) && fresh(m.buf) && m.Valid() && m.len <= size == m.buf.Length && starts == Starts(m.open)
      invariant AfterAll(m.open, m.len, size, ops[i..]) == AfterAll(Top([]), HEADER, size, ops)
    {
      starts := Apply(m, size, ops[i], starts);
      assert ops[i..][1..] == ops[i + 1..];
      i := i + 1;
    }
    if m.open.Top? {
      assert m.buf[..][..m.len] == m.buf[..m.len] && m.buf[..][HEADER..m.len] == m.buf[HEADER..m.len];
      Built(m.buf[..], m.len, m.open);
    }
  }

  lemma NoStarts(o: Open)
    requires o.Top?
    ensures Starts(o) == []
  {
  }
}

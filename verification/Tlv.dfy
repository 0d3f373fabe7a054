/** Netlink attributes (src/netlink.h): length, type, payload, padded to four
    bytes, and nests whose payload is again a list of attributes.  Sixteen-bit
    header fields are written least significant byte first. */
module Tlv {
  import opened Machine

  datatype Attr =
    | Leaf(typ: nat, payload: seq<u8>)
    | Nest(typ: nat, kids: seq<Attr>)

  const NLA_F_NESTED := 0x8000
  const NLA_TYPE_MASK := 0x3fff
  const HDRLEN := 4

  /** struct nlmsghdr and struct genlmsghdr, which come before the attributes. */
  const HEADER := 20

  /** MNL_ALIGN. */
  function Align(n: nat): (r: nat)
    ensures n <= r < n + 4 && r % 4 == 0
    ensures n % 4 == 0 ==> r == n
  {
    (n + 3) / 4 * 4
  }

  function LE16(v: nat): (s: seq<u8>)
    requires v < 0x10000
    ensures |s| == 2
  {
    [(v % 256) as u8, (v / 256) as u8]
  }

  function Get16(s: seq<u8>, at: nat): (v: nat)
    requires at + 2 <= |s|
    ensures v < 0x10000
  {
    s[at] as nat + 256 * s[at + 1] as nat
  }

  function Zeros(n: nat): (s: seq<u8>)
    ensures |s| == n
  {
    seq(n, i => 0)
  }

  // ----- encoding -----

  /** Bytes taken by an attribute, padding included. */
  function Size(a: Attr): nat
    decreases a, 1
  {
    match a
    case Leaf(_, p) => HDRLEN + Align(|p|)
    case Nest(_, kids) => HDRLEN + Sizes(kids)
  }

  function Sizes(s: seq<Attr>): nat
    decreases s, 0
  {
    if s == [] then 0 else Size(s[0]) + Sizes(s[1..])
  }

  /** Attributes that a header can describe. */
  predicate Fits(a: Attr)
    decreases a, 1
  {
    match a
    case Leaf(t, p) => t <= NLA_TYPE_MASK && HDRLEN + |p| < 0x10000
    case Nest(t, kids) => t <= NLA_TYPE_MASK && HDRLEN + Sizes(kids) < 0x10000 && AllFit(kids)
  }

  predicate AllFit(s: seq<Attr>)
    decreases s, 0
  {
    s == [] || (Fits(s[0]) && AllFit(s[1..]))
  }

  /** The payload, without padding. */
  function Body(a: Attr): (r: seq<u8>)
    requires Fits(a)
    ensures HDRLEN + Align(|r|) == Size(a) && HDRLEN + |r| < 0x10000
    decreases a, 1
  {
    match a
    case Leaf(_, p) => p
    case Nest(_, kids) => EncodeAll(kids)
  }

  /** The type field as written: nests are marked. */
  function RawType(a: Attr): nat {
    match a
    case Leaf(t, _) => t
    case Nest(t, _) => NLA_F_NESTED + t
  }

  /** Header, payload and padding. */
  function Wire(raw: nat, body: seq<u8>): (r: seq<u8>)
    requires raw < 0x10000 && HDRLEN + |body| < 0x10000
    ensures |r| == HDRLEN + Align(|body|)
  {
    LE16(HDRLEN + |body|) + LE16(raw) + body + Zeros(Align(|body|) - |body|)
  }

  function Encode(a: Attr): (r: seq<u8>)
    requires Fits(a)
    ensures |r| == Size(a) && |r| % 4 == 0 && |r| >= HDRLEN
    decreases a, 2
  {
    Wire(RawType(a), Body(a))
  }

  function EncodeAll(s: seq<Attr>): (r: seq<u8>)
    requires AllFit(s)
    ensures |r| == Sizes(s) && |r| % 4 == 0
    decreases s, 0
  {
    if s == [] then [] else Encode(s[0]) + EncodeAll(s[1..])
  }

  lemma {:induction false} SizesAppend(s: seq<Attr>, t: seq<Attr>)
    ensures Sizes(s + t) == Sizes(s) + Sizes(t)
    ensures AllFit(s + t) <==> AllFit(s) && AllFit(t)
  {
    if s == [] {
      assert s + t == t;
    } else {
      assert (s + t)[1..] == s[1..] + t;
      SizesAppend(s[1..], t);
    }
  }

  lemma {:induction false} EncodeAppend(s: seq<Attr>, t: seq<Attr>)
    requires AllFit(s) && AllFit(t)
    ensures AllFit(s + t) && EncodeAll(s + t) == EncodeAll(s) + EncodeAll(t)
  {
    SizesAppend(s, t);
    if s == [] {
      assert s + t == t;
    } else {
      assert (s + t)[1..] == s[1..] + t;
      EncodeAppend(s[1..], t);
    }
  }

  lemma EncodeSnoc(s: seq<Attr>, a: Attr)
    requires AllFit(s) && Fits(a)
    ensures AllFit(s + [a]) && EncodeAll(s + [a]) == EncodeAll(s) + Encode(a)
    ensures Sizes(s + [a]) == Sizes(s) + Size(a)
  {
    assert [a][1..] == [];
    EncodeAppend(s, [a]);
    SizesAppend(s, [a]);
    assert EncodeAll([a]) == Encode(a) + EncodeAll([]);
  }

  // ----- parsing -----

  /** What a callback sees of an attribute: its masked type and its payload. */
  datatype View = View(typ: nat, payload: seq<u8>)

  /** `nla_type & NLA_TYPE_MASK`. */
  function TypeOf(raw: nat): nat {
    raw % 0x4000
  }

  /** mnl_attr_ok for the attribute at `at` when the attributes end at `end`. */
  predicate AttrOk(s: seq<u8>, at: int, end: int)
    requires 0 <= at && end <= |s|
  {
    end - at >= HDRLEN && Get16(s, at) >= HDRLEN && Get16(s, at) <= end - at
  }

  function ViewAt(s: seq<u8>, at: nat): View
    requires at + HDRLEN <= |s| && HDRLEN <= Get16(s, at) <= |s| - at
  {
    View(TypeOf(Get16(s, at + 2)), s[at + HDRLEN..at + Get16(s, at)])
  }

  /** The attributes that the for-each loop visits from `at` on, for any bytes. */
  function Views(s: seq<u8>, at: nat, end: nat): seq<View>
    requires end <= |s|
    decreases if at <= end then end - at else 0
  {
    if !AttrOk(s, at, end) then []
    else [ViewAt(s, at)] + Views(s, at + Align(Get16(s, at)), end)
  }

  const CB_ERROR := -1
  const CB_STOP := 0
  const CB_OK := 1

  /** A callback with the state it works on, given attribute after attribute until
      it asks to stop.  `ret` is what it returned last. */
  function Walk<S>(cb: (S, View) -> (S, int), st: S, ret: int, vs: seq<View>): (S, int)
    decreases |vs|
  {
    if vs == [] then (st, ret)
    else
      var r := cb(st, vs[0]);
      if r.1 <= CB_STOP then r else Walk(cb, r.0, r.1, vs[1..])
  }

  /** mnl_attr_parse and mnl_attr_parse_nested, on any bytes. */
  method Parse<S>(s: seq<u8>, start: nat, end: nat, cb: (S, View) -> (S, int), st: S) returns (data: S, ret: int)
    requires end <= |s|
    ensures (data, ret) == Walk(cb, st, CB_OK, Views(s, start, end))
  {
    data, ret := st, CB_OK;
    var at := start;
    while AttrOk(s, at, end)
      invariant 0 <= at
      invariant Walk(cb, data, ret, Views(s, at, end)) == Walk(cb, st, CB_OK, Views(s, start, end))
      decreases if at <= end then end - at else 0
    {
      var r := cb(data, ViewAt(s, at));
      data, ret := r.0, r.1;
      if ret <= CB_STOP {
        return;
      }
      at := at + Align(Get16(s, at));
    }
  }

  /** Walking in two parts. */
  lemma {:induction false} WalkAppend<S>(cb: (S, View) -> (S, int), st: S, ret: int, a: seq<View>, b: seq<View>)
    ensures var r := Walk(cb, st, ret, a);
            Walk(cb, st, ret, a + b) == if a != [] && r.1 <= CB_STOP then r else Walk(cb, r.0, r.1, b)
    decreases |a|
  {
    if a == [] {
      assert a + b == b;
    } else {
      assert (a + b)[1..] == a[1..] + b;
      var r := cb(st, a[0]);
      if r.1 > CB_STOP {
        WalkAppend(cb, r.0, r.1, a[1..], b);
        if a[1..] == [] {
          assert Walk(cb, r.0, r.1, a[1..]) == r;
        }
      }
    }
  }

  /** One attribute more. */
  lemma WalkSnoc<S>(cb: (S, View) -> (S, int), st: S, ret: int, a: seq<View>, v: View)
    requires a == [] || Walk(cb, st, ret, a).1 > CB_STOP
    ensures Walk(cb, st, ret, a + [v]) == cb(Walk(cb, st, ret, a).0, v)
  {
    WalkAppend(cb, st, ret, a, [v]);
    assert [v][1..] == [];
  }

  /** The view that parsing an encoded attribute must give. */
  function ViewOf(a: Attr): View
    requires Fits(a)
  {
    View(a.typ, Body(a))
  }

  function ViewsOf(s: seq<Attr>): seq<View>
    requires AllFit(s)
  {
    if s == [] then [] else [ViewOf(s[0])] + ViewsOf(s[1..])
  }

  /** A header, read back in the middle of a buffer. */
  lemma WireRoundTrip(p: seq<u8>, raw: nat, body: seq<u8>, r: seq<u8>)
    requires raw < 0x10000 && HDRLEN + |body| < 0x10000
    ensures var s := p + Wire(raw, body) + r;
            && Get16(s, |p|) == HDRLEN + |body| && Get16(s, |p| + 2) == raw
            && s[|p| + HDRLEN..|p| + HDRLEN + |body|] == body
  {
    var w := Wire(raw, body);
    var s := p + w + r;
    assert s[|p|] == w[0] && s[|p| + 1] == w[1] && s[|p| + 2] == w[2] && s[|p| + 3] == w[3];
  }

  lemma HeaderRoundTrip(p: seq<u8>, a: Attr, r: seq<u8>)
    requires Fits(a)
    ensures var s := p + Encode(a) + r;
            && HDRLEN <= Get16(s, |p|) <= Size(a) && Align(Get16(s, |p|)) == Size(a)
            && ViewAt(s, |p|) == ViewOf(a)
  {
    hide Wire, Body, Get16;
    WireRoundTrip(p, RawType(a), Body(a), r);
    AlignHeader(|Body(a)|);
  }

  lemma AlignHeader(n: nat)
    ensures Align(HDRLEN + n) == HDRLEN + Align(n)
  {
  }

  /** The loop takes one step per encoded attribute. */
  lemma ViewsStep(b: seq<u8>, at: nat, end: nat, a: Attr)
    requires Fits(a) && at + Size(a) <= end <= |b|
    requires HDRLEN <= Get16(b, at) <= Size(a) && Align(Get16(b, at)) == Size(a) && ViewAt(b, at) == ViewOf(a)
    ensures Views(b, at, end) == [ViewOf(a)] + Views(b, at + Size(a), end)
  {
  }

  /** Parsing undoes encoding, in the middle of any buffer. */
  lemma {:induction false} ViewsRoundTrip(p: seq<u8>, s: seq<Attr>, r: seq<u8>)
    requires AllFit(s)
    ensures Views(p + EncodeAll(s) + r, |p|, |p| + Sizes(s)) == ViewsOf(s)
    decreases s
  {
    hide Encode, Get16, ViewAt, ViewOf, Align;
    var b := p + EncodeAll(s) + r;
    if s != [] {
      var e, t := Encode(s[0]), EncodeAll(s[1..]);
      assert b == p + e + (t + r);
      HeaderRoundTrip(p, s[0], t + r);
      assert b == (p + e) + t + r;
      ViewsRoundTrip(p + e, s[1..], r);
      ViewsStep(b, |p|, |p| + Sizes(s), s[0]);
    }
  }

  /** Parsing the payload of a nest gives its children: mnl_attr_parse_nested. */
  lemma NestedRoundTrip(t: nat, kids: seq<Attr>)
    requires Fits(Nest(t, kids))
    ensures var payload := ViewOf(Nest(t, kids)).payload; Views(payload, 0, |payload|) == ViewsOf(kids)
  {
    ViewsRoundTrip([], kids, []);
    assert [] + EncodeAll(kids) + [] == EncodeAll(kids);
  }

  /** Reading a whole tree back, nests by their mark. */
  function DecodeAll(b: seq<u8>): seq<Attr>
    decreases |b|
  {
    if !AttrOk(b, 0, |b|) then []
    else
      var len, raw := Get16(b, 0), Get16(b, 2);
      var body := b[HDRLEN..len];
      var rest := if Align(len) <= |b| then b[Align(len)..] else [];
      var a := if raw >= NLA_F_NESTED then Nest(TypeOf(raw), DecodeAll(body)) else Leaf(TypeOf(raw), body);
      [a] + DecodeAll(rest)
  }

  lemma DecodeStep(b: seq<u8>, a: Attr, t: seq<u8>)
    requires Fits(a) && b == Encode(a) + t
    ensures DecodeAll(b) == [if a.Nest? then Nest(a.typ, DecodeAll(Body(a))) else a] + DecodeAll(t)
  {
    hide Get16, Wire, Align, Body, AllFit, EncodeAll, Sizes;
    WireRoundTrip([], RawType(a), Body(a), t);
    assert b == [] + Encode(a) + t;
    AlignHeader(|Body(a)|);
    assert b[Size(a)..] == t;
    assert a.Leaf? ==> Body(a) == a.payload by { LeafBody(a); }
  }

  lemma LeafBody(a: Attr)
    requires Fits(a)
    ensures a.Leaf? ==> Body(a) == a.payload
  {
  }

  /** Trees of any depth survive the trip through bytes. */
  lemma {:induction false} TreeRoundTrip(s: seq<Attr>)
    requires AllFit(s)
    ensures DecodeAll(EncodeAll(s)) == s
    decreases s, 0
  {
    if s != [] {
      hide Encode, DecodeAll, Body;
      DecodeStep(EncodeAll(s), s[0], EncodeAll(s[1..]));
      BodyRoundTrip(s[0]);
      TreeRoundTrip(s[1..]);
    }
  }

  lemma {:induction false} BodyRoundTrip(a: Attr)
    requires Fits(a)
    ensures a.Nest? ==> DecodeAll(Body(a)) == a.kids
    decreases a, 1
  {
    if a.Nest? {
      hide DecodeAll, EncodeAll;
      TreeRoundTrip(a.kids);
    }
  }
}

/** What colour everything has in a highlighted configuration
    (contrib/highlighter/highlighter.c), said of the text by the very names of the
    sections and fields. */
module Colours {
  import opened Letters
  import opened Spans

  const PEER_FIELDS := ["PublicKey", "PresharedKey", "AllowedIPs", "Endpoint", "PersistentKeepalive"]

  const INTERFACE_FIELDS := ["PrivateKey", "ListenPort", "Address", "DNS", "MTU", "FwMark", "Table", "PreUp", "PostUp", "PreDown",
                             "PostDown", "SaveConfig"]

  // ----- lines and headings -----

  predicate StartsLine(s: string, a: nat) {
    a <= |s| && (a == 0 || s[a - 1] == '\n')
  }

  /** The line at `a` without its comment, trimmed, is `t`, and begins with a bracket. */
  predicate HeadingAt(s: string, a: nat, t: string) {
    && StartsLine(s, a)
    && var h := CommentStart(s, a);
    var x := Skip(s, a, h);
    x < h && s[x] == '[' && t == s[x..Back(s, x, h)]
  }

  ghost predicate NoHeading(s: string, a: nat, b: nat) {
    forall k: nat, t :: a <= k < b ==> !HeadingAt(s, k, t)
  }

  /** The last heading before the line at `a` is this one, in any case. */
  ghost predicate Under(s: string, a: nat, title: string) {
    UnderFrom(s, 0, a, title)
  }

  /** The same, and it is not before `from`. */
  ghost predicate UnderFrom(s: string, from: nat, a: nat, title: string) {
    exists b: nat, t :: LastHeading(s, from, a, b, t) && Same(t, title)
  }

  ghost predicate LastHeading(s: string, from: nat, a: nat, b: nat, t: string) {
    from <= b < a && HeadingAt(s, b, t) && NoHeading(s, b + 1, a)
  }

  // ----- colours -----

  ghost predicate Coloured(c: Checks, s: string, spans: seq<Span>) {
    forall a: nat :: StartsLine(s, a) ==> LineColoured(c, s, a, spans)
  }

  /** A comment; a heading; a field with its value; or an error. */
  ghost predicate LineColoured(c: Checks, s: string, a: nat, spans: seq<Span>)
    requires a <= |s|
  {
    var e, h := LineEnd(s, a), CommentStart(s, a);
    var x := Skip(s, a, h);
    && (h < e ==> Span(CommentText, h, e - h) in spans)
    && (x < h ==> ContentColoured(c, s, x, h, Under(s, a, "[Peer]"), Under(s, a, "[Interface]"), spans))
  }

  ghost predicate ContentColoured(c: Checks, s: string, x: nat, h: nat, peer: bool, interface: bool, spans: seq<Span>)
    requires x < h <= |s|
  {
    var y, q := Back(s, x, h), Find(s, x + 1, h, '=');
    if s[x] == '[' then
      Whole(spans, Same(s[x..y], "[Peer]") || Same(s[x..y], "[Interface]"), SectionName, x, y)
    else if q == h then Whole(spans, false, FieldName, x, y)
    else
      var k := Back(s, x, q);
      && Whole(spans, (peer && Among(s[x..k], PEER_FIELDS)) || (interface && Among(s[x..k], INTERFACE_FIELDS)), FieldName, x, k)
      && var v := Skip(s, q + 1, h);
      if v == h then Span(Error, q, 1) in spans
      else Span(Delimiter, q, 1) in spans && ValueColoured(c, s, v, Back(s, v, h), s[x..k], spans)
  }

  predicate Whole(spans: seq<Span>, ok: bool, kind: Kind, a: nat, b: nat) {
    a < b ==> Span(if ok then kind else Error, a, b - a) in spans
  }

  /** The value of each field, when its check accepts it and when it does not. */
  ghost predicate ValueColoured(c: Checks, s: string, a: nat, b: nat, key: string, spans: seq<Span>)
    requires a <= b <= |s|
  {
    var t := s[a..b];
    && (Same(key, "PrivateKey") ==> Whole(spans, c.key(t), PrivateKeyText, a, b))
    && (Same(key, "PublicKey") ==> Whole(spans, c.key(t), PublicKeyText, a, b))
    && (Same(key, "PresharedKey") ==> Whole(spans, c.key(t), PresharedKeyText, a, b))
    && (Same(key, "ListenPort") ==> Whole(spans, c.port(t), Port, a, b))
    && (Same(key, "MTU") ==> Whole(spans, c.mtu(t), MtuText, a, b))
    && (Same(key, "FwMark") ==> Whole(spans, c.fwmark(t), FwMarkText, a, b))
    && (Same(key, "Table") ==> Whole(spans, c.table(t), TableText, a, b))
    && (Same(key, "SaveConfig") ==> Whole(spans, c.saveConfig(t), SaveConfigText, a, b))
    && (Same(key, "PersistentKeepalive") ==> Whole(spans, c.keepalive(t), KeepaliveText, a, b))
    && (Same(key, "PreUp") || Same(key, "PostUp") || Same(key, "PreDown") || Same(key, "PostDown") ==>
          Whole(spans, c.cmd(t), Cmd, a, b))
    && (Same(key, "Endpoint") ==> EndpointColoured(c, s, a, b, spans))
    && (Same(key, "DNS") ==> forall p: nat, r: nat :: ItemAt(s, a, b, p, r) ==> ServerColoured(c, s, p, r, b, spans))
    && (Same(key, "Address") || Same(key, "AllowedIPs") ==>
          forall p: nat, r: nat :: ItemAt(s, a, b, p, r) ==> NetworkColoured(c, s, p, r, b, spans))
    && (!Among(key, PEER_FIELDS) && !Among(key, INTERFACE_FIELDS) ==> Whole(spans, false, Cmd, a, b))
  }

  /** A host and a port around the last colon. */
  ghost predicate EndpointColoured(c: Checks, s: string, a: nat, b: nat, spans: seq<Span>)
    requires a <= b <= |s|
  {
    var colon := FindLast(s, a, b, ':');
    if c.endpoint(s[a..b]) && colon < b then
      Whole(spans, true, Host, a, colon) && Span(Delimiter, colon, 1) in spans && Whole(spans, true, Port, colon + 1, b)
    else Whole(spans, false, Host, a, b)
  }

  /** s[p..r] is an element of the list s[a..b]. */
  predicate ItemAt(s: string, a: nat, b: nat, p: nat, r: nat) {
    && a <= p <= r <= b <= |s| && (p == a || s[p - 1] == ',') && (r == b || s[r] == ',')
    && forall j :: p <= j < r ==> s[j] != ','
  }

  /** After an element comes a delimiter, or an error if the list ends with it. */
  predicate CommaColoured(r: nat, b: nat, spans: seq<Span>) {
    r < b ==> Span(if r + 1 == b then Error else Delimiter, r, 1) in spans
  }

  ghost predicate ServerColoured(c: Checks, s: string, p: nat, r: nat, b: nat, spans: seq<Span>)
    requires p <= r <= b <= |s|
  {
    var x := Skip(s, p, r);
    var y := Back(s, x, r);
    var t := s[x..y];
    && CommaColoured(r, b, spans)
    && (if c.ipv4(t) || c.ipv6(t) then Whole(spans, true, Ip, x, y) else Whole(spans, c.hostname(t), Host, x, y))
  }

  ghost predicate NetworkColoured(c: Checks, s: string, p: nat, r: nat, b: nat, spans: seq<Span>)
    requires p <= r <= b <= |s|
  {
    var x := Skip(s, p, r);
    var y := Back(s, x, r);
    var slash := Find(s, x, y, '/');
    && CommaColoured(r, b, spans)
    && if c.network(s[x..y]) && slash < y then
         Whole(spans, true, Ip, x, slash) && Span(Delimiter, slash, 1) in spans && Whole(spans, true, Cidr, slash + 1, y)
       else Whole(spans, c.network(s[x..y]), Ip, x, y)
  }

  // ----- names -----

  function Title(f: Field): string
    requires f != Invalid && f != PeerSection && f != InterfaceSection
  {
    match f
    case PrivateKey => "PrivateKey"
    case ListenPort => "ListenPort"
    case Address => "Address"
    case Dns => "DNS"
    case Mtu => "MTU"
    case FwMark => "FwMark"
    case Table => "Table"
    case PreUp => "PreUp"
    case PostUp => "PostUp"
    case PreDown => "PreDown"
    case PostDown => "PostDown"
    case SaveConfig => "SaveConfig"
    case PublicKey => "PublicKey"
    case PresharedKey => "PresharedKey"
    case AllowedIPs => "AllowedIPs"
    case Endpoint => "Endpoint"
    case PersistentKeepalive => "PersistentKeepalive"
  }

  predicate Named(f: Field) {
    f != Invalid && f != PeerSection && f != InterfaceSection
  }

  /** No two titles are the same in any case: they differ in length or at once. */
  lemma TitlesDiffer(f: Field, g: Field)
    requires Named(f) && Named(g) && f != g
    ensures !Same(Title(f), Title(g))
  {
    hide Same;
    Differ(Title(f), Title(g), 0);
  }

  lemma TitleOfField(t: string)
    ensures var g := GetField(t); g == Invalid || (Named(g) && Same(t, Title(g)))
  {
    hide Same;
  }

  lemma SomeField(t: string, f: Field)
    requires Named(f) && Same(t, Title(f))
    ensures GetField(t) != Invalid
  {
    hide Same;
  }

  lemma FieldOf(t: string, f: Field)
    requires Named(f)
    ensures GetField(t) == f <==> Same(t, Title(f))
  {
    hide Same, GetField, Title;
    var g := GetField(t);
    TitleOfField(t);
    if Same(t, Title(f)) {
      SomeField(t, f);
      SameTwice(t, Title(f), Title(g));
      if g != f {
        TitlesDiffer(f, g);
      }
    }
  }

  lemma SectionsDiffer(t: string)
    ensures !(Same(t, "[Peer]") && Same(t, "[Interface]"))
  {
  }

  predicate OfPeer(f: Field) {
    f in {PublicKey, PresharedKey, AllowedIPs, Endpoint, PersistentKeepalive}
  }

  /** The lists are the titles of the two sections. */
  lemma AmongPeer(t: string)
    ensures Among(t, PEER_FIELDS) <==> OfPeer(GetField(t))
  {
    hide Same, GetField;
    var ns := PEER_FIELDS;
    assert ns[0] == Title(PublicKey) && ns[1] == Title(PresharedKey) && ns[2] == Title(AllowedIPs);
    assert ns[3] == Title(Endpoint) && ns[4] == Title(PersistentKeepalive);
    FieldOf(t, PublicKey);
    FieldOf(t, PresharedKey);
    FieldOf(t, AllowedIPs);
    FieldOf(t, Endpoint);
    FieldOf(t, PersistentKeepalive);
  }

  lemma AmongInterface(t: string)
    ensures Among(t, INTERFACE_FIELDS) <==> Named(GetField(t)) && !OfPeer(GetField(t))
  {
    hide Same, GetField;
    var ns, f := INTERFACE_FIELDS, GetField(t);
    assert ns[0] == Title(PrivateKey) && ns[1] == Title(ListenPort) && ns[2] == Title(Address) && ns[3] == Title(Dns);
    assert ns[4] == Title(Mtu) && ns[5] == Title(FwMark) && ns[6] == Title(Table) && ns[7] == Title(PreUp);
    assert ns[8] == Title(PostUp) && ns[9] == Title(PreDown) && ns[10] == Title(PostDown) && ns[11] == Title(SaveConfig);
    hide Title;
    TitleOfField(t);
    if i :| 0 <= i < |ns| && Same(t, ns[i]) {
      var g := [PrivateKey, ListenPort, Address, Dns, Mtu, FwMark, Table, PreUp, PostUp, PreDown, PostDown, SaveConfig][i];
      FieldOf(t, g);
    }
  }

  // ----- values -----

  /** The elements of the rest of a list. */
  lemma ItemCases(s: string, a: nat, b: nat, p: nat, r: nat)
    requires ItemAt(s, a, b, p, r)
    ensures var comma := Find(s, a, b, ',');
            if p == a then r == comma else comma < b && ItemAt(s, comma + 1, b, p, r)
  {
  }

  ghost predicate ItemColoured(c: Checks, s: string, p: nat, r: nat, b: nat, f: Field, spans: seq<Span>)
    requires p <= r <= b <= |s|
  {
    if f == Dns then ServerColoured(c, s, p, r, b, spans) else NetworkColoured(c, s, p, r, b, spans)
  }

  lemma MoreSpans(c: Checks, s: string, p: nat, r: nat, b: nat, f: Field, part: seq<Span>, spans: seq<Span>)
    requires p <= r <= b <= |s| && ItemColoured(c, s, p, r, b, f, part) && forall x :: x in part ==> x in spans
    ensures ItemColoured(c, s, p, r, b, f, spans)
  {
    hide Find, Skip, Back;
  }

  lemma FirstItem(c: Checks, s: string, a: nat, b: nat, f: Field)
    requires a <= b <= |s| && (f == Dns || f == Address || f == AllowedIPs)
    ensures ItemColoured(c, s, a, Find(s, a, b, ','), b, f, ListSpans(c, s, a, b, f))
  {
    hide Skip, Back;
    var comma := Find(s, a, b, ',');
    var x := Skip(s, a, comma);
    var y := Back(s, x, comma);
    var item := ItemSpans(c, s, x, y, f);
    assert forall z :: z in item ==> z in ListSpans(c, s, a, b, f);
  }

  lemma {:induction false} ListColoured(c: Checks, s: string, a: nat, b: nat, f: Field, p: nat, r: nat)
    requires a <= b <= |s| && (f == Dns || f == Address || f == AllowedIPs) && ItemAt(s, a, b, p, r)
    ensures ItemColoured(c, s, p, r, b, f, ListSpans(c, s, a, b, f))
    decreases b - a
  {
    hide ItemColoured, Skip, Back, ItemSpans, Find;
    ItemCases(s, a, b, p, r);
    var comma := Find(s, a, b, ',');
    if p == a {
      FirstItem(c, s, a, b, f);
    } else {
      ListColoured(c, s, comma + 1, b, f, p, r);
      MoreSpans(c, s, p, r, b, f, ListSpans(c, s, comma + 1, b, f), ListSpans(c, s, a, b, f));
    }
  }

  lemma PlainValue(c: Checks, s: string, a: nat, b: nat, f: Field)
    requires a <= b <= |s|
    ensures var t, spans := s[a..b], ValueSpans(c, s, a, b, f);
            && (f == PrivateKey ==> Whole(spans, c.key(t), PrivateKeyText, a, b))
            && (f == PublicKey ==> Whole(spans, c.key(t), PublicKeyText, a, b))
            && (f == PresharedKey ==> Whole(spans, c.key(t), PresharedKeyText, a, b))
            && (f == ListenPort ==> Whole(spans, c.port(t), Port, a, b))
            && (f == Mtu ==> Whole(spans, c.mtu(t), MtuText, a, b))
            && (f == FwMark ==> Whole(spans, c.fwmark(t), FwMarkText, a, b))
            && (f == Table ==> Whole(spans, c.table(t), TableText, a, b))
            && (f == SaveConfig ==> Whole(spans, c.saveConfig(t), SaveConfigText, a, b))
            && (f == PersistentKeepalive ==> Whole(spans, c.keepalive(t), KeepaliveText, a, b))
            && (f in {PreUp, PostUp, PreDown, PostDown} ==> Whole(spans, c.cmd(t), Cmd, a, b))
            && (f == Endpoint ==> EndpointColoured(c, s, a, b, spans))
            && (f == Invalid ==> Whole(spans, false, Cmd, a, b))
  {
    hide ListSpans, FindLast;
  }

  lemma ListValue(c: Checks, s: string, a: nat, b: nat, f: Field)
    requires a <= b <= |s|
    ensures f == Dns ==> forall p: nat, r: nat :: ItemAt(s, a, b, p, r) ==> ServerColoured(c, s, p, r, b, ValueSpans(c, s, a, b, f))
    ensures f == Address || f == AllowedIPs ==>
              forall p: nat, r: nat :: ItemAt(s, a, b, p, r) ==> NetworkColoured(c, s, p, r, b, ValueSpans(c, s, a, b, f))
  {
    hide ListSpans, FindLast, ServerColoured, NetworkColoured;
    if f == Dns || f == Address || f == AllowedIPs {
      forall p: nat, r: nat | ItemAt(s, a, b, p, r)
        ensures ItemColoured(c, s, p, r, b, f, ValueSpans(c, s, a, b, f))
      {
        ListColoured(c, s, a, b, f, p, r);
      }
    }
  }

  lemma FieldsOf(t: string)
    ensures Same(t, "PrivateKey") <==> GetField(t) == PrivateKey
    ensures Same(t, "PublicKey") <==> GetField(t) == PublicKey
    ensures Same(t, "PresharedKey") <==> GetField(t) == PresharedKey
    ensures Same(t, "ListenPort") <==> GetField(t) == ListenPort
    ensures Same(t, "MTU") <==> GetField(t) == Mtu
    ensures Same(t, "FwMark") <==> GetField(t) == FwMark
    ensures Same(t, "Table") <==> GetField(t) == Table
    ensures Same(t, "SaveConfig") <==> GetField(t) == SaveConfig
    ensures Same(t, "PersistentKeepalive") <==> GetField(t) == PersistentKeepalive
  {
    hide Same, GetField;
    FieldOf(t, PrivateKey);
    FieldOf(t, PublicKey);
    FieldOf(t, PresharedKey);
    FieldOf(t, ListenPort);
    FieldOf(t, Mtu);
    FieldOf(t, FwMark);
    FieldOf(t, Table);
    FieldOf(t, SaveConfig);
    FieldOf(t, PersistentKeepalive);
  }

  lemma MoreFieldsOf(t: string)
    ensures Same(t, "PreUp") <==> GetField(t) == PreUp
    ensures Same(t, "PostUp") <==> GetField(t) == PostUp
    ensures Same(t, "PreDown") <==> GetField(t) == PreDown
    ensures Same(t, "PostDown") <==> GetField(t) == PostDown
    ensures Same(t, "Endpoint") <==> GetField(t) == Endpoint
    ensures Same(t, "DNS") <==> GetField(t) == Dns
    ensures Same(t, "Address") <==> GetField(t) == Address
    ensures Same(t, "AllowedIPs") <==> GetField(t) == AllowedIPs
  {
    hide Same, GetField;
    FieldOf(t, PreUp);
    FieldOf(t, PostUp);
    FieldOf(t, PreDown);
    FieldOf(t, PostDown);
    FieldOf(t, Endpoint);
    FieldOf(t, Dns);
    FieldOf(t, Address);
    FieldOf(t, AllowedIPs);
  }

  lemma ValueIs(c: Checks, s: string, a: nat, b: nat, key: string)
    requires a <= b <= |s|
    ensures ValueColoured(c, s, a, b, key, ValueSpans(c, s, a, b, GetField(key)))
  {
    hide GetField, ValueSpans, Whole, EndpointColoured, ServerColoured, NetworkColoured, ItemAt, Among, Same, Title;
    PlainValue(c, s, a, b, GetField(key));
    ListValue(c, s, a, b, GetField(key));
    AmongPeer(key);
    AmongInterface(key);
    TitleOfField(key);
    FieldsOf(key);
    MoreFieldsOf(key);
  }

  // ----- more spans -----

  predicate Within(part: seq<Span>, spans: seq<Span>) {
    forall x :: x in part ==> x in spans
  }

  lemma ValueMore(c: Checks, s: string, a: nat, b: nat, key: string, part: seq<Span>, spans: seq<Span>)
    requires a <= b <= |s| && ValueColoured(c, s, a, b, key, part) && Within(part, spans)
    ensures ValueColoured(c, s, a, b, key, spans)
  {
    hide Same, Among, FindLast, Find, Skip, Back, ItemAt;
  }

  lemma ContentMore(c: Checks, s: string, x: nat, h: nat, peer: bool, interface: bool, part: seq<Span>, spans: seq<Span>)
    requires x < h <= |s| && ContentColoured(c, s, x, h, peer, interface, part) && Within(part, spans)
    ensures ContentColoured(c, s, x, h, peer, interface, spans)
  {
    hide Same, Among, Find, Skip, Back, ValueColoured;
    if s[x] != '[' {
      var q := Find(s, x + 1, h, '=');
      if q < h {
        var k, v := Back(s, x, q), Skip(s, q + 1, h);
        if v < h {
          ValueMore(c, s, v, Back(s, v, h), s[x..k], part, spans);
        }
      }
    }
  }

  // ----- lines -----

  predicate Section(f: Field) {
    f == PeerSection || f == InterfaceSection || f == Invalid
  }

  lemma KeyKindIs(t: string, section: Field)
    requires Section(section)
    ensures KeyKind(GetField(t), section) ==
            if (section == PeerSection && Among(t, PEER_FIELDS)) || (section == InterfaceSection && Among(t, INTERFACE_FIELDS)) then FieldName
            else Error
  {
    hide GetField, Among;
    AmongPeer(t);
    AmongInterface(t);
    TitleOfField(t);
  }

  /** A field and its value. */
  lemma FieldIs(c: Checks, s: string, x: nat, q: nat, h: nat, section: Field)
    requires x < q < h <= |s| && s[x] != '[' && !Blank(s[x]) && q == Find(s, x + 1, h, '=') && Section(section)
    ensures var k := Back(s, x, q);
            var f := GetField(s[x..k]);
            ContentColoured(c, s, x, h, section == PeerSection, section == InterfaceSection,
                            [Span(KeyKind(f, section), x, k - x)] + AfterEquals(c, s, q, h, f))
  {
    hide Same, GetField, KeyKind, Among, ValueSpans, ValueColoured, Find, Skip, Back;
    var k, v := Back(s, x, q), Skip(s, q + 1, h);
    var f := GetField(s[x..k]);
    KeyKindIs(s[x..k], section);
    if v < h {
      var y := Back(s, v, h);
      ValueIs(c, s, v, y, s[x..k]);
      ValueMore(c, s, v, y, s[x..k], ValueSpans(c, s, v, y, f), [Span(KeyKind(f, section), x, k - x)] + AfterEquals(c, s, q, h, f));
    }
  }

  /** A heading, or a line that is no field. */
  lemma OtherIs(c: Checks, s: string, a: nat, h: nat, section: Field)
    requires a <= h <= |s|
    requires var x := Skip(s, a, h); x < h && (s[x] == '[' || Find(s, x + 1, h, '=') == h)
    ensures ContentColoured(c, s, Skip(s, a, h), h, section == PeerSection, section == InterfaceSection, Content(c, s, a, h, section))
  {
    hide Same, GetField, KeyKind, Among, ValueColoured, AfterEquals, Find, Skip, Back;
  }

  lemma FieldContent(c: Checks, s: string, a: nat, h: nat, section: Field)
    requires a <= h <= |s|
    requires var x := Skip(s, a, h); x < h && s[x] != '[' && Find(s, x + 1, h, '=') < h
    ensures var x := Skip(s, a, h);
            var q := Find(s, x + 1, h, '=');
            var k := Back(s, x, q);
            var f := GetField(s[x..k]);
            Content(c, s, a, h, section) == [Span(KeyKind(f, section), x, k - x)] + AfterEquals(c, s, q, h, f)
  {
    hide GetField, KeyKind, AfterEquals, Find, Skip, Back;
  }

  lemma ContentIs(c: Checks, s: string, a: nat, h: nat, section: Field)
    requires a <= h <= |s| && Section(section)
    ensures var x := Skip(s, a, h);
            x < h ==> ContentColoured(c, s, x, h, section == PeerSection, section == InterfaceSection, Content(c, s, a, h, section))
  {
    hide Content, ContentColoured, GetField, KeyKind, AfterEquals, Find, Skip, Back;
    var x := Skip(s, a, h);
    if x < h {
      var q := Find(s, x + 1, h, '=');
      if s[x] == '[' || q == h {
        OtherIs(c, s, a, h, section);
      } else {
        FieldContent(c, s, a, h, section);
        FieldIs(c, s, x, q, h, section);
      }
    }
  }

  /** The section when the line at `a` is reached from the one at `b`. */
  function SectionAt(s: string, b: nat, a: nat, section: Field): Field
    requires b <= a <= |s|
    decreases a - b
  {
    var e := LineEnd(s, b);
    if e >= a then section else SectionAt(s, e + 1, a, SectionAfter(s, b, CommentStart(s, b), section))
  }

  lemma EndsBefore(s: string, b: nat, a: nat)
    requires b < a && StartsLine(s, a)
    ensures LineEnd(s, b) < a && StartsLine(s, LineEnd(s, b) + 1)
    ensures forall k: nat, t :: b < k <= LineEnd(s, b) ==> !HeadingAt(s, k, t)
  {
    hide Skip, Back;
    var e := LineEnd(s, b);
    assert s[a - 1] == '\n';
  }

  /** A line's spans are among those of the text. */
  lemma {:induction false} LineWithin(c: Checks, s: string, b: nat, a: nat, section: Field)
    requires b <= a && StartsLine(s, a) && Section(section)
    ensures Section(SectionAt(s, b, a, section))
    ensures Within(Lines(c, s, a, SectionAt(s, b, a, section)), Lines(c, s, b, section))
    decreases a - b
  {
    hide Content, SectionAfter, LineEnd, CommentStart, HeadingAt;
    if b < a {
      EndsBefore(s, b, a);
      var next := SectionAfter(s, b, CommentStart(s, b), section);
      assert Section(next) by { AfterIsSection(s, b, CommentStart(s, b), section); }
      LineWithin(c, s, LineEnd(s, b) + 1, a, next);
    } else {
      assert LineEnd(s, b) >= a;
    }
  }

  lemma AfterIsSection(s: string, a: nat, h: nat, section: Field)
    requires a <= h <= |s| && Section(section)
    ensures Section(SectionAfter(s, a, h, section))
  {
  }

  ghost predicate Titled(s: string, b: nat, a: nat, section: Field, f: Field, title: string) {
    UnderFrom(s, b, a, title) || (NoHeading(s, b, a) && section == f)
  }

  lemma HeadingIs(s: string, b: nat, section: Field)
    requires StartsLine(s, b)
    ensures var after := SectionAfter(s, b, CommentStart(s, b), section);
            || (after == section && forall t :: !HeadingAt(s, b, t))
            || exists t :: HeadingAt(s, b, t) && after == GetSection(t)
  {
    hide Skip, Back, GetSection, CommentStart;
    var h := CommentStart(s, b);
    var x := Skip(s, b, h);
    if x < h && s[x] == '[' {
      assert HeadingAt(s, b, s[x..Back(s, x, h)]);
    }
  }

  lemma OneHeading(s: string, b: nat, t: string, u: string)
    requires HeadingAt(s, b, t) && HeadingAt(s, b, u)
    ensures t == u
  {
  }

  lemma UnderJoin(s: string, b: nat, n: nat, a: nat, title: string)
    requires b <= n <= a && UnderFrom(s, n, a, title)
    ensures UnderFrom(s, b, a, title)
  {
    hide HeadingAt, NoHeading, Same;
    var k: nat, t :| LastHeading(s, n, a, k, t) && Same(t, title);
    assert LastHeading(s, b, a, k, t);
  }

  lemma NoHeadingJoin(s: string, b: nat, n: nat, a: nat)
    requires b <= n <= a && NoHeading(s, b, n)
    ensures NoHeading(s, b, a) <==> NoHeading(s, n, a)
  {
    hide HeadingAt;
  }

  /** The first line without a heading, the last heading is after it. */
  lemma PlainNext(s: string, b: nat, n: nat, a: nat, section: Field, f: Field, title: string)
    requires b <= n <= a && NoHeading(s, b, n)
    ensures Titled(s, b, a, section, f, title) <==> Titled(s, n, a, section, f, title)
  {
    hide HeadingAt, Same, UnderFrom;
    NoHeadingJoin(s, b, n, a);
    if UnderFrom(s, n, a, title) {
      UnderJoin(s, b, n, a, title);
    }
    if UnderFrom(s, b, a, title) {
      UnderSplits(s, b, n, a, title);
    }
  }

  lemma UnderSplits(s: string, b: nat, n: nat, a: nat, title: string)
    requires b <= n <= a && NoHeading(s, b, n) && UnderFrom(s, b, a, title)
    ensures UnderFrom(s, n, a, title)
  {
    hide HeadingAt, Same;
    var k: nat, t :| LastHeading(s, b, a, k, t) && Same(t, title);
    assert LastHeading(s, n, a, k, t);
  }

  /** After a heading, it is the last one unless there is another. */
  lemma UnderNext(s: string, b: nat, n: nat, a: nat, t: string, title: string)
    requires b < n <= a && HeadingAt(s, b, t) && NoHeading(s, b + 1, n)
    ensures UnderFrom(s, b, a, title) <==> UnderFrom(s, n, a, title) || (NoHeading(s, n, a) && Same(t, title))
  {
    hide HeadingAt, NoHeading, UnderFrom, LastHeading, Same;
    NoHeadingJoin(s, b + 1, n, a);
    if UnderFrom(s, n, a, title) {
      UnderJoin(s, b, n, a, title);
    }
    if NoHeading(s, n, a) && Same(t, title) {
      UnderHere(s, b, a, t, title);
    }
    if UnderFrom(s, b, a, title) {
      UnderEither(s, b, n, a, t, title);
    }
  }

  lemma HeadingNext(s: string, b: nat, n: nat, a: nat, section: Field, t: string, f: Field, title: string)
    requires b < n <= a && HeadingAt(s, b, t) && NoHeading(s, b + 1, n) && (GetSection(t) == f <==> Same(t, title))
    ensures Titled(s, b, a, section, f, title) <==> Titled(s, n, a, GetSection(t), f, title)
  {
    hide HeadingAt, GetSection, Same, UnderFrom, NoHeading;
    HeadingHere(s, b, a, t);
    UnderNext(s, b, n, a, t, title);
  }

  lemma HeadingHere(s: string, b: nat, a: nat, t: string)
    requires b < a && HeadingAt(s, b, t)
    ensures !NoHeading(s, b, a)
  {
    hide HeadingAt;
  }

  lemma UnderHere(s: string, b: nat, a: nat, t: string, title: string)
    requires b < a && HeadingAt(s, b, t) && NoHeading(s, b + 1, a) && Same(t, title)
    ensures UnderFrom(s, b, a, title)
  {
    hide HeadingAt, Same, NoHeading;
    assert LastHeading(s, b, a, b, t);
  }

  lemma UnderEither(s: string, b: nat, n: nat, a: nat, t: string, title: string)
    requires b < n <= a && HeadingAt(s, b, t) && NoHeading(s, b + 1, n) && UnderFrom(s, b, a, title)
    ensures UnderFrom(s, n, a, title) || (NoHeading(s, n, a) && Same(t, title))
  {
    hide HeadingAt, Same;
    var k: nat, u :| LastHeading(s, b, a, k, u) && Same(u, title);
    NoHeadingJoin(s, b + 1, n, a);
    if k == b {
      OneHeading(s, b, t, u);
    } else {
      assert LastHeading(s, n, a, k, u);
    }
  }

  lemma {:induction false} SectionIs(s: string, b: nat, a: nat, section: Field, f: Field, title: string)
    requires b <= a && StartsLine(s, b) && StartsLine(s, a) && (forall t :: GetSection(t) == f <==> Same(t, title))
    ensures SectionAt(s, b, a, section) == f <==> Titled(s, b, a, section, f, title)
    decreases a - b
  {
    hide SectionAfter, LineEnd, CommentStart, HeadingAt, GetSection, Same, Titled;
    if b < a {
      EndsBefore(s, b, a);
      var e, after := LineEnd(s, b), SectionAfter(s, b, CommentStart(s, b), section);
      HeadingIs(s, b, section);
      assert NoHeading(s, b + 1, e + 1);
      if t :| HeadingAt(s, b, t) && after == GetSection(t) {
        HeadingNext(s, b, e + 1, a, section, t, f, title);
      } else {
        PlainNext(s, b, e + 1, a, section, f, title);
      }
      SectionIs(s, e + 1, a, after, f, title);
    } else {
      assert Titled(s, a, a, section, f, title) <==> section == f by { TitledHere(s, a, section, f, title); }
      assert LineEnd(s, b) >= a;
    }
  }

  lemma TitledHere(s: string, a: nat, section: Field, f: Field, title: string)
    ensures Titled(s, a, a, section, f, title) <==> section == f
  {
  }

  lemma Titles(t: string)
    ensures GetSection(t) == PeerSection <==> Same(t, "[Peer]")
    ensures GetSection(t) == InterfaceSection <==> Same(t, "[Interface]")
  {
    SectionsDiffer(t);
  }

  lemma LineIs(c: Checks, s: string, a: nat)
    requires StartsLine(s, a)
    ensures LineColoured(c, s, a, Lines(c, s, 0, Invalid))
  {
    hide Content, ContentColoured, HeadingAt, Same, GetSection, Skip, LineEnd, CommentStart, Titled;
    var section := SectionAt(s, 0, a, Invalid);
    LineWithin(c, s, 0, a, Invalid);
    forall t
      ensures (GetSection(t) == PeerSection <==> Same(t, "[Peer]")) && (GetSection(t) == InterfaceSection <==> Same(t, "[Interface]"))
    {
      Titles(t);
    }
    SectionIs(s, 0, a, Invalid, PeerSection, "[Peer]");
    SectionIs(s, 0, a, Invalid, InterfaceSection, "[Interface]");
    UnderIs(s, a, PeerSection, "[Peer]");
    UnderIs(s, a, InterfaceSection, "[Interface]");
    var e, h := LineEnd(s, a), CommentStart(s, a);
    var x := Skip(s, a, h);
    ContentIs(c, s, a, h, section);
    if x < h {
      ContentMore(c, s, x, h, section == PeerSection, section == InterfaceSection, Content(c, s, a, h, section), Lines(c, s, 0, Invalid));
    }
  }

  lemma UnderIs(s: string, a: nat, f: Field, title: string)
    requires f != Invalid
    ensures Titled(s, 0, a, Invalid, f, title) <==> Under(s, a, title)
  {
  }

  lemma LineMore(c: Checks, s: string, a: nat, part: seq<Span>, spans: seq<Span>)
    requires a <= |s| && LineColoured(c, s, a, part) && Within(part, spans)
    ensures LineColoured(c, s, a, spans)
  {
    hide ContentColoured, Under, LineEnd, CommentStart, Skip;
    var h := CommentStart(s, a);
    var x := Skip(s, a, h);
    if x < h {
      ContentMore(c, s, x, h, Under(s, a, "[Peer]"), Under(s, a, "[Interface]"), part, spans);
    }
  }

  /** Every line of every text is coloured as its words say. */
  lemma LinesColoured(c: Checks, s: string, spans: seq<Span>)
    requires Within(Lines(c, s, 0, Invalid), spans)
    ensures Coloured(c, s, spans)
  {
    hide LineColoured, Lines;
    forall a: nat | StartsLine(s, a)
      ensures LineColoured(c, s, a, spans)
    {
      LineIs(c, s, a);
      LineMore(c, s, a, Lines(c, s, 0, Invalid), spans);
    }
  }
}

/** What highlight_config (contrib/highlighter/highlighter.c) must produce, said
    line by line: strip the comment, trim, and look at what is left. */
module Spans {
  import opened Letters

  datatype Kind =
    | SectionName | FieldName | PrivateKeyText | PublicKeyText | PresharedKeyText | Ip | Cidr | Host | Port | MtuText
    | KeepaliveText | CommentText | Delimiter | TableText | FwMarkText | SaveConfigText | Cmd | End | Error

  datatype Field =
    | InterfaceSection | PrivateKey | ListenPort | Address | Dns | Mtu | FwMark | Table | PreUp | PostUp | PreDown | PostDown
    | SaveConfig | PeerSection | PublicKey | PresharedKey | AllowedIPs | Endpoint | PersistentKeepalive | Invalid

  datatype Span = Span(kind: Kind, start: nat, len: nat)

  /** The checks of single values; what follows holds for any. */
  datatype Checks = Checks(
    key: string -> bool, port: string -> bool, mtu: string -> bool, keepalive: string -> bool, fwmark: string -> bool,
    table: string -> bool, saveConfig: string -> bool, cmd: string -> bool, endpoint: string -> bool,
    ipv4: string -> bool, ipv6: string -> bool, hostname: string -> bool, network: string -> bool)

  predicate Blank(c: char) {
    c == ' ' || c == '\t'
  }

  // ----- looking for characters -----

  /** The first `c` in s[a..b], or `b`. */
  function Find(s: string, a: nat, b: nat, c: char): (k: nat)
    requires a <= b <= |s|
    ensures a <= k <= b && (k < b ==> s[k] == c)
    ensures forall j :: a <= j < k ==> s[j] != c
    decreases b - a
  {
    if a == b || s[a] == c then a else Find(s, a + 1, b, c)
  }

  /** The last `c` in s[a..b], or `b`. */
  function FindLast(s: string, a: nat, b: nat, c: char): (k: nat)
    requires a <= b <= |s|
    ensures a <= k <= b
    ensures k < b ==> s[k] == c && forall j :: k < j < b ==> s[j] != c
    ensures k == b ==> forall j :: a <= j < b ==> s[j] != c
    decreases b - a
  {
    if a == b then b
    else
      var k := FindLast(s, a + 1, b, c);
      if k < b then k else if s[a] == c then a else b
  }

  /** The first character of s[a..b] that is not blank, or `b`. */
  function Skip(s: string, a: nat, b: nat): (k: nat)
    requires a <= b <= |s|
    ensures a <= k <= b && (k < b ==> !Blank(s[k]))
    ensures forall j :: a <= j < k ==> Blank(s[j])
    decreases b - a
  {
    if a == b || !Blank(s[a]) then a else Skip(s, a + 1, b)
  }

  /** One past the last character of s[a..b] that is not blank, or `a`. */
  function Back(s: string, a: nat, b: nat): (k: nat)
    requires a <= b <= |s|
    ensures a <= k <= b && (a < k ==> !Blank(s[k - 1]))
    ensures forall j :: k <= j < b ==> Blank(s[j])
    decreases b - a
  {
    if a == b || !Blank(s[b - 1]) then b else Back(s, a, b - 1)
  }

  // ----- names -----

  function GetField(t: string): Field {
    if Same(t, "PrivateKey") then PrivateKey
    else if Same(t, "ListenPort") then ListenPort
    else if Same(t, "Address") then Address
    else if Same(t, "DNS") then Dns
    else if Same(t, "MTU") then Mtu
    else if Same(t, "PublicKey") then PublicKey
    else if Same(t, "PresharedKey") then PresharedKey
    else if Same(t, "AllowedIPs") then AllowedIPs
    else if Same(t, "Endpoint") then Endpoint
    else if Same(t, "PersistentKeepalive") then PersistentKeepalive
    else if Same(t, "FwMark") then FwMark
    else if Same(t, "Table") then Table
    else if Same(t, "PreUp") then PreUp
    else if Same(t, "PostUp") then PostUp
    else if Same(t, "PreDown") then PreDown
    else if Same(t, "PostDown") then PostDown
    else if Same(t, "SaveConfig") then SaveConfig
    else Invalid
  }

  function GetSection(t: string): Field {
    if Same(t, "[Peer]") then PeerSection else if Same(t, "[Interface]") then InterfaceSection else Invalid
  }

  function SectionOf(f: Field): Field {
    match f
    case PublicKey | PresharedKey | AllowedIPs | Endpoint | PersistentKeepalive => PeerSection
    case InterfaceSection | PeerSection | Invalid => Invalid
    case _ => InterfaceSection
  }

  // ----- the spans of one line -----

  /** A span of no length is not recorded. */
  function SpanIf(k: Kind, a: nat, b: nat): seq<Span>
    requires a <= b
  {
    if a == b then [] else [Span(k, a, b - a)]
  }

  function ErrorUnless(ok: bool, k: Kind): Kind {
    if ok then k else Error
  }

  function NetworkSpans(s: string, a: nat, b: nat): seq<Span>
    requires a <= b <= |s|
  {
    var slash := Find(s, a, b, '/');
    if slash == b then SpanIf(Ip, a, b)
    else SpanIf(Ip, a, slash) + [Span(Delimiter, slash, 1)] + SpanIf(Cidr, slash + 1, b)
  }

  /** One element of a comma-separated value. */
  function ItemSpans(c: Checks, s: string, a: nat, b: nat, f: Field): seq<Span>
    requires a <= b <= |s|
  {
    var t := s[a..b];
    if f == Dns then
      SpanIf(if c.ipv4(t) || c.ipv6(t) then Ip else ErrorUnless(c.hostname(t), Host), a, b)
    else if (f == Address || f == AllowedIPs) && c.network(t) then NetworkSpans(s, a, b)
    else SpanIf(Error, a, b)
  }

  /** A comma-separated value.  A comma that ends it is an error. */
  function ListSpans(c: Checks, s: string, a: nat, b: nat, f: Field): seq<Span>
    requires a <= b <= |s|
    decreases b - a
  {
    var comma := Find(s, a, b, ',');
    var x := Skip(s, a, comma);
    var item := ItemSpans(c, s, x, Back(s, x, comma), f);
    if comma == b then item
    else item + [Span(if comma + 1 == b then Error else Delimiter, comma, 1)] + ListSpans(c, s, comma + 1, b, f)
  }

  function ValueSpans(c: Checks, s: string, a: nat, b: nat, f: Field): seq<Span>
    requires a <= b <= |s|
  {
    var t := s[a..b];
    match f
    case PrivateKey => SpanIf(ErrorUnless(c.key(t), PrivateKeyText), a, b)
    case PublicKey => SpanIf(ErrorUnless(c.key(t), PublicKeyText), a, b)
    case PresharedKey => SpanIf(ErrorUnless(c.key(t), PresharedKeyText), a, b)
    case Mtu => SpanIf(ErrorUnless(c.mtu(t), MtuText), a, b)
    case SaveConfig => SpanIf(ErrorUnless(c.saveConfig(t), SaveConfigText), a, b)
    case FwMark => SpanIf(ErrorUnless(c.fwmark(t), FwMarkText), a, b)
    case Table => SpanIf(ErrorUnless(c.table(t), TableText), a, b)
    case PreUp | PostUp | PreDown | PostDown => SpanIf(ErrorUnless(c.cmd(t), Cmd), a, b)
    case ListenPort => SpanIf(ErrorUnless(c.port(t), Port), a, b)
    case PersistentKeepalive => SpanIf(ErrorUnless(c.keepalive(t), KeepaliveText), a, b)
    case Endpoint =>
      var colon := FindLast(s, a, b, ':');
      if !c.endpoint(t) || colon == b then SpanIf(Error, a, b)
      else SpanIf(Host, a, colon) + [Span(Delimiter, colon, 1)] + SpanIf(Port, colon + 1, b)
    case Address | Dns | AllowedIPs => ListSpans(c, s, a, b, f)
    case _ => SpanIf(Error, a, b)
  }

  /** From the equals sign at `q` to the end of the line's content. */
  function AfterEquals(c: Checks, s: string, q: nat, b: nat, f: Field): seq<Span>
    requires q < b <= |s|
  {
    var v := Skip(s, q + 1, b);
    if v == b then [Span(Error, q, 1)]
    else [Span(Delimiter, q, 1)] + ValueSpans(c, s, v, Back(s, v, b), f)
  }

  function KeyKind(f: Field, section: Field): Kind {
    ErrorUnless(SectionOf(f) != Invalid && f != Invalid && SectionOf(f) == section, FieldName)
  }

  /** The content of a line, without its comment. */
  function Content(c: Checks, s: string, a: nat, b: nat, section: Field): seq<Span>
    requires a <= b <= |s|
  {
    var x := Skip(s, a, b);
    var y := Back(s, x, b);
    if x == b then []
    else if s[x] == '[' then [Span(ErrorUnless(GetSection(s[x..y]) != Invalid, SectionName), x, y - x)]
    else
      var q := Find(s, x + 1, b, '=');
      if q == b then [Span(Error, x, y - x)]
      else
        var k := Back(s, x, q);
        var f := GetField(s[x..k]);
        [Span(KeyKind(f, section), x, k - x)] + AfterEquals(c, s, q, b, f)
  }

  /** The section that a line leaves behind. */
  function SectionAfter(s: string, a: nat, b: nat, section: Field): Field
    requires a <= b <= |s|
  {
    var x := Skip(s, a, b);
    if x < b && s[x] == '[' then GetSection(s[x..Back(s, x, b)]) else section
  }

  function LineEnd(s: string, a: nat): (e: nat)
    requires a <= |s|
    ensures a <= e <= |s|
  {
    Find(s, a, |s|, '\n')
  }

  function CommentStart(s: string, a: nat): (h: nat)
    requires a <= |s|
    ensures a <= h <= LineEnd(s, a)
  {
    Find(s, a, LineEnd(s, a), '#')
  }

  /** All spans from `a` on, when the section is `section`. */
  function Lines(c: Checks, s: string, a: nat, section: Field): seq<Span>
    requires a <= |s|
    decreases |s| - a
  {
    var e, h := LineEnd(s, a), CommentStart(s, a);
    Content(c, s, a, h, section) + SpanIf(CommentText, h, e) + NextLine(c, s, e, SectionAfter(s, a, h, section))
  }

  function NextLine(c: Checks, s: string, e: nat, section: Field): seq<Span>
    requires e <= |s|
    decreases |s| - e, 0
  {
    if e == |s| then [] else Lines(c, s, e + 1, section)
  }

  // ----- the spans partition the visible text -----

  /** The spans lie in s[a..b], in order and apart, hold no line break, and every
      other character that is not blank is in one. */
  ghost predicate Fills(s: string, a: nat, b: nat, spans: seq<Span>) {
    && a <= b <= |s|
    && (forall i :: 0 <= i < |spans| ==> spans[i].len > 0 && a <= spans[i].start && spans[i].start + spans[i].len <= b)
    && (forall i, j :: 0 <= i < j < |spans| ==> spans[i].start + spans[i].len <= spans[j].start)
    && (forall i, k :: 0 <= i < |spans| && spans[i].start <= k < spans[i].start + spans[i].len ==> s[k] != '\n')
    && (forall k: nat :: a <= k < b && !Blank(s[k]) && s[k] != '\n' ==> In(spans, k))
  }

  predicate At(spans: seq<Span>, i: nat, k: nat) {
    i < |spans| && spans[i].start <= k < spans[i].start + spans[i].len
  }

  ghost predicate In(spans: seq<Span>, k: nat) {
    exists i: nat :: At(spans, i, k)
  }

  lemma InJoin(x: seq<Span>, y: seq<Span>, k: nat)
    ensures In(x + y, k) <==> In(x, k) || In(y, k)
  {
    if In(x, k) {
      var i: nat :| At(x, i, k);
      assert At(x + y, i, k);
    }
    if In(y, k) {
      var i: nat :| At(y, i, k);
      assert At(x + y, |x| + i, k);
    }
    if In(x + y, k) {
      var i: nat :| At(x + y, i, k);
      if i < |x| {
        assert At(x, i, k);
      } else {
        assert At(y, i - |x|, k);
      }
    }
  }

  lemma FillJoin(s: string, a: nat, b: nat, d: nat, x: seq<Span>, y: seq<Span>)
    requires Fills(s, a, b, x) && Fills(s, b, d, y)
    ensures Fills(s, a, d, x + y)
  {
    hide In;
    forall k: nat | a <= k < d && !Blank(s[k]) && s[k] != '\n'
      ensures In(x + y, k)
    {
      InJoin(x, y, k);
    }
  }

  lemma FillNone(s: string, a: nat, b: nat)
    requires a <= b <= |s| && forall k :: a <= k < b ==> Blank(s[k]) || s[k] == '\n'
    ensures Fills(s, a, b, [])
  {
  }

  lemma FillOne(s: string, a: nat, b: nat, k: Kind)
    requires a <= b <= |s| && forall j :: a <= j < b ==> s[j] != '\n'
    ensures Fills(s, a, b, SpanIf(k, a, b))
  {
    var spans := SpanIf(k, a, b);
    forall j: nat | a <= j < b && !Blank(s[j]) && s[j] != '\n'
      ensures In(spans, j)
    {
      assert At(spans, 0, j);
    }
  }

  ghost predicate OneLine(s: string, a: nat, b: nat) {
    a <= b <= |s| && forall j :: a <= j < b ==> s[j] != '\n'
  }

  lemma FillThree(s: string, a: nat, m: nat, b: nat, k1: Kind, k2: Kind, k3: Kind)
    requires OneLine(s, a, b) && a <= m < b
    ensures Fills(s, a, b, SpanIf(k1, a, m) + [Span(k2, m, 1)] + SpanIf(k3, m + 1, b))
  {
    hide Fills;
    FillOne(s, a, m, k1);
    FillOne(s, m, m + 1, k2);
    FillOne(s, m + 1, b, k3);
    FillJoin(s, a, m, m + 1, SpanIf(k1, a, m), SpanIf(k2, m, m + 1));
    FillJoin(s, a, m + 1, b, SpanIf(k1, a, m) + SpanIf(k2, m, m + 1), SpanIf(k3, m + 1, b));
  }

  lemma ItemFills(c: Checks, s: string, a: nat, b: nat, f: Field)
    requires OneLine(s, a, b)
    ensures Fills(s, a, b, ItemSpans(c, s, a, b, f))
  {
    hide Fills;
    forall k
      ensures Fills(s, a, b, SpanIf(k, a, b))
    {
      FillOne(s, a, b, k);
    }
    var slash := Find(s, a, b, '/');
    if slash < b {
      FillThree(s, a, slash, b, Ip, Delimiter, Cidr);
    }
  }

  /** Blanks around an item need no span. */
  lemma TrimFills(s: string, a: nat, b: nat, x: nat, y: nat, spans: seq<Span>)
    requires OneLine(s, a, b) && a <= x <= y <= b && Fills(s, x, y, spans)
    requires (forall j :: a <= j < x ==> Blank(s[j])) && (forall j :: y <= j < b ==> Blank(s[j]))
    ensures Fills(s, a, b, spans)
  {
    hide Fills;
    FillNone(s, a, x);
    FillNone(s, y, b);
    FillJoin(s, a, x, y, [], spans);
    FillJoin(s, a, y, b, [] + spans, []);
    assert [] + spans + [] == spans;
  }

  lemma FirstItemFills(c: Checks, s: string, a: nat, comma: nat, f: Field)
    requires OneLine(s, a, comma)
    ensures var x := Skip(s, a, comma); Fills(s, a, comma, ItemSpans(c, s, x, Back(s, x, comma), f))
  {
    hide Fills, ItemSpans;
    var x := Skip(s, a, comma);
    var y := Back(s, x, comma);
    ItemFills(c, s, x, y, f);
    TrimFills(s, a, comma, x, y, ItemSpans(c, s, x, y, f));
  }

  lemma {:induction false} ListFills(c: Checks, s: string, a: nat, b: nat, f: Field)
    requires OneLine(s, a, b)
    ensures Fills(s, a, b, ListSpans(c, s, a, b, f))
    decreases b - a
  {
    hide Fills, ItemSpans, Find, Skip, Back;
    var comma := Find(s, a, b, ',');
    var x := Skip(s, a, comma);
    var item := ItemSpans(c, s, x, Back(s, x, comma), f);
    FirstItemFills(c, s, a, comma, f);
    if comma < b {
      var k := if comma + 1 == b then Error else Delimiter;
      FillOne(s, comma, comma + 1, k);
      ListFills(c, s, comma + 1, b, f);
      FillJoin(s, a, comma, comma + 1, item, SpanIf(k, comma, comma + 1));
      FillJoin(s, a, comma + 1, b, item + SpanIf(k, comma, comma + 1), ListSpans(c, s, comma + 1, b, f));
    }
  }

  lemma ValueFills(c: Checks, s: string, a: nat, b: nat, f: Field)
    requires OneLine(s, a, b)
    ensures Fills(s, a, b, ValueSpans(c, s, a, b, f))
  {
    hide Fills, ListSpans;
    forall k
      ensures Fills(s, a, b, SpanIf(k, a, b))
    {
      FillOne(s, a, b, k);
    }
    ListFills(c, s, a, b, f);
    var colon := FindLast(s, a, b, ':');
    if colon < b {
      FillThree(s, a, colon, b, Host, Delimiter, Port);
    }
  }

  lemma AfterEqualsFills(c: Checks, s: string, q: nat, b: nat, f: Field)
    requires OneLine(s, q, b) && q < b
    ensures Fills(s, q, b, AfterEquals(c, s, q, b, f))
  {
    hide Fills, ValueSpans;
    var v := Skip(s, q + 1, b);
    FillOne(s, q, q + 1, Error);
    FillOne(s, q, q + 1, Delimiter);
    if v == b {
      FillNone(s, q + 1, b);
      FillJoin(s, q, q + 1, b, [Span(Error, q, 1)], []);
      assert [Span(Error, q, 1)] + [] == [Span(Error, q, 1)];
    } else {
      var y := Back(s, v, b);
      ValueFills(c, s, v, y, f);
      TrimFills(s, q + 1, b, v, y, ValueSpans(c, s, v, y, f));
      FillJoin(s, q, q + 1, b, [Span(Delimiter, q, 1)], ValueSpans(c, s, v, y, f));
    }
  }

  lemma ContentOneFills(c: Checks, s: string, a: nat, b: nat, section: Field)
    requires OneLine(s, a, b)
    requires var x := Skip(s, a, b); x < b && (s[x] == '[' || Find(s, x + 1, b, '=') == b)
    ensures Fills(s, a, b, Content(c, s, a, b, section))
  {
    hide Fills, GetSection;
    var x := Skip(s, a, b);
    var y := Back(s, x, b);
    var kind := if s[x] == '[' then ErrorUnless(GetSection(s[x..y]) != Invalid, SectionName) else Error;
    FillOne(s, x, y, kind);
    TrimFills(s, a, b, x, y, SpanIf(kind, x, y));
  }

  lemma ContentFills(c: Checks, s: string, a: nat, b: nat, section: Field)
    requires OneLine(s, a, b)
    ensures Fills(s, a, b, Content(c, s, a, b, section))
  {
    hide Fills, AfterEquals, GetField, GetSection, KeyKind;
    var x := Skip(s, a, b);
    var y := Back(s, x, b);
    if x == b {
      FillNone(s, a, b);
    } else {
      var q := Find(s, x + 1, b, '=');
      if s[x] == '[' || q == b {
        ContentOneFills(c, s, a, b, section);
      } else {
        var k := Back(s, x, q);
        var f := GetField(s[x..k]);
        FillOne(s, x, k, KeyKind(f, section));
        TrimFills(s, a, q, x, k, SpanIf(KeyKind(f, section), x, k));
        AfterEqualsFills(c, s, q, b, f);
        FillJoin(s, a, q, b, SpanIf(KeyKind(f, section), x, k), AfterEquals(c, s, q, b, f));
      }
    }
  }

  lemma {:induction false} LinesFill(c: Checks, s: string, a: nat, section: Field)
    requires a <= |s|
    ensures Fills(s, a, |s|, Lines(c, s, a, section))
    decreases |s| - a
  {
    hide Fills, Content, SectionAfter;
    var e, h := LineEnd(s, a), CommentStart(s, a);
    var x, y, z := Content(c, s, a, h, section), SpanIf(CommentText, h, e), NextLine(c, s, e, SectionAfter(s, a, h, section));
    ContentFills(c, s, a, h, section);
    FillOne(s, h, e, CommentText);
    FillJoin(s, a, h, e, x, y);
    if e == |s| {
      FillNone(s, e, e);
    } else {
      LinesFill(c, s, e + 1, SectionAfter(s, a, h, section));
      FillNone(s, e, e + 1);
      FillJoin(s, e, e + 1, |s|, [], z);
      assert [] + z == z;
    }
    FillJoin(s, a, e, |s|, x + y, z);
  }

  lemma AtMostOne(s: string, a: nat, b: nat, spans: seq<Span>, k: nat, i: nat, j: nat)
    requires Fills(s, a, b, spans) && At(spans, i, k) && At(spans, j, k)
    ensures i == j
  {
  }

  /** Every visible character is in exactly one span, and no line break is in any. */
  lemma VisibleInExactlyOne(c: Checks, s: string, k: nat)
    requires k < |s| && !Blank(s[k])
    ensures var spans := Lines(c, s, 0, Invalid);
            if s[k] == '\n' then !In(spans, k)
            else exists i: nat :: At(spans, i, k) && forall j: nat :: At(spans, j, k) ==> j == i
  {
    hide Lines;
    LinesFill(c, s, 0, Invalid);
    var spans := Lines(c, s, 0, Invalid);
    if s[k] != '\n' {
      assert In(spans, k);
      var i: nat :| At(spans, i, k);
      forall j: nat | At(spans, j, k)
        ensures j == i
      {
        AtMostOne(s, 0, |s|, spans, k, i, j);
      }
    }
  }
}

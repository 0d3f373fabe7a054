/** highlight_config (contrib/highlighter/highlighter.c): one pass over the text
    with a small state, appending spans to a growing array. */
module Highlighter {
  import opened Spans
  import Colours

  /** struct highlight_span_array. */
  class SpanArray {
    var len: nat
    var spans: array<Span>

    ghost predicate Valid()
      reads this
    {
      len <= spans.Length
    }

    ghost function Contents(): (r: seq<Span>)
      requires Valid()
      reads this, spans
    {
      spans[..len]
    }

    constructor ()
      ensures Valid() && Contents() == [] && fresh(spans)
    {
      len := 0;
      spans := new Span[0];
    }

    /** append_highlight_span: the capacity is 64, then doubles. */
    method Append(k: Kind, a: nat, b: nat)
      requires Valid() && a <= b
      modifies this, spans
      ensures Valid() && Contents() == old(Contents()) + SpanIf(k, a, b)
      ensures spans == old(spans) || fresh(spans)
    {
      if a == b {
        return;
      }
      if len >= spans.Length {
        var capacity := if spans.Length != 0 then spans.Length * 2 else 64;
        var resized := new Span[capacity];
        forall i | 0 <= i < len {
          resized[i] := spans[i];
        }
        spans := resized;
        assert spans[..len] == old(spans[..len]);
      }
      spans[len] := Span(k, a, b - a);
      len := len + 1;
    }

    method SetLast(k: Kind)
      requires Valid() && Contents() != []
      modifies this.spans
      ensures Valid() && Contents() == Recoloured(old(Contents()), k)
    {
      spans[len - 1] := spans[len - 1].(kind := k);
    }
  }

  ghost function Recoloured(c: seq<Span>, k: Kind): seq<Span>
    requires c != []
  {
    var n := |c| - 1;
    c[n := c[n].(kind := k)]
  }

  // ----- how the cursor variables answer the searches -----

  lemma {:induction false} FindIs(s: string, a: nat, b: nat, c: char, k: nat)
    requires a <= k <= b <= |s| && (k < b ==> s[k] == c) && forall j :: a <= j < k ==> s[j] != c
    ensures Find(s, a, b, c) == k
    decreases b - a
  {
    if a < k {
      FindIs(s, a + 1, b, c, k);
    }
  }

  lemma {:induction false} SkipIs(s: string, a: nat, b: nat, k: nat)
    requires a <= k <= b <= |s| && (k < b ==> !Blank(s[k])) && forall j :: a <= j < k ==> Blank(s[j])
    ensures Skip(s, a, b) == k
    decreases b - a
  {
    if a < k {
      SkipIs(s, a + 1, b, k);
    }
  }

  lemma {:induction false} BackIs(s: string, a: nat, b: nat, k: nat)
    requires a <= k <= b <= |s| && (a < k ==> !Blank(s[k - 1])) && forall j :: k <= j < b ==> Blank(s[j])
    ensures Back(s, a, b) == k
    decreases b - a
  {
    if k < b {
      BackIs(s, a, b - 1, k);
    }
  }

  // ----- values -----

  method Scan(s: string, a: nat, b: nat, c: char) returns (k: nat)
    requires a <= b <= |s|
    ensures k == Find(s, a, b, c)
  {
    k := a;
    while k < b && s[k] != c
      invariant a <= k <= b && forall j :: a <= j < k ==> s[j] != c
    {
      k := k + 1;
    }
    FindIs(s, a, b, c, k);
  }

  /** A network with its slash set apart. */
  method Network(ret: SpanArray, s: string, a: nat, b: nat)
    requires ret.Valid() && a <= b <= |s|
    modifies ret, ret.spans
    ensures ret.Valid() && (ret.spans == old(ret.spans) || fresh(ret.spans))
    ensures ret.Contents() == old(ret.Contents()) + NetworkSpans(s, a, b)
  {
    hide SpanIf, Find;
    ghost var was := ret.Contents();
    var slash := Scan(s, a, b, '/');
    if slash == b {
      ret.Append(Ip, a, b);
    } else {
      ret.Append(Ip, a, slash);
      ret.Append(Delimiter, slash, slash + 1);
      ret.Append(Cidr, slash + 1, b);
      OneSpan(Delimiter, slash);
      Join3(was, SpanIf(Ip, a, slash), SpanIf(Delimiter, slash, slash + 1), SpanIf(Cidr, slash + 1, b));
    }
  }

  lemma Join3(w: seq<Span>, a: seq<Span>, b: seq<Span>, c: seq<Span>)
    ensures w + a + b + c == w + (a + b + c)
  {
  }

  lemma OneSpan(k: Kind, a: nat)
    ensures SpanIf(k, a, a + 1) == [Span(k, a, 1)]
  {
  }

  /** highlight_multivalue_value. */
  method Item(c: Checks, ret: SpanArray, s: string, a: nat, b: nat, f: Field)
    requires ret.Valid() && a <= b <= |s|
    modifies ret, ret.spans
    ensures ret.Valid() && (ret.spans == old(ret.spans) || fresh(ret.spans))
    ensures ret.Contents() == old(ret.Contents()) + ItemSpans(c, s, a, b, f)
  {
    hide SpanIf, NetworkSpans;
    var t := s[a..b];
    match f {
      case Dns =>
        if c.ipv4(t) || c.ipv6(t) {
          ret.Append(Ip, a, b);
        } else if c.hostname(t) {
          ret.Append(Host, a, b);
        } else {
          ret.Append(Error, a, b);
        }
      case Address | AllowedIPs =>
        if !c.network(t) {
          ret.Append(Error, a, b);
          return;
        }
        Network(ret, s, a, b);
      case _ =>
        ret.Append(Error, a, b);
    }
  }

  /** The text of a span so far: it starts at `start`, its last visible character
      is before `start + last`, and only blanks follow up to `i`. */
  ghost predicate Text(s: string, start: nat, i: nat, last: nat) {
    && start + last <= i <= |s| && 0 < last && !Blank(s[start]) && !Blank(s[start + last - 1])
    && forall j :: start + last <= j < i ==> Blank(s[j])
  }

  /** The current element: nothing yet, or some text. */
  ghost predicate Cursor(s: string, start: nat, i: nat, len: nat, last: nat) {
    && i <= |s| && start + len == i
    && if len == 0 then last == 0 else Text(s, start, i, last)
  }

  lemma CursorTrims(s: string, start: nat, i: nat, len: nat, last: nat)
    requires Cursor(s, start, i, len, last)
    ensures Skip(s, start, i) == start && Back(s, start, i) == start + last
  {
    SkipIs(s, start, i, start);
    BackIs(s, start, i, start + last);
  }

  lemma ListSkips(c: Checks, s: string, a: nat, b: nat, f: Field)
    requires a < b <= |s| && Blank(s[a])
    ensures ListSpans(c, s, a, b, f) == ListSpans(c, s, a + 1, b, f)
  {
    hide ItemSpans;
  }

  /** What the loop of highlight_multivalue has written once it stands at `i`. */
  ghost predicate ListState(c: Checks, s: string, b: nat, f: Field, all: seq<Span>, out: seq<Span>, start: nat, i: nat)
    requires i <= b <= |s| && start <= i
  {
    && (forall j :: start <= j < i ==> s[j] != ',')
    && if start < b then out + ListSpans(c, s, start, b, f) == all
       else out != [] && out[|out| - 1].kind == Delimiter && Recoloured(out, Error) == all
  }

  /** The list from an element whose comma is found. */
  lemma ListAt(c: Checks, s: string, b: nat, f: Field, start: nat, i: nat, len: nat, last: nat)
    requires i < b <= |s| && Cursor(s, start, i, len, last) && s[i] == ',' && forall j :: start <= j < i ==> s[j] != ','
    ensures ListSpans(c, s, start, b, f) ==
            ItemSpans(c, s, start, start + last, f) + [Span(if i + 1 == b then Error else Delimiter, i, 1)] + ListSpans(c, s, i + 1, b, f)
  {
    hide ItemSpans;
    CursorTrims(s, start, i, len, last);
    FindIs(s, start, b, ',', i);
  }

  lemma ListComma(c: Checks, s: string, b: nat, f: Field, all: seq<Span>, out: seq<Span>, start: nat, i: nat, len: nat, last: nat)
    requires i < b <= |s| && Cursor(s, start, i, len, last) && ListState(c, s, b, f, all, out, start, i) && s[i] == ','
    ensures start + last <= i
    ensures ListState(c, s, b, f, all, out + ItemSpans(c, s, start, start + last, f) + SpanIf(Delimiter, i, i + 1), i + 1, i + 1)
  {
    hide ItemSpans, ListSpans;
    var item, rest := ItemSpans(c, s, start, start + last, f), ListSpans(c, s, i + 1, b, f);
    ListAt(c, s, b, f, start, i, len, last);
    var out' := out + item + [Span(Delimiter, i, 1)];
    if i + 1 == b {
      EmptyList(c, s, b, f);
      assert Recoloured(out', Error) == out + item + [Span(Error, i, 1)] + rest;
      Join3(out, item, [Span(Error, i, 1)], rest);
    } else {
      Join3(out, item, [Span(Delimiter, i, 1)], rest);
    }
  }

  lemma EmptyList(c: Checks, s: string, b: nat, f: Field)
    requires b <= |s|
    ensures ListSpans(c, s, b, b, f) == []
  {
  }

  lemma ListEnd(c: Checks, s: string, b: nat, f: Field, all: seq<Span>, out: seq<Span>, start: nat, len: nat, last: nat)
    requires b <= |s| && Cursor(s, start, b, len, last) && ListState(c, s, b, f, all, out, start, b) && len > 0
    ensures out + ItemSpans(c, s, start, start + last, f) == all
  {
    hide ItemSpans;
    CursorTrims(s, start, b, len, last);
    FindIs(s, start, b, ',', b);
  }

  /** highlight_multivalue, on a trimmed value. */
  method Multivalue(c: Checks, ret: SpanArray, s: string, a: nat, b: nat, f: Field)
    requires ret.Valid() && a < b <= |s| && !Blank(s[a]) && !Blank(s[b - 1])
    modifies ret, ret.spans
    ensures ret.Valid() && (ret.spans == old(ret.spans) || fresh(ret.spans))
    ensures ret.Contents() == old(ret.Contents()) + ListSpans(c, s, a, b, f)
  {
    hide ListSpans, ItemSpans, SpanIf;
    ghost var all := ret.Contents() + ListSpans(c, s, a, b, f);
    var start: nat, len: nat, last: nat := a, 0, 0;
    var i := a;
    while i < b
      invariant a <= i <= b && start <= i && Cursor(s, start, i, len, last)
      invariant ret.Valid() && (ret.spans == old(ret.spans) || fresh(ret.spans))
      invariant ListState(c, s, b, f, all, ret.Contents(), start, i)
    {
      if s[i] == ',' {
        ListComma(c, s, b, f, all, ret.Contents(), start, i, len, last);
        Item(c, ret, s, start, start + last, f);
        ret.Append(Delimiter, i, i + 1);
        start, len, last := i + 1, 0, 0;
      } else if Blank(s[i]) {
        if i == start && len == 0 {
          ListSkips(c, s, start, b, f);
          start := start + 1;
        } else {
          len := len + 1;
        }
      } else {
        len := len + 1;
        last := len;
      }
      i := i + 1;
    }
    if last > 0 {
      ListEnd(c, s, b, f, all, ret.Contents(), start, len, last);
      Item(c, ret, s, start, start + last, f);
    } else if ret.spans[ret.len - 1].kind == Delimiter {
      ret.SetLast(Error);
    }
  }

  /** Accepted endpoints have a colon (see is_valid_endpoint). */
  ghost predicate ChecksOk(c: Checks) {
    forall t :: c.endpoint(t) ==> ':' in t
  }

  method ScanLast(s: string, a: nat, b: nat, c: char) returns (k: nat)
    requires a <= b <= |s| && c in s[a..b]
    ensures k == FindLast(s, a, b, c) < b
  {
    k := b;
    while k > a
      invariant a <= k <= b && forall j :: k <= j < b ==> s[j] != c
    {
      k := k - 1;
      if s[k] == c {
        FindLastIs(s, a, b, c, k);
        return;
      }
    }
    assert false;
  }

  lemma {:induction false} FindLastIs(s: string, a: nat, b: nat, c: char, k: nat)
    requires a <= k < b <= |s| && s[k] == c && forall j :: k < j < b ==> s[j] != c
    ensures FindLast(s, a, b, c) == k
    decreases b - a
  {
    if a < k {
      FindLastIs(s, a + 1, b, c, k);
    }
  }

  /** The Endpoint case of highlight_value. */
  method EndpointValue(c: Checks, ret: SpanArray, s: string, a: nat, b: nat)
    requires ret.Valid() && a < b <= |s| && ChecksOk(c)
    modifies ret, ret.spans
    ensures ret.Valid() && (ret.spans == old(ret.spans) || fresh(ret.spans))
    ensures ret.Contents() == old(ret.Contents()) + ValueSpans(c, s, a, b, Endpoint)
  {
    hide SpanIf, FindLast;
    ghost var was := ret.Contents();
    if !c.endpoint(s[a..b]) {
      ret.Append(Error, a, b);
      return;
    }
    var colon := ScanLast(s, a, b, ':');
    ret.Append(Host, a, colon);
    ret.Append(Delimiter, colon, colon + 1);
    ret.Append(Port, colon + 1, b);
    OneSpan(Delimiter, colon);
    Join3(was, SpanIf(Host, a, colon), SpanIf(Delimiter, colon, colon + 1), SpanIf(Port, colon + 1, b));
  }

  /** highlight_value, on a trimmed value. */
  method Value(c: Checks, ret: SpanArray, s: string, a: nat, b: nat, f: Field)
    requires ret.Valid() && a < b <= |s| && !Blank(s[a]) && !Blank(s[b - 1]) && ChecksOk(c)
    modifies ret, ret.spans
    ensures ret.Valid() && (ret.spans == old(ret.spans) || fresh(ret.spans))
    ensures ret.Contents() == old(ret.Contents()) + ValueSpans(c, s, a, b, f)
  {
    hide SpanIf, ListSpans;
    var t := s[a..b];
    match f {
      case PrivateKey => ret.Append(if c.key(t) then PrivateKeyText else Error, a, b);
      case PublicKey => ret.Append(if c.key(t) then PublicKeyText else Error, a, b);
      case PresharedKey => ret.Append(if c.key(t) then PresharedKeyText else Error, a, b);
      case Mtu => ret.Append(if c.mtu(t) then MtuText else Error, a, b);
      case SaveConfig => ret.Append(if c.saveConfig(t) then SaveConfigText else Error, a, b);
      case FwMark => ret.Append(if c.fwmark(t) then FwMarkText else Error, a, b);
      case Table => ret.Append(if c.table(t) then TableText else Error, a, b);
      case PreUp | PostUp | PreDown | PostDown => ret.Append(if c.cmd(t) then Cmd else Error, a, b);
      case ListenPort => ret.Append(if c.port(t) then Port else Error, a, b);
      case PersistentKeepalive => ret.Append(if c.keepalive(t) then KeepaliveText else Error, a, b);
      case Endpoint => EndpointValue(c, ret, s, a, b);
      case Address | Dns | AllowedIPs => Multivalue(c, ret, s, a, b, f);
      case _ => ret.Append(Error, a, b);
    }
  }

  // ----- the pass over the text -----

  datatype Mode = OnNone | OnKey | OnValue | OnComment | OnSection

  /** The variables of the loop. */
  datatype Vars = Vars(mode: Mode, start: nat, len: nat, last: nat, equals: nat, section: Field, field: Field)

  /** No line break and no comment sign. */
  ghost predicate Plain(s: string, a: nat, i: nat) {
    i <= |s| && forall j :: a <= j < i ==> s[j] != '\n' && s[j] != '#'
  }

  /** What the variables say about the text before `i`. */
  ghost predicate Read(s: string, v: Vars, i: nat) {
    && i <= |s|
    && match v.mode
       case OnNone => v.start == i && v.len == 0
       case OnKey => v.start + v.len == i && v.len > 0 && Text(s, v.start, i, v.last) && Plain(s, v.start, i)
                     && s[v.start] != '[' && forall j :: v.start < j < i ==> s[j] != '='
       case OnSection => v.start + v.len == i && v.len > 0 && Text(s, v.start, i, v.last) && Plain(s, v.start, i) && s[v.start] == '['
       case OnValue => && v.equals < v.start && v.start + v.len == i && Plain(s, v.equals, i)
                       && (forall j :: v.equals < j < v.start ==> Blank(s[j]))
                       && (v.len > 0 ==> Text(s, v.start, i, v.last))
       case OnComment => v.start + v.len == i && v.len > 0 && s[v.start] == '#' && forall j :: v.start <= j < i ==> s[j] != '\n'
  }

  /** The spans still to come. */
  ghost function ToCome(c: Checks, s: string, v: Vars, i: nat): seq<Span>
    requires Read(s, v, i)
  {
    match v.mode
    case OnNone | OnKey | OnSection => Lines(c, s, v.start, v.section)
    case OnValue =>
      var e, h := LineEnd(s, i), CommentStart(s, i);
      AfterEquals(c, s, v.equals, h, v.field) + SpanIf(CommentText, h, e) + NextLine(c, s, e, v.section)
    case OnComment =>
      var e := LineEnd(s, i);
      SpanIf(CommentText, v.start, e) + NextLine(c, s, e, v.section)
  }

  /** The spans of the line that ends, at a line break, a comment sign or the end. */
  ghost function Pending(c: Checks, s: string, v: Vars, i: nat): seq<Span>
    requires Read(s, v, i)
  {
    match v.mode
    case OnNone => []
    case OnKey | OnSection => Content(c, s, v.start, i, v.section)
    case OnValue => AfterEquals(c, s, v.equals, i, v.field)
    case OnComment => SpanIf(CommentText, v.start, i)
  }

  ghost function SectionThen(s: string, v: Vars): Field
    requires v.mode == OnSection ==> v.start + v.last <= |s|
  {
    if v.mode == OnSection then GetSection(s[v.start..v.start + v.last]) else v.section
  }

  lemma TextTrims(s: string, start: nat, i: nat, last: nat)
    requires Text(s, start, i, last)
    ensures Skip(s, start, i) == start && Back(s, start, i) == start + last
  {
    SkipIs(s, start, i, start);
    BackIs(s, start, i, start + last);
  }

  lemma PendingKey(c: Checks, s: string, v: Vars, i: nat)
    requires Read(s, v, i) && v.mode == OnKey
    ensures Pending(c, s, v, i) == SpanIf(Error, v.start, v.start + v.last)
  {
    hide AfterEquals, GetSection, GetField;
    TextTrims(s, v.start, i, v.last);
    FindIs(s, v.start + 1, i, '=', i);
  }

  lemma PendingSection(c: Checks, s: string, v: Vars, i: nat)
    requires Read(s, v, i) && v.mode == OnSection
    ensures v.start + v.last <= i
    ensures var f := GetSection(s[v.start..v.start + v.last]);
            Pending(c, s, v, i) == SpanIf(if f == Invalid then Error else SectionName, v.start, v.start + v.last)
  {
    hide AfterEquals, GetSection, GetField;
    TextTrims(s, v.start, i, v.last);
  }

  lemma PendingValue(c: Checks, s: string, v: Vars, i: nat)
    requires Read(s, v, i) && v.mode == OnValue
    ensures v.len > 0 ==> v.start + v.last <= i
    ensures Pending(c, s, v, i) ==
            if v.len == 0 then SpanIf(Error, v.equals, v.equals + 1)
            else SpanIf(Delimiter, v.equals, v.equals + 1) + ValueSpans(c, s, v.start, v.start + v.last, v.field)
  {
    hide ValueSpans;
    SkipIs(s, v.equals + 1, i, v.start);
    if v.len != 0 {
      TextTrims(s, v.start, i, v.last);
    }
  }

  method FinishValue(c: Checks, ret: SpanArray, s: string, v: Vars)
    requires ret.Valid() && ChecksOk(c)
    requires v.len > 0 ==> v.start < v.start + v.last <= |s| && !Blank(s[v.start]) && !Blank(s[v.start + v.last - 1])
    modifies ret, ret.spans
    ensures ret.Valid() && (ret.spans == old(ret.spans) || fresh(ret.spans))
    ensures ret.Contents() == old(ret.Contents())
            + if v.len == 0 then SpanIf(Error, v.equals, v.equals + 1)
              else SpanIf(Delimiter, v.equals, v.equals + 1) + ValueSpans(c, s, v.start, v.start + v.last, v.field)
  {
    hide ValueSpans, SpanIf;
    if v.len != 0 {
      ret.Append(Delimiter, v.equals, v.equals + 1);
      Value(c, ret, s, v.start, v.start + v.last, v.field);
    } else {
      ret.Append(Error, v.equals, v.equals + 1);
    }
  }

  /** The first part of the loop body: write what the line holds. */
  method FinishLine(c: Checks, ret: SpanArray, s: string, v: Vars, i: nat) returns (section: Field)
    requires ret.Valid() && Read(s, v, i) && ChecksOk(c)
    modifies ret, ret.spans
    ensures ret.Valid() && (ret.spans == old(ret.spans) || fresh(ret.spans))
    ensures ret.Contents() == old(ret.Contents()) + Pending(c, s, v, i)
    ensures section == SectionThen(s, v)
  {
    hide ValueSpans, Content, AfterEquals, SpanIf, GetSection;
    section := v.section;
    match v.mode {
      case OnNone =>
      case OnKey =>
        PendingKey(c, s, v, i);
        ret.Append(Error, v.start, v.start + v.last);
      case OnValue =>
        PendingValue(c, s, v, i);
        FinishValue(c, ret, s, v);
      case OnSection =>
        PendingSection(c, s, v, i);
        section := GetSection(s[v.start..v.start + v.last]);
        ret.Append(if section == Invalid then Error else SectionName, v.start, v.start + v.last);
      case OnComment =>
        ret.Append(CommentText, v.start, i);
    }
  }

  // ----- every step keeps what was written and what is to come -----

  /** The text ends here, or the line does, or a comment starts. */
  predicate Stops(s: string, v: Vars, i: nat)
    requires i <= |s|
  {
    i == |s| || s[i] == '\n' || (v.mode != OnComment && s[i] == '#')
  }

  /** What remains after the line that ends at `i`. */
  ghost function Beyond(c: Checks, s: string, i: nat, section: Field): seq<Span>
    requires i <= |s|
  {
    SpanIf(CommentText, i, LineEnd(s, i)) + NextLine(c, s, LineEnd(s, i), section)
  }

  lemma EndsHere(s: string, a: nat, i: nat)
    requires a <= i <= |s| && Plain(s, a, i) && (i == |s| || s[i] == '\n' || s[i] == '#')
    ensures CommentStart(s, a) == i && LineEnd(s, a) == LineEnd(s, i)
  {
    var e := LineEnd(s, i);
    FindIs(s, a, |s|, '\n', e);
    FindIs(s, a, e, '#', i);
  }

  lemma StopSplits(c: Checks, s: string, v: Vars, i: nat)
    requires Read(s, v, i) && Stops(s, v, i)
    ensures v.mode == OnSection ==> v.start + v.last <= |s|
    ensures ToCome(c, s, v, i) == Pending(c, s, v, i) + Beyond(c, s, i, SectionThen(s, v))
  {
    hide Content, AfterEquals, GetSection, NextLine;
    match v.mode {
      case OnNone =>
        EndsHere(s, i, i);
        NoContent(c, s, i, v.section);
      case OnKey | OnSection =>
        EndsHere(s, v.start, i);
        TextTrims(s, v.start, i, v.last);
      case OnValue =>
        EndsHere(s, i, i);
      case OnComment =>
        FindIs(s, i, |s|, '\n', i);
    }
  }

  lemma NoContent(c: Checks, s: string, i: nat, section: Field)
    requires i <= |s|
    ensures Content(c, s, i, i, section) == [] && SectionAfter(s, i, i, section) == section
  {
  }

  /** The variables after the line that ends at `i`. */
  function NewLine(s: string, v: Vars, i: nat, section: Field): Vars
    requires i < |s|
  {
    if s[i] == '#' then Vars(OnComment, i, 1, 0, v.equals, section, Invalid)
    else Vars(OnNone, i + 1, 0, 0, v.equals, section, Invalid)
  }

  lemma StepLine(c: Checks, s: string, v: Vars, i: nat, section: Field)
    requires i < |s| && (s[i] == '\n' || s[i] == '#')
    ensures var w := NewLine(s, v, i, section); Read(s, w, i + 1) && ToCome(c, s, w, i + 1) == Beyond(c, s, i, section)
  {
    hide Lines;
    if s[i] == '#' {
      LineEndNext(s, i);
    } else {
      FindIs(s, i, |s|, '\n', i);
    }
  }

  lemma LineEndNext(s: string, i: nat)
    requires i < |s| && s[i] != '\n'
    ensures LineEnd(s, i) == LineEnd(s, i + 1)
    ensures s[i] != '#' ==> CommentStart(s, i) == CommentStart(s, i + 1)
  {
  }

  lemma ContentSkip(c: Checks, s: string, i: nat, h: nat, section: Field)
    requires i < h <= |s| && Blank(s[i])
    ensures Content(c, s, i, h, section) == Content(c, s, i + 1, h, section)
    ensures SectionAfter(s, i, h, section) == SectionAfter(s, i + 1, h, section)
  {
    hide AfterEquals, GetSection, GetField, Back, Find;
    assert Skip(s, i, h) == Skip(s, i + 1, h);
  }

  lemma LinesSkip(c: Checks, s: string, i: nat, section: Field)
    requires i < |s| && Blank(s[i])
    ensures Lines(c, s, i, section) == Lines(c, s, i + 1, section)
  {
    hide Content, SectionAfter, NextLine;
    LineEndNext(s, i);
    ContentSkip(c, s, i, CommentStart(s, i), section);
  }

  /** A blank: before the text it moves the start, within it the length grows. */
  function AfterBlank(v: Vars, i: nat): Vars {
    if i == v.start && v.len == 0 then v.(start := v.start + 1) else v.(len := v.len + 1)
  }

  lemma StepBlank(c: Checks, s: string, v: Vars, i: nat)
    requires i < |s| && Read(s, v, i) && Blank(s[i]) && v.mode != OnComment
    ensures Read(s, AfterBlank(v, i), i + 1) && ToCome(c, s, AfterBlank(v, i), i + 1) == ToCome(c, s, v, i)
  {
    hide Lines, AfterEquals, NextLine, SpanIf;
    if v.mode == OnNone {
      LinesSkip(c, s, i, v.section);
    } else if v.mode == OnValue {
      LineEndNext(s, i);
    }
  }

  /** Any other character belongs to the text. */
  function AfterChar(s: string, v: Vars, i: nat): Vars
    requires i < |s|
  {
    v.(mode := if v.mode != OnNone then v.mode else if s[i] == '[' then OnSection else OnKey, len := v.len + 1, last := v.len + 1)
  }

  lemma StepChar(c: Checks, s: string, v: Vars, i: nat)
    requires i < |s| && Read(s, v, i) && !Blank(s[i]) && s[i] != '\n' && s[i] != '#' && v.mode != OnComment
    requires !(s[i] == '=' && v.mode == OnKey)
    ensures Read(s, AfterChar(s, v, i), i + 1) && ToCome(c, s, AfterChar(s, v, i), i + 1) == ToCome(c, s, v, i)
  {
    hide Lines, AfterEquals, NextLine, SpanIf;
    if v.mode == OnValue {
      LineEndNext(s, i);
    }
  }

  lemma StepComment(c: Checks, s: string, v: Vars, i: nat)
    requires i < |s| && Read(s, v, i) && s[i] != '\n' && v.mode == OnComment
    ensures Read(s, v.(len := v.len + 1), i + 1) && ToCome(c, s, v.(len := v.len + 1), i + 1) == ToCome(c, s, v, i)
  {
    LineEndNext(s, i);
  }

  /** The equals sign after a key. */
  function AfterKey(v: Vars, i: nat, f: Field): Vars {
    v.(mode := OnValue, start := i + 1, len := 0, equals := i, field := f)
  }

  lemma StepKey(c: Checks, s: string, v: Vars, i: nat)
    requires i < |s| && Read(s, v, i) && s[i] == '=' && v.mode == OnKey
    ensures v.start + v.last <= i
    ensures var f := GetField(s[v.start..v.start + v.last]);
            var w := AfterKey(v, i, f);
            && Read(s, w, i + 1)
            && ToCome(c, s, v, i) == SpanIf(KeyKind(f, v.section), v.start, v.start + v.last) + ToCome(c, s, w, i + 1)
  {
    hide AfterEquals, NextLine, GetField, KeyKind, Content, SectionAfter;
    var e, h := LineEnd(s, i), CommentStart(s, i);
    FindIs(s, v.start, |s|, '\n', e);
    FindIs(s, v.start, e, '#', h);
    LineEndNext(s, i);
    KeyContent(c, s, v, i, h);
  }

  lemma KeyContent(c: Checks, s: string, v: Vars, i: nat, h: nat)
    requires i < h <= |s| && Read(s, v, i) && s[i] == '=' && v.mode == OnKey
    ensures var f := GetField(s[v.start..v.start + v.last]);
            Content(c, s, v.start, h, v.section) ==
            SpanIf(KeyKind(f, v.section), v.start, v.start + v.last) + AfterEquals(c, s, i, h, f)
    ensures SectionAfter(s, v.start, h, v.section) == v.section
  {
    hide AfterEquals, GetField, KeyKind;
    SkipIs(s, v.start, h, v.start);
    FindIs(s, v.start + 1, h, '=', i);
    BackIs(s, v.start, i, v.start + v.last);
  }

  const SIZE_MAX := 0xffff_ffff_ffff_ffff

  /** One turn of the loop, for a character that does not end a line. */
  method Step(c: Checks, ret: SpanArray, s: string, v: Vars, i: nat) returns (w: Vars)
    requires ret.Valid() && i < |s| && Read(s, v, i) && !Stops(s, v, i)
    modifies ret, ret.spans
    ensures ret.Valid() && (ret.spans == old(ret.spans) || fresh(ret.spans))
    ensures Read(s, w, i + 1)
    ensures ret.Contents() + ToCome(c, s, w, i + 1) == old(ret.Contents()) + ToCome(c, s, v, i)
  {
    hide Read, ToCome, GetField, SpanIf;
    if v.mode == OnComment {
      StepComment(c, s, v, i);
      w := v.(len := v.len + 1);
    } else if Blank(s[i]) {
      StepBlank(c, s, v, i);
      w := AfterBlank(v, i);
    } else if s[i] == '=' && v.mode == OnKey {
      StepKey(c, s, v, i);
      var f := GetField(s[v.start..v.start + v.last]);
      var section := SectionOf(f);
      if section == Invalid || f == Invalid || section != v.section {
        ret.Append(Error, v.start, v.start + v.last);
      } else {
        ret.Append(FieldName, v.start, v.start + v.last);
      }
      w := AfterKey(v, i, f);
    } else {
      StepChar(c, s, v, i);
      w := AfterChar(s, v, i);
    }
  }

  /** highlight_config: the line-by-line spans, and the end marker; every line has
      the colours that its words ask for. */
  method HighlightConfig(c: Checks, s: string) returns (spans: seq<Span>)
    requires ChecksOk(c)
    ensures spans == Lines(c, s, 0, Invalid) + [Span(End, 0, SIZE_MAX)]
    ensures Colours.Coloured(c, s, spans)
  {
    hide Read, ToCome, Lines, Pending, Beyond, ChecksOk, Colours.Coloured;
    var ret := new SpanArray();
    var v := Vars(OnNone, 0, 0, 0, 0, Invalid, Invalid);
    StartState(c, s);
    var i: nat := 0;
    while true
      invariant i <= |s| && Read(s, v, i)
      invariant fresh(ret) && fresh(ret.spans) && ret.Valid()
      invariant ret.Contents() + ToCome(c, s, v, i) == Lines(c, s, 0, Invalid)
      decreases |s| - i
    {
      if Stops(s, v, i) {
        StopSplits(c, s, v, i);
        ghost var was := ret.Contents();
        var section := FinishLine(c, ret, s, v, i);
        assert ret.Contents() + Beyond(c, s, i, section) == was + ToCome(c, s, v, i);
        if i == |s| {
          NothingBeyond(c, s, section);
          break;
        }
        StepLine(c, s, v, i, section);
        v := NewLine(s, v, i, section);
      } else {
        v := Step(c, ret, s, v, i);
      }
      i := i + 1;
    }
    assert ret.Contents() == Lines(c, s, 0, Invalid);
    ret.Append(End, 0, SIZE_MAX);
    spans := ret.spans[..ret.len];
    Colours.LinesColoured(c, s, spans);
  }

  lemma StartState(c: Checks, s: string)
    ensures var v := Vars(OnNone, 0, 0, 0, 0, Invalid, Invalid); Read(s, v, 0) && ToCome(c, s, v, 0) == Lines(c, s, 0, Invalid)
  {
  }

  lemma NothingBeyond(c: Checks, s: string, section: Field)
    ensures Beyond(c, s, |s|, section) == []
  {
  }
}

/** Which replies userspace_get_device (src/ipc-uapi.h) accepts, whatever they are. */
module UapiReplies {
  import opened Text
  import opened Common
  import opened UapiReader
  import opened UapiRoundTrip

  /** The error number that a line reports. */
  function ErrnoOf(raw: string): Option<nat> {
    var line := CString(raw);
    var k := Index(line, '=');
    if k == |line| || line[|line| - 1] != '\n' || NameOf(line[..k]) != Errno then None
    else Num(line[k + 1..|line| - 1], 0x7fff_ffff)
  }

  function LastErrno(ls: seq<string>): Option<nat> {
    if ls == [] then None
    else
      var e := ErrnoOf(ls[|ls| - 1]);
      if e.Some? then e else LastErrno(ls[..|ls| - 1])
  }

  /** The state before line `i`. */
  lemma RunPrefix(net: Net, ls: seq<string>, i: nat)
    requires i < |ls|
    ensures var s := Run(net, START, ls[..i]);
            Run(net, START, ls[..i + 1]) == if s.Reading? then Step(net, s.dev, s.ret, ls[i]) else s
  {
    hide Step;
    var s := Run(net, START, ls[..i]);
    assert ls[..i + 1] == ls[..i] + [ls[i]];
    RunAppend(net, START, ls[..i], [ls[i]]);
    assert [ls[i]][1..] == [];
    assert Run(net, s, [ls[i]]) == if s.Reading? then Run(net, Step(net, s.dev, s.ret, ls[i]), []) else s;
  }

  lemma StepRet(net: Net, d: UDevice, ret: int, raw: string)
    ensures var s := Step(net, d, ret, raw);
            && (s.Done? <==> CString(raw) == "\n") && (s.Done? ==> s.dev == d && s.ret == ret)
            && (s.Reading? ==> s.ret == if ErrnoOf(raw).Some? then -(ErrnoOf(raw).value as int) else ret)
  {
    hide NameOf, KeyText, Num, PeerKey, HexKey, Index;
    var line := CString(raw);
    if line == "\n" {
      IndexNone("\n", '=');
    }
  }

  lemma {:induction false} RetIsLastErrno(net: Net, ls: seq<string>, i: nat)
    requires i <= |ls| && Run(net, START, ls[..i]).Reading?
    ensures var e := LastErrno(ls[..i]); Run(net, START, ls[..i]).ret == if e.Some? then -(e.value as int) else -EPROTO
    decreases i
  {
    hide Step, ErrnoOf;
    if i == 0 {
      assert ls[..0] == [];
    } else {
      RunPrefix(net, ls, i - 1);
      var s := Run(net, START, ls[..i - 1]);
      RetIsLastErrno(net, ls, i - 1);
      StepRet(net, s.dev, s.ret, ls[i - 1]);
      assert ls[..i][..i - 1] == ls[..i - 1];
    }
  }

  // ----- well-formed lines -----

  predicate IsNum(v: string, max: nat) {
    Num(v, max).Some?
  }

  predicate IsEndpoint(net: Net, v: string) {
    var hs := HostService(v);
    hs.Some? && var b := net.resolve(hs.value.0, hs.value.1); b.Some? && IsSocket(b.value)
  }

  /** The values that a key may have.  `seen`: a peer came before, so that keys of
      the device are not looked at; without one, those of a peer are not. */
  predicate ValueOk(net: Net, seen: bool, n: Name, v: string) {
    match n
    case PublicKey => HexKey(v).Some?
    case Errno => IsNum(v, 0x7fff_ffff)
    case PrivateKey => seen || HexKey(v).Some?
    case ListenPort => seen || IsNum(v, 0xffff)
    case Fwmark => seen || IsNum(v, 0xffff_ffff)
    case PresharedKey => seen ==> HexKey(v).Some?
    case Endpoint => seen ==> IsEndpoint(net, v)
    case WsPing | WsBackoffMin | WsBackoffMax => seen ==> IsNum(v, 0xffff_ffff)
    case Keepalive => seen ==> IsNum(v, 0xffff)
    case AllowedIp => seen ==> ParseIp(net, v).Some?
    case HandshakeSec | HandshakeNsec => seen ==> IsNum(v, 0x7fff_ffff_ffff_ffff)
    case RxBytes | TxBytes => seen ==> IsNum(v, 0xffff_ffff_ffff_ffff)
    case _ => true
  }

  predicate KeyLine(line: string) {
    Index(line, '=') < |line| && line[|line| - 1] == '\n'
  }

  /** `key=value` and a line break, with a value that the key may have. */
  predicate LineOk(net: Net, seen: bool, raw: string) {
    var line := CString(raw);
    && line != "\n" && KeyLine(line)
    && var k := Index(line, '='); ValueOk(net, seen, NameOf(line[..k]), line[k + 1..|line| - 1])
  }

  predicate PeerLine(raw: string) {
    var line := CString(raw);
    KeyLine(line) && NameOf(line[..Index(line, '=')]) == PublicKey
  }

  /** A peer is among the lines. */
  predicate Seen(ls: seq<string>) {
    exists j :: 0 <= j < |ls| && PeerLine(ls[j])
  }

  lemma ValueSteps(net: Net, d: UDevice, ret: int, n: Name, v: string)
    ensures var s := KeyValue(net, d, ret, n, v);
            && (s.Reading? <==> ValueOk(net, d.peers != [], n, v))
            && (s.Reading? ==> (s.dev.peers != [] <==> d.peers != [] || n == PublicKey))
  {
    hide Num, ParseIp, HexKey, HostService, IsSocket, AllZero;
  }

  lemma LineSteps(net: Net, d: UDevice, ret: int, raw: string)
    ensures var s := Step(net, d, ret, raw);
            && (s.Reading? <==> LineOk(net, d.peers != [], raw))
            && (s.Reading? ==> (s.dev.peers != [] <==> d.peers != [] || PeerLine(raw)))
  {
    hide NameOf, KeyValue, ValueOk, Index;
    var line := CString(raw);
    var k := Index(line, '=');
    if line != "\n" && KeyLine(line) {
      ValueSteps(net, d, ret, NameOf(line[..k]), line[k + 1..|line| - 1]);
    }
  }

  lemma SeenNext(ls: seq<string>, i: nat)
    requires i < |ls|
    ensures Seen(ls[..i + 1]) <==> Seen(ls[..i]) || PeerLine(ls[i])
  {
    hide PeerLine;
    assert forall j :: 0 <= j < i ==> ls[..i][j] == ls[..i + 1][j];
    assert ls[..i + 1][i] == ls[i];
  }

  /** The reader goes on exactly as long as every line is well formed. */
  lemma {:induction false} ReadsOn(net: Net, ls: seq<string>, i: nat)
    requires i <= |ls|
    ensures Run(net, START, ls[..i]).Reading? <==> forall j :: 0 <= j < i ==> LineOk(net, Seen(ls[..j]), ls[j])
    ensures Run(net, START, ls[..i]).Reading? ==> (Run(net, START, ls[..i]).dev.peers != [] <==> Seen(ls[..i]))
    decreases i
  {
    hide Step, LineOk, Seen, Run;
    if i == 0 {
      assert ls[..0] == [];
      assert Run(net, START, []) == START by { RunNothing(net); }
      assert !Seen([]) by { NothingSeen(); }
    } else {
      ReadsOn(net, ls, i - 1);
      RunPrefix(net, ls, i - 1);
      SeenNext(ls, i - 1);
      var s := Run(net, START, ls[..i - 1]);
      if s.Reading? {
        LineSteps(net, s.dev, s.ret, ls[i - 1]);
      }
    }
  }

  lemma NothingSeen()
    ensures !Seen([])
  {
  }

  /** Line `i` is the first blank one, every line before it is well formed, and the
      last error number before it is zero. */
  ghost predicate EndsWell(net: Net, ls: seq<string>, i: nat) {
    && i < |ls| && CString(ls[i]) == "\n"
    && (forall j :: 0 <= j < i ==> LineOk(net, Seen(ls[..j]), ls[j]))
    && LastErrno(ls[..i]) == Some(0)
  }

  /** A device is returned exactly for the replies that end well. */
  lemma ReturnedExactly(net: Net, ls: seq<string>)
    ensures Returned(Run(net, START, ls)).Some? <==> exists i: nat :: EndsWell(net, ls, i)
  {
    hide Step, LastErrno, CString, Run, LineOk, Seen;
    if exists i: nat :: EndsWell(net, ls, i) {
      var i: nat :| EndsWell(net, ls, i);
      WellReturns(net, ls, i);
    }
    if Returned(Run(net, START, ls)).Some? {
      assert ls[..|ls|] == ls;
      ReturnsWell(net, ls, |ls|);
    }
  }

  lemma WellReturns(net: Net, ls: seq<string>, i: nat)
    requires EndsWell(net, ls, i)
    ensures Returned(Run(net, START, ls)).Some?
  {
    hide Step, LastErrno, CString, Run, LineOk, Seen;
    var s := Run(net, START, ls[..i]);
    ReadsOn(net, ls, i);
    RunPrefix(net, ls, i);
    StepRet(net, s.dev, s.ret, ls[i]);
    RetIsLastErrno(net, ls, i);
    assert ls == ls[..i + 1] + ls[i + 1..];
    RunAppend(net, START, ls[..i + 1], ls[i + 1..]);
    RunStays(net, Run(net, START, ls[..i + 1]), ls[i + 1..]);
  }

  lemma RunStays(net: Net, s: Loop, ls: seq<string>)
    requires !s.Reading?
    ensures Run(net, s, ls) == s
  {
  }

  lemma {:induction false} ReturnsWell(net: Net, ls: seq<string>, n: nat)
    requires n <= |ls| && Returned(Run(net, START, ls[..n])).Some?
    ensures exists i: nat :: EndsWell(net, ls, i)
    decreases n
  {
    hide Step, LastErrno, CString, Run, LineOk, Seen;
    if n == 0 {
      assert ls[..0] == [];
      assert Run(net, START, []) == START by { RunNothing(net); }
    } else {
      var s := Run(net, START, ls[..n - 1]);
      RunPrefix(net, ls, n - 1);
      if s.Reading? {
        StepRet(net, s.dev, s.ret, ls[n - 1]);
        RetIsLastErrno(net, ls, n - 1);
        ReadsOn(net, ls, n - 1);
        assert EndsWell(net, ls, n - 1);
      } else {
        ReturnsWell(net, ls, n - 1);
      }
    }
  }

  lemma RunNothing(net: Net)
    ensures Run(net, START, []) == START
  {
  }
}

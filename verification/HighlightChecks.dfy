/** is_valid_endpoint (contrib/highlighter/highlighter.c) over the checks of its
    parts, and the one thing that the highlighter relies on: a colon. */
module HighlightChecks {
  import opened Spans
  import opened Highlighter

  datatype Parts = Parts(ipv4: string -> bool, ipv6: string -> bool, hostname: string -> bool, scope: string -> bool, port: string -> bool)

  /** `host:port`, split at the first colon, or `[address]:port` or
      `[address%scope]:port`, split at the first bracket. */
  predicate IsEndpoint(c: Parts, t: string) {
    if t == "" then false
    else if t[0] == '[' then
      var r := Find(t, 1, |t|, ']');
      var p := Find(t, 1, r, '%');
      && r + 1 < |t| && t[r + 1] == ':' && c.port(t[r + 2..])
      && if p == r then c.ipv6(t[1..r]) else c.ipv6(t[1..p]) && Find(t, p + 1, r, '%') == r && c.scope(t[p + 1..r])
    else
      var k := Find(t, 0, |t|, ':');
      k < |t| && c.port(t[k + 1..]) && (c.ipv4(t[..k]) || c.hostname(t[..k]))
  }

  lemma EndpointHasColon(c: Parts, t: string)
    requires IsEndpoint(c, t)
    ensures ':' in t
  {
  }

  /** With this check, the highlighter's condition on endpoints is met. */
  lemma ChecksAreOk(c: Parts, checks: Checks)
    requires forall t :: checks.endpoint(t) == IsEndpoint(c, t)
    ensures ChecksOk(checks)
  {
    hide IsEndpoint;
    forall t | checks.endpoint(t)
      ensures ':' in t
    {
      EndpointHasColon(c, t);
    }
  }

  /** The bracketed form, character by character. */
  method IsValidBracket(c: Parts, t: string) returns (ok: bool)
    requires t != "" && t[0] == '['
    ensures ok == IsEndpoint(c, t)
  {
    var scoped, start := false, 1;
    var i := 1;
    while i < |t|
      invariant 1 <= start <= i <= |t|
      invariant forall j :: 1 <= j < i ==> t[j] != ']'
      invariant forall j :: start <= j < i ==> t[j] != '%'
      invariant !scoped ==> start == 1
      invariant scoped ==> start >= 2 && t[start - 1] == '%' && c.ipv6(t[1..start - 1])
      invariant scoped ==> forall j :: 1 <= j < start - 1 ==> t[j] != '%'
    {
      ghost var r := Find(t, 1, |t|, ']');
      if t[i] == '%' {
        FindIs(t, 1, r, '%', if scoped then start - 1 else i);
        if scoped {
          return false;
        }
        if !c.ipv6(t[start..i]) {
          return false;
        }
        scoped, start := true, i + 1;
      } else if t[i] == ']' {
        FindIs(t, 1, |t|, ']', i);
        if scoped {
          FindIs(t, 1, i, '%', start - 1);
          FindIs(t, start, i, '%', i);
          if !c.scope(t[start..i]) {
            return false;
          }
        } else {
          FindIs(t, 1, i, '%', i);
          if !c.ipv6(t[start..i]) {
            return false;
          }
        }
        if i == |t| - 1 || t[i + 1] != ':' {
          return false;
        }
        return c.port(t[i + 2..]);
      }
      i := i + 1;
    }
    FindIs(t, 1, |t|, ']', |t|);
    return false;
  }

  /** is_valid_endpoint. */
  method IsValidEndpoint(c: Parts, t: string) returns (ok: bool)
    ensures ok == IsEndpoint(c, t)
  {
    if t == "" {
      return false;
    }
    if t[0] == '[' {
      ok := IsValidBracket(c, t);
      return;
    }
    var i := Scan(t, 0, |t|, ':');
    if i == |t| {
      return false;
    }
    return c.port(t[i + 1..]) && (c.ipv4(t[..i]) || c.hostname(t[..i]));
  }
}

/** `normalizeAddr`: collapsing the ports of the dynamic range into one label. */
module Addresses {
  import opened Bytes
  import opened Decimal

  const DYNAMIC_PORT_LABEL: string := "dyn_ports"

  datatype PortPolicy = PortPolicy(collapse: bool, min: nat, max: nat)

  /** Position of the first `c`, or the length when there is none. */
  function FirstIndex(s: string, c: char): (r: nat)
    ensures r <= |s| && c !in s[..r]
    ensures r < |s| ==> s[r] == c
  {
    if s == [] then 0
    else if s[0] == c then 0
    else
      var r := FirstIndex(s[1..], c);
      assert s[..r + 1] == [s[0]] + s[1..][..r];
      r + 1
  }

  /** One past the position of the last `c`, or zero when there is none. */
  function AfterLast(s: string, c: char): (r: nat)
    ensures r <= |s| && c !in s[r..]
    ensures r > 0 ==> s[r - 1] == c
  {
    if s == [] then 0
    else if s[|s| - 1] == c then |s|
    else
      var r := AfterLast(s[..|s| - 1], c);
      assert s[r..] == s[..|s| - 1][r..] + [s[|s| - 1]];
      r
  }

  /** `net.SplitHostPort` */
  function SplitHostPort(a: string): (r: Option<(string, string)>)
    ensures r.Some? ==> r.value.1 == a[AfterLast(a, ':')..]
  {
    var port := AfterLast(a, ':');
    if port == 0 then None
    else if a[0] == '[' then
      var end := FirstIndex(a, ']');
      if end + 2 != port || '[' in a[1..] || ']' in a[end + 1..] then None
      else Some((a[1..end], a[port..]))
    else
      var host := a[..port - 1];
      if ':' in host || '[' in a || ']' in a then None else Some((host, a[port..]))
  }

  /** `net.JoinHostPort` */
  function JoinHostPort(host: string, port: string): string {
    if ':' in host then "[" + host + "]:" + port else host + ":" + port
  }

  predicate IsDigit(c: char) { '0' <= c <= '9' }

  /** `strconv.ParseUint(s, 10, 16)` */
  function ParsePort(s: string): Option<nat> {
    if s == [] || exists i :: 0 <= i < |s| && !IsDigit(s[i]) then None
    else if ParseNat(s) > 65535 then None
    else Some(ParseNat(s))
  }

  /** The host of an address whose port is to be collapsed. */
  function DynamicHost(policy: PortPolicy, a: string): Option<string> {
    if !policy.collapse || a == "" then None
    else
      match SplitHostPort(a)
      case None => None
      case Some((host, port)) =>
        var n := ParsePort(port);
        if n.None? || n.value < policy.min || n.value > policy.max then None else Some(host)
  }

  /** `normalizeAddr` */
  function Normalize(policy: PortPolicy, a: string): string {
    match DynamicHost(policy, a)
    case None => a
    case Some(host) => JoinHostPort(host, DYNAMIC_PORT_LABEL)
  }

  lemma JoinEndsWithPort(host: string, port: string)
    requires ':' !in port
    ensures JoinHostPort(host, port) != ""
    ensures JoinHostPort(host, port)[AfterLast(JoinHostPort(host, port), ':')..] == port
  {
    var a := JoinHostPort(host, port);
    var at := |a| - |port|;
    assert a[at - 1] == ':' && a[at..] == port;
  }

  /** Distinct hosts stay distinct once joined. */
  lemma JoinInjective(g: string, h: string, port: string)
    requires JoinHostPort(g, port) == JoinHostPort(h, port)
    ensures g == h
  {
    var a, n := JoinHostPort(g, port), |port| + 1;
    var left := a[..|a| - n];
    assert left == (if ':' in g then "[" + g + "]" else g);
    assert left == (if ':' in h then "[" + h + "]" else h);
    if ':' in g {
      assert left[1..|left| - 1] == g;
      var i :| 0 <= i < |g| && g[i] == ':';
      assert left[i + 1] == ':';
    }
    if ':' in h {
      assert left[1..|left| - 1] == h;
      var i :| 0 <= i < |h| && h[i] == ':';
      assert left[i + 1] == ':';
    }
  }

  /** A collapsed address is not collapsed again. */
  lemma NormalizeIdempotent(policy: PortPolicy, a: string)
    ensures Normalize(policy, Normalize(policy, a)) == Normalize(policy, a)
  {
    var host := DynamicHost(policy, a);
    if host.Some? {
      JoinEndsWithPort(host.value, DYNAMIC_PORT_LABEL);
      assert !IsDigit(DYNAMIC_PORT_LABEL[0]);
    }
  }

  /** Normalisation merges exactly the dynamic ports of one host, and the label that stands for them. */
  lemma NormalizeMerges(policy: PortPolicy, a: string, b: string)
    ensures Normalize(policy, a) == Normalize(policy, b) <==>
            match (DynamicHost(policy, a), DynamicHost(policy, b))
            case (Some(g), Some(h)) => g == h
            case (Some(g), None) => b == JoinHostPort(g, DYNAMIC_PORT_LABEL)
            case (None, Some(h)) => a == JoinHostPort(h, DYNAMIC_PORT_LABEL)
            case (None, None) => a == b
  {
    var g, h := DynamicHost(policy, a), DynamicHost(policy, b);
    if g.Some? && h.Some? && Normalize(policy, a) == Normalize(policy, b) {
      JoinInjective(g.value, h.value, DYNAMIC_PORT_LABEL);
    }
  }

  // ---- Which addresses are collapsed ----

  predicate NoBrackets(s: string) { '[' !in s && ']' !in s }

  /** The two ways to write a host with a port; only in brackets may the host hold colons. */
  predicate Written(a: string, host: string, port: string) {
    && NoBrackets(host) && NoBrackets(port) && ':' !in port
    && (a == "[" + host + "]:" + port || (':' !in host && a == host + ":" + port))
  }

  lemma BracketedSplits(host: string, port: string)
    requires NoBrackets(host) && NoBrackets(port) && ':' !in port
    ensures SplitHostPort("[" + host + "]:" + port) == Some((host, port))
  {
    var a, end := "[" + host + "]:" + port, |host| + 1;
    assert a[end] == ']' && a[end + 1] == ':' && a[end + 2..] == port && a[1..end] == host;
    assert a[..end] == "[" + host;
    assert a[1..] == host + "]:" + port && a[end + 1..] == ":" + port;
  }

  lemma PlainSplits(host: string, port: string)
    requires NoBrackets(host) && NoBrackets(port) && ':' !in host && ':' !in port
    ensures SplitHostPort(host + ":" + port) == Some((host, port))
  {
    var a, at := host + ":" + port, |host| + 1;
    assert a[at - 1] == ':' && a[at..] == port && a[..at - 1] == host;
  }

  lemma SplitWritten(a: string)
    requires SplitHostPort(a).Some?
    ensures Written(a, SplitHostPort(a).value.0, SplitHostPort(a).value.1)
  {
    var at := AfterLast(a, ':');
    var (host, port) := SplitHostPort(a).value;
    if a[0] == '[' {
      var end := FirstIndex(a, ']');
      assert a == "[" + host + "]:" + port;
      assert a[1..end] == a[1..][..end - 1] && a[1..end] == a[..end][1..];
      assert port == a[1..][at - 1..] && port == a[end + 1..][1..];
    } else {
      assert a == host + ":" + port;
    }
  }

  /** `net.SplitHostPort` inverts the two forms, and takes no other. */
  lemma SplitExactly(a: string, host: string, port: string)
    ensures SplitHostPort(a) == Some((host, port)) <==> Written(a, host, port)
  {
    if SplitHostPort(a) == Some((host, port)) {
      SplitWritten(a);
    }
    if Written(a, host, port) {
      if a == "[" + host + "]:" + port {
        BracketedSplits(host, port);
      } else {
        PlainSplits(host, port);
      }
    }
  }

  predicate AllDigits(s: string) { forall i :: 0 <= i < |s| ==> '0' <= s[i] <= '9' }

  /** A decimal port of at most 16 bits within the dynamic range. */
  predicate IsDynamicPort(policy: PortPolicy, port: string) {
    port != "" && AllDigits(port) && ParseNat(port) < 0x1_0000 && policy.min <= ParseNat(port) <= policy.max
  }

  /**
   * An address changes exactly if collapsing is on and it is a host, in either form, with a port in the
   * dynamic range; it then shows the host with a label for all such ports.
   */
  lemma NormalizeExactly(policy: PortPolicy, a: string, host: string, port: string)
    ensures Written(a, host, port) ==>
              Normalize(policy, a) ==
              if !policy.collapse || !IsDynamicPort(policy, port) then a
              else if ':' in host then "[" + host + "]:dyn_ports"
              else host + ":dyn_ports"
    ensures (forall h, p :: !Written(a, h, p)) ==> Normalize(policy, a) == a
  {
    SplitExactly(a, host, port);
    if SplitHostPort(a).Some? {
      SplitWritten(a);
    }
  }
}

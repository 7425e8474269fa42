/** Discovered services: the types of internal/probe/service.go. */
module Services {

  /** One listening socket address. */
  datatype Bind = Bind(proto: string, addr: string)

  /** Every listener sharing a port, seen as one service. */
  datatype Service = Service(port: int, binds: seq<Bind>, pid: int, proc: string, cmd: string)

  /** What the standard library says about textual IP addresses. */
  datatype IpRules = IpRules(loopback: string -> bool, unspecified: string -> bool)

  /** A scan, keyed by port. */
  type Snapshot = map<int, Service>

  /** Scans as the prober builds them: real port numbers, each service under its own port. */
  ghost predicate WellKeyed(snap: Snapshot) {
    forall p | p in snap :: 1 <= p <= 65535 && snap[p].port == p
  }

  predicate IsBracket(c: char) { c == '[' || c == ']' }

  function TrimLeft(s: string): (r: string)
    ensures |r| > 0 ==> !IsBracket(r[0])
    ensures |r| <= |s|
  {
    if s != [] && IsBracket(s[0]) then TrimLeft(s[1..]) else s
  }

  function TrimRight(s: string): (r: string)
    ensures |r| > 0 ==> !IsBracket(r[|r| - 1])
    ensures r <= s
  {
    if s != [] && IsBracket(s[|s| - 1]) then TrimRight(s[..|s| - 1]) else s
  }

  /** The address without enclosing brackets. */
  function Trim(s: string): string { TrimRight(TrimLeft(s)) }

  lemma {:induction false} TrimLeftMeans(s: string) returns (before: string)
    ensures s == before + TrimLeft(s) && forall c | c in before :: c == '[' || c == ']'
  {
    before := [];
    if s != [] && IsBracket(s[0]) {
      var rest := TrimLeftMeans(s[1..]);
      before := [s[0]] + rest;
      assert s == [s[0]] + s[1..];
    }
  }

  lemma {:induction false} TrimRightMeans(s: string) returns (after: string)
    ensures s == TrimRight(s) + after && forall c | c in after :: c == '[' || c == ']'
  {
    after := [];
    if s != [] && IsBracket(s[|s| - 1]) {
      var rest := TrimRightMeans(s[..|s| - 1]);
      after := rest + [s[|s| - 1]];
      assert s == s[..|s| - 1] + [s[|s| - 1]];
    }
  }

  /** Trimming takes brackets off both ends, and all of them. */
  lemma TrimMeans(s: string) returns (before: string, after: string)
    ensures s == before + Trim(s) + after && forall c | c in before + after :: c == '[' || c == ']'
    ensures var t := Trim(s);
            t == [] || (t[0] != '[' && t[0] != ']' && t[|t| - 1] != '[' && t[|t| - 1] != ']')
  {
    before := TrimLeftMeans(s);
    after := TrimRightMeans(TrimLeft(s));
  }

  predicate IsLoopback(ip: IpRules, addr: string) {
    ip.loopback(Trim(addr))
  }

  predicate IsWildcardText(addr: string) {
    addr == "0.0.0.0" || addr == "::" || addr == "*" || addr == ""
  }

  predicate IsWildcard(ip: IpRules, addr: string) {
    IsWildcardText(Trim(addr)) || ip.unspecified(Trim(addr))
  }

  /** Every bind is on a loopback address, and there is one. */
  predicate LoopbackOnly(ip: IpRules, svc: Service) {
    svc.binds != [] && forall b | b in svc.binds :: IsLoopback(ip, b.addr)
  }
}

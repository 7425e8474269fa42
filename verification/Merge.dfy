/** From raw listeners to services and to the address a service is dialed at:
    internal/probe/service.go, merge and DialAddr. */
module Merge {
  import opened Wrappers
  import opened Services
  import opened Text

  /** One raw listening socket. */
  datatype Listener = Listener(proto: string, addr: string, port: int, pid: int, proc: string)

  // ---------------------------------------------------------------- order

  /** Lexicographic order of text. */
  predicate StringLess(a: string, b: string) {
    b != [] && (a == [] || a[0] < b[0] || (a[0] == b[0] && StringLess(a[1..], b[1..])))
  }

  lemma {:induction false} StringOrder(a: string, b: string)
    ensures StringLess(a, b) || StringLess(b, a) || a == b
    ensures StringLess(a, b) ==> !StringLess(b, a) && a != b
  {
    if a != [] && b != [] && a[0] == b[0] {
      StringOrder(a[1..], b[1..]);
      assert a == [a[0]] + a[1..] && b == [b[0]] + b[1..];
    }
  }

  /** a and b agree up to k, where a ends or has the smaller letter. */
  predicate DiffersAt(a: string, b: string, k: nat) {
    k <= |a| && k < |b| && a[..k] == b[..k] && (k < |a| ==> a[k] < b[k])
  }

  /** The first difference decides, and a beginning comes before the whole. */
  lemma StringLessMeans(a: string, b: string)
    ensures StringLess(a, b) <==> exists k :: DiffersAt(a, b, k)
  {
    if StringLess(a, b) {
      var k := Difference(a, b);
    }
    if k :| DiffersAt(a, b, k) {
      DifferenceDecides(a, b, k);
    }
  }

  lemma {:induction false} Difference(a: string, b: string) returns (k: nat)
    requires StringLess(a, b)
    ensures DiffersAt(a, b, k)
  {
    k := 0;
    if a != [] && a[0] == b[0] {
      var i := Difference(a[1..], b[1..]);
      k := i + 1;
      assert a[..k] == [a[0]] + a[1..][..i] && b[..k] == [b[0]] + b[1..][..i];
    }
  }

  lemma {:induction false} DifferenceDecides(a: string, b: string, k: nat)
    requires DiffersAt(a, b, k)
    ensures StringLess(a, b)
  {
    if k > 0 {
      assert a[..k][0] == a[0] && b[..k][0] == b[0];
      assert a[1..][..k - 1] == a[..k][1..] && b[1..][..k - 1] == b[..k][1..];
      DifferenceDecides(a[1..], b[1..], k - 1);
    }
  }

  lemma {:induction false} StringLessTransitive(a: string, b: string, c: string)
    requires StringLess(a, b) && StringLess(b, c)
    ensures StringLess(a, c)
  {
    if a != [] && a[0] == b[0] == c[0] {
      StringLessTransitive(a[1..], b[1..], c[1..]);
    }
  }

  predicate BindLess(a: Bind, b: Bind) {
    if a.proto != b.proto then StringLess(a.proto, b.proto) else StringLess(a.addr, b.addr)
  }

  lemma BindOrder(a: Bind, b: Bind)
    ensures BindLess(a, b) || BindLess(b, a) || a == b
    ensures BindLess(a, b) ==> !BindLess(b, a) && a != b
  {
    StringOrder(a.proto, b.proto);
    StringOrder(a.addr, b.addr);
  }

  lemma BindLessTransitive(a: Bind, b: Bind, c: Bind)
    requires BindLess(a, b) && BindLess(b, c)
    ensures BindLess(a, c)
  {
    StringOrder(a.proto, b.proto);
    StringOrder(b.proto, c.proto);
    if a.proto == b.proto == c.proto {
      StringLessTransitive(a.addr, b.addr, c.addr);
    } else if a.proto != b.proto && b.proto != c.proto {
      StringLessTransitive(a.proto, b.proto, c.proto);
      StringOrder(a.proto, c.proto);
    }
  }

  predicate StrictlySorted(bs: seq<Bind>) { forall i, j | 0 <= i < j < |bs| :: BindLess(bs[i], bs[j]) }

  predicate Distinct(bs: seq<Bind>) { forall i, j | 0 <= i < j < |bs| :: bs[i] != bs[j] }

  lemma HasMember(bs: seq<Bind>)
    requires bs != []
    ensures exists b :: b in bs
  {
    assert bs[0] in bs;
  }

  /** A strictly sorted list is determined by its elements. */
  lemma {:induction false} SortedIsUnique(xs: seq<Bind>, ys: seq<Bind>)
    requires StrictlySorted(xs) && StrictlySorted(ys)
    requires forall b :: b in xs <==> b in ys
    ensures xs == ys
  {
    if xs == [] {
      if ys != [] {
        HasMember(ys);
        assert false;
      }
    } else {
      assert xs[0] in ys;
      assert ys[0] in xs;
      var i :| 0 <= i < |ys| && ys[i] == xs[0];
      var j :| 0 <= j < |xs| && xs[j] == ys[0];
      BindOrder(xs[0], ys[0]);
      assert xs[0] == ys[0];
      forall b ensures b in xs[1..] <==> b in ys[1..] {
        RestOf(xs, b);
        RestOf(ys, b);
      }
      SortedIsUnique(xs[1..], ys[1..]);
      assert xs == [xs[0]] + xs[1..] && ys == [ys[0]] + ys[1..];
    }
  }

  lemma RestOf(xs: seq<Bind>, b: Bind)
    requires StrictlySorted(xs) && xs != []
    ensures b in xs[1..] <==> b in xs && b != xs[0]
  {
    if b in xs[1..] {
      var i :| 0 <= i < |xs[1..]| && xs[1..][i] == b;
      assert BindLess(xs[0], xs[i + 1]);
      BindOrder(xs[0], b);
    }
    if b in xs && b != xs[0] {
      var i :| 0 <= i < |xs| && xs[i] == b;
      assert xs[1..][i - 1] == b;
    }
  }

  // ---------------------------------------------------------------- what a listing means

  predicate OnPort(l: Listener, p: int) { l.port == p && 1 <= p <= 65535 }

  function BindOf(l: Listener): Bind { Bind(l.proto, l.addr) }

  /** The listing has this bind on port p. */
  predicate Lists(ls: seq<Listener>, p: int, b: Bind) { exists l | l in ls :: OnPort(l, p) && BindOf(l) == b }

  /** The first process number of port p that is known, or zero. */
  function FirstPid(ls: seq<Listener>, p: int): int {
    if ls == [] then 0
    else
      var before, l := FirstPid(ls[..|ls| - 1], p), ls[|ls| - 1];
      if before == 0 && OnPort(l, p) then l.pid else before
  }

  /** The first process name of port p that is known, or none. */
  function FirstProc(ls: seq<Listener>, p: int): string {
    if ls == [] then ""
    else
      var before, l := FirstProc(ls[..|ls| - 1], p), ls[|ls| - 1];
      if before == "" && OnPort(l, p) then l.proc else before
  }

  /** svc is what the listing says about port p, its binds in any order. */
  ghost predicate Describes(ls: seq<Listener>, p: int, svc: Service) {
    && svc.port == p && svc.cmd == "" && svc.pid == FirstPid(ls, p) && svc.proc == FirstProc(ls, p)
    && Distinct(svc.binds) && forall b :: b in svc.binds <==> Lists(ls, p, b)
  }

  ghost predicate Collected(ls: seq<Listener>, snap: Snapshot) {
    && (forall p :: p in snap <==> exists l | l in ls :: OnPort(l, p))
    && forall p | p in snap :: Describes(ls, p, snap[p])
  }

  /** A finished snapshot: every port described, its binds strictly sorted. */
  ghost predicate Merged(ls: seq<Listener>, snap: Snapshot) {
    Collected(ls, snap) && forall p | p in snap :: StrictlySorted(snap[p].binds)
  }

  /** What a listing has to say about port p, in the listeners' own fields: a service with exactly the addresses listed for
      the port, and with the first process number and name that are known. */
  ghost predicate Reports(ls: seq<Listener>, p: int, svc: Service) {
    && svc.port == p && svc.cmd == ""
    && (forall b :: b in svc.binds <==> exists l | l in ls :: l.port == p && l.proto == b.proto && l.addr == b.addr)
    && (if svc.pid == 0 then forall l | l in ls && l.port == p :: l.pid == 0
        else exists i | 0 <= i < |ls| ::
               ls[i].port == p && ls[i].pid == svc.pid && forall j | 0 <= j < i && ls[j].port == p :: ls[j].pid == 0)
    && (if svc.proc == "" then forall l | l in ls && l.port == p :: l.proc == ""
        else exists i | 0 <= i < |ls| ::
               ls[i].port == p && ls[i].proc == svc.proc && forall j | 0 <= j < i && ls[j].port == p :: ls[j].proc == "")
  }

  /** What is merged is what is listed. */
  lemma MergedMeans(ls: seq<Listener>, snap: Snapshot)
    requires Merged(ls, snap)
    ensures forall p :: p in snap <==> 1 <= p <= 65535 && exists l | l in ls :: l.port == p
    ensures forall p | p in snap :: Reports(ls, p, snap[p])
  {
    hide FirstPid, FirstProc, StrictlySorted, Distinct, Reports;
    forall p ensures p in snap <==> 1 <= p <= 65535 && exists l | l in ls :: l.port == p {
      if l :| l in ls && l.port == p {
        assert OnPort(l, p) <==> 1 <= p <= 65535;
      }
    }
    forall p | p in snap ensures Reports(ls, p, snap[p]) {
      DescribedIsReported(ls, p, snap[p]);
    }
  }

  lemma DescribedIsReported(ls: seq<Listener>, p: int, svc: Service)
    requires Describes(ls, p, svc) && 1 <= p <= 65535
    ensures Reports(ls, p, svc)
  {
    FirstPidIs(ls, p);
    FirstProcIs(ls, p);
    hide FirstPid, FirstProc, Distinct;
    forall b ensures b in svc.binds <==> exists l | l in ls :: l.port == p && l.proto == b.proto && l.addr == b.addr {
      if l :| l in ls && l.port == p && l.proto == b.proto && l.addr == b.addr {
        assert OnPort(l, p) && BindOf(l) == b;
      }
    }
  }

  lemma {:induction false} FirstPidIs(ls: seq<Listener>, p: int)
    requires 1 <= p <= 65535
    ensures if FirstPid(ls, p) == 0 then forall l | l in ls && l.port == p :: l.pid == 0
            else exists i | 0 <= i < |ls| ::
                   ls[i].port == p && ls[i].pid == FirstPid(ls, p) && forall j | 0 <= j < i && ls[j].port == p :: ls[j].pid == 0
  {
    if ls != [] {
      var rest, l := ls[..|ls| - 1], ls[|ls| - 1];
      FirstPidIs(rest, p);
      assert ls == rest + [l];
      if FirstPid(rest, p) == 0 {
        assert forall j | 0 <= j < |rest| && ls[j].port == p :: ls[j] == rest[j] && rest[j] in rest;
      } else {
        var i :| 0 <= i < |rest| && rest[i].port == p && rest[i].pid == FirstPid(rest, p)
                 && forall j | 0 <= j < i && rest[j].port == p :: rest[j].pid == 0;
        assert ls[i] == rest[i] && forall j | 0 <= j < i :: ls[j] == rest[j];
      }
    }
  }

  lemma {:induction false} FirstProcIs(ls: seq<Listener>, p: int)
    requires 1 <= p <= 65535
    ensures if FirstProc(ls, p) == "" then forall l | l in ls && l.port == p :: l.proc == ""
            else exists i | 0 <= i < |ls| ::
                   ls[i].port == p && ls[i].proc == FirstProc(ls, p) && forall j | 0 <= j < i && ls[j].port == p :: ls[j].proc == ""
  {
    if ls != [] {
      var rest, l := ls[..|ls| - 1], ls[|ls| - 1];
      FirstProcIs(rest, p);
      assert ls == rest + [l];
      if FirstProc(rest, p) == "" {
        assert forall j | 0 <= j < |rest| && ls[j].port == p :: ls[j] == rest[j] && rest[j] in rest;
      } else {
        var i :| 0 <= i < |rest| && rest[i].port == p && rest[i].proc == FirstProc(rest, p)
                 && forall j | 0 <= j < i && rest[j].port == p :: rest[j].proc == "";
        assert ls[i] == rest[i] && forall j | 0 <= j < i :: ls[j] == rest[j];
      }
    }
  }

  lemma MergedIsWellKeyed(ls: seq<Listener>, snap: Snapshot)
    requires Merged(ls, snap)
    ensures WellKeyed(snap)
  {
    forall p | p in snap ensures 1 <= p <= 65535 && snap[p].port == p {
      var l :| l in ls && OnPort(l, p);
    }
  }

  /** Two listings of the same sockets give the same ports and the same binds in the same order, whatever
      the order of the listings. */
  lemma OrderDoesNotMatter(ls: seq<Listener>, ms: seq<Listener>, s: Snapshot, t: Snapshot)
    requires multiset(ls) == multiset(ms) && Merged(ls, s) && Merged(ms, t)
    ensures s.Keys == t.Keys && forall p | p in s :: s[p].binds == t[p].binds
  {
    assert forall l :: l in ls <==> l in multiset(ls);
    assert forall l :: l in ms <==> l in multiset(ms);
    assert forall l :: l in ls <==> l in ms;
    forall p ensures p in s <==> p in t {
    }
    forall p | p in s ensures s[p].binds == t[p].binds {
      forall b ensures b in s[p].binds <==> b in t[p].binds {
        assert Lists(ls, p, b) <==> Lists(ms, p, b);
      }
      SortedIsUnique(s[p].binds, t[p].binds);
    }
  }

  // ---------------------------------------------------------------- merging

  /** The service of port p with one more listener. */
  function Add(svc: Service, l: Listener): Service {
    svc.(binds := if BindOf(l) in svc.binds then svc.binds else svc.binds + [BindOf(l)],
         pid := if svc.pid == 0 then l.pid else svc.pid,
         proc := if svc.proc == "" then l.proc else svc.proc)
  }

  lemma ListsSnoc(ls: seq<Listener>, l: Listener, p: int, b: Bind)
    ensures Lists(ls + [l], p, b) <==> Lists(ls, p, b) || (OnPort(l, p) && BindOf(l) == b)
  {
    assert forall m :: m in ls + [l] <==> m in ls || m == l;
  }

  lemma FirstSnoc(ls: seq<Listener>, l: Listener, p: int)
    ensures FirstPid(ls + [l], p) == if FirstPid(ls, p) == 0 && OnPort(l, p) then l.pid else FirstPid(ls, p)
    ensures FirstProc(ls + [l], p) == if FirstProc(ls, p) == "" && OnPort(l, p) then l.proc else FirstProc(ls, p)
  {
    hide OnPort;
    assert (ls + [l])[..|ls|] == ls;
  }

  lemma DistinctSnoc(bs: seq<Bind>, b: Bind)
    requires Distinct(bs) && b !in bs
    ensures Distinct(bs + [b])
  {
  }

  lemma DescribesSnoc(ls: seq<Listener>, l: Listener, p: int, svc: Service)
    requires Describes(ls, p, svc)
    ensures Describes(ls + [l], p, if OnPort(l, p) then Add(svc, l) else svc)
  {
    hide Lists, OnPort, Distinct, FirstPid, FirstProc;
    FirstSnoc(ls, l, p);
    var t := if OnPort(l, p) then Add(svc, l) else svc;
    if BindOf(l) !in svc.binds {
      DistinctSnoc(svc.binds, BindOf(l));
    }
    forall b ensures b in t.binds <==> Lists(ls + [l], p, b) {
      ListsSnoc(ls, l, p, b);
    }
  }

  lemma {:induction false} NothingKnown(ls: seq<Listener>, p: int)
    requires forall l | l in ls :: !OnPort(l, p)
    ensures Describes(ls, p, Service(p, [], 0, "", ""))
  {
    FirstOfNone(ls, p);
  }

  lemma {:induction false} FirstOfNone(ls: seq<Listener>, p: int)
    requires forall l | l in ls :: !OnPort(l, p)
    ensures FirstPid(ls, p) == 0 && FirstProc(ls, p) == ""
  {
    if ls != [] {
      assert ls[|ls| - 1] in ls;
      FirstOfNone(ls[..|ls| - 1], p);
    }
  }

  lemma CollectedSnoc(ls: seq<Listener>, l: Listener, snap: Snapshot, next: Snapshot)
    requires Collected(ls, snap)
    requires next == if !(1 <= l.port <= 65535) then snap
                     else snap[l.port := Add(if l.port in snap then snap[l.port] else Service(l.port, [], 0, "", ""), l)]
    ensures Collected(ls + [l], next)
  {
    hide Describes, Add;
    assert forall m :: m in ls + [l] <==> m in ls || m == l;
    forall p ensures p in next <==> exists m | m in ls + [l] :: OnPort(m, p) {
      if OnPort(l, p) {
        assert l in ls + [l];
      }
    }
    forall p | p in next ensures Describes(ls + [l], p, next[p]) {
      if p in snap {
        DescribesSnoc(ls, l, p, snap[p]);
      } else {
        NothingKnown(ls, p);
        DescribesSnoc(ls, l, p, Service(p, [], 0, "", ""));
      }
    }
  }

  /** The service with one more of its listeners: nothing known is replaced, and no bind is listed twice. */
  method Join(service: Service, l: Listener) returns (svc: Service)
    ensures svc == Add(service, l)
  {
    svc := service;
    var dup := HasBind(svc.binds, BindOf(l));
    if !dup {
      svc := svc.(binds := svc.binds + [BindOf(l)]);
    }
    if svc.pid == 0 && l.pid != 0 {
      svc := svc.(pid := l.pid);
    }
    if svc.proc == "" && l.proc != "" {
      svc := svc.(proc := l.proc);
    }
  }

  lemma SortedMeans(bs: seq<Bind>)
    requires StrictlySorted(bs)
    ensures forall i, j | 0 <= i < j < |bs| ::
              StringLess(bs[i].proto, bs[j].proto) || (bs[i].proto == bs[j].proto && StringLess(bs[i].addr, bs[j].addr))
  {
    hide StringLess;
    forall i, j | 0 <= i < j < |bs|
      ensures StringLess(bs[i].proto, bs[j].proto) || (bs[i].proto == bs[j].proto && StringLess(bs[i].addr, bs[j].addr))
    {
      assert BindLess(bs[i], bs[j]);
    }
  }

  lemma NothingCollected(ls: seq<Listener>)
    ensures Collected(ls[..0], map[])
  {
  }

  /** Folds raw listeners into per-port services. */
  method Merge(ls: seq<Listener>) returns (snap: Snapshot)
    ensures Merged(ls, snap) && WellKeyed(snap)
    ensures forall p :: p in snap <==> 1 <= p <= 65535 && exists l | l in ls :: l.port == p
    ensures forall p | p in snap :: Reports(ls, p, snap[p])
    ensures forall p, i, j | p in snap && 0 <= i < j < |snap[p].binds| ::
              var (a, b) := (snap[p].binds[i], snap[p].binds[j]);
              StringLess(a.proto, b.proto) || (a.proto == b.proto && StringLess(a.addr, b.addr))
  {
    hide Collected, Add, WellKeyed, Reports, Describes, StrictlySorted, OnPort;
    snap := map[];
    NothingCollected(ls);
    for i := 0 to |ls|
      invariant Collected(ls[..i], snap)
    {
      var l := ls[i];
      CollectedNext(ls, i, snap);
      if l.port <= 0 || l.port > 65535 {
        continue;
      }
      var svc := Join(if l.port in snap then snap[l.port] else Service(l.port, [], 0, "", ""), l);
      snap := snap[l.port := svc];
    }
    assert ls[..|ls|] == ls;
    snap := SortEach(ls, snap);
    MergedIsWellKeyed(ls, snap);
    MergedMeans(ls, snap);
    forall p | p in snap ensures forall i, j | 0 <= i < j < |snap[p].binds| ::
        var (a, b) := (snap[p].binds[i], snap[p].binds[j]);
        StringLess(a.proto, b.proto) || (a.proto == b.proto && StringLess(a.addr, b.addr))
    {
      SortedMeans(snap[p].binds);
    }
  }

  lemma BindsAreDistinct(ls: seq<Listener>, snap: Snapshot, p: int)
    requires Collected(ls, snap) && p in snap
    ensures Distinct(snap[p].binds)
  {
    assert Describes(ls, p, snap[p]);
  }

  /** Sorts the binds of every service. */
  method SortEach(ls: seq<Listener>, collected: Snapshot) returns (snap: Snapshot)
    requires Collected(ls, collected)
    ensures Merged(ls, snap)
  {
    hide Collected, StrictlySorted, Distinct;
    snap := collected;
    var todo := snap.Keys;
    while todo != {}
      invariant todo <= snap.Keys && Collected(ls, snap)
      invariant forall p | p in snap && p !in todo :: StrictlySorted(snap[p].binds)
      decreases |todo|
    {
      var p := AnyOf(todo);
      BindsAreDistinct(ls, snap, p);
      var sorted := SortBinds(snap[p].binds);
      Resorted(ls, snap, p, sorted);
      snap := snap[p := snap[p].(binds := sorted)];
      todo := todo - {p};
    }
  }

  lemma CollectedNext(ls: seq<Listener>, i: nat, snap: Snapshot)
    requires i < |ls| && Collected(ls[..i], snap)
    ensures !(1 <= ls[i].port <= 65535) ==> Collected(ls[..i + 1], snap)
    ensures 1 <= ls[i].port <= 65535 ==>
              var l := ls[i];
              Collected(ls[..i + 1],
                        snap[l.port := Add(if l.port in snap then snap[l.port] else Service(l.port, [], 0, "", ""), l)])
  {
    var l := ls[i];
    assert ls[..i] + [l] == ls[..i + 1];
    CollectedSnoc(ls[..i], l, snap,
                  if !(1 <= l.port <= 65535) then snap
                  else snap[l.port := Add(if l.port in snap then snap[l.port] else Service(l.port, [], 0, "", ""), l)]);
  }

  method HasBind(bs: seq<Bind>, b: Bind) returns (dup: bool)
    ensures dup <==> b in bs
  {
    dup := false;
    for i := 0 to |bs|
      invariant !dup && b !in bs[..i]
    {
      if bs[i].proto == b.proto && bs[i].addr == b.addr {
        dup := true;
        break;
      }
    }
  }

  lemma Resorted(ls: seq<Listener>, snap: Snapshot, p: int, sorted: seq<Bind>)
    requires Collected(ls, snap) && p in snap
    requires StrictlySorted(sorted) && forall b :: b in sorted <==> b in snap[p].binds
    ensures Collected(ls, snap[p := snap[p].(binds := sorted)])
  {
    forall i, j | 0 <= i < j < |sorted| ensures sorted[i] != sorted[j] {
      BindOrder(sorted[i], sorted[j]);
    }
    var next := snap[p := snap[p].(binds := sorted)];
    assert Describes(ls, p, snap[p]);
    assert Describes(ls, p, next[p]);
  }

  /** A library sort, of distinct binds. */
  method SortBinds(bs: seq<Bind>) returns (sorted: seq<Bind>)
    requires Distinct(bs)
    ensures StrictlySorted(sorted) && forall b :: b in sorted <==> b in bs
  {
    sorted := [];
    for k := 0 to |bs|
      invariant StrictlySorted(sorted) && forall b :: b in sorted <==> b in bs[..k]
    {
      var i := 0;
      while i < |sorted| && BindLess(sorted[i], bs[k])
        invariant i <= |sorted| && forall j | 0 <= j < i :: BindLess(sorted[j], bs[k])
      {
        i := i + 1;
      }
      assert bs[k] !in bs[..k];
      InsertBind(sorted, i, bs[k]);
      assert bs[..k + 1] == bs[..k] + [bs[k]];
      sorted := sorted[..i] + [bs[k]] + sorted[i..];
    }
    assert bs[..|bs|] == bs;
  }

  lemma InsertBind(bs: seq<Bind>, i: nat, b: Bind)
    requires StrictlySorted(bs) && i <= |bs| && b !in bs
    requires (forall j | 0 <= j < i :: BindLess(bs[j], b)) && (i < |bs| ==> !BindLess(bs[i], b))
    ensures var r := bs[..i] + [b] + bs[i..];
            StrictlySorted(r) && forall x :: x in r <==> x in bs || x == b
  {
    var r := bs[..i] + [b] + bs[i..];
    forall j | i <= j < |bs| ensures BindLess(b, bs[j]) {
      BindOrder(b, bs[i]);
      assert bs[i] in bs;
      if i < j {
        BindLessTransitive(b, bs[i], bs[j]);
      }
    }
    assert bs == bs[..i] + bs[i..];
    forall x ensures x in r <==> x in bs || x == b {
      assert x in r <==> x in bs[..i] || x == b || x in bs[i..];
    }
  }

  // ---------------------------------------------------------------- dialing

  const LOOPBACK := "127.0.0.1"

  /** How good an address is for dialing a service from its own host. */
  function Rank(ip: IpRules, b: Bind): int {
    var addr := Trim(b.addr);
    if addr == LOOPBACK then 4
    else if IsWildcard(ip, addr) && b.proto == "tcp" then 3
    else if IsWildcard(ip, addr) then 2
    else if IsLoopback(ip, addr) then 1
    else 0
  }

  /** The first bind that is merely on some loopback address. */
  function FirstLoopback(ip: IpRules, bs: seq<Bind>): (r: Option<string>)
    ensures r.Some? <==> exists b | b in bs :: Rank(ip, b) == 1
  {
    if bs == [] then None
    else if Rank(ip, bs[0]) == 1 then Some(Trim(bs[0].addr))
    else FirstLoopback(ip, bs[1..])
  }

  /** The host a service is dialed at, without any ranking: IPv4 loopback if the service listens there
      or on every interface, otherwise the first loopback address, otherwise the first address. */
  function DialHost(ip: IpRules, bs: seq<Bind>): string {
    if bs == [] || exists b | b in bs :: Rank(ip, b) >= 2 then LOOPBACK
    else if FirstLoopback(ip, bs).Some? then FirstLoopback(ip, bs).value
    else Trim(bs[0].addr)
  }

  function JoinHostPort(host: string, port: nat): string {
    if ':' in host then "[" + host + "]:" + Itoa(port) else host + ":" + Itoa(port)
  }

  /** The host and port that the remote end of the tunnel should connect to. */
  method DialAddr(ip: IpRules, svc: Service) returns (addr: string)
    requires svc.port >= 0
    ensures addr == JoinHostPort(DialHost(ip, svc.binds), svc.port)
  {
    hide Rank, Best, Trim, DialHost, JoinHostPort, IsWildcard;
    var best, rank := "", -1;
    for i := 0 to |svc.binds|
      invariant if i == 0 then rank == -1 && best == "" else Best(ip, svc.binds[..i], best, rank)
    {
      var r := Rank(ip, svc.binds[i]);
      assert svc.binds[..i + 1] == svc.binds[..i] + [svc.binds[i]];
      BestSnoc(ip, svc.binds[..i], svc.binds[i], best, rank);
      if r > rank {
        rank, best := r, Trim(svc.binds[i].addr);
      }
    }
    assert svc.binds[..|svc.binds|] == svc.binds;
    if svc.binds == [] {
      NothingIsDialed(ip);
    } else {
      BestIsDialed(ip, svc.binds, best, rank);
    }
    if best == "" || IsWildcard(ip, best) {
      best := LOOPBACK;
    }
    addr := JoinHostPort(best, svc.port);
  }

  /** best is the address of the first bind of the highest rank. */
  ghost predicate Best(ip: IpRules, bs: seq<Bind>, best: string, rank: int) {
    exists k | 0 <= k < |bs| :: BestAt(ip, bs, best, rank, k)
  }

  ghost predicate BestAt(ip: IpRules, bs: seq<Bind>, best: string, rank: int, k: nat)
    requires k < |bs|
  {
    && Trim(bs[k].addr) == best && Rank(ip, bs[k]) == rank
    && (forall j | 0 <= j < k :: Rank(ip, bs[j]) < rank)
    && (forall j | k <= j < |bs| :: Rank(ip, bs[j]) <= rank)
  }

  lemma NothingIsDialed(ip: IpRules)
    ensures DialHost(ip, []) == LOOPBACK
  {
  }

  lemma BestStays(ip: IpRules, bs: seq<Bind>, b: Bind, best: string, rank: int, k: nat)
    requires k < |bs| && BestAt(ip, bs, best, rank, k) && Rank(ip, b) <= rank
    ensures BestAt(ip, bs + [b], best, rank, k)
  {
    hide Rank, Trim;
  }

  lemma BestIsNew(ip: IpRules, bs: seq<Bind>, b: Bind)
    requires forall c | c in bs :: Rank(ip, c) < Rank(ip, b)
    ensures BestAt(ip, bs + [b], Trim(b.addr), Rank(ip, b), |bs|)
  {
    hide Rank, Trim;
  }

  lemma AtMostBest(ip: IpRules, bs: seq<Bind>, best: string, rank: int, k: nat, b: Bind)
    requires k < |bs| && BestAt(ip, bs, best, rank, k) && b in bs
    ensures Rank(ip, b) <= rank
  {
    hide Rank, Trim;
    var j :| 0 <= j < |bs| && bs[j] == b;
    assert j < k || k <= j;
  }

  lemma BestSnoc(ip: IpRules, bs: seq<Bind>, b: Bind, best: string, rank: int)
    requires if bs == [] then rank == -1 else Best(ip, bs, best, rank)
    ensures if Rank(ip, b) > rank then Best(ip, bs + [b], Trim(b.addr), Rank(ip, b)) else Best(ip, bs + [b], best, rank)
  {
    hide Rank, Trim, BestAt;
    RankIsNatural(ip, b);
    if bs == [] {
      BestIsNew(ip, bs, b);
    } else {
      var k :| 0 <= k < |bs| && BestAt(ip, bs, best, rank, k);
      if Rank(ip, b) > rank {
        forall c | c in bs ensures Rank(ip, c) < Rank(ip, b) { AtMostBest(ip, bs, best, rank, k, c); }
        BestIsNew(ip, bs, b);
      } else {
        BestStays(ip, bs, b, best, rank, k);
      }
    }
  }

  lemma RankIsNatural(ip: IpRules, b: Bind)
    ensures 0 <= Rank(ip, b) <= 4
  {
  }

  lemma {:induction false} FirstLoopbackIs(ip: IpRules, bs: seq<Bind>, k: nat)
    requires k < |bs| && Rank(ip, bs[k]) == 1 && forall j | 0 <= j < k :: Rank(ip, bs[j]) != 1
    ensures FirstLoopback(ip, bs) == Some(Trim(bs[k].addr))
  {
    if k > 0 {
      FirstLoopbackIs(ip, bs[1..], k - 1);
    }
  }

  lemma BestIsDialed(ip: IpRules, bs: seq<Bind>, best: string, rank: int)
    requires Best(ip, bs, best, rank)
    ensures DialHost(ip, bs) == if best == "" || IsWildcard(ip, best) then LOOPBACK else best
  {
    hide Rank, Trim;
    var k :| 0 <= k < |bs| && BestAt(ip, bs, best, rank, k);
    assert bs[k] in bs;
    RankMeans(ip, bs[k]);
    RankIsNatural(ip, bs[0]);
    RankIsNatural(ip, bs[k]);
    if rank == 0 {
      assert k == 0;
    }
    forall b | b in bs ensures Rank(ip, b) <= rank {
      AtMostBest(ip, bs, best, rank, k, b);
    }
    if rank == 1 {
      FirstLoopbackIs(ip, bs, k);
    }
  }

  lemma RankMeans(ip: IpRules, b: Bind)
    ensures Rank(ip, b) == 4 ==> Trim(b.addr) == LOOPBACK
    ensures Rank(ip, b) == 2 || Rank(ip, b) == 3 ==> IsWildcard(ip, Trim(b.addr))
    ensures Rank(ip, b) <= 1 ==> Trim(b.addr) != "" && !IsWildcard(ip, Trim(b.addr))
  {
    TrimTwice(b.addr);
  }

  /** What the standard library says about addresses is consistent. */
  ghost predicate Consistent(ip: IpRules) {
    && ip.loopback(LOOPBACK)
    && forall a :: ip.loopback(a) ==> !IsWildcardText(a) && !ip.unspecified(a)
  }

  lemma TrimTwice(s: string)
    ensures Trim(Trim(s)) == Trim(s)
  {
    var t := TrimLeft(s);
    assert TrimRight(t) <= t;
    if Trim(s) != [] {
      assert Trim(s)[0] == t[0];
      assert TrimLeft(Trim(s)) == Trim(s);
    }
    TrimRightTwice(t);
  }

  lemma {:induction false} TrimRightTwice(s: string)
    ensures TrimRight(TrimRight(s)) == TrimRight(s)
  {
    if s != [] && IsBracket(s[|s| - 1]) {
      TrimRightTwice(s[..|s| - 1]);
    }
  }

  /** Nobody is ever dialed at a wildcard address, and a service that is only reachable from its own
      host is dialed on loopback. */
  lemma DialedOnARealAddress(ip: IpRules, svc: Service)
    requires Consistent(ip)
    ensures !IsWildcard(ip, DialHost(ip, svc.binds))
    ensures LoopbackOnly(ip, svc) ==> IsLoopback(ip, DialHost(ip, svc.binds))
  {
    hide Trim;
    assert Trim(LOOPBACK) == LOOPBACK by { TrimOf127(); }
    var bs := svc.binds;
    if bs != [] && !(exists b | b in bs :: Rank(ip, b) >= 2) {
      assert bs[0] in bs;
      if FirstLoopback(ip, bs).Some? {
        var k := FirstOfRankOne(ip, bs);
        FirstLoopbackIs(ip, bs, k);
        TrimTwice(bs[k].addr);
        assert bs[k] in bs;
      } else {
        TrimTwice(bs[0].addr);
        assert Rank(ip, bs[0]) != 1;
      }
    }
  }

  lemma TrimOf127()
    ensures Trim(LOOPBACK) == LOOPBACK
  {
  }

  lemma {:induction false} FirstOfRankOne(ip: IpRules, bs: seq<Bind>) returns (k: nat)
    requires exists b | b in bs :: Rank(ip, b) == 1
    ensures k < |bs| && Rank(ip, bs[k]) == 1 && forall j | 0 <= j < k :: Rank(ip, bs[j]) != 1
  {
    hide Rank;
    var b :| b in bs && Rank(ip, b) == 1;
    if Rank(ip, bs[0]) == 1 {
      k := 0;
    } else {
      assert b in bs[1..];
      var i := FirstOfRankOne(ip, bs[1..]);
      k := i + 1;
      assert forall j | 1 <= j < k :: bs[j] == bs[1..][j - 1];
    }
  }

  /** So the address dialed does not depend on the order of the listing either. */
  lemma SameDialAddress(ip: IpRules, ls: seq<Listener>, ms: seq<Listener>, s: Snapshot, t: Snapshot, p: int)
    requires multiset(ls) == multiset(ms) && Merged(ls, s) && Merged(ms, t) && p in s
    ensures p in t && DialHost(ip, s[p].binds) == DialHost(ip, t[p].binds)
  {
    hide Merged;
    OrderDoesNotMatter(ls, ms, s, t);
  }

  /** The host a service is dialed at: IPv4 loopback if it listens there or on every interface, or nowhere at all;
      otherwise its first loopback address; otherwise its first address. */
  lemma DialHostMeans(ip: IpRules, bs: seq<Bind>)
    ensures var everywhere := (a: string) => a == "0.0.0.0" || a == "::" || a == "*" || a == "" || ip.unspecified(a);
            var host := DialHost(ip, bs);
            if bs == [] || exists b | b in bs :: Trim(b.addr) == "127.0.0.1" || everywhere(Trim(b.addr)) then
              host == "127.0.0.1"
            else if exists b | b in bs :: ip.loopback(Trim(b.addr)) then
              exists k | 0 <= k < |bs| ::
                host == Trim(bs[k].addr) && ip.loopback(Trim(bs[k].addr))
                && forall j | 0 <= j < k :: !ip.loopback(Trim(bs[j].addr))
            else host == Trim(bs[0].addr)
  {
    hide Trim, FirstLoopback;
    forall b | b in bs ensures RankIs(ip, b) { RanksAre(ip, b); }
    if FirstLoopback(ip, bs).Some? {
      var k := FirstOfRankOne(ip, bs);
      FirstLoopbackIs(ip, bs, k);
      assert bs[k] in bs && forall j | 0 <= j < k :: bs[j] in bs;
    }
  }

  predicate RankIs(ip: IpRules, b: Bind) {
    var a := Trim(b.addr);
    && (Rank(ip, b) >= 2 <==> a == "127.0.0.1" || a == "0.0.0.0" || a == "::" || a == "*" || a == "" || ip.unspecified(a))
    && (Rank(ip, b) < 2 ==> (Rank(ip, b) == 1 <==> ip.loopback(a)))
  }

  lemma RanksAre(ip: IpRules, b: Bind)
    ensures RankIs(ip, b)
  {
    hide Trim;
    TrimTwice(b.addr);
  }

  lemma DialedOnLoopback(ip: IpRules, bs: seq<Bind>, b: Bind)
    requires b in bs && Trim(b.addr) in ["127.0.0.1", "0.0.0.0", "::", "*"]
    ensures DialHost(ip, bs) == "127.0.0.1"
  {
    hide Trim, DialHost;
    DialHostMeans(ip, bs);
  }

  /** A listener on IPv4 loopback, or on every interface in any of the usual spellings, is dialed on IPv4 loopback. */
  lemma ListenerIsDialed(ip: IpRules, ls: seq<Listener>, snap: Snapshot, l: Listener)
    requires Merged(ls, snap) && l in ls && 1 <= l.port <= 65535
    requires l.addr in ["127.0.0.1", "0.0.0.0", "::", "[::]", "*"]
    ensures l.port in snap
    ensures JoinHostPort(DialHost(ip, snap[l.port].binds), l.port) == "127.0.0.1:" + Itoa(l.port)
  {
    hide Merged, Reports, DialHost, Trim, Itoa;
    MergedMeans(ls, snap);
    ReportsBind(ls, snap, l);
    Spellings();
    DialedOnLoopback(ip, snap[l.port].binds, Bind(l.proto, l.addr));
    LoopbackJoined(l.port);
  }

  lemma LoopbackJoined(port: nat)
    ensures JoinHostPort("127.0.0.1", port) == "127.0.0.1:" + Itoa(port)
  {
    hide Itoa;
    assert ':' !in "127.0.0.1" && "127.0.0.1" + ":" == "127.0.0.1:";
  }

  lemma ReportsBind(ls: seq<Listener>, snap: Snapshot, l: Listener)
    requires l in ls && l.port in snap && Reports(ls, l.port, snap[l.port])
    ensures Bind(l.proto, l.addr) in snap[l.port].binds
  {
  }

  lemma Spellings()
    ensures Trim("127.0.0.1") == "127.0.0.1" && Trim("0.0.0.0") == "0.0.0.0" && Trim("*") == "*"
    ensures Trim("::") == "::" && Trim("[::]") == "::"
  {
    assert TrimLeft("[::]") == "[::]"[1..] == "::]";
    assert "::]"[..2] == "::" && TrimRight("::]") == "::";
  }
}

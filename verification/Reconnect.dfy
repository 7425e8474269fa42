/** A dropped link and its return: internal/tunnel/manager.go, SetDialer, over
    internal/tunnel/alloc.go, Allocate. */
module Reconnect {
  import opened Wrappers
  import opened Allocation
  import opened TunnelModel
  import opened TunnelInvariants
  import opened TunnelFrames
  import opened TunnelRuns

  /** The two rows have the same local port and remap mark, or both no tunnel. */
  predicate SameTunnel(r1: Row, r2: Row) {
    && r1.tunnel.Some? == r2.tunnel.Some?
    && (r1.tunnel.Some? ==>
          r1.tunnel.value.local == r2.tunnel.value.local && r1.tunnel.value.remapped == r2.tunnel.value.remapped)
  }

  predicate Restored(s: State, t: State) {
    t.rows.Keys == s.rows.Keys && forall p | p in s.rows :: SameTunnel(s.rows[p], t.rows[p])
  }

  /** Nobody else takes the ports that our tunnels had. */
  predicate Spares(vs: seq<Visit>, held: set<int>) {
    forall v | v in vs :: v.env.denied !! held
  }

  /** x is the local port of a live tunnel with a smaller remote port: on return, that one is back first. */
  predicate TakenBelow(s: State, p: int, x: int) {
    exists q | q in s.rows && q < p && s.rows[q].tunnel.Some? :: s.rows[q].tunnel.value.local == x
  }

  /** x cannot be had when the turn of p comes. */
  predicate Unavailable(s: State, p: int, x: int) { !(1 <= x <= 65535) || TakenBelow(s, p, x) }

  /** The turn of p changes nothing: it is not wanted; or its tunnel is not lured away by a pin it
      did not get before; or it failed and is bound to fail again. */
  predicate SafeAt(c: Config, s: State, p: int)
    requires p in s.rows
  {
    var r := s.rows[p];
    Wanted(c.ip, s.policy, r) ==>
      if r.tunnel.Some? then
        r.pinnedLocal <= 0 || r.pinnedLocal == r.tunnel.value.local || Unavailable(s, p, r.pinnedLocal)
      else
        c.samePort && forall x | x in Candidates(s.sticky, p, r.pinnedLocal) :: Unavailable(s, p, x)
  }

  predicate ReconnectSafe(c: Config, s: State) { forall p | p in s.rows :: SafeAt(c, s, p) }

  // ---------------------------------------------------------------- the loop, port by port

  /** The ports below p have had their turn and are as they were in s; the others wait. */
  ghost predicate Halfway(s: State, t: State, p: int) {
    && t.rows.Keys == s.rows.Keys && t.policy == s.policy && t.dialer.Some?
    && t.sticky == s.sticky
    && (forall q | q in s.rows :: Kin(s.rows[q].(missing := 0), t.rows[q]))
    && (forall q | q in s.rows && q < p :: SameTunnel(s.rows[q], t.rows[q]))
    && (forall q | q in s.rows && q >= p :: t.rows[q].tunnel.None?)
    && (forall x :: x in t.held <==> TakenBelow(s, p, x))
  }

  /** At its turn, a safe live port gets its old local port back. */
  lemma SafeGetsItBack(samePort: bool, sticky: map<int, int>, held: set<int>, p: int, pin: int, local: int, env: Env)
    requires p in sticky && sticky[p] == local
    requires Free(held, env, local)
    requires pin <= 0 || pin == local || !Free(held, env, pin)
    ensures Answer(samePort, sticky, held, p, pin, env) == Bound(local, local != p)
  {
    FirstFreeHead(held, env, Candidates(sticky, p, pin));
  }

  lemma SafeFailsAgain(sticky: map<int, int>, held: set<int>, p: int, pin: int, env: Env)
    requires forall x | x in Candidates(sticky, p, pin) :: !Free(held, env, x)
    ensures Answer(true, sticky, held, p, pin, env).Refused?
  {
  }

  /** What the turn of p does to a row without a tunnel. */
  lemma Turn(c: Config, t: State, p: int, env: Env)
    requires p in t.rows && t.rows[p].tunnel.None? && t.dialer.Some?
    ensures var u, a := Apply(c, t, p, env), Answer(c.samePort, t.sticky, t.held, p, t.rows[p].pinnedLocal, env);
            if Wanted(c.ip, t.policy, t.rows[p]) && a.Bound? then
              && u.rows[p].tunnel.Some?
              && u.rows[p].tunnel.value.local == a.local && u.rows[p].tunnel.value.remapped == a.remapped
              && u.held == t.held + {a.local} && u.sticky == t.sticky[p := a.local]
            else u.rows[p].tunnel.None? && u.held == t.held && u.sticky == t.sticky
  {
    hide Verdict, Answer;
  }

  lemma OwnLocal(s: State, p: int)
    requires Owned(s) && p in s.rows && s.rows[p].tunnel.Some?
    ensures var local := s.rows[p].tunnel.value.local;
            && 1 <= local <= 65535 && local in s.held
            && p in s.sticky && s.sticky[p] == local && !TakenBelow(s, p, local)
            && s.rows[p].tunnel.value.remapped == (local != p)
  {
    assert p in Live(s.rows);
    forall q | q in s.rows && q < p && s.rows[q].tunnel.Some?
      ensures s.rows[q].tunnel.value.local != s.rows[p].tunnel.value.local
    {
      assert q in Live(s.rows);
    }
  }

  lemma BelowIsHeld(s: State, p: int, x: int)
    requires Owned(s) && TakenBelow(s, p, x)
    ensures x in s.held
  {
    var q :| q in s.rows && q < p && s.rows[q].tunnel.Some? && s.rows[q].tunnel.value.local == x;
    assert q in Live(s.rows) && Live(s.rows)[q] == x;
  }

  /** Where the turn of p leaves it, given that it was safe. */
  lemma SafeTurn(c: Config, s: State, t: State, p: int, env: Env)
    requires Owned(s) && Reconciled(c, s) && s.dialer.Some?
    requires p in s.rows && Halfway(s, t, p) && SafeAt(c, s, p)
    requires env.denied !! s.held
    ensures var u := Apply(c, t, p, env);
            && SameTunnel(s.rows[p], u.rows[p]) && u.sticky == s.sticky
            && u.held == if s.rows[p].tunnel.Some? then t.held + {s.rows[p].tunnel.value.local} else t.held
  {
    hide Apply, Verdict, Answer, Candidates, Owned;
    var r := s.rows[p];
    Turn(c, t, p, env);
    VerdictIgnores(c.ip, s.policy, r, t.rows[p]);
    assert Agrees(c, s, r);
    if r.tunnel.Some? {
      OwnLocal(s, p);
      assert s.sticky[p := r.tunnel.value.local] == s.sticky;
      SafeGetsItBack(c.samePort, t.sticky, t.held, p, r.pinnedLocal, r.tunnel.value.local, env);
    } else if Wanted(c.ip, s.policy, r) {
      SafeFailsAgain(t.sticky, t.held, p, r.pinnedLocal, env);
    }
  }

  /** Only ports below p2, among them p, have had their turn: the next listed port after p is at least p2. */
  ghost predicate NextAfter(s: State, p: int, p2: int) {
    p < p2 && forall q | q in s.rows :: q <= p || q >= p2
  }

  lemma SafeTurnGoesOn(c: Config, s: State, t: State, p: int, env: Env, p2: int)
    requires Owned(s) && Reconciled(c, s) && s.dialer.Some?
    requires p in s.rows && Halfway(s, t, p) && SafeAt(c, s, p) && NextAfter(s, p, p2)
    requires env.denied !! s.held
    ensures Halfway(s, Apply(c, t, p, env), p2)
  {
    hide Apply, Owned, Reconciled, SafeAt, TakenBelow, NextAfter;
    SafeTurn(c, s, t, p, env);
    ApplyRow(c, t, p, env);
    TakenNext(s, p, p2);
    Between(s, p, p2);
  }

  lemma Between(s: State, p: int, p2: int)
    requires NextAfter(s, p, p2)
    ensures forall q | q in s.rows :: (q < p2 <==> q <= p) && (q >= p2 ==> q >= p && q != p)
  {
  }

  lemma TakenNext(s: State, p: int, p2: int)
    requires p in s.rows && NextAfter(s, p, p2)
    ensures forall x :: TakenBelow(s, p2, x) <==>
              TakenBelow(s, p, x) || (s.rows[p].tunnel.Some? && s.rows[p].tunnel.value.local == x)
  {
    forall x ensures TakenBelow(s, p2, x) <==>
      TakenBelow(s, p, x) || (s.rows[p].tunnel.Some? && s.rows[p].tunnel.value.local == x)
    {
      if TakenBelow(s, p2, x) {
        var q :| q in s.rows && q < p2 && s.rows[q].tunnel.Some? && s.rows[q].tunnel.value.local == x;
        assert q <= p;
      }
    }
  }

  lemma OneMore(c: Config, s: State, vs: seq<Visit>, k: nat)
    requires forall v | v in vs :: v.port in s.rows
    requires k < |vs|
    ensures ApplyAll(c, s, vs[..k + 1]) == Apply(c, ApplyAll(c, s, vs[..k]), vs[k].port, vs[k].env)
  {
    hide Apply;
    assert vs[..k + 1][..k] == vs[..k];
  }

  lemma {:induction false} SafePrefix(c: Config, s: State, s1: State, vs: seq<Visit>, k: nat, p: int)
    requires Owned(s) && Reconciled(c, s) && s.dialer.Some?
    requires Ascending(PortsOf(vs)) && Lists(PortsOf(vs), s.rows.Keys)
    requires forall v | v in vs :: v.port in s1.rows
    requires k <= |vs| && (if k < |vs| then p == vs[k].port else forall q | q in s.rows :: q < p)
    requires forall i | 0 <= i < k :: vs[i].port in s.rows && SafeAt(c, s, vs[i].port)
    requires Spares(vs[..k], s.held)
    requires Halfway(s, s1, if vs == [] then p else vs[0].port)
    ensures Halfway(s, ApplyAll(c, s1, vs[..k]), p)
  {
    hide Apply, ApplyAll, Owned, Reconciled, SafeAt, Halfway, Ascending, Lists, PortsOf, Spares, NextAfter;
    if k == 0 {
      NothingApplied(c, s1, vs);
    } else {
      var v := vs[k - 1];
      SparesFront(vs, k, s.held);
      SafePrefix(c, s, s1, vs, k - 1, v.port);
      AscendingNext(s, vs, k, p);
      OneMore(c, s1, vs, k - 1);
      SafeTurnGoesOn(c, s, ApplyAll(c, s1, vs[..k - 1]), v.port, v.env, p);
    }
  }

  lemma NothingApplied(c: Config, s: State, vs: seq<Visit>)
    ensures ApplyAll(c, s, vs[..0]) == s
  {
  }

  lemma SparesFront(vs: seq<Visit>, k: nat, held: set<int>)
    requires 0 < k <= |vs| && Spares(vs[..k], held)
    ensures Spares(vs[..k - 1], held) && vs[k - 1].env.denied !! held
  {
    assert vs[k - 1] in vs[..k];
    assert forall v | v in vs[..k - 1] :: v in vs[..k];
  }

  lemma AscendingNext(s: State, vs: seq<Visit>, k: nat, p: int)
    requires Ascending(PortsOf(vs)) && Lists(PortsOf(vs), s.rows.Keys)
    requires 0 < k <= |vs| && (if k < |vs| then p == vs[k].port else forall q | q in s.rows :: q < p)
    ensures NextAfter(s, vs[k - 1].port, p)
  {
    var ps := PortsOf(vs);
    assert ps[k - 1] in ps;
    forall q | q in s.rows ensures q <= vs[k - 1].port || q >= p {
      var i :| 0 <= i < |ps| && ps[i] == q;
      assert i <= k - 1 || i >= k;
    }
    if k < |vs| {
      assert ps[k - 1] < ps[k];
    }
  }

  // ---------------------------------------------------------------- down and up again

  lemma {:induction false} DropAllKeepsSticky(s: State, ps: seq<int>)
    requires forall p | p in ps :: p in s.rows
    ensures DropAll(s, ps).sticky == s.sticky
  {
    hide SameRest;
    if ps != [] {
      DropAllKeepsSticky(s, ps[..|ps| - 1]);
    }
  }

  /** The manager with the link up again and no row looked at yet. */
  ghost function BackUp(s: State, order: seq<int>, d: nat): State
    requires Legal(s, Disconnect(order))
  {
    DisconnectStep(s, order).(dialer := Some(d))
  }

  lemma StartsHalfway(c: Config, s: State, order: seq<int>, d: nat, first: int)
    requires Owned(s) && Legal(s, Disconnect(order))
    requires forall q | q in s.rows :: first <= q
    ensures Halfway(s, BackUp(s, order, d), first)
  {
    hide Owned, DropAll;
    var t := DisconnectStep(s, order);
    DroppedRows(s, order);
    DropAllKeepsSticky(s.(dialer := None), order);
    DropsAll(c, s, order);
    assert forall x :: !TakenBelow(s, first, x);
  }

  lemma DroppedRows(s: State, order: seq<int>)
    requires Legal(s, Disconnect(order))
    ensures var t := DisconnectStep(s, order);
            && t.rows.Keys == s.rows.Keys && t.policy == s.policy
            && forall q | q in s.rows :: t.rows[q] == s.rows[q].(tunnel := None, missing := 0)
  {
    hide DropAll;
    DropAllRows(s.(dialer := None), order);
  }

  lemma DropsAll(c: Config, s: State, order: seq<int>)
    requires Owned(s) && Legal(s, Disconnect(order))
    ensures DisconnectStep(s, order).held == {}
  {
    hide Owned, DisconnectStep, SyncStep, SetPolicyStep, ConnectStep;
    DroppedRows(s, order);
    StepCoherent(c, s, Disconnect(order), false);
    NothingHeld(DisconnectStep(s, order));
  }

  lemma NothingHeld(t: State)
    requires Owned(t) && forall q | q in t.rows :: t.rows[q].tunnel.None?
    ensures t.held == {}
  {
    assert forall q :: q !in Live(t.rows);
    assert forall x :: x !in t.held;
  }

  lemma FirstIsLeast(vs: seq<Visit>, keys: set<int>)
    requires Ascending(PortsOf(vs)) && Lists(PortsOf(vs), keys) && vs != []
    ensures forall q | q in keys :: vs[0].port <= q
  {
    forall q | q in keys ensures vs[0].port <= q {
      var i :| 0 <= i < |vs| && PortsOf(vs)[i] == q;
      if i > 0 {
        assert PortsOf(vs)[0] < PortsOf(vs)[i];
      }
    }
  }

  /** A port beyond all listed ones. */
  lemma Beyond(vs: seq<Visit>, keys: set<int>) returns (last: int)
    requires Ascending(PortsOf(vs)) && Lists(PortsOf(vs), keys)
    ensures forall q | q in keys :: vs != [] && q < last
  {
    last := if vs == [] then 0 else vs[|vs| - 1].port + 1;
    forall q | q in keys ensures vs != [] && q < last {
      var i :| 0 <= i < |vs| && PortsOf(vs)[i] == q;
      if i < |vs| - 1 {
        assert PortsOf(vs)[i] < PortsOf(vs)[|vs| - 1];
      }
    }
  }

  /** Halfway, with every port behind, is all the way. */
  lemma AllTheWay(s: State, t: State, last: int)
    requires Halfway(s, t, last) && forall q | q in s.rows :: q < last
    ensures Restored(s, t)
  {
    hide SameTunnel, Kin;
  }

  lemma TurnsAreSafe(c: Config, s: State, vs: seq<Visit>)
    requires ReconnectSafe(c, s) && Lists(PortsOf(vs), s.rows.Keys)
    ensures forall v | v in vs :: v.port in s.rows
    ensures forall i | 0 <= i < |vs| :: vs[i].port in s.rows && SafeAt(c, s, vs[i].port)
  {
    hide SafeAt;
    forall v | v in vs ensures v.port in s.rows { InPorts(vs, v); }
    assert forall i | 0 <= i < |vs| :: vs[i] in vs;
  }

  /** A state in which every turn is safe comes back exactly. */
  lemma SafeIsRestored(c: Config, s: State, order: seq<int>, d: nat, vs: seq<Visit>)
    requires Owned(s) && Reconciled(c, s) && s.dialer.Some? && ReconnectSafe(c, s)
    requires Legal(s, Disconnect(order)) && Legal(DisconnectStep(s, order), Connect(d, vs))
    requires Spares(vs, s.held)
    ensures Restored(s, ConnectStep(c, DisconnectStep(s, order), d, vs))
  {
    hide Owned, Reconciled, SafeAt, ApplyAll, DropAll, Halfway, Restored, Ascending, Lists, PortsOf, Spares, ReconnectSafe;
    var b := BackUp(s, order, d);
    assert b.rows.Keys == s.rows.Keys;
    TurnsAreSafe(c, s, vs);
    var last := Beyond(vs, s.rows.Keys);
    if vs != [] {
      FirstIsLeast(vs, s.rows.Keys);
    }
    StartsHalfway(c, s, order, d, if vs == [] then last else vs[0].port);
    assert vs[..|vs|] == vs;
    SafePrefix(c, s, b, vs, |vs|, last);
    AllTheWay(s, ApplyAll(c, b, vs), last);
  }

  // ---------------------------------------------------------------- the converse

  lemma {:induction false} ApplyAllOthers(c: Config, s: State, vs: seq<Visit>, k: nat, p: int)
    requires forall v | v in vs :: v.port in s.rows
    requires p in s.rows && k <= |vs| && forall i | k <= i < |vs| :: vs[i].port != p
    ensures ApplyAll(c, s, vs).rows[p] == ApplyAll(c, s, vs[..k]).rows[p]
  {
    hide Apply, SameRest;
    if k < |vs| {
      ApplyAllOthers(c, s, vs[..|vs| - 1], k, p);
      assert vs[..|vs| - 1][..k] == vs[..k];
    } else {
      assert vs[..k] == vs;
    }
  }

  /** At an unsafe turn, with nobody else on any port and a spare port at hand, the row changes. */
  lemma UnsafeTurn(c: Config, s: State, t: State, p: int, x: int)
    requires Owned(s) && Reconciled(c, s) && s.dialer.Some?
    requires p in s.rows && Halfway(s, t, p) && !SafeAt(c, s, p)
    requires s.rows[p].tunnel.None? ==> 1 <= x <= 65535 && x !in s.held
    ensures !SameTunnel(s.rows[p], Apply(c, t, p, Env({}, Some(x), "")).rows[p])
  {
    hide Apply, Verdict, Owned;
    var r := s.rows[p];
    var env := Env({}, Some(x), "");
    Turn(c, t, p, env);
    VerdictIgnores(c.ip, s.policy, r, t.rows[p]);
    assert Agrees(c, s, r);
    if r.tunnel.Some? {
      assert Candidates(t.sticky, p, r.pinnedLocal)[0] == r.pinnedLocal;
      FirstFreeHead(t.held, env, Candidates(t.sticky, p, r.pinnedLocal));
    } else if TakenBelow(s, p, x) {
      BelowIsHeld(s, p, x);
      assert false;
    }
  }

  /** The numbers from 1 to n. */
  ghost function Numbers(n: nat): (r: set<int>)
    ensures |r| == n && forall i :: i in r <==> 1 <= i <= n
  {
    if n == 0 then {} else Numbers(n - 1) + {n}
  }

  lemma Member<T>(s: set<T>) returns (x: T)
    requires s != {}
    ensures x in s
  {
    x :| x in s;
  }

  /** The held ports are no more than the live tunnels. */
  lemma {:induction false} HeldCount(live: map<int, int>, held: set<int>)
    requires forall x | x in held :: exists p | p in live :: live[p] == x
    ensures |held| <= |live.Keys|
    decreases |held|
  {
    if held != {} {
      var x := Member(held);
      var p :| p in live && live[p] == x;
      forall y | y in held - {x} ensures exists q | q in live - {p} :: (live - {p})[q] == y {
        var q :| q in live && live[q] == y;
        assert q in live - {p};
      }
      HeldCount(live - {p}, held - {x});
      assert (live - {p}).Keys == live.Keys - {p};
    }
  }

  lemma SubsetCount<T>(a: set<T>, b: set<T>)
    requires a <= b
    ensures |a| <= |b|
  {
    assert b == a + (b - a);
  }

  lemma LeftOver<T>(all: set<T>, some: set<T>) returns (x: T)
    requires |some| < |all|
    ensures x in all && x !in some
  {
    if forall y | y in all :: y in some {
      SubsetCount(all, some);
      assert false;
    }
    var y :| y in all && y !in some;
    assert y in all - some;
    x :| x in all - some;
  }

  lemma Pigeonhole(live: map<int, int>, held: set<int>, p: int, n: nat) returns (x: int)
    requires forall y | y in held :: exists q | q in live :: live[q] == y
    requires forall q | q in live :: 1 <= q <= n && q != p
    requires 1 <= p <= n
    ensures 1 <= x <= n && x !in held
  {
    var all := Numbers(n);
    HeldCount(live, held);
    assert live.Keys <= all - {p};
    SubsetCount(live.Keys, all - {p});
    assert |all - {p}| == |all| - 1;
    x := LeftOver(all, held);
  }

  /** As long as one listed port has no tunnel, some local port is free. */
  lemma SparePort(s: State, p: int, n: nat) returns (x: int)
    requires n == 65535
    requires Owned(s) && p in s.rows && s.rows[p].tunnel.None?
    ensures 1 <= x <= 65535 && x !in s.held
  {
    x := Pigeonhole(Live(s.rows), s.held, p, n);
  }

  lemma FirstUnsafe(c: Config, s: State, order: seq<int>) returns (k: nat)
    requires Lists(order, s.rows.Keys) && !ReconnectSafe(c, s)
    ensures k < |order| && order[k] in s.rows && !SafeAt(c, s, order[k])
    ensures forall i | 0 <= i < k :: order[i] in s.rows && SafeAt(c, s, order[i])
  {
    hide SafeAt;
    var p :| p in s.rows && !SafeAt(c, s, p);
    assert p in order;
    k := 0;
    while order[k] in s.rows && SafeAt(c, s, order[k])
      invariant k < |order| && p in order[k..]
      invariant forall i | 0 <= i < k :: order[i] in s.rows && SafeAt(c, s, order[i])
      decreases |order| - k
    {
      k := k + 1;
    }
    assert order[k] in order;
  }

  /** Everybody in order, nobody else on any port, and x to spare. */
  function Quiet(order: seq<int>, x: int): (vs: seq<Visit>)
    ensures PortsOf(vs) == order
    ensures forall v | v in vs :: v.env == Env({}, Some(x), "")
  {
    seq(|order|, i requires 0 <= i < |order| => Visit(order[i], Env({}, Some(x), "")))
  }

  lemma QuietVisits(s: State, order: seq<int>, x: int, held: set<int>)
    requires Lists(order, s.rows.Keys)
    ensures var vs := Quiet(order, x);
            && |vs| == |order| && Spares(vs, held)
            && (forall i | 0 <= i < |vs| :: vs[i] == Visit(order[i], Env({}, Some(x), "")) && order[i] in s.rows)
            && (forall v | v in vs :: v.port in s.rows)
            && (forall i, j | 0 <= i < j < |vs| :: vs[i].port != vs[j].port)
  {
    var vs := Quiet(order, x);
    assert PortsOf(vs) == order;
    forall i | 0 <= i < |vs| ensures vs[i] == Visit(order[i], Env({}, Some(x), "")) && order[i] in s.rows {
      assert PortsOf(vs)[i] == order[i] && order[i] in order && vs[i] in vs;
    }
    forall v | v in vs ensures v.port in s.rows { InPorts(vs, v); }
  }

  lemma UnsafeReached(c: Config, s: State, order: seq<int>, d: nat, k: nat, x: int)
    requires Owned(s) && Reconciled(c, s) && s.dialer.Some?
    requires Legal(s, Disconnect(order))
    requires k < |order| && forall i | 0 <= i < k :: order[i] in s.rows && SafeAt(c, s, order[i])
    requires forall v | v in Quiet(order, x)[..k] :: v.port in s.rows
    ensures Halfway(s, ApplyAll(c, BackUp(s, order, d), Quiet(order, x)[..k]), order[k])
  {
    hide Owned, Reconciled, SafeAt, ApplyAll, DropAll, Halfway, Quiet;
    var vs := Quiet(order, x);
    QuietVisits(s, order, x, s.held);
    FirstIsLeast(vs, s.rows.Keys);
    StartsHalfway(c, s, order, d, vs[0].port);
    SafePrefix(c, s, BackUp(s, order, d), vs, k, order[k]);
  }

  lemma UnsafeRun(c: Config, s: State, order: seq<int>, d: nat, k: nat, x: int)
    requires Owned(s) && Reconciled(c, s) && s.dialer.Some?
    requires Legal(s, Disconnect(order))
    requires k < |order| && order[k] in s.rows && !SafeAt(c, s, order[k])
    requires forall i | 0 <= i < k :: order[i] in s.rows && SafeAt(c, s, order[i])
    requires s.rows[order[k]].tunnel.None? ==> 1 <= x <= 65535 && x !in s.held
    ensures Legal(DisconnectStep(s, order), Connect(d, Quiet(order, x)))
    ensures !Restored(s, ConnectStep(c, DisconnectStep(s, order), d, Quiet(order, x)))
  {
    hide Owned, Reconciled, SafeAt, ApplyAll, DropAll, Apply, Halfway, Quiet, SameTunnel;
    var vs, p, b := Quiet(order, x), order[k], BackUp(s, order, d);
    QuietVisits(s, order, x, s.held);
    UnsafeReached(c, s, order, d, k, x);
    UnsafeTurn(c, s, ApplyAll(c, b, vs[..k]), p, x);
    OneMore(c, b, vs, k);
    ApplyAllOthers(c, b, vs, k + 1, p);
  }

  /** An unsafe state does not come back when nobody else takes any port at all. */
  lemma UnsafeIsNotRestored(c: Config, s: State, order: seq<int>, d: nat) returns (vs: seq<Visit>)
    requires Owned(s) && Reconciled(c, s) && s.dialer.Some? && !ReconnectSafe(c, s)
    requires Legal(s, Disconnect(order))
    ensures Legal(DisconnectStep(s, order), Connect(d, vs)) && Spares(vs, s.held)
    ensures !Restored(s, ConnectStep(c, DisconnectStep(s, order), d, vs))
  {
    hide Owned, Reconciled, SafeAt, Restored, DisconnectStep, ConnectStep, Ascending;
    var k := FirstUnsafe(c, s, order);
    var x := 0;
    if s.rows[order[k]].tunnel.None? {
      x := SparePort(s, order[k], 65535);
    }
    UnsafeRun(c, s, order, d, k, x);
    vs := Quiet(order, x);
  }

  /** Whatever else happens on the machine, as long as nobody takes the ports our tunnels had,
      the tunnels come back on the same local ports with the same remap marks. */
  ghost predicate AlwaysRestored(c: Config, s: State, order: seq<int>, d: nat)
    requires Legal(s, Disconnect(order))
  {
    var down := DisconnectStep(s, order);
    forall vs | Legal(down, Connect(d, vs)) && Spares(vs, s.held) :: Restored(s, ConnectStep(c, down, d, vs))
  }

  /** When a reconnect is exact. From any state of a run with the link up, dropping the link and
      bringing it back restores every tunnel exactly if and only if the state is safe: no tunnel sits
      elsewhere than on an obtainable pin, and no wanted port failed that could succeed now. */
  lemma ReconnectIsExact(c: Config, s: State, order: seq<int>, d: nat)
    requires Owned(s) && Reconciled(c, s) && s.dialer.Some?
    requires Legal(s, Disconnect(order))
    ensures AlwaysRestored(c, s, order, d) <==> ReconnectSafe(c, s)
  {
    hide Owned, Reconciled, ReconnectSafe, Restored, Legal, Spares, DisconnectStep, ConnectStep;
    if ReconnectSafe(c, s) {
      forall vs | Legal(DisconnectStep(s, order), Connect(d, vs)) && Spares(vs, s.held)
        ensures Restored(s, ConnectStep(c, DisconnectStep(s, order), d, vs))
      {
        SafeIsRestored(c, s, order, d, vs);
      }
    } else {
      var vs := UnsafeIsNotRestored(c, s, order, d);
      assert !AlwaysRestored(c, s, order, d);
    }
  }

  /** The same, said of runs. */
  lemma ReconnectInRuns(c: Config, tr: seq<State>, ops: seq<Op>, n: nat, order: seq<int>, d: nat)
    requires Run(c, tr, ops) && n <= |ops| && NotClosed(ops, n) && tr[n].dialer.Some?
    requires Legal(tr[n], Disconnect(order))
    ensures AlwaysRestored(c, tr[n], order, d) <==> ReconnectSafe(c, tr[n])
  {
    hide Owned, Logged, Reconciled, AlwaysRestored, ReconnectSafe, Legal;
    RunsHold(c, tr, ops, n);
    ReconnectIsExact(c, tr[n], order, d);
  }

  /** In particular: when every wanted port has a tunnel and every pin is unset or where its tunnel is. */
  lemma PlainStateIsSafe(c: Config, s: State)
    requires forall p | p in s.rows && Wanted(c.ip, s.policy, s.rows[p]) ::
               var r := s.rows[p];
               r.tunnel.Some? && (r.pinnedLocal <= 0 || r.pinnedLocal == r.tunnel.value.local)
    ensures ReconnectSafe(c, s)
  {
  }
}

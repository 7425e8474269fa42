/** Short runs of the manager in which a documented promise does not hold: how the conditions of `Mirror` and
    `Reconnect` come to fail. One port, nothing in the settings, the link up. */
module ShortRuns {
  import opened Wrappers
  import opened Schemes
  import opened Services
  import opened Policy
  import opened Allocation
  import opened TunnelModel
  import Mirror
  import Reconnect
  import TunnelFrames
  import S = Settings

  const QUIET := Env({}, None, "")

  /** A manager before its first call, with the link up. */
  function Start(policy: Policy): State {
    State(policy, map[], {}, false, Some(0), map[], {}, map[], [])
  }

  function Scan(p: int, svc: Service): Op { Sync(map[p := svc], [Visit(p, QUIET)], []) }

  function EmptyScan(p: int): Op { Sync(map[], [], [p]) }

  /** A port that a scan lists when no port is listed yet. */
  lemma ScanOnce(c: Config, s: State, p: int, svc: Service)
    requires 1 <= p <= 65535 && svc.port == p && s.rows == map[]
    ensures Legal(s, Scan(p, svc))
    ensures Step(c, s, Scan(p, svc)) == Observe(c, Based(s, map[p := svc]), p, svc, QUIET)
  {
    hide Observe;
    var vs, b := [Visit(p, QUIET)], Based(s, map[p := svc]);
    assert PortsOf(vs) == [p];
    assert (map[p := svc]).Keys == {p};
    assert vs[..0] == [];
    assert ObserveAll(c, b, map[p := svc], vs[..0]) == b;
  }

  /** A scan without the one listed port. */
  lemma ScanNothing(c: Config, s: State, p: int)
    requires s.rows.Keys == {p}
    ensures Legal(s, EmptyScan(p))
    ensures Step(c, s, EmptyScan(p)) == Miss(c, Based(s, map[]), p)
  {
    hide Miss;
    assert ObserveAll(c, Based(s, map[]), map[], []) == Based(s, map[]);
    assert [p][..0] == [];
    assert MissAll(c, Based(s, map[]), [p][..0]) == Based(s, map[]);
  }

  /** The services are as the prober builds them and the policy forwards the port even if it was there before. */
  predicate Forwards(c: Config, policy: Policy, p: int, svc: Service) {
    1 <= p <= 65535 && svc.port == p && policy.Eval(c.ip, svc, true).NotSkipped?
  }

  /** A port nobody has decided about, forwarded to local. */
  predicate Forwarded(s: State, policy: Policy, p: int, svc: Service, pin: int, local: int) {
    && s.policy == policy && s.dialer == Some(0) && s.store == map[] && s.haveBase
    && s.rows.Keys == {p} && s.rows[p].svc == svc && s.rows[p].mode.Auto? && s.rows[p].pinnedLocal == pin
    && s.rows[p].missing == 0
    && s.rows[p].tunnel.Some? && s.rows[p].tunnel.value.local == local && s.rows[p].tunnel.value.remapped == (local != p)
    && s.sticky == map[p := local] && s.held == {local}
  }

  /** A new row without anything in the settings. */
  function Blank(svc: Service, preexisting: bool): Row {
    Row(svc, None, NotSkipped, None, S.Auto, 0, "", preexisting, false, 0, Unknown, false)
  }

  lemma BlankIsSeen(c: Config, b: State, p: int, svc: Service)
    requires p !in b.rows && b.store == map[]
    ensures Seen(c, b, p, svc) == Blank(svc, p in b.baseline)
  {
  }

  /** Whoever forwards a port that was there before forwards it in any case. */
  lemma BlankIsWanted(c: Config, policy: Policy, p: int, svc: Service, r: Row)
    requires Forwards(c, policy, p, svc) && r.svc == svc && r.mode.Auto?
    ensures Wanted(c.ip, policy, r)
  {
    hide Policy.Eval;
    policy.EvalForwards(c.ip, svc, true);
    policy.EvalForwards(c.ip, svc, false);
  }

  /** The row of p opens on local, as it gets the first of its candidates. */
  lemma Opens(c: Config, t: State, p: int, env: Env, local: int)
    requires p in t.rows && t.rows[p].tunnel.None? && t.dialer.Some? && Wanted(c.ip, t.policy, t.rows[p])
    requires Answer(c.samePort, t.sticky, t.held, p, t.rows[p].pinnedLocal, env) == Bound(local, local != p)
    ensures var u := Apply(c, t, p, env);
            && OnlyRow(t, u, p) && Kin(t.rows[p], u.rows[p])
            && u.rows[p].tunnel.Some?
            && u.rows[p].tunnel.value.local == local && u.rows[p].tunnel.value.remapped == (local != p)
            && u.held == t.held + {local} && u.sticky == t.sticky[p := local]
  {
    hide Apply, Answer, Verdict, Kin;
    Reconnect.Turn(c, t, p, env);
    TunnelFrames.ApplyRow(c, t, p, env);
  }

  /** Before its scan: nothing listed, with what the allocator may remember. */
  lemma ScanForwards(c: Config, s: State, p: int, svc: Service, local: int)
    requires Forwards(c, s.policy, p, svc)
    requires s.rows == map[] && s.dialer == Some(0) && s.store == map[] && s.held == {}
    requires 1 <= local <= 65535 && s.sticky == if local == p then map[] else map[p := local]
    ensures Legal(s, Scan(p, svc)) && Forwarded(Step(c, s, Scan(p, svc)), s.policy, p, svc, 0, local)
  {
    hide Step, Legal, Policy.Eval, Apply, Seen, Answer, Verdict;
    ScanOnce(c, s, p, svc);
    var b := Based(s, map[p := svc]);
    BlankIsSeen(c, b, p, svc);
    var t := Put(b, p, Seen(c, b, p, svc));
    BlankIsWanted(c, s.policy, p, svc, t.rows[p]);
    GetsRemembered(c.samePort, s.sticky, p, local);
    Opens(c, t, p, QUIET, local);
    assert t.sticky[p := local] == map[p := local];
  }

  lemma GetsRemembered(samePort: bool, sticky: map<int, int>, p: int, local: int)
    requires 1 <= p <= 65535 && 1 <= local <= 65535 && sticky == if local == p then map[] else map[p := local]
    ensures Answer(samePort, sticky, {}, p, 0, QUIET) == Bound(local, local != p)
  {
    FirstFreeHead({}, QUIET, Candidates(sticky, p, 0));
  }

  /** A pin that is somebody else's, if taken, leaves the tunnel on the mirrored port; otherwise it moves. */
  lemma Repinned(c: Config, s: State, p: int, svc: Service, pin: int, taken: bool)
    requires Forwards(c, s.policy, p, svc) && Forwarded(s, s.policy, p, svc, 0, p)
    requires 1 <= pin <= 65535 && pin != p
    ensures var t := Step(c, s, SetLocalPort(p, pin, false, Env(if taken then {pin} else {}, None, "")));
            Forwarded(t, s.policy, p, svc, pin, if taken then p else pin)
  {
    hide Policy.Eval, Apply, Answer, Verdict;
    var env := Env(if taken then {pin} else {}, None, "");
    var r := Relocate(s, p, pin);
    assert r.sticky == map[] && r.held == {};
    BlankIsWanted(c, s.policy, p, svc, r.rows[p]);
    GetsPin(c.samePort, p, pin, taken);
    Opens(c, r, p, env, if taken then p else pin);
  }

  lemma GetsPin(samePort: bool, p: int, pin: int, taken: bool)
    requires 1 <= p <= 65535 && 1 <= pin <= 65535 && pin != p
    ensures var local := if taken then p else pin;
            Answer(samePort, map[], {}, p, pin, Env(if taken then {pin} else {}, None, "")) == Bound(local, local != p)
  {
    FirstFreeHead({}, Env(if taken then {pin} else {}, None, ""), Candidates(map[], p, pin));
  }

  /** With the grace period of two scans, two scans without the port remove it; the allocator still remembers. */
  lemma GoesAway(c: Config, s: State, p: int, svc: Service, pin: int, local: int)
    requires c.grace == 2 && Forwarded(s, s.policy, p, svc, pin, local)
    ensures var s1 := Miss(c, Based(s, map[]), p);
            && s1.rows.Keys == {p}
            && var s2 := Miss(c, Based(s1, map[]), p);
               && s2.rows == map[] && s2.sticky == s.sticky && s2.held == {} && s2.dialer == s.dialer
               && s2.store == s.store && s2.policy == s.policy
  {
  }

  /** Under --same-port, a row nobody has pinned is forwarded to another port: its port was tried elsewhere for
      a while, went, and came back. The allocator remembers the port it had although the row has no pin. */
  lemma SamePortBreaks(c: Config, policy: Policy, p: int, svc: Service, local: int)
    returns (tr: seq<State>, ops: seq<Op>)
    requires c.samePort && c.grace == 2 && Forwards(c, policy, p, svc)
    requires 1 <= local <= 65535 && local != p
    ensures Run(c, tr, ops) && |ops| == 5 && tr[0] == Start(policy)
    ensures Forwarded(tr[5], policy, p, svc, 0, local)
    ensures Mirror.Plain(tr[5].rows[p].pinnedLocal, p) && tr[5].rows[p].tunnel.value.remapped
  {
    hide Step, Legal, Policy.Eval, Miss;
    var s0 := Start(policy);
    ScanForwards(c, s0, p, svc, p);
    var s1 := Step(c, s0, Scan(p, svc));
    Repinned(c, s1, p, svc, local, false);
    var try := SetLocalPort(p, local, false, QUIET);
    AnyTime(s1, try);
    var s2 := Step(c, s1, try);
    GoesAway(c, s2, p, svc, local, local);
    ScanNothing(c, s2, p);
    var s3 := Step(c, s2, EmptyScan(p));
    ScanNothing(c, s3, p);
    var s4 := Step(c, s3, EmptyScan(p));
    ScanForwards(c, s4, p, svc, local);
    tr := [s0, s1, s2, s3, s4, Step(c, s4, Scan(p, svc))];
    ops := [Scan(p, svc), try, EmptyScan(p), EmptyScan(p), Scan(p, svc)];
  }

  lemma AnyTime(s: State, op: Op)
    requires op.SetLocalPort?
    ensures Legal(s, op)
  {
  }

  lemma ElsewhereIsUnsafe(c: Config, s: State, p: int, svc: Service, pin: int)
    requires Forwards(c, s.policy, p, svc) && Forwarded(s, s.policy, p, svc, pin, p)
    requires 1 <= pin <= 65535 && pin != p
    ensures !Reconnect.ReconnectSafe(c, s)
  {
    BlankIsWanted(c, s.policy, p, svc, s.rows[p]);
    assert !Reconnect.SafeAt(c, s, p);
  }

  /** A state from which a reconnect is not exact: the pin was somebody else's when it was set, and is free by the
      time the link comes back. */
  lemma BusyPinIsUnsafe(c: Config, policy: Policy, p: int, svc: Service, pin: int)
    returns (tr: seq<State>, ops: seq<Op>)
    requires c.grace > 0 && Forwards(c, policy, p, svc)
    requires 1 <= pin <= 65535 && pin != p
    ensures Run(c, tr, ops) && |ops| == 2 && tr[0] == Start(policy)
    ensures Forwarded(tr[2], policy, p, svc, pin, p)
    ensures Legal(tr[2], Disconnect([p])) && !Reconnect.AlwaysRestored(c, tr[2], [p], 1)
  {
    hide Step, Policy.Eval;
    var s0 := Start(policy);
    ScanForwards(c, s0, p, svc, p);
    var s1 := Step(c, s0, Scan(p, svc));
    Repinned(c, s1, p, svc, pin, true);
    var move := SetLocalPort(p, pin, false, Env({pin}, None, ""));
    var s2 := Step(c, s1, move);
    tr, ops := [s0, s1, s2], [Scan(p, svc), move];
    ElsewhereIsUnsafe(c, s2, p, svc, pin);
    Reconnect.ReconnectInRuns(c, tr, ops, 2, [p], 1);
  }
}

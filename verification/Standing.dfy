/** What the user's decision and the policy come to in every run: internal/tunnel/manager.go, wantLocked and
    applyLocked, over internal/tunnel/policy.go, Eval. Said of tunnels, links and errors alone. */
module Standing {
  import opened Wrappers
  import opened Services
  import opened Policy
  import opened PortSets
  import opened Allocation
  import opened TunnelModel
  import opened TunnelInvariants
  import opened TunnelFrames
  import opened TunnelRuns
  import Baseline
  import S = Settings

  /** A row has a tunnel exactly when the link is up and the last attempt has not failed. */
  predicate OpenIfPossible(s: State, r: Row) { r.tunnel.Some? <==> s.dialer.Some? && r.err.None? }

  lemma RowAgrees(c: Config, tr: seq<State>, ops: seq<Op>, n: nat, p: int)
    requires Run(c, tr, ops) && n <= |ops| && NotClosed(ops, n) && p in tr[n].rows
    ensures Agrees(c, tr[n], tr[n].rows[p]) && tr[n].rows[p].svc.port == p
  {
    hide Step, Agrees;
    RunsHold(c, tr, ops, n);
  }

  /** A port switched on is forwarded under every policy, paused or not; one switched off is not. */
  lemma DecisionStands(c: Config, tr: seq<State>, ops: seq<Op>, n: nat, p: int)
    requires Run(c, tr, ops) && n <= |ops| && NotClosed(ops, n) && p in tr[n].rows
    ensures var s, r := tr[n], tr[n].rows[p];
            && (r.mode == S.On ==> OpenIfPossible(s, r) && r.skip == NotSkipped)
            && (r.mode == S.Off ==> r.tunnel.None? && r.skip == SwitchedOff)
  {
    hide Step, Legal;
    RowAgrees(c, tr, ops, n, p);
  }

  /** A port left to the policy, and not kept through a pause, is forwarded exactly when nothing is paused, it is not
      excluded, and it is included by name, or nothing is and it is in the window, bound as asked for, and new since
      the first scan if that is asked for. One that is kept is forwarded. */
  lemma PolicyStands(c: Config, tr: seq<State>, ops: seq<Op>, n: nat, p: int)
    requires Run(c, tr, ops) && n <= |ops| && NotClosed(ops, n) && p in tr[n].rows && tr[n].rows[p].mode == S.Auto
    ensures Baseline.FirstScan(ops[..n]).Some?
    ensures var s, r, policy := tr[n], tr[n].rows[p], tr[n].policy;
            var covers := (ps: PortSet) => exists x | x in ps :: x.lo <= p <= x.hi;
            if policy.paused && r.pausedKeep then OpenIfPossible(s, r)
            else
              r.tunnel.Some? <==>
              && s.dialer.Some? && r.err.None?
              && !policy.paused && !covers(policy.excluded)
              && (|| covers(policy.included)
                  || (&& policy.included == [] && policy.minPort <= p <= policy.maxPort
                      && (policy.remoteBind == BindAny
                          || (r.svc.binds != [] && forall b | b in r.svc.binds :: c.ip.loopback(Trim(b.addr))))
                      && (policy.existing
                          || p !in Baseline.FirstScan(ops[..n]).value)))
  {
    hide Step, Legal;
    RowAgrees(c, tr, ops, n, p);
    FirstScanIs(c, tr, ops, n, p);
    tr[n].policy.EvalForwards(c.ip, tr[n].rows[p].svc, tr[n].rows[p].preexisting);
  }

  lemma FirstScanIs(c: Config, tr: seq<State>, ops: seq<Op>, n: nat, p: int)
    requires Run(c, tr, ops) && n <= |ops| && p in tr[n].rows
    ensures Baseline.FirstScan(ops[..n]).Some?
    ensures tr[n].rows[p].preexisting <==> p in Baseline.FirstScan(ops[..n]).value
  {
    hide Step, Legal;
    Baseline.PreexistingIsFirstScan(c, tr, ops, n);
  }

  /** A row is left out of the table exactly when it is left to the policy, not kept through a pause, and the
      configured sets, window or bind rule leave it out. */
  lemma HiddenStands(c: Config, tr: seq<State>, ops: seq<Op>, n: nat, p: int)
    requires Run(c, tr, ops) && n <= |ops| && NotClosed(ops, n) && p in tr[n].rows
    ensures var r, policy := tr[n].rows[p], tr[n].policy;
            var covers := (ps: PortSet) => exists x | x in ps :: x.lo <= p <= x.hi;
            Hidden(r) <==>
            && r.mode == S.Auto && !(policy.paused && r.pausedKeep)
            && (|| covers(policy.excluded)
                || (&& !covers(policy.included)
                    && (|| policy.included != [] || !(policy.minPort <= p <= policy.maxPort)
                        || (policy.remoteBind == BindLoopback
                            && (r.svc.binds == [] || exists b | b in r.svc.binds :: !c.ip.loopback(Trim(b.addr)))))))
  {
    hide Step, Legal;
    RowAgrees(c, tr, ops, n, p);
    tr[n].policy.FilteredIsConfiguration(c.ip, tr[n].rows[p].svc, tr[n].rows[p].preexisting);
  }

  // ---------------------------------------------------------------- what a call leaves behind

  /** Nobody keeps x, ourselves included. */
  predicate Obtainable(s: State, env: Env, x: int) { 1 <= x <= 65535 && x !in s.held && x !in env.denied }

  lemma AnswerBinds(samePort: bool, sticky: map<int, int>, held: set<int>, p: int, pin: int, env: Env)
    ensures 1 <= p <= 65535 && p !in held && p !in env.denied ==> Answer(samePort, sticky, held, p, pin, env).Bound?
    ensures var a := Answer(samePort, sticky, held, p, pin, env);
            1 <= pin <= 65535 && pin !in held && pin !in env.denied ==> a.Bound? && a.local == pin
    ensures var a := Answer(samePort, sticky, held, p, pin, env);
            pin <= 0 && p !in sticky && 1 <= p <= 65535 && p !in held && p !in env.denied ==> a.Bound? && a.local == p
  {
    var cs := Candidates(sticky, p, pin);
    assert cs[|cs| - 1] in cs;
    FirstFreeHead(held, env, cs);
  }

  /** Switching a port on, by whichever call, with its last error forgotten. */
  lemma SwitchedOn(c: Config, s: State, p: int, r: Row, env: Env)
    requires p in s.rows && r.mode == S.On && r.err.None? && r.tunnel == s.rows[p].tunnel
    requires r.tunnel.Some? ==> s.dialer.Some?
    ensures var t := Apply(c, Put(s, p, r), p, env);
            && t.rows[p].mode == S.On && OpenIfPossible(t, t.rows[p])
            && (r.tunnel.Some? ==> t.rows[p].tunnel == r.tunnel)
            && (s.dialer.Some? && Obtainable(s, env, p) ==> t.rows[p].tunnel.Some?)
            && (s.dialer.None? ==> t.rows[p].err.None?)
  {
    hide TryOpen, Answer;
    var s1 := Put(Put(s, p, r), p, r.(skip := NotSkipped));
    AnswerBinds(c.samePort, s.sticky, s.held, p, r.pinnedLocal, env);
    if s.dialer.Some? {
      TryOpenIs(c, s1, p, env);
    }
  }

  /** Switching a port off. */
  lemma TurnedOff(c: Config, s: State, p: int, r: Row, env: Env)
    requires p in s.rows && r.mode == S.Off && r.tunnel == s.rows[p].tunnel
    ensures var t := Apply(c, Put(s, p, r), p, env);
            && t.rows[p].mode == S.Off && t.rows[p].tunnel.None? && t.rows[p].skip == SwitchedOff
            && (r.tunnel.Some? ==>
                  && t.held == s.held - {r.tunnel.value.local}
                  && t.log == s.log + [Closed(p, r.tunnel.value.local, Ruled(SwitchedOff))])
            && (r.tunnel.None? ==> t.held == s.held && t.log == s.log)
  {
    hide TryOpen;
  }

  lemma LiveHasLink(c: Config, tr: seq<State>, ops: seq<Op>, n: nat, p: int)
    requires Run(c, tr, ops) && n < |ops| && NotClosed(ops, n) && p in tr[n].rows
    ensures Legal(tr[n], ops[n]) && tr[n + 1] == Step(c, tr[n], ops[n])
    ensures tr[n].rows[p].tunnel.Some? ==> tr[n].dialer.Some?
  {
    hide Step, Legal;
    RowAgrees(c, tr, ops, n, p);
  }

  /** ForwardNow switches a port on unless it is switched off: it is then forwarded as soon as there is a link and
      a port to be had, its own number among others; a live tunnel stays as it is. */
  lemma AfterForwardNow(c: Config, tr: seq<State>, ops: seq<Op>, n: nat, p: int, env: Env)
    requires Run(c, tr, ops) && n < |ops| && NotClosed(ops, n) && p in tr[n].rows && ops[n] == ForwardNow(p, env)
    ensures tr[n].rows[p].mode == S.Off ==> tr[n + 1] == tr[n]
    ensures var s, t, r := tr[n], tr[n + 1], tr[n].rows[p];
            r.mode != S.Off ==>
              && p in t.rows && t.rows[p].mode == S.On && OpenIfPossible(t, t.rows[p])
              && (r.tunnel.Some? ==> t.rows[p].tunnel == r.tunnel)
              && (s.dialer.Some? && Obtainable(s, env, p) ==> t.rows[p].tunnel.Some?)
  {
    hide Apply, Legal, OpenIfPossible;
    LiveHasLink(c, tr, ops, n, p);
    SwitchedOn(c, tr[n], p, tr[n].rows[p].(mode := S.On, pausedKeep := false, err := None), env);
  }

  /** CycleMode takes a port from automatic to on, which forwards it, from on to off, which closes its tunnel and
      says so, and from off back to the policy. */
  lemma AfterCycleMode(c: Config, tr: seq<State>, ops: seq<Op>, n: nat, p: int, env: Env)
    requires Run(c, tr, ops) && n < |ops| && NotClosed(ops, n) && p in tr[n].rows && ops[n] == CycleMode(p, env)
    ensures var s, t, r := tr[n], tr[n + 1], tr[n].rows[p];
            && p in t.rows
            && (r.mode == S.Auto ==>
                  && t.rows[p].mode == S.On && OpenIfPossible(t, t.rows[p])
                  && (r.tunnel.Some? ==> t.rows[p].tunnel == r.tunnel)
                  && (s.dialer.Some? && Obtainable(s, env, p) ==> t.rows[p].tunnel.Some?))
            && (r.mode == S.On ==>
                  && t.rows[p].mode == S.Off && t.rows[p].tunnel.None? && t.rows[p].skip == SwitchedOff
                  && (r.tunnel.Some? ==> t.log == s.log + [Closed(p, r.tunnel.value.local, Ruled(SwitchedOff))]))
            && (r.mode == S.Off ==> t.rows[p].mode == S.Auto)
  {
    hide Apply, Legal;
    LiveHasLink(c, tr, ops, n, p);
    var s, r := tr[n], tr[n].rows[p];
    match r.mode
    case Auto => SwitchedOn(c, s, p, r.(mode := S.On, pausedKeep := false, err := None), env);
    case On => TurnedOff(c, s, p, r.(mode := S.Off, pausedKeep := false), env);
    case Off =>
      var r1 := r.(mode := S.Auto, err := None);
      ApplyRow(c, Put(s, p, r1), p, env);
  }

  /** What is obtainable once p has given up its own local port. */
  predicate ObtainableFor(s: State, env: Env, p: int, x: int)
    requires p in s.rows
  {
    && 1 <= x <= 65535 && x !in env.denied
    && (x in s.held ==> s.rows[p].tunnel.Some? && s.rows[p].tunnel.value.local == x)
  }

  /** Setting the local port of a forwarded service moves its tunnel there, if that port can be had, and setting it
      to zero moves it back to the remote port's number, wherever it was before. */
  lemma AfterSetLocalPort(c: Config, tr: seq<State>, ops: seq<Op>, n: nat, p: int, local: int, remember: bool, env: Env)
    requires Run(c, tr, ops) && n < |ops| && NotClosed(ops, n) && p in tr[n].rows && tr[n].rows[p].tunnel.Some?
    requires ops[n] == SetLocalPort(p, local, remember, env) && 0 <= local <= 65535
    ensures var s, t := tr[n], tr[n + 1]; var goal := if local == 0 then p else local;
            && p in t.rows && t.rows[p].pinnedLocal == local
            && (ObtainableFor(s, env, p, goal) ==> t.rows[p].tunnel.Some? && t.rows[p].tunnel.value.local == goal)
  {
    hide Apply, Legal, Answer, Verdict;
    LiveHasLink(c, tr, ops, n, p);
    RowAgrees(c, tr, ops, n, p);
    var s := tr[n];
    var m := Relocate(s, p, local);
    MovedOut(s, p, local);
    VerdictIgnores(c.ip, s.policy, s.rows[p], m.rows[p]);
    Answered(c, m, p, env);
    AnswerBinds(c.samePort, m.sticky, m.held, p, local, env);
    ApplyRow(c, m, p, env);
  }

  lemma MovedOut(s: State, p: int, local: int)
    requires p in s.rows && s.rows[p].tunnel.Some?
    ensures var m, r := Relocate(s, p, local), s.rows[p];
            && m.rows[p] == r.(pinnedLocal := local, tunnel := None, err := None)
            && m.held == s.held - {r.tunnel.value.local} && p !in m.sticky
            && m.dialer == s.dialer && m.policy == s.policy
  {
  }

  /** A wanted row without a tunnel gets what the allocator answers. */
  lemma Answered(c: Config, s: State, p: int, env: Env)
    requires p in s.rows && s.rows[p].tunnel.None? && s.dialer.Some? && Wanted(c.ip, s.policy, s.rows[p])
    ensures var t, a := Apply(c, s, p, env), Answer(c.samePort, s.sticky, s.held, p, s.rows[p].pinnedLocal, env);
            a.Bound? ==> t.rows[p].tunnel.Some? && t.rows[p].tunnel.value.local == a.local
  {
    hide Verdict, Answer;
  }
}

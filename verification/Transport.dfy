/** Which connection the tunnels dial over: internal/tunnel/manager.go, SetDialer and applyLocked,
    driven by internal/app/app.go. */
module Transport {
  import opened Wrappers
  import opened Services
  import opened Policy
  import opened Allocation
  import opened TunnelModel
  import opened TunnelFrames
  import opened Settings
  import Sup = Supervisor

  /** Every live tunnel dials over the manager's present connection; so without one, none is live. */
  ghost predicate OverPresentLink(s: State) {
    forall p | p in s.rows && s.rows[p].tunnel.Some? :: s.dialer == Some(s.rows[p].tunnel.value.dialer)
  }

  lemma ApplyDials(c: Config, s: State, p: int, env: Env)
    requires p in s.rows && OverPresentLink(s)
    ensures OverPresentLink(Apply(c, s, p, env))
  {
    hide Verdict, Answer;
  }

  lemma {:induction false} ApplyAllDials(c: Config, s: State, vs: seq<Visit>)
    requires OverPresentLink(s)
    requires forall v | v in vs :: v.port in s.rows
    ensures OverPresentLink(ApplyAll(c, s, vs))
  {
    hide Apply, OverPresentLink;
    if vs != [] {
      var rest, v := vs[..|vs| - 1], vs[|vs| - 1];
      ApplyAllDials(c, s, rest);
      ApplyDials(c, ApplyAll(c, s, rest), v.port, v.env);
    }
  }

  lemma {:induction false} ObserveAllDials(c: Config, s: State, snap: Snapshot, vs: seq<Visit>)
    requires OverPresentLink(s)
    requires forall v | v in vs :: v.port in snap
    ensures OverPresentLink(ObserveAll(c, s, snap, vs))
  {
    hide Apply;
    if vs != [] {
      var rest, v := vs[..|vs| - 1], vs[|vs| - 1];
      ObserveAllDials(c, s, snap, rest);
      var t := ObserveAll(c, s, snap, rest);
      ApplyDials(c, Put(t, v.port, Seen(c, t, v.port, snap[v.port])), v.port, v.env);
    }
  }

  lemma MissDials(c: Config, s: State, p: int)
    requires p in s.rows && OverPresentLink(s)
    ensures OverPresentLink(Miss(c, s, p))
  {
  }

  lemma {:induction false} MissAllDials(c: Config, s: State, gone: seq<int>)
    requires OverPresentLink(s) && NoDup(gone)
    requires forall p | p in gone :: p in s.rows
    ensures OverPresentLink(MissAll(c, s, gone))
  {
    hide Miss, SameRest, OverPresentLink;
    if gone != [] {
      MissAllDials(c, s, gone[..|gone| - 1]);
      MissDials(c, MissAll(c, s, gone[..|gone| - 1]), gone[|gone| - 1]);
    }
  }

  lemma SyncDials(c: Config, s: State, snap: Snapshot, visits: seq<Visit>, gone: seq<int>)
    requires OverPresentLink(s) && Legal(s, Sync(snap, visits, gone))
    ensures OverPresentLink(SyncStep(c, s, snap, visits, gone))
  {
    hide ObserveAll, MissAll;
    forall v | v in visits ensures v.port in snap { InPorts(visits, v); }
    ObserveAllKeys(c, Based(s, snap), snap, visits);
    ObserveAllDials(c, Based(s, snap), snap, visits);
    MissAllDials(c, ObserveAll(c, Based(s, snap), snap, visits), gone);
  }

  lemma SetPolicyDials(c: Config, s: State, policy: Policy, visits: seq<Visit>)
    requires OverPresentLink(s) && Legal(s, SetPolicy(policy, visits))
    ensures OverPresentLink(SetPolicyStep(c, s, policy, visits))
  {
    hide ApplyAll;
    forall v | v in visits ensures v.port in s.rows { InPorts(visits, v); }
    ApplyAllDials(c, s.(rows := MarkPause(s, policy), policy := policy), visits);
  }

  lemma ConnectDials(c: Config, s: State, d: nat, visits: seq<Visit>)
    requires OverPresentLink(s) && Legal(s, Connect(d, visits)) && s.dialer.None?
    ensures OverPresentLink(ConnectStep(c, s, d, visits))
  {
    hide ApplyAll;
    forall v | v in visits ensures v.port in s.rows { InPorts(visits, v); }
    ApplyAllDials(c, s.(dialer := Some(d)), visits);
  }

  lemma DisconnectDials(c: Config, s: State, order: seq<int>)
    requires Legal(s, Disconnect(order))
    ensures OverPresentLink(DisconnectStep(s, order))
  {
    hide DropAll;
    DropAllRows(s.(dialer := None), order);
  }

  lemma RelocateDials(s: State, p: int, local: int)
    requires p in s.rows && OverPresentLink(s)
    ensures OverPresentLink(Relocate(s, p, local))
  {
  }

  lemma PutApplyDials(c: Config, s: State, p: int, r: Row, env: Env)
    requires p in s.rows && OverPresentLink(s) && r.tunnel == s.rows[p].tunnel
    ensures OverPresentLink(Apply(c, Put(s, p, r), p, env))
  {
    hide Apply;
    ApplyDials(c, Put(s, p, r), p, env);
  }

  lemma CycleModeDials(c: Config, s: State, p: int, env: Env)
    requires OverPresentLink(s)
    ensures OverPresentLink(CycleModeStep(c, s, p, env))
  {
    hide Apply;
    if p in s.rows {
      var mode := s.rows[p].mode.Next();
      PutApplyDials(c, s, p, s.rows[p].(mode := mode, pausedKeep := s.rows[p].pausedKeep && mode.Auto?,
                                        err := if mode.Off? then s.rows[p].err else None), env);
    }
  }

  lemma ForwardNowDials(c: Config, s: State, p: int, env: Env)
    requires OverPresentLink(s)
    ensures OverPresentLink(ForwardNowStep(c, s, p, env))
  {
    hide Apply;
    if p in s.rows {
      PutApplyDials(c, s, p, s.rows[p].(mode := On, pausedKeep := false, err := None), env);
    }
  }

  lemma SetLocalPortDials(c: Config, s: State, p: int, local: int, remember: bool, env: Env)
    requires OverPresentLink(s)
    ensures OverPresentLink(SetLocalPortStep(c, s, p, local, remember, env))
  {
    hide Apply, Relocate;
    if p in s.rows {
      RelocateDials(s, p, local);
      ApplyDials(c, Relocate(s, p, local), p, env);
    }
  }

  lemma StepDials(c: Config, s: State, op: Op)
    requires OverPresentLink(s) && Legal(s, op)
    requires op.Connect? ==> s.dialer.None?
    ensures OverPresentLink(Step(c, s, op))
  {
    hide SyncStep, SetPolicyStep, ConnectStep, DisconnectStep, CycleModeStep, ForwardNowStep, SetLocalPortStep;
    match op
    case Sync(snap, visits, gone) => SyncDials(c, s, snap, visits, gone);
    case SetPolicy(policy, visits) => SetPolicyDials(c, s, policy, visits);
    case Connect(d, visits) => ConnectDials(c, s, d, visits);
    case Disconnect(order) => DisconnectDials(c, s, order);
    case CycleMode(p, env) => CycleModeDials(c, s, p, env);
    case ForwardNow(p, env) => ForwardNowDials(c, s, p, env);
    case SetLocalPort(p, local, remember, env) => SetLocalPortDials(c, s, p, local, remember, env);
    case _ =>
  }

  // ---------------------------------------------------------------- under a supervisor

  /** What happened to the link, call by call, as the manager saw it. */
  function LinkSteps(ops: seq<Op>): seq<Option<nat>> {
    if ops == [] then []
    else
      var rest, op := ops[..|ops| - 1], ops[|ops| - 1];
      match op
      case Connect(d, _) => LinkSteps(rest) + [Some(d)]
      case Disconnect(_) => LinkSteps(rest) + [None]
      case _ => LinkSteps(rest)
  }

  /** The same, as the supervisor did it. */
  function LinkCalls(calls: seq<Sup.Call>): seq<Option<nat>> {
    if calls == [] then []
    else
      var rest := calls[..|calls| - 1];
      match calls[|calls| - 1]
      case Install(d) => LinkCalls(rest) + [Some(d)]
      case Drop => LinkCalls(rest) + [None]
      case _ => LinkCalls(rest)
  }

  function Latest(start: Option<nat>, links: seq<Option<nat>>): Option<nat> {
    if links == [] then start else links[|links| - 1]
  }

  /** A connection comes only where there was none. */
  predicate OneAtATime(start: Option<nat>, links: seq<Option<nat>>) {
    forall i | 0 <= i < |links| && links[i].Some? :: Latest(start, links[..i]).None?
  }

  lemma OneMoreLink(start: Option<nat>, links: seq<Option<nat>>, x: Option<nat>)
    requires OneAtATime(start, links) && (x.Some? ==> Latest(start, links).None?)
    ensures OneAtATime(start, links + [x]) && Latest(start, links + [x]) == x
  {
    assert forall i | 0 <= i <= |links| :: (links + [x])[..i] == links[..i];
    assert links[..|links|] == links;
  }

  lemma DisciplinedFront(start: Option<nat>, calls: seq<Sup.Call>)
    requires Sup.Disciplined(start, calls) && calls != []
    ensures Sup.Disciplined(start, calls[..|calls| - 1])
    ensures calls[|calls| - 1].Install? ==> Sup.Linked(start, calls[..|calls| - 1]).None?
  {
    var rest := calls[..|calls| - 1];
    assert forall i | 0 <= i < |rest| :: rest[..i] == calls[..i] && rest[i] == calls[i];
  }

  lemma {:induction false} DisciplinedLinks(start: Option<nat>, calls: seq<Sup.Call>)
    requires Sup.Disciplined(start, calls)
    ensures OneAtATime(start, LinkCalls(calls)) && Latest(start, LinkCalls(calls)) == Sup.Linked(start, calls)
  {
    hide Sup.Disciplined, OneAtATime, Latest;
    if calls == [] {
      NoLinks(start);
    } else {
      var rest, call := calls[..|calls| - 1], calls[|calls| - 1];
      DisciplinedFront(start, calls);
      DisciplinedLinks(start, rest);
      if call.Install? {
        OneMoreLink(start, LinkCalls(rest), Some(call.client));
      } else if call.Drop? {
        OneMoreLink(start, LinkCalls(rest), None);
      }
    }
  }

  lemma NoLinks(start: Option<nat>)
    ensures OneAtATime(start, []) && Latest(start, []) == start
  {
  }

  /** The calls of the run that touch the link are calls of the supervisor, in its order; all others,
      of the user interface, of the browser bridge and of the traffic, come at any time between. */
  ghost predicate DrivenBy(ops: seq<Op>, calls: seq<Sup.Call>) { LinkSteps(ops) <= LinkCalls(calls) }

  lemma {:induction false} LinkStepsGrow(ops: seq<Op>, n: nat)
    requires n <= |ops|
    ensures LinkSteps(ops[..n]) <= LinkSteps(ops)
    decreases |ops| - n
  {
    if n < |ops| {
      LinkStepsGrow(ops, n + 1);
      assert ops[..n + 1][..n] == ops[..n];
    } else {
      assert ops[..n] == ops;
    }
  }

  lemma {:induction false} DialerIsLatest(c: Config, tr: seq<State>, ops: seq<Op>, n: nat)
    requires Run(c, tr, ops) && n <= |ops|
    ensures tr[n].dialer == Latest(tr[0].dialer, LinkSteps(ops[..n]))
  {
    hide Step, Legal, KeysStep, StoreStep, RowStep;
    if n == 0 {
      assert ops[..0] == [];
    } else {
      DialerIsLatest(c, tr, ops, n - 1);
      assert Legal(tr[n - 1], ops[n - 1]) && tr[n] == Step(c, tr[n - 1], ops[n - 1]);
      StepRows(c, tr[n - 1], ops[n - 1]);
      assert ops[..n][..n - 1] == ops[..n - 1];
    }
  }

  /** Along every run driven by a supervisor, every live tunnel dials over the present connection:
      none is live while there is none, and none is left on a connection that has gone. */
  lemma {:induction false} TunnelsFollowTheLink(c: Config, tr: seq<State>, ops: seq<Op>, calls: seq<Sup.Call>, n: nat)
    requires Run(c, tr, ops) && n <= |ops|
    requires Sup.Disciplined(tr[0].dialer, calls) && DrivenBy(ops, calls)
    ensures OverPresentLink(tr[n])
  {
    hide Step, Legal, Sup.Disciplined;
    if n > 0 {
      TunnelsFollowTheLink(c, tr, ops, calls, n - 1);
      var s, op := tr[n - 1], ops[n - 1];
      assert Legal(s, op) && tr[n] == Step(c, s, op);
      if op.Connect? {
        DialerIsLatest(c, tr, ops, n - 1);
        DisciplinedLinks(tr[0].dialer, calls);
        LinkStepsGrow(ops, n);
        var links, all := LinkSteps(ops[..n - 1]), LinkCalls(calls);
        assert ops[..n][..n - 1] == ops[..n - 1];
        assert LinkSteps(ops[..n]) == links + [Some(op.dialer)];
        assert all[|links|] == Some(op.dialer) && all[..|links|] == links;
      }
      StepDials(c, s, op);
    }
  }
}

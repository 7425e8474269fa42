/** Pausing automatic forwarding: internal/tunnel/manager.go, SetPolicy, wantLocked, CycleMode. */
module Pause {
  import opened Services
  import opened Policy
  import opened Allocation
  import opened TunnelModel
  import opened TunnelInvariants
  import opened TunnelFrames
  import opened TunnelLog
  import opened TunnelRuns

  // ---------------------------------------------------------------- wanted tunnels are left alone

  lemma ApplyKeepsTunnel(c: Config, s: State, p: int, env: Env)
    requires p in s.rows && s.rows[p].tunnel.Some? && Wanted(c.ip, s.policy, s.rows[p])
    ensures Apply(c, s, p, env).rows[p].tunnel == s.rows[p].tunnel
  {
  }

  lemma {:induction false} ApplyAllKeepsTunnels(c: Config, s: State, vs: seq<Visit>, p: int)
    requires forall v | v in vs :: v.port in s.rows
    requires p in s.rows && s.rows[p].tunnel.Some? && Wanted(c.ip, s.policy, s.rows[p])
    ensures ApplyAll(c, s, vs).rows[p].tunnel == s.rows[p].tunnel
  {
    hide Apply, Verdict;
    if vs != [] {
      var rest, v := vs[..|vs| - 1], vs[|vs| - 1];
      ApplyAllKeepsTunnels(c, s, rest, p);
      ApplyAllRows(c, s, rest);
      var t := ApplyAll(c, s, rest);
      if v.port == p {
        KinVerdict(c.ip, s.policy, s.rows[p], t.rows[p]);
        ApplyKeepsTunnel(c, t, p, v.env);
      }
    }
  }

  lemma KinVerdict(ip: IpRules, policy: Policy, r1: Row, r2: Row)
    requires Kin(r1, r2)
    ensures Verdict(ip, policy, r2) == Verdict(ip, policy, r1)
  {
  }

  // ---------------------------------------------------------------- one call

  /** Setting only `paused` closes no tunnel: every live tunnel is the same afterwards. */
  lemma PausingClosesNothing(c: Config, s: State, visits: seq<Visit>, p: int)
    requires Reconciled(c, s) && !s.policy.paused
    requires Legal(s, SetPolicy(s.policy.(paused := true), visits))
    requires p in s.rows && s.rows[p].tunnel.Some?
    ensures var t := SetPolicyStep(c, s, s.policy.(paused := true), visits);
            p in t.rows && t.rows[p].tunnel == s.rows[p].tunnel
  {
    forall v | v in visits ensures v.port in s.rows { InPorts(visits, v); }
    var policy := s.policy.(paused := true);
    var s1 := s.(rows := MarkPause(s, policy), policy := policy);
    assert Agrees(c, s, s.rows[p]);
    assert Wanted(c.ip, policy, s1.rows[p]);
    ApplyAllKeepsTunnels(c, s1, visits, p);
  }

  /** A paused policy wants an automatic row exactly when it was kept. */
  lemma PausedVerdict(c: Config, policy: Policy, r: Row)
    requires policy.paused && r.mode.Auto?
    ensures Wanted(c.ip, policy, r) <==> r.pausedKeep
  {
  }

  /** What a call does to a row that is kept, or that comes out kept. */
  lemma KeepStep(c: Config, s: State, op: Op, t: State, p: int)
    requires p in t.rows && RowStep(c, s, op, t, p) && RestStep(s, op, t)
    requires forall q | q in s.rows && s.rows[q].pausedKeep :: s.policy.paused && s.rows[q].mode.Auto?
    ensures t.rows[p].pausedKeep ==> t.policy.paused && t.rows[p].mode.Auto? && p in s.rows
    ensures t.rows[p].pausedKeep && s.policy.paused ==> s.rows[p].pausedKeep
    ensures t.rows[p].pausedKeep && !s.policy.paused ==> s.rows[p].tunnel.Some? && s.rows[p].mode.Auto?
    ensures p in s.rows && s.rows[p].pausedKeep && t.policy.paused && t.rows[p].mode.Auto? ==> t.rows[p].pausedKeep
    ensures p in s.rows && !s.policy.paused && t.policy.paused && s.rows[p].tunnel.Some? && s.rows[p].mode.Auto?
            ==> t.rows[p].pausedKeep
    ensures p in s.rows ==> t.rows[p].preexisting == s.rows[p].preexisting
  {
    hide Fresh;
    if op.Sync? && p !in s.rows {
      FreshIsNotKept(c, Based(s, op.snap), p, op.snap[p]);
    }
  }

  lemma FreshIsNotKept(c: Config, s: State, p: int, svc: Service)
    ensures !Fresh(c, s, p, svc).pausedKeep
  {
  }

  // ---------------------------------------------------------------- whole runs

  /** Only automatic rows are kept, and only while the policy is paused. */
  lemma {:induction false} KeepMeansPaused(c: Config, tr: seq<State>, ops: seq<Op>, n: nat)
    requires Run(c, tr, ops) && n <= |ops|
    ensures forall p | p in tr[n].rows && tr[n].rows[p].pausedKeep ::
              tr[n].policy.paused && tr[n].rows[p].mode.Auto?
  {
    hide Step, Legal, RowStep, StoreStep, KeysStep;
    if n > 0 {
      KeepMeansPaused(c, tr, ops, n - 1);
      var s, op, t := tr[n - 1], ops[n - 1], tr[n];
      assert Legal(s, op) && t == Step(c, s, op);
      StepRows(c, s, op);
      forall p | p in t.rows && t.rows[p].pausedKeep ensures t.policy.paused && t.rows[p].mode.Auto? {
        KeepStep(c, s, op, t, p);
      }
    }
  }

  /** From state i to state j the policy was paused all along. */
  ghost predicate PausedFrom(tr: seq<State>, i: nat, j: nat) {
    i <= j < |tr| && forall k | i <= k <= j :: tr[k].policy.paused
  }

  /** p was listed, with its mode on automatic, all the way from state i to state j. */
  ghost predicate Undisturbed(tr: seq<State>, p: int, i: nat, j: nat) {
    i <= j < |tr| && forall k | i <= k <= j :: p in tr[k].rows && tr[k].rows[p].mode.Auto?
  }

  /** Throughout a pause, kept now means kept from its start and undisturbed since. */
  lemma {:induction false} KeptThroughout(c: Config, tr: seq<State>, ops: seq<Op>, p: int, i: nat, j: nat)
    requires Run(c, tr, ops) && PausedFrom(tr, i, j)
    requires p in tr[j].rows
    ensures tr[j].rows[p].pausedKeep <==> Undisturbed(tr, p, i, j) && tr[i].rows[p].pausedKeep
    ensures Undisturbed(tr, p, i, j) ==> tr[j].rows[p].preexisting == tr[i].rows[p].preexisting
    decreases j
  {
    hide Step, Legal, RowStep, StoreStep, KeysStep;
    KeepMeansPaused(c, tr, ops, j);
    if i < j {
      KeepMeansPaused(c, tr, ops, j - 1);
      var s, op, t := tr[j - 1], ops[j - 1], tr[j];
      assert Legal(s, op) && t == Step(c, s, op);
      StepRows(c, s, op);
      KeepStep(c, s, op, t, p);
      if p in s.rows {
        KeptThroughout(c, tr, ops, p, i, j - 1);
      }
    }
  }

  /** While forwarding is paused an automatic port is wanted exactly when it has been listed and
      automatic without interruption and had a tunnel when the pause began. So nothing automatic
      opens during a pause, and what was open stays wanted through every scan and reconnect. */
  lemma PauseHolds(c: Config, tr: seq<State>, ops: seq<Op>, p: int, a: nat, j: nat)
    requires Run(c, tr, ops) && a < j && PausedFrom(tr, a + 1, j) && !tr[a].policy.paused
    requires p in tr[j].rows && tr[j].rows[p].mode.Auto?
    ensures Wanted(c.ip, tr[j].policy, tr[j].rows[p]) <==>
            Undisturbed(tr, p, a, j) && tr[a].rows[p].tunnel.Some?
    ensures Undisturbed(tr, p, a, j) ==> tr[j].rows[p].preexisting == tr[a].rows[p].preexisting
  {
    hide Step, Legal, Verdict, RowStep, StoreStep, KeysStep;
    PausedVerdict(c, tr[j].policy, tr[j].rows[p]);
    KeptThroughout(c, tr, ops, p, a + 1, j);
    KeepMeansPaused(c, tr, ops, a);
    var s, op, t := tr[a], ops[a], tr[a + 1];
    assert Legal(s, op) && t == Step(c, s, op);
    StepRows(c, s, op);
    if p in t.rows {
      KeepStep(c, s, op, t, p);
    }
  }

  /** Live during the pause means live at its beginning. */
  lemma NothingNewOpens(c: Config, tr: seq<State>, ops: seq<Op>, p: int, a: nat, j: nat)
    requires Run(c, tr, ops) && a < j && PausedFrom(tr, a + 1, j) && !tr[a].policy.paused
    requires NotClosed(ops, j)
    requires p in tr[j].rows && tr[j].rows[p].mode.Auto? && tr[j].rows[p].tunnel.Some?
    ensures p in tr[a].rows && tr[a].rows[p].mode.Auto? && tr[a].rows[p].tunnel.Some?
  {
    hide Step, Legal, Verdict;
    RunsHold(c, tr, ops, j);
    assert Agrees(c, tr[j], tr[j].rows[p]);
    PauseHolds(c, tr, ops, p, a, j);
  }

  /** So no opening of an automatic port is reported during a pause, unless its tunnel was live at the
      beginning and is only coming back. */
  lemma NothingNewIsReported(c: Config, tr: seq<State>, ops: seq<Op>, a: nat, j: nat, e: int)
    requires Run(c, tr, ops) && a < j && PausedFrom(tr, a + 1, j) && !tr[a].policy.paused
    requires NotClosed(ops, j)
    requires |tr[a].log| <= e < |tr[j].log| && tr[j].log[e].Opened?
    requires forall k | a < k <= j && tr[j].log[e].port in tr[k].rows :: tr[k].rows[tr[j].log[e].port].mode.Auto?
    ensures tr[j].log[e].port in Live(tr[a].rows)
  {
    hide Step, Legal;
    OpenedWasLive(c, tr, ops, a, j, e);
    var k :| a < k <= j && tr[j].log[e].port in Live(tr[k].rows);
    NothingNewOpens(c, tr, ops, tr[j].log[e].port, a, k);
  }

  /** Resuming with the policy of before the pause closes no tunnel whose service still listens
      on the same addresses. */
  lemma ResumingClosesNothing(c: Config, tr: seq<State>, ops: seq<Op>, p: int, a: nat, j: nat)
    requires Run(c, tr, ops) && a < j < |ops| && PausedFrom(tr, a + 1, j) && !tr[a].policy.paused
    requires NotClosed(ops, j)
    requires ops[j].SetPolicy? && ops[j].policy == tr[a].policy
    requires p in tr[j].rows && tr[j].rows[p].tunnel.Some?
    requires tr[j].rows[p].mode.Auto? && p in tr[a].rows ==> tr[j].rows[p].svc.binds == tr[a].rows[p].svc.binds
    ensures p in tr[j + 1].rows && tr[j + 1].rows[p].tunnel == tr[j].rows[p].tunnel
  {
    hide Step;
    RunsHold(c, tr, ops, a);
    RunsHold(c, tr, ops, j);
    var s := tr[j];
    assert Legal(s, ops[j]) && tr[j + 1] == Step(c, s, ops[j]);
    ResumeStep(c, s, ops[j].policy, ops[j].visits, p);
    assert Agrees(c, s, s.rows[p]);
    if s.rows[p].mode.Auto? {
      NothingNewOpens(c, tr, ops, p, a, j);
      PauseHolds(c, tr, ops, p, a, j);
      assert Agrees(c, tr[a], tr[a].rows[p]);
      KeepMeansPaused(c, tr, ops, a);
      SameBinds(c.ip, tr[a].policy, tr[a].rows[p].svc, s.rows[p].svc, s.rows[p].preexisting);
    }
  }

  lemma SameBinds(ip: IpRules, policy: Policy, svc1: Service, svc2: Service, preexisting: bool)
    requires svc1.port == svc2.port && svc1.binds == svc2.binds
    ensures policy.Eval(ip, svc1, preexisting) == policy.Eval(ip, svc2, preexisting)
  {
  }

  lemma ResumeStep(c: Config, s: State, policy: Policy, visits: seq<Visit>, p: int)
    requires Legal(s, SetPolicy(policy, visits)) && s.policy.paused && !policy.paused
    requires p in s.rows && s.rows[p].tunnel.Some?
    ensures var t := Step(c, s, SetPolicy(policy, visits));
            Wanted(c.ip, policy, s.rows[p].(pausedKeep := false)) ==> p in t.rows && t.rows[p].tunnel == s.rows[p].tunnel
  {
    hide Verdict;
    forall v | v in visits ensures v.port in s.rows { InPorts(visits, v); }
    var s1 := s.(rows := MarkPause(s, policy), policy := policy);
    if Wanted(c.ip, policy, s1.rows[p]) {
      ApplyAllKeepsTunnels(c, s1, visits, p);
    }
  }
}

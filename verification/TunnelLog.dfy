/** What one call adds to the event log of internal/tunnel/manager.go, and that what is reported as
    opened is open. */
module TunnelLog {
  import opened Wrappers
  import opened Services
  import opened Allocation
  import opened TunnelModel
  import opened TunnelInvariants
  import opened TunnelFrames
  import S = Settings

  /** The log grew by events about `ports` only, and what they opened is live. */
  ghost predicate Appends(s: State, t: State, ports: iset<int>) {
    && s.log <= t.log
    && forall i | |s.log| <= i < |t.log| ::
         t.log[i].port in ports && (t.log[i].Opened? ==> t.log[i].port in Live(t.rows))
  }

  /** One more piece of work on other rows. */
  lemma AppendsTrans(s: State, t: State, u: State, ports: iset<int>, more: iset<int>)
    requires Appends(s, t, ports) && Appends(t, u, more)
    requires forall p | p in ports && p in Live(t.rows) :: p in Live(u.rows)
    ensures Appends(s, u, ports + more)
  {
    hide Live;
    forall i | |s.log| <= i < |u.log|
      ensures u.log[i].port in ports + more && (u.log[i].Opened? ==> u.log[i].port in Live(u.rows))
    {
      if i < |t.log| {
        assert u.log[i] == t.log[i];
      }
    }
  }

  lemma ShutIfLiveAppends(s: State, p: int, reason: Reason)
    requires p in s.rows
    ensures Appends(s, ShutIfLive(s, p, reason), iset{p})
  {
  }

  lemma TryOpenAppends(c: Config, s: State, p: int, env: Env)
    requires p in s.rows && s.dialer.Some?
    ensures Appends(s, TryOpen(c, s, p, env), iset{p})
  {
    hide Answer;
  }

  lemma ApplyAppends(c: Config, s: State, p: int, env: Env)
    requires p in s.rows
    ensures Appends(s, Apply(c, s, p, env), iset{p})
  {
    hide Verdict, TryOpen, ShutIfLive, SameRest;
    var v := Verdict(c.ip, s.policy, s.rows[p]);
    var s1 := Put(s, p, s.rows[p].(skip := v));
    ShutIfLiveAppends(s1, p, Ruled(v));
    if s.dialer.Some? {
      TryOpenAppends(c, s1, p, env);
    }
  }

  ghost function Visited(vs: seq<Visit>): iset<int> { iset v | v in vs :: v.port }

  lemma VisitedSnoc(vs: seq<Visit>)
    requires vs != [] && NoDup(PortsOf(vs))
    ensures Visited(vs) == Visited(vs[..|vs| - 1]) + iset{vs[|vs| - 1].port}
    ensures vs[|vs| - 1].port !in Visited(vs[..|vs| - 1])
    ensures NoDup(PortsOf(vs[..|vs| - 1]))
  {
    NoDupPrefix(vs);
    assert vs == vs[..|vs| - 1] + [vs[|vs| - 1]];
  }

  lemma {:induction false} ApplyAllAppends(c: Config, s: State, vs: seq<Visit>)
    requires NoDup(PortsOf(vs))
    requires forall v | v in vs :: v.port in s.rows
    ensures Appends(s, ApplyAll(c, s, vs), Visited(vs))
  {
    hide Apply, Visited;
    if vs != [] {
      var rest, v := vs[..|vs| - 1], vs[|vs| - 1];
      VisitedSnoc(vs);
      ApplyAllAppends(c, s, rest);
      var t := ApplyAll(c, s, rest);
      ApplyAppends(c, t, v.port, v.env);
      AppendsTrans(s, t, Apply(c, t, v.port, v.env), Visited(rest), iset{v.port});
    }
  }

  lemma {:induction false} ObserveAllAppends(c: Config, s: State, snap: Snapshot, vs: seq<Visit>)
    requires NoDup(PortsOf(vs))
    requires forall v | v in vs :: v.port in snap
    ensures Appends(s, ObserveAll(c, s, snap, vs), Visited(vs))
  {
    hide Apply, Visited, Seen;
    if vs != [] {
      var rest, v := vs[..|vs| - 1], vs[|vs| - 1];
      VisitedSnoc(vs);
      ObserveAllAppends(c, s, snap, rest);
      var t := ObserveAll(c, s, snap, rest);
      var u := Put(t, v.port, Seen(c, t, v.port, snap[v.port]));
      ApplyAppends(c, u, v.port, v.env);
      AppendsTrans(s, t, Apply(c, u, v.port, v.env), Visited(rest), iset{v.port});
    }
  }

  /** The log grew, and no opening among what was added. */
  ghost predicate OnlyCloses(s: State, t: State) {
    s.log <= t.log && forall i | |s.log| <= i < |t.log| :: !t.log[i].Opened?
  }

  lemma MissCloses(c: Config, s: State, p: int)
    requires p in s.rows
    ensures OnlyCloses(s, Miss(c, s, p))
  {
  }

  lemma {:induction false} MissAllCloses(c: Config, s: State, gone: seq<int>)
    requires NoDup(gone)
    requires forall p | p in gone :: p in s.rows
    ensures OnlyCloses(s, MissAll(c, s, gone))
  {
    hide Miss, SameRest;
    if gone != [] {
      var rest := gone[..|gone| - 1];
      MissAllCloses(c, s, rest);
      MissCloses(c, MissAll(c, s, rest), gone[|gone| - 1]);
    }
  }

  lemma DropCloses(s: State, p: int)
    requires p in s.rows
    ensures OnlyCloses(s, Drop(s, p))
  {
  }

  lemma {:induction false} DropAllCloses(s: State, ps: seq<int>)
    requires forall p | p in ps :: p in s.rows
    ensures OnlyCloses(s, DropAll(s, ps))
  {
    hide Drop;
    if ps != [] {
      DropAllCloses(s, ps[..|ps| - 1]);
      DropCloses(DropAll(s, ps[..|ps| - 1]), ps[|ps| - 1]);
    }
  }

  /** The log grew, and what was opened is live. */
  ghost predicate OpensShow(s: State, t: State) {
    s.log <= t.log && forall i | |s.log| <= i < |t.log| :: t.log[i].Opened? ==> t.log[i].port in Live(t.rows)
  }

  lemma SyncOpens(c: Config, s: State, snap: Snapshot, visits: seq<Visit>, gone: seq<int>)
    requires Legal(s, Sync(snap, visits, gone))
    ensures OpensShow(s, SyncStep(c, s, snap, visits, gone))
  {
    hide ObserveAll, MissAll, SameRest;
    forall v | v in visits ensures v.port in snap { InPorts(visits, v); }
    var b := Based(s, snap);
    ObserveAllKeys(c, b, snap, visits);
    ObserveAllAppends(c, b, snap, visits);
    var m := ObserveAll(c, b, snap, visits);
    MissAllCloses(c, m, gone);
    var t := MissAll(c, m, gone);
    forall i | |s.log| <= i < |t.log| && t.log[i].Opened? ensures t.log[i].port in Live(t.rows) {
      assert t.log[i] == m.log[i];
      assert t.log[i].port !in gone;
    }
  }

  lemma PutApplyOpens(c: Config, s: State, p: int, r: Row, env: Env)
    ensures OpensShow(s, Apply(c, Put(s, p, r), p, env))
  {
    hide Apply, SameRest;
    ApplyAppends(c, Put(s, p, r), p, env);
  }

  lemma SetLocalPortOpens(c: Config, s: State, p: int, local: int, remember: bool, env: Env)
    ensures OpensShow(s, SetLocalPortStep(c, s, p, local, remember, env))
  {
    hide Apply, SameRest, Persist, Live, ShutIfLive;
    if 0 <= local <= 65535 && p in s.rows {
      var s1 := Put(s, p, s.rows[p].(pinnedLocal := local)).(sticky := s.sticky - {p});
      ShutIfLiveCloses(s1, p);
      assert OnlyCloses(s, Relocate(s, p, local));
      var t := Apply(c, Relocate(s, p, local), p, env);
      ApplyAppends(c, Relocate(s, p, local), p, env);
      forall i | |s.log| <= i < |t.log| && t.log[i].Opened? ensures t.log[i].port in Live(t.rows) {
        assert i >= |Relocate(s, p, local).log|;
      }
    }
  }

  lemma ShutIfLiveCloses(s: State, p: int)
    requires p in s.rows
    ensures OnlyCloses(s, ShutIfLive(s, p, Relocating))
  {
  }

  lemma StepOpens(c: Config, s: State, op: Op)
    requires Legal(s, op)
    ensures OpensShow(s, Step(c, s, op))
  {
    hide Apply, ApplyAll, DropAll, SyncStep, SetLocalPortStep, SameRest, Persist, Live;
    match op
    case Sync(snap, visits, gone) => SyncOpens(c, s, snap, visits, gone);
    case SetPolicy(policy, visits) =>
      forall v | v in visits ensures v.port in s.rows { InPorts(visits, v); }
      ApplyAllAppends(c, s.(rows := MarkPause(s, policy), policy := policy), visits);
    case Connect(d, visits) =>
      forall v | v in visits ensures v.port in s.rows { InPorts(visits, v); }
      ApplyAllAppends(c, s.(dialer := Some(d)), visits);
    case Disconnect(order) => DropAllCloses(s.(dialer := None), order);
    case CycleMode(p, env) =>
      if p in s.rows {
        var mode := s.rows[p].mode.Next();
        PutApplyOpens(c, s, p, s.rows[p].(mode := mode, pausedKeep := s.rows[p].pausedKeep && mode.Auto?,
                                          err := if mode.Off? then s.rows[p].err else None), env);
      }
    case ForwardNow(p, env) =>
      if p in s.rows {
        PutApplyOpens(c, s, p, s.rows[p].(mode := S.On, pausedKeep := false, err := None), env);
      }
    case SetLocalPort(p, local, remember, env) => SetLocalPortOpens(c, s, p, local, remember, env);
    case _ =>
  }

  /** Every opening that a run reports after its i-th state was a live tunnel in a later state. */
  lemma {:induction false} OpenedWasLive(c: Config, tr: seq<State>, ops: seq<Op>, i: nat, n: nat, e: int)
    requires Run(c, tr, ops) && i <= n <= |ops|
    requires |tr[i].log| <= e < |tr[n].log| && tr[n].log[e].Opened?
    ensures exists k | i < k <= n :: tr[n].log[e].port in Live(tr[k].rows)
    decreases n
  {
    hide Step, Legal, Live;
    if i < n {
      var s, t := tr[n - 1], tr[n];
      assert Legal(s, ops[n - 1]) && t == Step(c, s, ops[n - 1]);
      StepOpens(c, s, ops[n - 1]);
      if e < |s.log| {
        assert s.log[e] == t.log[e];
        OpenedWasLive(c, tr, ops, i, n - 1, e);
        var k :| i < k <= n - 1 && s.log[e].port in Live(tr[k].rows);
        assert i < k <= n;
      } else {
        assert i < n <= n;
      }
    }
  }
}

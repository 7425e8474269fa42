/** Why tunnels close, where errors come from and what tunnels dial: internal/tunnel/manager.go, the events that
    applyLocked, Sync, SetDialer and setLocalPort report, and newForwarder's address. */
module Reports {
  import opened Wrappers
  import opened Services
  import opened Policy
  import opened Allocation
  import opened TunnelModel
  import opened TunnelFrames
  import S = Settings

  // ---------------------------------------------------------------- one row

  /** Work that took a row from r to r' with this log: a new tunnel dials the address of the service, and a new error is reported. */
  predicate RowTold(c: Config, p: int, r: Row, r': Row, log: seq<Event>) {
    && (r'.tunnel.Some? ==> r'.tunnel == r.tunnel || r'.tunnel.value.dialAddr == c.dialAddr(r'.svc))
    && (r'.err.Some? ==> r'.err == r.err || Failed(p, r'.err.value) in log)
  }

  lemma ToldTrans(c: Config, p: int, r: Row, m: Row, u: Row, before: seq<Event>, log: seq<Event>)
    requires RowTold(c, p, r, m, before) && RowTold(c, p, m, u, log) && u.svc == m.svc && before <= log
    ensures RowTold(c, p, r, u, log)
  {
    assert forall e | e in before :: e in log;
  }

  lemma TryOpenTold(c: Config, s: State, p: int, env: Env)
    requires p in s.rows && s.dialer.Some?
    ensures var t := TryOpen(c, s, p, env); s.log <= t.log && RowTold(c, p, s.rows[p], t.rows[p], t.log)
  {
    hide TryOpen, Answer;
    TryOpenIs(c, s, p, env);
  }

  lemma ApplyTold(c: Config, s: State, p: int, env: Env)
    requires p in s.rows
    ensures var t := Apply(c, s, p, env); s.log <= t.log && RowTold(c, p, s.rows[p], t.rows[p], t.log)
  {
    hide Verdict, TryOpen, SameRest;
    var s1 := Put(s, p, s.rows[p].(skip := Verdict(c.ip, s.policy, s.rows[p])));
    if s.dialer.Some? {
      TryOpenTold(c, s1, p, env);
    }
  }

  // ---------------------------------------------------------------- the loops

  lemma {:induction false} ApplyAllTold(c: Config, s: State, vs: seq<Visit>)
    requires forall v | v in vs :: v.port in s.rows
    ensures var t := ApplyAll(c, s, vs);
            s.log <= t.log && forall p | p in s.rows :: RowTold(c, p, s.rows[p], t.rows[p], t.log)
  {
    hide Apply, RowTold, SameRest;
    if vs == [] {
      forall p | p in s.rows ensures RowTold(c, p, s.rows[p], s.rows[p], s.log) { Untouched(c, p, s.rows[p], s.log); }
    } else {
      var rest, v := vs[..|vs| - 1], vs[|vs| - 1];
      var m, t := ApplyAll(c, s, rest), ApplyAll(c, s, vs);
      ApplyAllTold(c, s, rest);
      ApplyTold(c, m, v.port, v.env);
      ApplyRow(c, m, v.port, v.env);
      forall p | p in s.rows ensures RowTold(c, p, s.rows[p], t.rows[p], t.log) {
        if p != v.port { Untouched(c, p, m.rows[p], t.log); }
        ToldTrans(c, p, s.rows[p], m.rows[p], t.rows[p], m.log, t.log);
      }
    }
  }

  lemma Untouched(c: Config, p: int, r: Row, log: seq<Event>)
    ensures RowTold(c, p, r, r, log)
  {
  }

  lemma {:induction false} ObserveAllTold(c: Config, s: State, snap: Snapshot, vs: seq<Visit>)
    requires NoDup(PortsOf(vs)) && forall v | v in vs :: v.port in snap
    ensures var t := ObserveAll(c, s, snap, vs);
            && s.log <= t.log
            && forall v | v in vs :: v.port in t.rows
                 && RowTold(c, v.port, Seen(c, s, v.port, snap[v.port]), t.rows[v.port], t.log)
  {
    hide Apply, RowTold, SameRest, Seen;
    if vs != [] {
      var rest, v := vs[..|vs| - 1], vs[|vs| - 1];
      NoDupPrefix(vs);
      ObserveAllTold(c, s, snap, rest);
      ObserveAllRows(c, s, snap, rest);
      var m, t := ObserveAll(c, s, snap, rest), ObserveAll(c, s, snap, vs);
      SeenAgain(c, s, m, v.port, snap[v.port]);
      var put := Put(m, v.port, Seen(c, m, v.port, snap[v.port]));
      ApplyTold(c, put, v.port, v.env);
      assert vs == rest + [v];
      forall u | u in vs ensures u.port in t.rows && RowTold(c, u.port, Seen(c, s, u.port, snap[u.port]), t.rows[u.port], t.log) {
        if u in rest {
          Untouched(c, u.port, m.rows[u.port], t.log);
          ToldTrans(c, u.port, Seen(c, s, u.port, snap[u.port]), m.rows[u.port], t.rows[u.port], m.log, t.log);
        }
      }
    }
  }

  // ---------------------------------------------------------------- one call

  /** The row of p, if it was listed, with the same tunnel and error; or a new tunnel to its service, or an error reported. */
  predicate CallTold(c: Config, s: State, t: State, p: int)
    requires p in t.rows
  {
    var r' := t.rows[p];
    && (r'.tunnel.Some? ==> (p in s.rows && s.rows[p].tunnel == r'.tunnel) || r'.tunnel.value.dialAddr == c.dialAddr(r'.svc))
    && (r'.err.Some? ==> (p in s.rows && s.rows[p].err == r'.err) || Failed(p, r'.err.value) in t.log)
  }

  /** The state between the two loops of a scan, and what each loop does. */
  lemma SyncHalves(c: Config, s: State, snap: Snapshot, visits: seq<Visit>, gone: seq<int>) returns (m: State)
    requires Legal(s, Sync(snap, visits, gone))
    ensures var b, t := Based(s, snap), SyncStep(c, s, snap, visits, gone);
            && t.rows == Aged(c, m.rows, gone) && m.log <= t.log
            && (forall p | p in snap :: p in m.rows && p !in gone && RowTold(c, p, Seen(c, b, p, snap[p]), m.rows[p], m.log))
            && (forall p | p !in snap && p in m.rows :: p in s.rows && m.rows[p] == s.rows[p])
  {
    hide ObserveAll, MissAll, Seen, Kin, SameRest, RowTold, Aged;
    forall v | v in visits ensures v.port in snap { InPorts(visits, v); }
    var b := Based(s, snap);
    m := ObserveAll(c, b, snap, visits);
    ObserveAllKeys(c, b, snap, visits);
    ObserveAllTold(c, b, snap, visits);
    ScannedRows(c, b, snap, visits);
    MissAllRows(c, m, gone);
    MissAllLog(c, m, gone);
    forall p | p in snap ensures p !in gone && RowTold(c, p, Seen(c, b, p, snap[p]), m.rows[p], m.log) {
      var i :| 0 <= i < |visits| && PortsOf(visits)[i] == p;
      assert visits[i] in visits;
    }
  }

  lemma SyncTold(c: Config, s: State, snap: Snapshot, visits: seq<Visit>, gone: seq<int>, p: int)
    requires Legal(s, Sync(snap, visits, gone)) && p in SyncStep(c, s, snap, visits, gone).rows
    ensures CallTold(c, s, SyncStep(c, s, snap, visits, gone), p)
  {
    hide SyncStep, Legal, Seen, Kin, SameRest, RowTold;
    var m := SyncHalves(c, s, snap, visits, gone);
    if p in snap {
      SeenTold(c, Based(s, snap), m, SyncStep(c, s, snap, visits, gone), p, snap[p]);
    }
  }

  lemma SeenTold(c: Config, b: State, m: State, t: State, p: int, svc: Service)
    requires p in m.rows && RowTold(c, p, Seen(c, b, p, svc), m.rows[p], m.log)
    requires p in t.rows && t.rows[p] == m.rows[p] && m.log <= t.log
    ensures CallTold(c, b, t, p)
  {
    hide Seen;
    SeenKeeps(c, b, p, svc);
    assert forall e | e in m.log :: e in t.log;
  }

  lemma SeenKeeps(c: Config, s: State, p: int, svc: Service)
    ensures var r := Seen(c, s, p, svc);
            if p in s.rows then r.tunnel == s.rows[p].tunnel && r.err == s.rows[p].err else r.tunnel.None? && r.err.None?
  {
  }

  lemma {:induction false} MissAllLog(c: Config, s: State, gone: seq<int>)
    requires NoDup(gone) && forall p | p in gone :: p in s.rows
    ensures s.log <= MissAll(c, s, gone).log
    ensures forall i | |s.log| <= i < |MissAll(c, s, gone).log| ::
              var e := MissAll(c, s, gone).log[i]; e.Closed? && e.port in gone && e.reason == WentAway
  {
    hide Miss, SameRest;
    if gone != [] {
      var rest, p := gone[..|gone| - 1], gone[|gone| - 1];
      MissAllLog(c, s, rest);
      MissLog(c, MissAll(c, s, rest), p);
    }
  }

  lemma MissLog(c: Config, s: State, p: int)
    requires p in s.rows
    ensures s.log <= Miss(c, s, p).log
    ensures forall i | |s.log| <= i < |Miss(c, s, p).log| ::
              var e := Miss(c, s, p).log[i]; e.Closed? && e.port == p && e.reason == WentAway
  {
  }

  lemma PutApplyTold(c: Config, s: State, p: int, r: Row, env: Env)
    requires p in s.rows && r.tunnel == s.rows[p].tunnel && (r.err == s.rows[p].err || r.err.None?)
    ensures var t := Apply(c, Put(s, p, r), p, env); forall q | q in t.rows :: CallTold(c, s, t, q)
  {
    hide Apply;
    ApplyTold(c, Put(s, p, r), p, env);
  }

  lemma Relocated(s: State, p: int, local: int)
    requires p in s.rows
    ensures var m := Relocate(s, p, local); m.rows[p].tunnel.None? && m.rows[p].err.None? && s.log <= m.log
  {
  }

  lemma SetLocalPortTold(c: Config, s: State, p: int, local: int, remember: bool, env: Env)
    ensures var t := SetLocalPortStep(c, s, p, local, remember, env); forall q | q in t.rows :: CallTold(c, s, t, q)
  {
    hide Apply, Relocate;
    if p in s.rows && 0 <= local <= 65535 {
      Relocated(s, p, local);
      ApplyTold(c, Relocate(s, p, local), p, env);
    }
  }

  lemma SetPolicyTold(c: Config, s: State, policy: Policy, visits: seq<Visit>, p: int)
    requires Legal(s, SetPolicy(policy, visits)) && p in s.rows
    ensures CallTold(c, s, SetPolicyStep(c, s, policy, visits), p)
  {
    hide ApplyAll;
    forall v | v in visits ensures v.port in s.rows { InPorts(visits, v); }
    ApplyAllTold(c, s.(rows := MarkPause(s, policy), policy := policy), visits);
  }

  lemma ConnectTold(c: Config, s: State, d: nat, visits: seq<Visit>, p: int)
    requires Legal(s, Connect(d, visits)) && p in s.rows
    ensures CallTold(c, s, ConnectStep(c, s, d, visits), p)
  {
    hide ApplyAll;
    forall v | v in visits ensures v.port in s.rows { InPorts(visits, v); }
    ApplyAllTold(c, s.(dialer := Some(d)), visits);
  }

  lemma DisconnectTold(c: Config, s: State, order: seq<int>, p: int)
    requires Legal(s, Disconnect(order)) && p in s.rows
    ensures CallTold(c, s, DisconnectStep(s, order), p)
  {
    hide DropAll;
    DropAllRows(s.(dialer := None), order);
  }

  lemma CycleModeTold(c: Config, s: State, p: int, env: Env)
    ensures var t := CycleModeStep(c, s, p, env); forall q | q in t.rows :: CallTold(c, s, t, q)
  {
    hide Apply;
    if p in s.rows {
      var mode := s.rows[p].mode.Next();
      PutApplyTold(c, s, p, s.rows[p].(mode := mode, pausedKeep := s.rows[p].pausedKeep && mode.Auto?,
                                       err := if mode.Off? then s.rows[p].err else None), env);
    }
  }

  lemma StepTold(c: Config, s: State, op: Op, p: int)
    requires Legal(s, op) && p in Step(c, s, op).rows
    ensures CallTold(c, s, Step(c, s, op), p)
  {
    hide SyncStep, SetPolicyStep, ConnectStep, DisconnectStep, CycleModeStep, SetLocalPortStep, Apply, CallTold;
    StepRows(c, s, op);
    match op
    case Sync(snap, visits, gone) => SyncTold(c, s, snap, visits, gone, p);
    case SetPolicy(policy, visits) => SetPolicyTold(c, s, policy, visits, p);
    case Connect(d, visits) => ConnectTold(c, s, d, visits, p);
    case Disconnect(order) => DisconnectTold(c, s, order, p);
    case CycleMode(q, env) => CycleModeTold(c, s, q, env);
    case ForwardNow(q, env) =>
      if q in s.rows && !s.rows[q].mode.Off? {
        PutApplyTold(c, s, q, s.rows[q].(mode := S.On, pausedKeep := false, err := None), env);
      } else {
        SameTold(c, s, s, p);
      }
    case SetLocalPort(q, local, remember, env) => SetLocalPortTold(c, s, q, local, remember, env);
    case _ => SameTold(c, s, Step(c, s, op), p);
  }

  lemma SameTold(c: Config, s: State, t: State, p: int)
    requires p in s.rows && p in t.rows && t.rows[p].err == s.rows[p].err
    requires t.rows[p].tunnel == s.rows[p].tunnel || t.rows[p].tunnel.None?
    ensures CallTold(c, s, t, p)
  {
  }

  // ---------------------------------------------------------------- whole runs

  /** Every error a row shows has been reported. */
  lemma {:induction false} ErrorsWereReported(c: Config, tr: seq<State>, ops: seq<Op>, n: nat, p: int)
    requires Run(c, tr, ops) && n <= |ops| && p in tr[n].rows && tr[n].rows[p].err.Some?
    ensures Failed(p, tr[n].rows[p].err.value) in tr[n].log
  {
    hide Step, Legal;
    var s, t := tr[n - 1], tr[n];
    assert Legal(s, ops[n - 1]) && t == Step(c, s, ops[n - 1]);
    StepTold(c, s, ops[n - 1], p);
    LogGrows(c, s, ops[n - 1]);
    if p in s.rows && s.rows[p].err == t.rows[p].err {
      ErrorsWereReported(c, tr, ops, n - 1, p);
      assert forall e | e in s.log :: e in t.log;
    }
  }

  /** A live tunnel was opened by some call, is the same since, and dials the address its service had at that moment. */
  lemma {:induction false} DialsItsService(c: Config, tr: seq<State>, ops: seq<Op>, n: nat, p: int) returns (k: nat)
    requires Run(c, tr, ops) && n <= |ops| && p in tr[n].rows && tr[n].rows[p].tunnel.Some?
    ensures 0 < k <= n && forall j | k <= j <= n :: p in tr[j].rows && tr[j].rows[p].tunnel == tr[n].rows[p].tunnel
    ensures !(p in tr[k - 1].rows && tr[k - 1].rows[p].tunnel == tr[k].rows[p].tunnel)
    ensures tr[n].rows[p].tunnel.value.dialAddr == c.dialAddr(tr[k].rows[p].svc)
  {
    hide Step, Legal;
    var s, t := tr[n - 1], tr[n];
    assert Legal(s, ops[n - 1]) && t == Step(c, s, ops[n - 1]);
    StepTold(c, s, ops[n - 1], p);
    if p in s.rows && s.rows[p].tunnel == t.rows[p].tunnel {
      k := DialsItsService(c, tr, ops, n - 1, p);
    } else {
      k := n;
    }
  }

  // ---------------------------------------------------------------- reasons

  /** A reason the policy or the user gives. */
  predicate IsRuled(e: Event) { e.Closed? ==> e.reason.Ruled? && e.reason.skip != NotSkipped }

  /** The reason a call gives for closing a tunnel: a scan closes a port it lists only if it is ruled out, and one it does
      not list because it went away; losing the link disconnects; setting the local port relocates that port; and
      every other call closes only what is ruled out. Only attempts to open fail, and Close reports nothing. */
  predicate Explains(op: Op, e: Event) {
    match op
    case Sync(snap, _, _) => if e.port in snap then IsRuled(e) else e.Closed? && e.reason == WentAway
    case Disconnect(_) => e.Closed? && e.reason == Disconnected
    case SetLocalPort(p, _, _, _) => e.port == p && (IsRuled(e) || (e.Closed? && e.reason == Relocating))
    case CycleMode(p, _) => e.port == p && IsRuled(e)
    case ForwardNow(p, _) => e.port == p && IsRuled(e)
    case SetPolicy(_, _) => IsRuled(e)
    case Connect(_, _) => IsRuled(e)
    case _ => false
  }

  /** The log grew by events that the call explains. */
  ghost predicate Adds(s: State, t: State, op: Op) {
    s.log <= t.log && forall i | |s.log| <= i < |t.log| :: Explains(op, t.log[i])
  }

  lemma AddsTrans(s: State, m: State, t: State, op: Op)
    requires Adds(s, m, op) && Adds(m, t, op)
    ensures Adds(s, t, op)
  {
    hide Explains;
    forall i | |s.log| <= i < |t.log| ensures Explains(op, t.log[i]) {
      if i < |m.log| {
        assert t.log[i] == m.log[i];
      }
    }
  }

  /** At most one event comes of one attempt, and a failure only when it is news. */
  predicate OneEvent(p: int, r: Row, before: seq<Event>, log: seq<Event>) {
    log == before
    || (|log| == |before| + 1 && before <= log
        && var e := log[|before|]; e.port == p && IsRuled(e) && (e.Failed? ==> r.err != Some(e.err)))
  }

  lemma TryOpenEvent(c: Config, s: State, p: int, env: Env)
    requires p in s.rows && s.dialer.Some?
    ensures OneEvent(p, s.rows[p], s.log, TryOpen(c, s, p, env).log)
    ensures var log := TryOpen(c, s, p, env).log; |log| > |s.log| ==> !log[|s.log|].Closed?
  {
    hide TryOpen, Answer;
    TryOpenIs(c, s, p, env);
  }

  lemma ApplyEvent(c: Config, s: State, p: int, env: Env)
    requires p in s.rows
    ensures OneEvent(p, s.rows[p], s.log, Apply(c, s, p, env).log)
    ensures var t := Apply(c, s, p, env);
            |t.log| > |s.log| && t.log[|s.log|].Closed? ==> t.log[|s.log|].reason == Ruled(t.rows[p].skip)
  {
    hide Verdict, TryOpen, SameRest;
    var s1 := Put(s, p, s.rows[p].(skip := Verdict(c.ip, s.policy, s.rows[p])));
    if s.dialer.Some? {
      TryOpenEvent(c, s1, p, env);
    }
  }

  lemma ApplyAdds(c: Config, s: State, p: int, env: Env, op: Op)
    requires p in s.rows && forall e: Event | e.port == p && IsRuled(e) :: Explains(op, e)
    ensures Adds(s, Apply(c, s, p, env), op)
  {
    hide Apply, Explains, IsRuled;
    ApplyEvent(c, s, p, env);
  }

  lemma {:induction false} ApplyAllAdds(c: Config, s: State, vs: seq<Visit>, op: Op)
    requires op.SetPolicy? || op.Connect?
    requires forall v | v in vs :: v.port in s.rows
    ensures Adds(s, ApplyAll(c, s, vs), op)
  {
    hide Apply, SameRest, IsRuled;
    if vs != [] {
      var rest, v := vs[..|vs| - 1], vs[|vs| - 1];
      ApplyAllAdds(c, s, rest, op);
      ApplyAdds(c, ApplyAll(c, s, rest), v.port, v.env, op);
      AddsTrans(s, ApplyAll(c, s, rest), ApplyAll(c, s, vs), op);
    }
  }

  lemma {:induction false} ObserveAllAdds(c: Config, s: State, vs: seq<Visit>, op: Op)
    requires op.Sync? && forall v | v in vs :: v.port in op.snap
    ensures Adds(s, ObserveAll(c, s, op.snap, vs), op)
  {
    hide Apply, SameRest, IsRuled, Seen;
    if vs != [] {
      var rest, v := vs[..|vs| - 1], vs[|vs| - 1];
      var m := ObserveAll(c, s, op.snap, rest);
      ObserveAllAdds(c, s, rest, op);
      ApplyAdds(c, Put(m, v.port, Seen(c, m, v.port, op.snap[v.port])), v.port, v.env, op);
      AddsTrans(s, m, ObserveAll(c, s, op.snap, vs), op);
    }
  }

  lemma {:induction false} DropAllAdds(s: State, ps: seq<int>, op: Op)
    requires op.Disconnect? && forall p | p in ps :: p in s.rows
    ensures Adds(s, DropAll(s, ps), op)
  {
    hide Drop, SameRest;
    if ps != [] {
      var rest, p := ps[..|ps| - 1], ps[|ps| - 1];
      DropAllAdds(s, rest, op);
      DropAdds(DropAll(s, rest), p, op);
      AddsTrans(s, DropAll(s, rest), DropAll(s, ps), op);
    }
  }

  lemma DropAdds(s: State, p: int, op: Op)
    requires op.Disconnect? && p in s.rows
    ensures Adds(s, Drop(s, p), op)
  {
  }

  lemma SyncReasons(c: Config, s: State, op: Op)
    requires op.Sync? && Legal(s, op)
    ensures Adds(s, SyncStep(c, s, op.snap, op.visits, op.gone), op)
  {
    hide ObserveAll, MissAll, SameRest, IsRuled;
    forall v | v in op.visits ensures v.port in op.snap { InPorts(op.visits, v); }
    var b := Based(s, op.snap);
    var m, t := ObserveAll(c, b, op.snap, op.visits), SyncStep(c, s, op.snap, op.visits, op.gone);
    ObserveAllKeys(c, b, op.snap, op.visits);
    ObserveAllAdds(c, b, op.visits, op);
    MissAllLog(c, m, op.gone);
    AddsTrans(s, m, t, op);
  }

  lemma SetLocalPortReasons(c: Config, s: State, p: int, local: int, remember: bool, env: Env)
    ensures Adds(s, SetLocalPortStep(c, s, p, local, remember, env), SetLocalPort(p, local, remember, env))
  {
    hide Apply, SameRest, IsRuled, Relocate;
    if p in s.rows && 0 <= local <= 65535 {
      var op, m := SetLocalPort(p, local, remember, env), Relocate(s, p, local);
      RelocateAdds(s, p, local, op);
      ApplyAdds(c, m, p, env, op);
      AddsTrans(s, m, Apply(c, m, p, env), op);
    }
  }

  lemma RelocateAdds(s: State, p: int, local: int, op: Op)
    requires p in s.rows && op.SetLocalPort? && op.port == p
    ensures Adds(s, Relocate(s, p, local), op)
  {
  }

  lemma StepReasons(c: Config, s: State, op: Op)
    requires Legal(s, op)
    ensures Adds(s, Step(c, s, op), op)
  {
    hide SyncStep, SetLocalPortStep, Apply, ApplyAll, DropAll, SameRest, IsRuled;
    match op
    case Sync(_, _, _) => SyncReasons(c, s, op);
    case SetPolicy(policy, visits) =>
      forall v | v in visits ensures v.port in s.rows { InPorts(visits, v); }
      ApplyAllAdds(c, s.(rows := MarkPause(s, policy), policy := policy), visits, op);
    case Connect(d, visits) =>
      forall v | v in visits ensures v.port in s.rows { InPorts(visits, v); }
      ApplyAllAdds(c, s.(dialer := Some(d)), visits, op);
    case Disconnect(order) => DropAllAdds(s.(dialer := None), order, op);
    case CycleMode(p, env) =>
      if p in s.rows {
        var r := s.rows[p];
        var mode := r.mode.Next();
        ApplyAdds(c, Put(s, p, r.(mode := mode, pausedKeep := r.pausedKeep && mode.Auto?,
                                  err := if mode.Off? then r.err else None)), p, env, op);
      }
    case ForwardNow(p, env) =>
      if p in s.rows {
        ApplyAdds(c, Put(s, p, s.rows[p].(mode := S.On, pausedKeep := false, err := None)), p, env, op);
      }
    case SetLocalPort(p, local, remember, env) => SetLocalPortReasons(c, s, p, local, remember, env);
    case _ =>
  }

  lemma LogGrows(c: Config, s: State, op: Op)
    requires Legal(s, op)
    ensures s.log <= Step(c, s, op).log
  {
    hide Step, Legal;
    StepReasons(c, s, op);
  }
}

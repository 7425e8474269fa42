/** What every call of the tunnel manager keeps, for every order in which its maps come up
    and whatever the rest of the machine does: port ownership, honest remap marks, the event
    log, and agreement of the tunnels with policy, mode, pause and link. */
module TunnelInvariants {
  import opened Wrappers
  import opened Schemes
  import opened Services
  import opened Policy
  import opened Allocation
  import opened TunnelModel
  import S = Settings

  /** The live tunnels, remote port to local port. */
  function Live(rows: map<int, Row>): map<int, int> {
    map p | p in rows && rows[p].tunnel.Some? :: rows[p].tunnel.value.local
  }

  /** Rows sit under their own port; a live one has no error on record and an honest remap mark. */
  ghost predicate RowsFit(rows: map<int, Row>) {
    forall p | p in rows ::
      && 1 <= p <= 65535 && rows[p].svc.port == p
      && (rows[p].tunnel.Some? ==>
            && rows[p].err.None?
            && (rows[p].tunnel.value.remapped <==> rows[p].tunnel.value.local != p))
  }

  /** Each live tunnel owns a local port nobody else owns, the one the allocator remembers
      for it, and the process holds no other port. */
  ghost predicate Owners(live: map<int, int>, sticky: map<int, int>, held: set<int>) {
    && (forall p | p in live :: 1 <= live[p] <= 65535 && live[p] in held && p in sticky && sticky[p] == live[p])
    && (forall p, q | p in live && q in live && p != q :: live[p] != live[q])
    && (forall x | x in held :: exists p | p in live :: live[p] == x)
  }

  ghost predicate Owned(s: State) { RowsFit(s.rows) && Owners(Live(s.rows), s.sticky, s.held) }

  /** Replays a log: the tunnels it leaves open. */
  function Replay(log: seq<Event>): map<int, int> {
    if log == [] then map[]
    else
      var m := Replay(log[..|log| - 1]);
      match log[|log| - 1]
      case Opened(p, local, _) => m[p := local]
      case Closed(p, _, _) => m - {p}
      case Failed(_, _) => m
  }

  /** A log in which only closed ports are opened, and only open ones closed, with the local
      port they were opened on. */
  ghost predicate Balanced(log: seq<Event>) {
    log == [] ||
    (var before := log[..|log| - 1];
     && Balanced(before)
     && match log[|log| - 1]
        case Opened(p, local, remapped) => p !in Replay(before) && (remapped <==> local != p)
        case Closed(p, local, _) => p in Replay(before) && Replay(before)[p] == local
        case Failed(p, _) => p !in Replay(before))
  }

  ghost predicate Logged(s: State) { Balanced(s.log) && Replay(s.log) == Live(s.rows) }

  /** `logged` says that no Close has happened: Close reports nothing. */
  ghost predicate Coherent(s: State, logged: bool) { Owned(s) && (logged ==> Logged(s)) }

  lemma Snoc(log: seq<Event>, e: Event)
    ensures (log + [e])[..|log + [e]| - 1] == log
  {
  }

  // ---------------------------------------------------------------- one entry

  /** A change of a row that keeps its port, its tunnel and, if live, its lack of errors. */
  lemma PutCoherent(s: State, p: int, r: Row, logged: bool)
    requires Coherent(s, logged)
    requires 1 <= p <= 65535 && r.svc.port == p
    requires if p in s.rows then r.tunnel == s.rows[p].tunnel else r.tunnel.None?
    requires r.tunnel.Some? ==> r.err.None?
    ensures Coherent(Put(s, p, r), logged)
    ensures Live(Put(s, p, r).rows) == Live(s.rows)
  {
    assert Live(Put(s, p, r).rows) == Live(s.rows);
  }

  lemma OwnersRelease(live: map<int, int>, sticky: map<int, int>, held: set<int>, p: int)
    requires Owners(live, sticky, held) && p in live
    ensures Owners(live - {p}, sticky, held - {live[p]})
  {
    forall x | x in held - {live[p]} ensures exists q | q in live - {p} :: (live - {p})[q] == x {
      var q :| q in live && live[q] == x;
      assert q in live - {p};
    }
  }

  lemma OwnersAcquire(live: map<int, int>, sticky: map<int, int>, held: set<int>, p: int, local: int)
    requires Owners(live, sticky, held) && p !in live
    requires 1 <= local <= 65535 && local !in held
    ensures Owners(live[p := local], sticky[p := local], held + {local})
  {
    var more := live[p := local];
    assert more[p] == local;
    forall x | x in held ensures exists q | q in more :: more[q] == x {
      var q :| q in live && live[q] == x;
      assert more[q] == x;
    }
  }

  lemma ShutCoherent(s: State, p: int, reason: Reason, logged: bool)
    requires Coherent(s, logged)
    requires p in s.rows && s.rows[p].tunnel.Some?
    ensures Coherent(Shut(s, p, reason), logged)
    ensures Live(Shut(s, p, reason).rows) == Live(s.rows) - {p}
  {
    assert Live(Shut(s, p, reason).rows) == Live(s.rows) - {p};
    OwnersRelease(Live(s.rows), s.sticky, s.held, p);
    Snoc(s.log, Closed(p, Live(s.rows)[p], reason));
  }

  lemma ShutIfLiveCoherent(s: State, p: int, reason: Reason, logged: bool)
    requires Coherent(s, logged)
    requires p in s.rows
    ensures Coherent(ShutIfLive(s, p, reason), logged)
    ensures Live(ShutIfLive(s, p, reason).rows) == Live(s.rows) - {p}
  {
    if s.rows[p].tunnel.Some? {
      ShutCoherent(s, p, reason, logged);
    } else {
      assert Live(s.rows) - {p} == Live(s.rows);
    }
  }

  lemma OpenCoherent(s: State, t: State, p: int, r: Row, logged: bool)
    requires Coherent(s, logged)
    requires p in s.rows && s.rows[p].tunnel.None?
    requires r.svc == s.rows[p].svc && r.err.None? && r.tunnel.Some?
    requires 1 <= r.tunnel.value.local <= 65535 && r.tunnel.value.local !in s.held
    requires r.tunnel.value.remapped <==> r.tunnel.value.local != p
    requires t.rows == s.rows[p := r] && t.sticky == s.sticky[p := r.tunnel.value.local]
    requires t.held == s.held + {r.tunnel.value.local}
    requires t.log == s.log + [Opened(p, r.tunnel.value.local, r.tunnel.value.remapped)]
    ensures Coherent(t, logged)
  {
    assert Live(t.rows) == Live(s.rows)[p := r.tunnel.value.local];
    OwnersAcquire(Live(s.rows), s.sticky, s.held, p, r.tunnel.value.local);
    Snoc(s.log, Opened(p, r.tunnel.value.local, r.tunnel.value.remapped));
  }

  lemma RefuseCoherent(s: State, p: int, err: AllocError, logged: bool)
    requires Coherent(s, logged) && p in s.rows && s.rows[p].tunnel.None?
    ensures var r := s.rows[p];
            Coherent(s.(rows := s.rows[p := r.(err := Some(err))],
                        log := if r.err == Some(err) then s.log else s.log + [Failed(p, err)]), logged)
  {
    PutCoherent(s, p, s.rows[p].(err := Some(err)), logged);
    Snoc(s.log, Failed(p, err));
  }

  lemma TryOpenCoherent(c: Config, s: State, p: int, env: Env, logged: bool)
    requires Coherent(s, logged)
    requires p in s.rows && s.rows[p].tunnel.None? && s.dialer.Some?
    ensures Coherent(TryOpen(c, s, p, env), logged)
  {
    hide TryOpen, Answer, Coherent;
    RowFits(s, p, logged);
    TryOpenIs(c, s, p, env);
    var r := s.rows[p];
    var t := TryOpen(c, s, p, env);
    AnswerIsHonest(c.samePort, s.sticky, s.held, p, r.pinnedLocal, env);
    match Answer(c.samePort, s.sticky, s.held, p, r.pinnedLocal, env)
    case Refused(err) =>
      RefuseCoherent(s, p, err, logged);
    case Bound(local, remapped) =>
      OpenCoherent(s, t, p, t.rows[p], logged);
  }

  lemma ApplyCoherent(c: Config, s: State, p: int, env: Env, logged: bool)
    requires Coherent(s, logged)
    requires p in s.rows
    ensures Coherent(Apply(c, s, p, env), logged)
  {
    var v := Verdict(c.ip, s.policy, s.rows[p]);
    var s1 := Put(s, p, s.rows[p].(skip := v));
    assert s.rows[p].tunnel.Some? ==> p in Live(s.rows);
    PutCoherent(s, p, s.rows[p].(skip := v), logged);
    if !v.NotSkipped? {
      ShutIfLiveCoherent(s1, p, Ruled(v), logged);
    } else if s.rows[p].tunnel.None? && s.dialer.Some? {
      TryOpenCoherent(c, s1, p, env, logged);
    }
  }

  lemma PutApplyCoherent(c: Config, s: State, p: int, r: Row, env: Env, logged: bool)
    requires Coherent(s, logged)
    requires 1 <= p <= 65535 && r.svc.port == p
    requires if p in s.rows then r.tunnel == s.rows[p].tunnel else r.tunnel.None?
    requires r.tunnel.Some? ==> r.err.None?
    ensures Coherent(Apply(c, Put(s, p, r), p, env), logged)
  {
    PutCoherent(s, p, r, logged);
    ApplyCoherent(c, Put(s, p, r), p, env, logged);
  }

  // ---------------------------------------------------------------- loops

  lemma {:induction false} ApplyAllCoherent(c: Config, s: State, vs: seq<Visit>, logged: bool)
    requires Coherent(s, logged)
    requires forall v | v in vs :: v.port in s.rows
    ensures Coherent(ApplyAll(c, s, vs), logged)
  {
    if vs != [] {
      var rest := vs[..|vs| - 1];
      ApplyAllCoherent(c, s, rest, logged);
      ApplyCoherent(c, ApplyAll(c, s, rest), vs[|vs| - 1].port, vs[|vs| - 1].env, logged);
    }
  }

  lemma ObserveCoherent(c: Config, s: State, p: int, svc: Service, env: Env, logged: bool)
    requires Coherent(s, logged)
    requires 1 <= p <= 65535 && svc.port == p
    ensures Coherent(Observe(c, s, p, svc, env), logged)
  {
    assert p in s.rows && s.rows[p].tunnel.Some? ==> p in Live(s.rows);
    PutApplyCoherent(c, s, p, Seen(c, s, p, svc), env, logged);
  }

  lemma {:induction false} ObserveAllCoherent(c: Config, s: State, snap: Snapshot, vs: seq<Visit>, logged: bool)
    requires Coherent(s, logged) && WellKeyed(snap)
    requires forall v | v in vs :: v.port in snap
    ensures Coherent(ObserveAll(c, s, snap, vs), logged)
  {
    if vs != [] {
      var rest, v := vs[..|vs| - 1], vs[|vs| - 1];
      ObserveAllCoherent(c, s, snap, rest, logged);
      ObserveCoherent(c, ObserveAll(c, s, snap, rest), v.port, snap[v.port], v.env, logged);
    }
  }

  lemma MissCoherent(c: Config, s: State, p: int, logged: bool)
    requires Coherent(s, logged)
    requires p in s.rows
    ensures Coherent(Miss(c, s, p), logged)
  {
    hide Shut, ShutIfLive, Coherent;
    var r := s.rows[p].(missing := s.rows[p].missing + 1);
    var s1 := Put(s, p, r);
    RowFits(s, p, logged);
    PutCoherent(s, p, r, logged);
    if r.missing >= c.grace {
      ShutIfLiveCoherent(s1, p, WentAway, logged);
      ShutIsShut(s1, p, WentAway);
      RemoveCoherent(ShutIfLive(s1, p, WentAway), p, logged);
    }
  }

  lemma ShutIsShut(s: State, p: int, reason: Reason)
    requires p in s.rows
    ensures ShutIfLive(s, p, reason).rows[p].tunnel.None?
  {
  }

  /** A row without a tunnel can go. */
  lemma RemoveCoherent(s: State, p: int, logged: bool)
    requires Coherent(s, logged) && p in s.rows && s.rows[p].tunnel.None?
    ensures Coherent(s.(rows := s.rows - {p}), logged)
  {
    hide Owners, Replay, Balanced;
    assert Live(s.rows - {p}) == Live(s.rows);
  }

  lemma {:induction false} MissAllCoherent(c: Config, s: State, gone: seq<int>, logged: bool)
    requires Coherent(s, logged) && NoDup(gone)
    requires forall p | p in gone :: p in s.rows
    ensures Coherent(MissAll(c, s, gone), logged)
  {
    if gone != [] {
      var rest := gone[..|gone| - 1];
      MissAllCoherent(c, s, rest, logged);
      MissCoherent(c, MissAll(c, s, rest), gone[|gone| - 1], logged);
    }
  }

  lemma {:induction false} DropAllCoherent(s: State, ps: seq<int>, logged: bool)
    requires Coherent(s, logged)
    requires forall p | p in ps :: p in s.rows
    ensures Coherent(DropAll(s, ps), logged)
  {
    if ps != [] {
      var rest, p := ps[..|ps| - 1], ps[|ps| - 1];
      var s0 := DropAll(s, rest);
      DropAllCoherent(s, rest, logged);
      ShutIfLiveCoherent(s0, p, Disconnected, logged);
      var s1 := ShutIfLive(s0, p, Disconnected);
      assert s1.rows[p].tunnel.Some? ==> p in Live(s1.rows);
      PutCoherent(s1, p, s1.rows[p].(missing := 0), logged);
    }
  }

  // ---------------------------------------------------------------- calls

  lemma MarkPauseCoherent(s: State, policy: Policy, logged: bool)
    requires Coherent(s, logged)
    ensures Coherent(s.(rows := MarkPause(s, policy), policy := policy), logged)
  {
    assert Live(MarkPause(s, policy)) == Live(s.rows);
  }

  lemma ForgetCoherent(s: State, p: int, logged: bool)
    requires Coherent(s, logged) && p !in Live(s.rows)
    ensures Coherent(s.(sticky := s.sticky - {p}), logged)
  {
  }

  lemma RelocateCoherent(s: State, p: int, local: int, logged: bool)
    requires Coherent(s, logged) && p in s.rows
    ensures Coherent(Relocate(s, p, local), logged)
  {
    hide Owners, Replay, Balanced, Coherent, ShutIfLive, Relocate;
    // closing first and forgetting then comes to the same
    var s1 := ShutIfLive(s, p, Relocating);
    ShutIfLiveCoherent(s, p, Relocating, logged);
    ForgetCoherent(s1, p, logged);
    var s2 := s1.(sticky := s1.sticky - {p});
    var r := s2.rows[p].(pinnedLocal := local, err := None);
    RowFits(s2, p, logged);
    PutCoherent(s2, p, r, logged);
    RelocateIs(s, p, local);
  }

  lemma RelocateIs(s: State, p: int, local: int)
    requires p in s.rows
    ensures var s1 := ShutIfLive(s, p, Relocating);
            var s2 := s1.(sticky := s1.sticky - {p});
            Relocate(s, p, local) == Put(s2, p, s2.rows[p].(pinnedLocal := local, err := None))
  {
    var s1 := ShutIfLive(s, p, Relocating);
    var s2 := s1.(sticky := s1.sticky - {p});
    assert Relocate(s, p, local).rows == Put(s2, p, s2.rows[p].(pinnedLocal := local, err := None)).rows;
  }

  lemma RowFits(s: State, p: int, logged: bool)
    requires Coherent(s, logged) && p in s.rows
    ensures 1 <= p <= 65535 && s.rows[p].svc.port == p
    ensures s.rows[p].tunnel.Some? ==> s.rows[p].err.None?
  {
  }

  lemma SetLocalPortCoherent(c: Config, s: State, p: int, local: int, remember: bool, env: Env, logged: bool)
    requires Coherent(s, logged)
    ensures Coherent(SetLocalPortStep(c, s, p, local, remember, env), logged)
  {
    hide Apply, Persist, Relocate, Owners, Replay, Balanced;
    if 0 <= local <= 65535 && p in s.rows {
      RelocateCoherent(s, p, local, logged);
      ApplyCoherent(c, Relocate(s, p, local), p, env, logged);
    }
  }

  lemma CloseOwned(s: State)
    requires Owned(s)
    ensures Owned(CloseStep(s)) && CloseStep(s).held == {} && Live(CloseStep(s).rows) == map[]
  {
    forall x | x in s.held ensures x in Locals(s.rows) {
      var p :| p in Live(s.rows) && Live(s.rows)[p] == x;
      assert p in s.rows && s.rows[p].tunnel.Some?;
    }
  }

  lemma SyncCoherent(c: Config, s: State, snap: Snapshot, visits: seq<Visit>, gone: seq<int>, logged: bool)
    requires Coherent(s, logged) && Legal(s, Sync(snap, visits, gone))
    ensures Coherent(SyncStep(c, s, snap, visits, gone), logged)
  {
    hide ObserveAll, MissAll, Owners, Replay, Balanced;
    forall v | v in visits ensures v.port in snap { InPorts(visits, v); }
    ObserveAllCoherent(c, Based(s, snap), snap, visits, logged);
    ObserveAllKeys(c, Based(s, snap), snap, visits);
    MissAllCoherent(c, ObserveAll(c, Based(s, snap), snap, visits), gone, logged);
  }

  lemma SetPolicyCoherent(c: Config, s: State, policy: Policy, visits: seq<Visit>, logged: bool)
    requires Coherent(s, logged) && Legal(s, SetPolicy(policy, visits))
    ensures Coherent(SetPolicyStep(c, s, policy, visits), logged)
  {
    hide ApplyAll, MarkPause, Owners, Replay, Balanced;
    forall v | v in visits ensures v.port in s.rows { InPorts(visits, v); }
    MarkPauseCoherent(s, policy, logged);
    ApplyAllCoherent(c, s.(rows := MarkPause(s, policy), policy := policy), visits, logged);
  }

  lemma CycleModeCoherent(c: Config, s: State, p: int, env: Env, logged: bool)
    requires Coherent(s, logged)
    ensures Coherent(CycleModeStep(c, s, p, env), logged)
  {
    hide Apply, Persist, Coherent;
    if p in s.rows {
      var r := s.rows[p];
      var mode := r.mode.Next();
      var r1 := r.(mode := mode, pausedKeep := r.pausedKeep && mode.Auto?, err := if mode.Off? then r.err else None);
      RowFits(s, p, logged);
      PutApplyCoherent(c, s, p, r1, env, logged);
      var t := Apply(c, Put(s, p, r1), p, env);
      assert CycleModeStep(c, s, p, env) == Persist(c, t, p);
      StoreCoherent(t, Persist(c, t, p), logged);
    }
  }

  lemma ForwardNowCoherent(c: Config, s: State, p: int, env: Env, logged: bool)
    requires Coherent(s, logged)
    ensures Coherent(ForwardNowStep(c, s, p, env), logged)
  {
    hide Apply, Coherent;
    if p in s.rows {
      RowFits(s, p, logged);
      PutApplyCoherent(c, s, p, s.rows[p].(mode := S.On, pausedKeep := false, err := None), env, logged);
    }
  }

  /** The settings are not part of what is kept. */
  lemma StoreCoherent(s: State, t: State, logged: bool)
    requires Coherent(s, logged) && t == s.(store := t.store)
    ensures Coherent(t, logged)
  {
  }

  lemma MarkCoherent(c: Config, s: State, p: int, scheme: Scheme, name: string, logged: bool)
    requires Coherent(s, logged)
    ensures Coherent(SetSchemeStep(c, s, p, scheme), logged)
    ensures Coherent(SetLabelStep(c, s, p, name), logged)
    ensures Coherent(ObserveSchemeStep(s, p, scheme), logged)
  {
    hide Persist, Owners, Replay, Balanced;
    if p in s.rows {
      RowFits(s, p, logged);
      PutCoherent(s, p, s.rows[p].(scheme := scheme, pinned := !scheme.Unknown?), logged);
      PutCoherent(s, p, s.rows[p].(name := name), logged);
      PutCoherent(s, p, s.rows[p].(scheme := scheme), logged);
    }
  }

  lemma StepCoherent(c: Config, s: State, op: Op, logged: bool)
    requires Coherent(s, logged) && Legal(s, op)
    ensures Coherent(Step(c, s, op), logged && !op.Close?)
  {
    hide SyncStep, SetPolicyStep, CycleModeStep, ForwardNowStep, SetLocalPortStep, SetSchemeStep, SetLabelStep,
      ObserveSchemeStep, ApplyAll, DropAll, Owners, Replay, Balanced;
    match op
    case Sync(snap, visits, gone) =>
      SyncCoherent(c, s, snap, visits, gone, logged);
    case SetPolicy(policy, visits) =>
      SetPolicyCoherent(c, s, policy, visits, logged);
    case Connect(d, visits) =>
      forall v | v in visits ensures v.port in s.rows { InPorts(visits, v); }
      ApplyAllCoherent(c, s.(dialer := Some(d)), visits, logged);
    case Disconnect(order) =>
      DropAllCoherent(s.(dialer := None), order, logged);
    case CycleMode(p, env) =>
      CycleModeCoherent(c, s, p, env, logged);
    case ForwardNow(p, env) =>
      ForwardNowCoherent(c, s, p, env, logged);
    case SetLocalPort(p, local, remember, env) =>
      SetLocalPortCoherent(c, s, p, local, remember, env, logged);
    case CycleScheme(p) =>
      if p in s.rows {
        MarkCoherent(c, s, p, s.rows[p].scheme.Next(), "", logged);
      }
    case SetScheme(p, scheme) =>
      MarkCoherent(c, s, p, scheme, "", logged);
    case SetLabel(p, name) =>
      MarkCoherent(c, s, p, Unknown, name, logged);
    case ObserveScheme(p, scheme) =>
      MarkCoherent(c, s, p, scheme, "", logged);
    case Close =>
      CloseOwned(s);
  }

  // ---------------------------------------------------------------- agreement

  /** A row agrees with a fresh evaluation: the recorded skip reason is the present one, and it has
      a tunnel exactly when it is wanted, the link is up and the last attempt did not fail. */
  ghost predicate Agrees(c: Config, s: State, r: Row) {
    && r.skip == Verdict(c.ip, s.policy, r)
    && (r.tunnel.Some? <==> Wanted(c.ip, s.policy, r) && s.dialer.Some? && r.err.None?)
  }

  ghost predicate Reconciled(c: Config, s: State) {
    forall p | p in s.rows :: Agrees(c, s, s.rows[p])
  }

  /** A live row has a link to dial over and no error. */
  ghost predicate Sane(s: State, r: Row) { r.tunnel.Some? ==> s.dialer.Some? && r.err.None? }

  lemma TryOpenAgrees(c: Config, s: State, p: int, env: Env)
    requires p in s.rows && s.rows[p].tunnel.None? && s.dialer.Some?
    ensures var r := TryOpen(c, s, p, env).rows[p];
            r == s.rows[p].(tunnel := r.tunnel, err := r.err) && (r.tunnel.Some? <==> r.err.None?)
  {
    hide Answer;
    var r, r' := s.rows[p], TryOpen(c, s, p, env).rows[p];
    assert r' == r.(tunnel := r'.tunnel, err := r'.err);
  }

  lemma VerdictIgnores(ip: IpRules, policy: Policy, r: Row, r': Row)
    requires r' == r.(tunnel := r'.tunnel, err := r'.err, skip := r'.skip, missing := r'.missing,
                      name := r'.name, scheme := r'.scheme, pinned := r'.pinned, pinnedLocal := r'.pinnedLocal)
    ensures Verdict(ip, policy, r') == Verdict(ip, policy, r)
  {
  }

  lemma ApplyAgrees(c: Config, s: State, p: int, env: Env)
    requires p in s.rows && Sane(s, s.rows[p])
    ensures var t := Apply(c, s, p, env); Agrees(c, t, t.rows[p])
  {
    hide Verdict, TryOpen;
    var r := s.rows[p];
    var t := Apply(c, s, p, env);
    var v := Verdict(c.ip, s.policy, r);
    var s1 := Put(s, p, r.(skip := v));
    if v.NotSkipped? && r.tunnel.None? && s.dialer.Some? {
      TryOpenAgrees(c, s1, p, env);
    }
    VerdictIgnores(c.ip, s.policy, r, t.rows[p]);
  }

  lemma {:induction false} ApplyAllAgrees(c: Config, s: State, vs: seq<Visit>)
    requires forall v | v in vs :: v.port in s.rows
    requires forall p | p in s.rows :: Sane(s, s.rows[p])
    ensures var t := ApplyAll(c, s, vs);
            && t.policy == s.policy && t.dialer == s.dialer
            && (forall p | p in t.rows :: Sane(t, t.rows[p]))
            && (forall v | v in vs :: Agrees(c, t, t.rows[v.port]))
  {
    hide Apply, Verdict;
    if vs != [] {
      var rest, v := vs[..|vs| - 1], vs[|vs| - 1];
      ApplyAllAgrees(c, s, rest);
      ApplyAgrees(c, ApplyAll(c, s, rest), v.port, v.env);
      assert vs == rest + [v];
    }
  }

  lemma ObserveAgrees(c: Config, s: State, p: int, svc: Service, env: Env)
    requires Reconciled(c, s)
    ensures Reconciled(c, Observe(c, s, p, svc, env))
  {
    ApplyAgrees(c, Put(s, p, Seen(c, s, p, svc)), p, env);
  }

  lemma {:induction false} ObserveAllAgrees(c: Config, s: State, snap: Snapshot, vs: seq<Visit>)
    requires Reconciled(c, s)
    requires forall v | v in vs :: v.port in snap
    ensures Reconciled(c, ObserveAll(c, s, snap, vs))
  {
    hide Observe;
    if vs != [] {
      var rest, v := vs[..|vs| - 1], vs[|vs| - 1];
      ObserveAllAgrees(c, s, snap, rest);
      ObserveAgrees(c, ObserveAll(c, s, snap, rest), v.port, snap[v.port], v.env);
    }
  }

  lemma MissAgrees(c: Config, s: State, p: int)
    requires Reconciled(c, s) && p in s.rows
    ensures Reconciled(c, Miss(c, s, p))
  {
    hide Verdict;
    var t := Miss(c, s, p);
    forall q | q in t.rows ensures Agrees(c, t, t.rows[q]) {
      assert Agrees(c, s, s.rows[q]);
      VerdictIgnores(c.ip, s.policy, s.rows[q], t.rows[q]);
    }
  }

  lemma {:induction false} MissAllAgrees(c: Config, s: State, gone: seq<int>)
    requires Reconciled(c, s) && NoDup(gone)
    requires forall p | p in gone :: p in s.rows
    ensures Reconciled(c, MissAll(c, s, gone))
  {
    hide Miss, Reconciled, SameRest;
    if gone != [] {
      var rest := gone[..|gone| - 1];
      MissAllAgrees(c, s, rest);
      MissAgrees(c, MissAll(c, s, rest), gone[|gone| - 1]);
    }
  }

  /** Every row's recorded skip reason is the present one. */
  ghost predicate Judged(c: Config, s: State) {
    forall p | p in s.rows :: s.rows[p].skip == Verdict(c.ip, s.policy, s.rows[p])
  }

  lemma DropJudged(c: Config, s: State, p: int)
    requires p in s.rows && Judged(c, s)
    ensures Judged(c, Drop(s, p)) && Drop(s, p).rows[p].tunnel.None?
  {
    hide Verdict;
    VerdictIgnores(c.ip, s.policy, s.rows[p], Drop(s, p).rows[p]);
  }

  lemma {:induction false} DropAllAgrees(c: Config, s: State, ps: seq<int>)
    requires Judged(c, s)
    requires forall p | p in ps :: p in s.rows
    ensures Judged(c, DropAll(s, ps))
    ensures DropAll(s, ps).policy == s.policy && DropAll(s, ps).dialer == s.dialer
    ensures forall p | p in ps :: DropAll(s, ps).rows[p].tunnel.None?
  {
    hide Drop, Judged;
    if ps != [] {
      var rest, p := ps[..|ps| - 1], ps[|ps| - 1];
      DropAllAgrees(c, s, rest);
      DropJudged(c, DropAll(s, rest), p);
      assert ps == rest + [p];
      DropKeepsClosed(DropAll(s, rest), p, rest);
    }
  }

  lemma DropKeepsClosed(s: State, p: int, ps: seq<int>)
    requires p in s.rows
    requires forall q | q in ps :: q in s.rows && s.rows[q].tunnel.None?
    ensures forall q | q in ps :: Drop(s, p).rows[q].tunnel.None?
  {
  }

  lemma CoversRows(vs: seq<Visit>, keys: set<int>, p: int) returns (v: Visit)
    requires Lists(PortsOf(vs), keys) && p in keys
    ensures v in vs && v.port == p
  {
    var i :| 0 <= i < |vs| && PortsOf(vs)[i] == p;
    v := vs[i];
  }

  lemma PutApplyAgrees(c: Config, s: State, p: int, r: Row, env: Env)
    requires Reconciled(c, s) && p in s.rows && Sane(s, r)
    ensures Reconciled(c, Apply(c, Put(s, p, r), p, env))
  {
    hide Apply, Verdict;
    ApplyAgrees(c, Put(s, p, r), p, env);
  }

  lemma SetLocalPortReconciled(c: Config, s: State, p: int, local: int, remember: bool, env: Env)
    requires Reconciled(c, s)
    ensures Reconciled(c, SetLocalPortStep(c, s, p, local, remember, env))
  {
    hide Apply, Verdict, Persist;
    if 0 <= local <= 65535 && p in s.rows {
      ApplyAgrees(c, Relocate(s, p, local), p, env);
    }
  }

  /** Applying every row once leaves all of them in agreement. */
  lemma ApplyAllReconciles(c: Config, s: State, vs: seq<Visit>)
    requires Lists(PortsOf(vs), s.rows.Keys)
    requires forall v | v in vs :: v.port in s.rows
    requires forall p | p in s.rows :: Sane(s, s.rows[p])
    ensures Reconciled(c, ApplyAll(c, s, vs))
  {
    hide Apply, Verdict, Agrees;
    ApplyAllAgrees(c, s, vs);
    var t := ApplyAll(c, s, vs);
    forall p | p in t.rows ensures Agrees(c, t, t.rows[p]) { var v := CoversRows(vs, s.rows.Keys, p); }
  }

  lemma SyncReconciled(c: Config, s: State, snap: Snapshot, visits: seq<Visit>, gone: seq<int>)
    requires Reconciled(c, s) && Legal(s, Sync(snap, visits, gone))
    ensures Reconciled(c, SyncStep(c, s, snap, visits, gone))
  {
    hide Apply, Verdict;
    forall v | v in visits ensures v.port in snap { InPorts(visits, v); }
    ObserveAllAgrees(c, Based(s, snap), snap, visits);
    ObserveAllKeys(c, Based(s, snap), snap, visits);
    MissAllAgrees(c, ObserveAll(c, Based(s, snap), snap, visits), gone);
  }

  lemma SetPolicyReconciled(c: Config, s: State, policy: Policy, visits: seq<Visit>)
    requires Reconciled(c, s) && Legal(s, SetPolicy(policy, visits))
    ensures Reconciled(c, SetPolicyStep(c, s, policy, visits))
  {
    hide Verdict, Apply, ApplyAll;
    forall v | v in visits ensures v.port in s.rows { InPorts(visits, v); }
    ApplyAllReconciles(c, s.(rows := MarkPause(s, policy), policy := policy), visits);
  }

  lemma ConnectReconciled(c: Config, s: State, d: nat, visits: seq<Visit>)
    requires Reconciled(c, s) && Legal(s, Connect(d, visits))
    ensures Reconciled(c, ConnectStep(c, s, d, visits))
  {
    hide Verdict, Apply, ApplyAll;
    forall v | v in visits ensures v.port in s.rows { InPorts(visits, v); }
    ApplyAllReconciles(c, s.(dialer := Some(d)), visits);
  }

  lemma DisconnectReconciled(c: Config, s: State, order: seq<int>)
    requires Reconciled(c, s) && Legal(s, Disconnect(order))
    ensures Reconciled(c, DisconnectStep(s, order))
  {
    hide Verdict;
    DropAllAgrees(c, s.(dialer := None), order);
  }

  lemma ModeReconciled(c: Config, s: State, p: int, env: Env)
    requires Reconciled(c, s)
    ensures Reconciled(c, CycleModeStep(c, s, p, env))
    ensures Reconciled(c, ForwardNowStep(c, s, p, env))
  {
    hide Apply, Verdict, Persist;
    if p in s.rows {
      var r := s.rows[p];
      var mode := r.mode.Next();
      PutApplyAgrees(c, s, p, r.(mode := mode, pausedKeep := r.pausedKeep && mode.Auto?,
                                 err := if mode.Off? then r.err else None), env);
      PutApplyAgrees(c, s, p, r.(mode := S.On, pausedKeep := false, err := None), env);
    }
  }

  /** Scheme and label calls change nothing a verdict looks at. */
  lemma MarkReconciled(c: Config, s: State, p: int, r: Row, t: State)
    requires Reconciled(c, s) && p in s.rows
    requires r == s.rows[p].(scheme := r.scheme, pinned := r.pinned, name := r.name)
    requires t == Put(s, p, r).(store := t.store)
    ensures Reconciled(c, t)
  {
    hide Verdict;
    VerdictIgnores(c.ip, s.policy, s.rows[p], r);
  }

  lemma SetSchemeReconciled(c: Config, s: State, p: int, scheme: Scheme)
    requires Reconciled(c, s)
    ensures Reconciled(c, SetSchemeStep(c, s, p, scheme))
    ensures Reconciled(c, ObserveSchemeStep(s, p, scheme))
  {
    hide Reconciled, Persist;
    if p in s.rows {
      MarkReconciled(c, s, p, s.rows[p].(scheme := scheme, pinned := !scheme.Unknown?), SetSchemeStep(c, s, p, scheme));
      if !scheme.Unknown? && !s.rows[p].pinned {
        MarkReconciled(c, s, p, s.rows[p].(scheme := scheme), ObserveSchemeStep(s, p, scheme));
      }
    }
  }

  lemma SetLabelReconciled(c: Config, s: State, p: int, name: string)
    requires Reconciled(c, s)
    ensures Reconciled(c, SetLabelStep(c, s, p, name))
  {
    hide Reconciled, Persist;
    if p in s.rows {
      MarkReconciled(c, s, p, s.rows[p].(name := name), SetLabelStep(c, s, p, name));
    }
  }

  lemma StepReconciled(c: Config, s: State, op: Op)
    requires Reconciled(c, s) && Legal(s, op) && !op.Close?
    ensures Reconciled(c, Step(c, s, op))
  {
    hide Reconciled, Apply, SyncStep, SetPolicyStep, ConnectStep, DisconnectStep, CycleModeStep, ForwardNowStep, SetLocalPortStep,
      SetSchemeStep, SetLabelStep, ObserveSchemeStep;
    match op
    case Sync(snap, visits, gone) =>
      SyncReconciled(c, s, snap, visits, gone);
    case SetPolicy(policy, visits) =>
      SetPolicyReconciled(c, s, policy, visits);
    case Connect(d, visits) =>
      ConnectReconciled(c, s, d, visits);
    case Disconnect(order) =>
      DisconnectReconciled(c, s, order);
    case CycleMode(p, env) =>
      ModeReconciled(c, s, p, env);
    case ForwardNow(p, env) =>
      ModeReconciled(c, s, p, env);
    case SetLocalPort(p, local, remember, env) =>
      SetLocalPortReconciled(c, s, p, local, remember, env);
    case CycleScheme(p) =>
      if p in s.rows {
        SetSchemeReconciled(c, s, p, s.rows[p].scheme.Next());
      }
    case SetScheme(p, scheme) =>
      SetSchemeReconciled(c, s, p, scheme);
    case SetLabel(p, name) =>
      SetLabelReconciled(c, s, p, name);
    case ObserveScheme(p, scheme) =>
      SetSchemeReconciled(c, s, p, scheme);
  }
}

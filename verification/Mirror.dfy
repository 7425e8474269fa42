/** The promise of --same-port: internal/tunnel/alloc.go, Allocate, under internal/tunnel/manager.go. */
module Mirror {
  import opened Wrappers
  import opened Services
  import opened Policy
  import opened Allocation
  import opened TunnelModel
  import opened TunnelFrames
  import S = Settings

  /** A pin, or a remembered assignment, that cannot get another port than the remote port's number. */
  predicate Plain(pin: int, p: int) { pin <= 0 || pin == p || pin > 65535 }

  /** The pin of q, if it is listed, cannot get another port. */
  predicate PlainPin(rows: map<int, Row>, q: int) { q in rows ==> Plain(rows[q].pinnedLocal, q) }

  /** The tunnel of q and its remembered assignment, as far as there are any, mirror the remote port. */
  predicate Mirrored(s: State, q: int) {
    && (q in s.sticky ==> s.sticky[q] == q)
    && (q in s.rows && s.rows[q].tunnel.Some? ==> s.rows[q].tunnel.value.local == q)
  }

  lemma AnswerMirrors(sticky: map<int, int>, held: set<int>, p: int, pin: int, env: Env)
    requires Plain(pin, p) && (p in sticky ==> Plain(sticky[p], p))
    ensures var a := Answer(true, sticky, held, p, pin, env); a.Bound? ==> a.local == p && !a.remapped
  {
    assert forall x | x in Candidates(sticky, p, pin) :: x == p || x < 1 || x > 65535;
  }

  predicate NotRemapped(a: Outcome) { a.Bound? ==> !a.remapped }

  /** --same-port is documented never to remap. Whatever else happens on the machine, the allocator keeps to it
      exactly if neither the pin nor the assignment it remembers is another port. */
  lemma SamePortIsKept(sticky: map<int, int>, p: int, pin: int)
    requires 1 <= p <= 65535
    ensures (forall held, env :: NotRemapped(Answer(true, sticky, held, p, pin, env)))
       <==> Plain(pin, p) && (p in sticky ==> Plain(sticky[p], p))
  {
    if Plain(pin, p) && (p in sticky ==> Plain(sticky[p], p)) {
      forall held, env ensures NotRemapped(Answer(true, sticky, held, p, pin, env)) {
        AnswerMirrors(sticky, held, p, pin, env);
      }
    } else {
      var held, env := Elsewhere(sticky, p, pin);
      assert !NotRemapped(Answer(true, sticky, held, p, pin, env));
    }
  }

  /** With every port free the allocator goes for the pin, and with the pin taken for what it remembers. */
  lemma Elsewhere(sticky: map<int, int>, p: int, pin: int) returns (held: set<int>, env: Env)
    requires !Plain(pin, p) || (p in sticky && !Plain(sticky[p], p))
    ensures var a := Answer(true, sticky, held, p, pin, env); a.Bound? && a.local != p && a.remapped
  {
    held := {};
    env := Env(if Plain(pin, p) then {pin} else {}, None, "");
    FirstFreeHead(held, env, Candidates(sticky, p, pin));
  }

  // ---------------------------------------------------------------- runs

  lemma ShutMirrors(s: State, p: int, reason: Reason, q: int)
    requires p in s.rows && Mirrored(s, q)
    ensures Mirrored(ShutIfLive(s, p, reason), q)
  {
  }

  lemma TryOpenMirrors(c: Config, s: State, p: int, env: Env, q: int)
    requires c.samePort && p in s.rows && s.dialer.Some? && Mirrored(s, q) && (p == q ==> PlainPin(s.rows, q))
    ensures Mirrored(TryOpen(c, s, p, env), q)
  {
    hide TryOpen, Answer;
    TryOpenIs(c, s, p, env);
    if p == q {
      AnswerMirrors(s.sticky, s.held, p, s.rows[p].pinnedLocal, env);
    }
  }

  lemma ApplyMirrors(c: Config, s: State, p: int, env: Env, q: int)
    requires c.samePort && p in s.rows && Mirrored(s, q) && (p == q ==> PlainPin(s.rows, q))
    ensures Mirrored(Apply(c, s, p, env), q)
  {
    hide Verdict, TryOpen, ShutIfLive;
    var v := Verdict(c.ip, s.policy, s.rows[p]);
    var s1 := Put(s, p, s.rows[p].(skip := v));
    if !v.NotSkipped? {
      ShutMirrors(s1, p, Ruled(v), q);
    } else if s.rows[p].tunnel.None? && s.dialer.Some? {
      TryOpenMirrors(c, s1, p, env, q);
    }
  }

  lemma {:induction false} ApplyAllMirrors(c: Config, s: State, vs: seq<Visit>, q: int)
    requires c.samePort && Mirrored(s, q) && PlainPin(s.rows, q)
    requires forall v | v in vs :: v.port in s.rows
    ensures Mirrored(ApplyAll(c, s, vs), q)
  {
    hide Apply, Mirrored;
    if vs != [] {
      var rest, v := vs[..|vs| - 1], vs[|vs| - 1];
      ApplyAllMirrors(c, s, rest, q);
      ApplyAllRows(c, s, rest);
      ApplyMirrors(c, ApplyAll(c, s, rest), v.port, v.env, q);
    }
  }

  lemma {:induction false} ObserveAllMirrors(c: Config, s: State, snap: Snapshot, vs: seq<Visit>, q: int)
    requires c.samePort && Mirrored(s, q) && NoDup(PortsOf(vs))
    requires forall v | v in vs :: v.port in snap
    requires q in snap ==> Plain(Seen(c, s, q, snap[q]).pinnedLocal, q)
    ensures Mirrored(ObserveAll(c, s, snap, vs), q)
  {
    hide Apply, S.Decode, S.Lookup;
    if vs != [] {
      var rest, v := vs[..|vs| - 1], vs[|vs| - 1];
      NoDupPrefix(vs);
      ObserveAllMirrors(c, s, snap, rest, q);
      ObserveAllRows(c, s, snap, rest);
      var t := ObserveAll(c, s, snap, rest);
      SeenAgain(c, s, t, v.port, snap[v.port]);
      ApplyMirrors(c, Put(t, v.port, Seen(c, t, v.port, snap[v.port])), v.port, v.env, q);
    }
  }

  lemma {:induction false} MissAllMirrors(c: Config, s: State, gone: seq<int>, q: int)
    requires Mirrored(s, q) && NoDup(gone)
    requires forall p | p in gone :: p in s.rows
    ensures Mirrored(MissAll(c, s, gone), q)
  {
    hide Miss, SameRest, Mirrored;
    if gone != [] {
      var rest, p := gone[..|gone| - 1], gone[|gone| - 1];
      MissAllMirrors(c, s, rest, q);
      MissMirrors(c, MissAll(c, s, rest), p, q);
    }
  }

  lemma MissMirrors(c: Config, s: State, p: int, q: int)
    requires Mirrored(s, q) && p in s.rows
    ensures Mirrored(Miss(c, s, p), q)
  {
    var s1 := Put(s, p, s.rows[p].(missing := s.rows[p].missing + 1));
    ShutMirrors(s1, p, WentAway, q);
  }

  lemma {:induction false} DropAllMirrors(s: State, ps: seq<int>, q: int)
    requires Mirrored(s, q)
    requires forall p | p in ps :: p in s.rows
    ensures Mirrored(DropAll(s, ps), q)
  {
    hide Drop, SameRest, Mirrored;
    if ps != [] {
      var rest, p := ps[..|ps| - 1], ps[|ps| - 1];
      DropAllMirrors(s, rest, q);
      DropMirrors(DropAll(s, rest), p, q);
    }
  }

  lemma DropMirrors(s: State, p: int, q: int)
    requires Mirrored(s, q) && p in s.rows
    ensures Mirrored(Drop(s, p), q)
  {
    ShutMirrors(s, p, Disconnected, q);
  }

  lemma SyncMirrors(c: Config, s: State, snap: Snapshot, visits: seq<Visit>, gone: seq<int>, q: int)
    requires c.samePort && Mirrored(s, q) && Legal(s, Sync(snap, visits, gone))
    requires PlainPin(SyncStep(c, s, snap, visits, gone).rows, q)
    ensures Mirrored(SyncStep(c, s, snap, visits, gone), q)
  {
    hide ObserveAll, MissAll, Seen;
    var b := Based(s, snap);
    SyncRows(c, s, snap, visits, gone);
    forall v | v in visits ensures v.port in snap { InPorts(visits, v); }
    ObserveAllKeys(c, b, snap, visits);
    ObserveAllMirrors(c, b, snap, visits, q);
    MissAllMirrors(c, ObserveAll(c, b, snap, visits), gone, q);
  }

  lemma RelocateMirrors(s: State, p: int, local: int, q: int)
    requires Mirrored(s, q) && p in s.rows
    ensures Mirrored(Relocate(s, p, local), q)
  {
    var s1 := Put(s, p, s.rows[p].(pinnedLocal := local)).(sticky := s.sticky - {p});
    ShutMirrors(s1, p, Relocating, q);
  }

  lemma PutApplyMirrors(c: Config, s: State, p: int, r: Row, env: Env, q: int)
    requires c.samePort && Mirrored(s, q) && p in s.rows && r.tunnel == s.rows[p].tunnel
    requires p == q ==> Plain(r.pinnedLocal, q)
    ensures Mirrored(Apply(c, Put(s, p, r), p, env), q)
  {
    hide Apply;
    ApplyMirrors(c, Put(s, p, r), p, env, q);
  }

  lemma SetLocalPortMirrors(c: Config, s: State, p: int, local: int, remember: bool, env: Env, q: int)
    requires c.samePort && Mirrored(s, q)
    requires PlainPin(SetLocalPortStep(c, s, p, local, remember, env).rows, q)
    ensures Mirrored(SetLocalPortStep(c, s, p, local, remember, env), q)
  {
    hide Apply, Relocate, Persist;
    SetLocalPortRows(c, s, p, local, remember, env);
    if p in s.rows && 0 <= local <= 65535 {
      RelocateMirrors(s, p, local, q);
      RelocateRow(s, p, local);
      ApplyMirrors(c, Relocate(s, p, local), p, env, q);
    }
  }

  lemma SetPolicyMirrors(c: Config, s: State, policy: Policy, visits: seq<Visit>, q: int)
    requires c.samePort && Mirrored(s, q) && PlainPin(s.rows, q) && Legal(s, SetPolicy(policy, visits))
    ensures Mirrored(SetPolicyStep(c, s, policy, visits), q)
  {
    hide ApplyAll;
    forall v | v in visits ensures v.port in s.rows { InPorts(visits, v); }
    ApplyAllMirrors(c, s.(rows := MarkPause(s, policy), policy := policy), visits, q);
  }

  lemma ConnectMirrors(c: Config, s: State, d: nat, visits: seq<Visit>, q: int)
    requires c.samePort && Mirrored(s, q) && PlainPin(s.rows, q) && Legal(s, Connect(d, visits))
    ensures Mirrored(ConnectStep(c, s, d, visits), q)
  {
    hide ApplyAll;
    forall v | v in visits ensures v.port in s.rows { InPorts(visits, v); }
    ApplyAllMirrors(c, s.(dialer := Some(d)), visits, q);
  }

  lemma StepMirrors(c: Config, s: State, op: Op, q: int)
    requires c.samePort && Mirrored(s, q) && Legal(s, op)
    requires PlainPin(s.rows, q) && PlainPin(Step(c, s, op).rows, q)
    ensures Mirrored(Step(c, s, op), q)
  {
    hide Apply, SetPolicyStep, ConnectStep, DropAll, SyncStep, SetLocalPortStep, Persist;
    match op
    case Sync(snap, visits, gone) => SyncMirrors(c, s, snap, visits, gone, q);
    case SetPolicy(policy, visits) => SetPolicyMirrors(c, s, policy, visits, q);
    case Connect(d, visits) => ConnectMirrors(c, s, d, visits, q);
    case Disconnect(order) => DropAllMirrors(s.(dialer := None), order, q);
    case CycleMode(p, env) =>
      if p in s.rows {
        var mode := s.rows[p].mode.Next();
        PutApplyMirrors(c, s, p, s.rows[p].(mode := mode, pausedKeep := s.rows[p].pausedKeep && mode.Auto?,
                                            err := if mode.Off? then s.rows[p].err else None), env, q);
      }
    case ForwardNow(p, env) =>
      if p in s.rows {
        PutApplyMirrors(c, s, p, s.rows[p].(mode := S.On, pausedKeep := false, err := None), env, q);
      }
    case SetLocalPort(p, local, remember, env) => SetLocalPortMirrors(c, s, p, local, remember, env, q);
    case _ =>
  }

  /** Under --same-port, a port whose own pin could never get another port has a tunnel only on its own number,
      in every run and whatever the other ports' pins are. */
  lemma {:induction false} SamePortMirrors(c: Config, tr: seq<State>, ops: seq<Op>, n: nat, q: int)
    requires Run(c, tr, ops) && n <= |ops| && c.samePort
    requires forall k | 0 <= k <= n :: PlainPin(tr[k].rows, q)
    ensures Mirrored(tr[n], q)
  {
    hide Step, Legal, PlainPin;
    if n > 0 {
      SamePortMirrors(c, tr, ops, n - 1, q);
      assert Legal(tr[n - 1], ops[n - 1]) && tr[n] == Step(c, tr[n - 1], ops[n - 1]);
      StepMirrors(c, tr[n - 1], ops[n - 1], q);
    }
  }
}

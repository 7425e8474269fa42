/** How one call changes one row: the part of each call of internal/tunnel/manager.go that does
    not depend on which local port was free. */
module TunnelFrames {
  import opened Wrappers
  import opened Schemes
  import opened Services
  import opened Policy
  import opened Allocation
  import opened TunnelModel
  import S = Settings

  /** The row of p after the call, up to tunnel, skip reason and error. */
  ghost predicate RowStep(c: Config, s: State, op: Op, t: State, p: int)
    requires p in t.rows
  {
    var r' := t.rows[p];
    match op
    case Sync(snap, _, _) =>
      if p in snap then Kin(Seen(c, Based(s, snap), p, snap[p]), r')
      else p in s.rows && s.rows[p].missing + 1 < c.grace && r' == s.rows[p].(missing := s.rows[p].missing + 1)
    case SetPolicy(policy, _) => p in s.rows && Kin(MarkPause(s, policy)[p], r')
    case Connect(_, _) => p in s.rows && Kin(s.rows[p], r')
    case Disconnect(_) => p in s.rows && r' == s.rows[p].(tunnel := None, missing := 0)
    case CycleMode(q, _) =>
      && p in s.rows
      && if p == q then Kin(s.rows[p].(mode := s.rows[p].mode.Next(),
                                       pausedKeep := s.rows[p].pausedKeep && s.rows[p].mode.Next().Auto?), r')
         else r' == s.rows[p]
    case ForwardNow(q, _) =>
      && p in s.rows
      && if p == q && !s.rows[p].mode.Off? then Kin(s.rows[p].(mode := S.On, pausedKeep := false), r')
         else r' == s.rows[p]
    case SetLocalPort(q, local, _, _) =>
      && p in s.rows
      && if p == q && 0 <= local <= 65535 then Kin(s.rows[p].(pinnedLocal := local), r')
         else r' == s.rows[p]
    case CycleScheme(q) =>
      && p in s.rows
      && r' == if p == q then Schemed(s.rows[p], s.rows[p].scheme.Next()) else s.rows[p]
    case SetScheme(q, scheme) =>
      && p in s.rows
      && r' == if p == q then Schemed(s.rows[p], scheme) else s.rows[p]
    case SetLabel(q, name) =>
      && p in s.rows
      && r' == if p == q then s.rows[p].(name := name) else s.rows[p]
    case ObserveScheme(q, scheme) =>
      && p in s.rows
      && r' == if p == q && !scheme.Unknown? && !s.rows[p].pinned then s.rows[p].(scheme := scheme) else s.rows[p]
    case Close => p in s.rows && r' == s.rows[p].(tunnel := None)
  }

  function Schemed(r: Row, scheme: Scheme): Row { r.(scheme := scheme, pinned := !scheme.Unknown?) }

  /** Which ports are listed after the call. */
  ghost predicate KeysStep(c: Config, s: State, op: Op, t: State) {
    if op.Sync? then
      forall p :: p in t.rows <==> p in op.snap || (p in s.rows && s.rows[p].missing + 1 < c.grace)
    else t.rows.Keys == s.rows.Keys
  }

  /** What the call leaves of the rest. */
  ghost predicate RestStep(s: State, op: Op, t: State) {
    && t.policy == (if op.SetPolicy? then op.policy else s.policy)
    && t.dialer == (if op.Connect? then Some(op.dialer) else if op.Disconnect? then None else s.dialer)
    && t.haveBase == (s.haveBase || op.Sync?)
    && t.baseline == (if op.Sync? && !s.haveBase then op.snap.Keys else s.baseline)
  }

  /** The port whose decisions the call writes to the settings, if it writes any. */
  function Persists(s: State, op: Op): Option<int> {
    match op
    case CycleMode(p, _) => if p in s.rows then Some(p) else None
    case SetLocalPort(p, local, remember, _) =>
      if p in s.rows && 0 <= local <= 65535 && remember then Some(p) else None
    case CycleScheme(p) => if p in s.rows then Some(p) else None
    case SetScheme(p, _) => if p in s.rows then Some(p) else None
    case SetLabel(p, _) => if p in s.rows then Some(p) else None
    case _ => None
  }

  /** What the call leaves in the settings. */
  ghost predicate StoreStep(c: Config, s: State, op: Op, t: State) {
    if c.remembers && Persists(s, op).Some? then
      var p := Persists(s, op).value;
      p in t.rows && t.store == S.Stored(s.store, p, S.Encode(DecisionOf(t.rows[p])))
    else t.store == s.store
  }

  /** The whole frame of a call. */
  ghost predicate Frame(c: Config, s: State, op: Op, t: State) {
    && KeysStep(c, s, op, t) && RestStep(s, op, t) && StoreStep(c, s, op, t)
    && forall p | p in t.rows :: RowStep(c, s, op, t, p)
  }

  lemma TryOpenRow(c: Config, s: State, p: int, env: Env)
    requires p in s.rows && s.dialer.Some?
    ensures Kin(s.rows[p], TryOpen(c, s, p, env).rows[p])
  {
    hide Answer;
    var r, r' := s.rows[p], TryOpen(c, s, p, env).rows[p];
    assert r' == r.(tunnel := r'.tunnel, err := r'.err);
  }

  lemma ApplyRow(c: Config, s: State, p: int, env: Env)
    requires p in s.rows
    ensures Kin(s.rows[p], Apply(c, s, p, env).rows[p])
  {
    hide Verdict, TryOpen, SameRest;
    var s1 := Put(s, p, s.rows[p].(skip := Verdict(c.ip, s.policy, s.rows[p])));
    if s.dialer.Some? {
      TryOpenRow(c, s1, p, env);
    }
  }

  lemma ObserveRow(c: Config, s: State, p: int, svc: Service, env: Env)
    ensures Kin(Seen(c, s, p, svc), Observe(c, s, p, svc, env).rows[p])
  {
    hide Apply, Seen;
    ApplyRow(c, Put(s, p, Seen(c, s, p, svc)), p, env);
  }

  lemma MissRow(c: Config, s: State, p: int)
    requires p in s.rows
    ensures var t, r := Miss(c, s, p), s.rows[p];
            && t.rows == (if r.missing + 1 < c.grace then s.rows[p := r.(missing := r.missing + 1)] else s.rows - {p})
  {
  }

  lemma DropRow(s: State, p: int)
    requires p in s.rows
    ensures var t := Drop(s, p);
            && t.rows == s.rows[p := s.rows[p].(tunnel := None, missing := 0)]
  {
    if s.rows[p].tunnel.None? {
      assert s.rows[p].(tunnel := None, missing := 0) == s.rows[p].(missing := 0);
    }
  }

  lemma {:induction false} ApplyAllRows(c: Config, s: State, vs: seq<Visit>)
    requires forall v | v in vs :: v.port in s.rows
    ensures var t := ApplyAll(c, s, vs);
            && (forall p | p in s.rows :: Kin(s.rows[p], t.rows[p]))
  {
    hide Apply;
    if vs != [] {
      ApplyAllRows(c, s, vs[..|vs| - 1]);
      ApplyRow(c, ApplyAll(c, s, vs[..|vs| - 1]), vs[|vs| - 1].port, vs[|vs| - 1].env);
    }
  }

  lemma NoDupPrefix(vs: seq<Visit>)
    requires vs != [] && NoDup(PortsOf(vs))
    ensures NoDup(PortsOf(vs[..|vs| - 1]))
    ensures forall v | v in vs[..|vs| - 1] :: v.port != vs[|vs| - 1].port
  {
    forall v | v in vs[..|vs| - 1] ensures v.port != vs[|vs| - 1].port {
      var i :| 0 <= i < |vs| - 1 && vs[i] == v;
      assert PortsOf(vs)[i] != PortsOf(vs)[|vs| - 1];
    }
  }

  lemma {:induction false} ObserveAllRows(c: Config, s: State, snap: Snapshot, vs: seq<Visit>)
    requires forall v | v in vs :: v.port in snap
    requires NoDup(PortsOf(vs))
    ensures var t := ObserveAll(c, s, snap, vs);
            && (forall v | v in vs :: v.port in t.rows && Kin(Seen(c, s, v.port, snap[v.port]), t.rows[v.port]))
            && (forall p | p in s.rows && (forall v | v in vs :: v.port != p) :: p in t.rows && t.rows[p] == s.rows[p])
            && (forall p | p in t.rows && (forall v | v in vs :: v.port != p) :: p in s.rows)
  {
    hide Observe, Kin, S.Decode, S.Lookup;
    if vs != [] {
      var rest, v := vs[..|vs| - 1], vs[|vs| - 1];
      NoDupPrefix(vs);
      ObserveAllRows(c, s, snap, rest);
      assert vs == rest + [v];
      var t := ObserveAll(c, s, snap, rest);
      assert Seen(c, t, v.port, snap[v.port]) == Seen(c, s, v.port, snap[v.port]);
      ObserveRow(c, t, v.port, snap[v.port], v.env);
    }
  }

  lemma SeenAgain(c: Config, s: State, t: State, p: int, svc: Service)
    requires SameRest(s, t) && (p in s.rows <==> p in t.rows) && (p in s.rows ==> t.rows[p] == s.rows[p])
    ensures Seen(c, t, p, svc) == Seen(c, s, p, svc)
  {
  }

  /** The rows after the scan that missed `gone`. */
  function Aged(c: Config, rows: map<int, Row>, gone: seq<int>): map<int, Row> {
    map p | p in rows && (p in gone ==> rows[p].missing + 1 < c.grace) ::
      if p in gone then rows[p].(missing := rows[p].missing + 1) else rows[p]
  }

  lemma AgedSnoc(c: Config, rows: map<int, Row>, rest: seq<int>, p: int)
    requires p in rows && p !in rest
    ensures var r, m := rows[p], Aged(c, rows, rest);
            && p in m && m[p] == r
            && Aged(c, rows, rest + [p]) ==
               if r.missing + 1 < c.grace then m[p := r.(missing := r.missing + 1)] else m - {p}
  {
  }

  lemma AgedNone(c: Config, rows: map<int, Row>)
    ensures Aged(c, rows, []) == rows
  {
  }

  lemma {:induction false} MissAllRows(c: Config, s: State, gone: seq<int>)
    requires NoDup(gone)
    requires forall p | p in gone :: p in s.rows
    ensures MissAll(c, s, gone).rows == Aged(c, s.rows, gone)
  {
    hide Miss, SameRest, Aged, NoDup;
    if gone == [] {
      AgedNone(c, s.rows);
    } else {
      var rest, p := gone[..|gone| - 1], gone[|gone| - 1];
      Fronts(gone);
      MissAllRows(c, s, rest);
      MissNext(c, MissAll(c, s, rest), s.rows, rest, p);
      assert gone == rest + [p];
    }
  }

  lemma MissNext(c: Config, m: State, rows: map<int, Row>, rest: seq<int>, p: int)
    requires m.rows == Aged(c, rows, rest) && p in rows && p !in rest
    ensures p in m.rows && Miss(c, m, p).rows == Aged(c, rows, rest + [p])
  {
    hide Miss, Aged;
    AgedSnoc(c, rows, rest, p);
    MissRow(c, m, p);
  }

  lemma Fronts(gone: seq<int>)
    requires NoDup(gone) && gone != []
    ensures NoDup(gone[..|gone| - 1]) && gone[|gone| - 1] !in gone[..|gone| - 1]
  {
  }

  lemma {:induction false} DropAllRows(s: State, ps: seq<int>)
    requires forall p | p in ps :: p in s.rows
    ensures var t := DropAll(s, ps);
            && (forall p | p in ps :: t.rows[p] == s.rows[p].(tunnel := None, missing := 0))
            && (forall p | p in s.rows && p !in ps :: t.rows[p] == s.rows[p])
  {
    hide Drop, SameRest;
    if ps != [] {
      var rest, p := ps[..|ps| - 1], ps[|ps| - 1];
      DropAllRows(s, rest);
      var m, t := DropAll(s, rest), DropAll(s, ps);
      DropRow(m, p);
      assert ps == rest + [p];
      forall q | q in s.rows ensures t.rows[q] == if q in ps then s.rows[q].(tunnel := None, missing := 0) else s.rows[q] {
        assert t.rows[q] == if q == p then m.rows[p].(tunnel := None, missing := 0) else m.rows[q];
      }
    }
  }

  /** The rows once every scanned port has had its turn. */
  lemma ScannedRows(c: Config, b: State, snap: Snapshot, visits: seq<Visit>)
    requires Lists(PortsOf(visits), snap.Keys) && forall v | v in visits :: v.port in snap
    ensures var m := ObserveAll(c, b, snap, visits);
            && (forall p | p in snap :: p in m.rows && Kin(Seen(c, b, p, snap[p]), m.rows[p]))
            && (forall p | p !in snap :: (p in m.rows <==> p in b.rows) && (p in b.rows ==> m.rows[p] == b.rows[p]))
  {
    hide ObserveAll, Seen, Kin;
    ObserveAllRows(c, b, snap, visits);
    forall p | p in snap ensures exists v | v in visits :: v.port == p {
      var i :| 0 <= i < |visits| && PortsOf(visits)[i] == p;
      assert visits[i] in visits;
    }
  }

  /** What the two loops of a scan together do to the row of p. */
  lemma SyncRow(c: Config, s: State, m: State, t: State, snap: Snapshot, visits: seq<Visit>, gone: seq<int>, p: int)
    requires if p in snap then p in m.rows && Kin(Seen(c, Based(s, snap), p, snap[p]), m.rows[p])
             else (p in m.rows <==> p in s.rows) && (p in s.rows ==> m.rows[p] == s.rows[p])
    requires p in gone <==> p in s.rows && p !in snap
    requires t.rows == Aged(c, m.rows, gone)
    ensures p in t.rows <==> p in snap || (p in s.rows && s.rows[p].missing + 1 < c.grace)
    ensures p in t.rows ==> RowStep(c, s, Sync(snap, visits, gone), t, p)
  {
    hide Seen, Kin, Based;
  }

  lemma SyncRows(c: Config, s: State, snap: Snapshot, visits: seq<Visit>, gone: seq<int>)
    requires Legal(s, Sync(snap, visits, gone))
    ensures var op, t := Sync(snap, visits, gone), SyncStep(c, s, snap, visits, gone);
            && KeysStep(c, s, op, t) && RestStep(s, op, t) && t.store == s.store
            && forall p | p in t.rows :: RowStep(c, s, op, t, p)
  {
    hide ObserveAll, MissAll, Seen, Kin, Aged, RowStep;
    forall v | v in visits ensures v.port in snap { InPorts(visits, v); }
    var b := Based(s, snap);
    ObserveAllKeys(c, b, snap, visits);
    ScannedRows(c, b, snap, visits);
    var m, t := ObserveAll(c, b, snap, visits), SyncStep(c, s, snap, visits, gone);
    MissAllRows(c, m, gone);
    forall p ensures p in t.rows <==> p in snap || (p in s.rows && s.rows[p].missing + 1 < c.grace)
             ensures p in t.rows ==> RowStep(c, s, Sync(snap, visits, gone), t, p)
    {
      SyncRow(c, s, m, t, snap, visits, gone, p);
    }
  }

  lemma CycleModeRows(c: Config, s: State, p: int, env: Env)
    ensures Frame(c, s, CycleMode(p, env), CycleModeStep(c, s, p, env))
  {
    hide Apply, Kin, S.Stored, S.Encode, DecisionOf;
    if p in s.rows { CycledRow(c, s, p, env); }
  }

  lemma CycledIs(c: Config, s: State, p: int, env: Env)
    requires p in s.rows
    ensures var r := s.rows[p]; var mode := r.mode.Next();
      var r1 := r.(mode := mode, pausedKeep := r.pausedKeep && mode.Auto?, err := if mode.Off? then r.err else None);
      CycleModeStep(c, s, p, env).rows == Apply(c, Put(s, p, r1), p, env).rows
  {
    hide Apply;
  }

  lemma CycledRow(c: Config, s: State, p: int, env: Env)
    requires p in s.rows
    ensures var r := s.rows[p]; var mode := r.mode.Next();
      Kin(r.(mode := mode, pausedKeep := r.pausedKeep && mode.Auto?), CycleModeStep(c, s, p, env).rows[p])
  {
    hide Apply, Kin, CycleModeStep;
    var r := s.rows[p];
    var mode := r.mode.Next();
    var r1 := r.(mode := mode, pausedKeep := r.pausedKeep && mode.Auto?, err := if mode.Off? then r.err else None);
    var t := Apply(c, Put(s, p, r1), p, env);
    ApplyRow(c, Put(s, p, r1), p, env);
    CycledIs(c, s, p, env);
    KinThroughError(r, r1, t.rows[p]);
  }

  /** Clearing an error on the way makes no difference to kinship. */
  lemma KinThroughError(r: Row, r1: Row, r2: Row)
    requires Kin(r1, r2) && r1 == r.(mode := r1.mode, pausedKeep := r1.pausedKeep, err := r1.err)
    ensures Kin(r.(mode := r1.mode, pausedKeep := r1.pausedKeep), r2)
  {
  }

  lemma ForwardNowRows(c: Config, s: State, p: int, env: Env)
    ensures Frame(c, s, ForwardNow(p, env), ForwardNowStep(c, s, p, env))
  {
    hide Apply;
    if p in s.rows {
      ApplyRow(c, Put(s, p, s.rows[p].(mode := S.On, pausedKeep := false, err := None)), p, env);
    }
  }

  lemma SetLocalPortRows(c: Config, s: State, p: int, local: int, remember: bool, env: Env)
    ensures Frame(c, s, SetLocalPort(p, local, remember, env), SetLocalPortStep(c, s, p, local, remember, env))
  {
    hide Apply, S.Stored, S.Encode, DecisionOf, Relocate;
    if 0 <= local <= 65535 && p in s.rows {
      RelocateRow(s, p, local);
      ApplyRow(c, Relocate(s, p, local), p, env);
    }
  }

  lemma RelocateRow(s: State, p: int, local: int)
    requires p in s.rows
    ensures Kin(s.rows[p].(pinnedLocal := local), Relocate(s, p, local).rows[p])
  {
  }

  lemma SetSchemeRows(c: Config, s: State, p: int, scheme: Scheme)
    ensures Frame(c, s, SetScheme(p, scheme), SetSchemeStep(c, s, p, scheme))
  {
    hide S.Stored, S.Encode, DecisionOf;
  }

  lemma SetLabelRows(c: Config, s: State, p: int, name: string)
    ensures Frame(c, s, SetLabel(p, name), SetLabelStep(c, s, p, name))
  {
    hide S.Stored, S.Encode, DecisionOf;
  }

  lemma ObserveSchemeRows(c: Config, s: State, p: int, scheme: Scheme)
    ensures Frame(c, s, ObserveScheme(p, scheme), ObserveSchemeStep(s, p, scheme))
  {
    hide S.Stored, S.Encode, DecisionOf;
  }

  lemma CycleSchemeRows(c: Config, s: State, p: int)
    ensures Frame(c, s, CycleScheme(p), Step(c, s, CycleScheme(p)))
  {
    hide S.Stored, S.Encode, DecisionOf;
  }

  lemma SetPolicyRows(c: Config, s: State, policy: Policy, visits: seq<Visit>)
    requires Legal(s, SetPolicy(policy, visits))
    ensures Frame(c, s, SetPolicy(policy, visits), SetPolicyStep(c, s, policy, visits))
  {
    hide ApplyAll, MarkPause;
    forall v | v in visits ensures v.port in s.rows { InPorts(visits, v); }
    ApplyAllRows(c, s.(rows := MarkPause(s, policy), policy := policy), visits);
  }

  lemma LinkRows(c: Config, s: State, op: Op)
    requires Legal(s, op) && (op.Connect? || op.Disconnect?)
    ensures Frame(c, s, op, Step(c, s, op))
  {
    hide ApplyAll, DropAll;
    match op
    case Connect(d, visits) =>
      forall v | v in visits ensures v.port in s.rows { InPorts(visits, v); }
      ApplyAllRows(c, s.(dialer := Some(d)), visits);
    case Disconnect(order) => DropAllRows(s.(dialer := None), order);
  }

  /** Every call changes every row as `RowStep` says, lists the ports `KeysStep` says, and
      writes the settings `StoreStep` says. */
  lemma StepRows(c: Config, s: State, op: Op)
    requires Legal(s, op)
    ensures Frame(c, s, op, Step(c, s, op))
  {
    hide SyncStep, SetPolicyStep, CycleModeStep, ForwardNowStep, SetLocalPortStep, SetSchemeStep, SetLabelStep,
      ObserveSchemeStep;
    match op
    case Sync(snap, visits, gone) => SyncRows(c, s, snap, visits, gone);
    case SetPolicy(policy, visits) => SetPolicyRows(c, s, policy, visits);
    case Connect(_, _) => LinkRows(c, s, op);
    case Disconnect(_) => LinkRows(c, s, op);
    case CycleMode(p, env) => CycleModeRows(c, s, p, env);
    case ForwardNow(p, env) => ForwardNowRows(c, s, p, env);
    case SetLocalPort(p, local, remember, env) => SetLocalPortRows(c, s, p, local, remember, env);
    case CycleScheme(p) => CycleSchemeRows(c, s, p);
    case Close =>
    case SetScheme(p, scheme) => SetSchemeRows(c, s, p, scheme);
    case SetLabel(p, name) => SetLabelRows(c, s, p, name);
    case ObserveScheme(p, scheme) => ObserveSchemeRows(c, s, p, scheme);
  }
}

/** The tunnel manager as a state machine on values: internal/tunnel/manager.go.

    A `Row` is the manager's private record for one remote port and `State` is everything one
    call can change. Each call of the manager is one `Op`; `Step` is its effect. Where the
    program iterates over a map, the op carries the order in which the ports came up, and
    with every visited port the behaviour of the rest of the machine at that moment. */
module TunnelModel {
  import opened Wrappers
  import opened Schemes
  import opened Services
  import opened Policy
  import opened Allocation
  import S = Settings

  /** A live forwarder: its listener's port, its remap mark, the connection it dials over
      and the remote address it dials. */
  datatype Tunnel = Tunnel(local: int, remapped: bool, dialer: nat, dialAddr: string)

  datatype Row = Row(
    svc: Service,
    tunnel: Option<Tunnel>,
    skip: Skip,
    err: Option<AllocError>,
    mode: S.Mode,
    pinnedLocal: int,
    name: string,
    preexisting: bool,
    pausedKeep: bool,
    missing: nat,
    scheme: Scheme,
    pinned: bool)

  datatype Reason = WentAway | Ruled(skip: Skip) | Relocating | Disconnected

  datatype Event =
    | Opened(port: int, local: int, remapped: bool)
    | Closed(port: int, local: int, reason: Reason)
    | Failed(port: int, err: AllocError)

  /** What is fixed when the manager is made. `dialAddr` is the address a service is dialed at. */
  datatype Config = Config(ip: IpRules, dialAddr: Service -> string, grace: nat, samePort: bool, remembers: bool)

  /** `held` are the local ports the process listens on; `store` is the host's part of the settings;
      `log` lists the events in the order in which the lock sections produced them. */
  datatype State = State(
    policy: Policy,
    rows: map<int, Row>,
    baseline: set<int>,
    haveBase: bool,
    dialer: Option<nat>,
    sticky: map<int, int>,
    held: set<int>,
    store: map<int, S.Port>,
    log: seq<Event>)

  /** A port that came up in a loop, and the machine around it at that moment. */
  datatype Visit = Visit(port: int, env: Env)

  // ---------------------------------------------------------------- one entry

  function Put(s: State, p: int, r: Row): State { s.(rows := s.rows[p := r]) }

  /** Why a row is not wanted, or NotSkipped when it is: the user's standing decision if
      there is one, otherwise the policy. */
  function Verdict(ip: IpRules, policy: Policy, r: Row): Skip {
    match r.mode
    case On => NotSkipped
    case Off => SwitchedOff
    case Auto =>
      if policy.paused && r.pausedKeep then NotSkipped
      else policy.Eval(ip, r.svc, r.preexisting)
  }

  predicate Wanted(ip: IpRules, policy: Policy, r: Row) { Verdict(ip, policy, r).NotSkipped? }

  /** What work on the row of p leaves alone: the other rows, the policy, the link, the baseline, the settings. */
  ghost predicate OnlyRow(s: State, t: State, p: int) {
    p in t.rows && t.rows == s.rows[p := t.rows[p]] && SameRest(s, t)
  }

  ghost predicate SameRest(s: State, t: State) {
    && t.policy == s.policy && t.dialer == s.dialer
    && t.baseline == s.baseline && t.haveBase == s.haveBase && t.store == s.store
  }

  /** r2 is r1 with another tunnel, skip reason or error. */
  ghost predicate Kin(r1: Row, r2: Row) {
    r2 == r1.(tunnel := r2.tunnel, skip := r2.skip, err := r2.err)
  }

  /** Tears down the tunnel of p, releasing its port at once. */
  function Shut(s: State, p: int, reason: Reason): (t: State)
    requires p in s.rows && s.rows[p].tunnel.Some?
    ensures OnlyRow(s, t, p)
  {
    var local := s.rows[p].tunnel.value.local;
    s.(rows := s.rows[p := s.rows[p].(tunnel := None)],
       held := s.held - {local},
       log := s.log + [Closed(p, local, reason)])
  }

  function ShutIfLive(s: State, p: int, reason: Reason): (t: State)
    requires p in s.rows
    ensures OnlyRow(s, t, p)
  {
    if s.rows[p].tunnel.Some? then Shut(s, p, reason) else s
  }

  /** Opens a tunnel for p, or records why it cannot be opened. */
  function TryOpen(c: Config, s: State, p: int, env: Env): (t: State)
    requires p in s.rows && s.dialer.Some?
    ensures OnlyRow(s, t, p)
  {
    var r := s.rows[p];
    match Answer(c.samePort, s.sticky, s.held, p, r.pinnedLocal, env)
    case Refused(err) =>
      if r.err == Some(err) then s
      else Put(s, p, r.(err := Some(err))).(log := s.log + [Failed(p, err)])
    case Bound(local, remapped) =>
      s.(rows := s.rows[p := r.(err := None, tunnel := Some(Tunnel(local, remapped, s.dialer.value, c.dialAddr(r.svc))))],
         sticky := s.sticky[p := local],
         held := s.held + {local},
         log := s.log + [Opened(p, local, remapped)])
  }

  /** TryOpen, spelled out on the row it changes. */
  lemma TryOpenIs(c: Config, s: State, p: int, env: Env)
    requires p in s.rows && s.dialer.Some?
    ensures var r, t := s.rows[p], TryOpen(c, s, p, env);
            match Answer(c.samePort, s.sticky, s.held, p, r.pinnedLocal, env)
            case Refused(err) =>
              t == s.(rows := s.rows[p := r.(err := Some(err))],
                      log := if r.err == Some(err) then s.log else s.log + [Failed(p, err)])
            case Bound(local, remapped) =>
              t == s.(rows := s.rows[p := r.(err := None,
                                             tunnel := Some(Tunnel(local, remapped, s.dialer.value, c.dialAddr(r.svc))))],
                      sticky := s.sticky[p := local], held := s.held + {local},
                      log := s.log + [Opened(p, local, remapped)])
  {
    hide Answer;
    var r := s.rows[p];
    if r.err.Some? {
      assert r.(err := Some(r.err.value)) == r && s.rows[p := r] == s.rows;
    }
  }

  /** Brings the tunnel of p in line with policy, mode, pause and link. */
  function Apply(c: Config, s: State, p: int, env: Env): (t: State)
    requires p in s.rows
    ensures OnlyRow(s, t, p)
  {
    var v := Verdict(c.ip, s.policy, s.rows[p]);
    var s1 := Put(s, p, s.rows[p].(skip := v));
    if !v.NotSkipped? then ShutIfLive(s1, p, Ruled(v))
    else if s.rows[p].tunnel.Some? || s.dialer.None? then s1
    else TryOpen(c, s1, p, env)
  }

  // ---------------------------------------------------------------- loops

  /** Applies every visited port, in order. */
  function ApplyAll(c: Config, s: State, vs: seq<Visit>): (t: State)
    requires forall v | v in vs :: v.port in s.rows
    ensures t.rows.Keys == s.rows.Keys && SameRest(s, t)
  {
    if vs == [] then s
    else Apply(c, ApplyAll(c, s, vs[..|vs| - 1]), vs[|vs| - 1].port, vs[|vs| - 1].env)
  }

  /** A row for a port seen for the first time, with the decisions remembered for it. */
  function Fresh(c: Config, s: State, p: int, svc: Service): Row {
    var d := if c.remembers then S.Decode(S.Lookup(s.store, p)) else S.Decode(S.NO_PORT);
    Row(svc, None, NotSkipped, None, d.mode, d.local, d.name, p in s.baseline, false, 0, d.scheme, !d.scheme.Unknown?)
  }

  /** The row of p after a scan that lists it. */
  function Seen(c: Config, s: State, p: int, svc: Service): Row {
    var r := if p in s.rows then s.rows[p] else Fresh(c, s, p, svc);
    r.(missing := 0, svc := if svc.cmd == "" then svc.(cmd := r.svc.cmd) else svc)
  }

  function Observe(c: Config, s: State, p: int, svc: Service, env: Env): (t: State)
    ensures OnlyRow(s, t, p)
  {
    Apply(c, Put(s, p, Seen(c, s, p, svc)), p, env)
  }

  function ObserveAll(c: Config, s: State, snap: Snapshot, vs: seq<Visit>): (t: State)
    requires forall v | v in vs :: v.port in snap
    ensures SameRest(s, t)
  {
    if vs == [] then s
    else
      var v := vs[|vs| - 1];
      Observe(c, ObserveAll(c, s, snap, vs[..|vs| - 1]), v.port, snap[v.port], v.env)
  }

  /** One more scan without p; at the end of the grace period the row goes. */
  function Miss(c: Config, s: State, p: int): (t: State)
    requires p in s.rows
    ensures SameRest(s, t)
  {
    var s1 := Put(s, p, s.rows[p].(missing := s.rows[p].missing + 1));
    if s1.rows[p].missing < c.grace then s1
    else
      var s2 := ShutIfLive(s1, p, WentAway);
      s2.(rows := s2.rows - {p})
  }

  function MissAll(c: Config, s: State, gone: seq<int>): (t: State)
    requires NoDup(gone)
    requires forall p | p in gone :: p in s.rows
    ensures t.rows.Keys <= s.rows.Keys && SameRest(s, t)
    ensures forall p | p in s.rows && p !in gone :: p in t.rows && t.rows[p] == s.rows[p]
  {
    if gone == [] then s
    else
      var rest, p := gone[..|gone| - 1], gone[|gone| - 1];
      Miss(c, MissAll(c, s, rest), p)
  }

  /** Closes what is live and forgives what was missed: the link is down. */
  function Drop(s: State, p: int): (t: State)
    requires p in s.rows
    ensures OnlyRow(s, t, p)
  {
    var s1 := ShutIfLive(s, p, Disconnected);
    Put(s1, p, s1.rows[p].(missing := 0))
  }

  function DropAll(s: State, ps: seq<int>): (t: State)
    requires forall p | p in ps :: p in s.rows
    ensures t.rows.Keys == s.rows.Keys && SameRest(s, t)
  {
    if ps == [] then s else Drop(DropAll(s, ps[..|ps| - 1]), ps[|ps| - 1])
  }

  predicate NoDup(ps: seq<int>) { forall i, j | 0 <= i < j < |ps| :: ps[i] != ps[j] }

  predicate Ascending(ps: seq<int>) { forall i, j | 0 <= i < j < |ps| :: ps[i] < ps[j] }

  function PortsOf(vs: seq<Visit>): (ps: seq<int>)
    ensures |ps| == |vs| && forall i | 0 <= i < |vs| :: ps[i] == vs[i].port
  {
    seq(|vs|, i requires 0 <= i < |vs| => vs[i].port)
  }

  ghost predicate Lists(ps: seq<int>, keys: set<int>) {
    NoDup(ps) && forall p :: p in ps <==> p in keys
  }

  // ---------------------------------------------------------------- calls

  function Based(s: State, snap: Snapshot): State {
    if s.haveBase then s else s.(baseline := snap.Keys, haveBase := true)
  }

  function MarkPause(s: State, policy: Policy): (rows: map<int, Row>)
    ensures rows.Keys == s.rows.Keys
    ensures forall p | p in rows :: rows[p] == s.rows[p].(pausedKeep := rows[p].pausedKeep)
  {
    if !s.policy.paused && policy.paused then
      map p | p in s.rows :: s.rows[p].(pausedKeep := s.rows[p].mode.Auto? && s.rows[p].tunnel.Some?)
    else if s.policy.paused && !policy.paused then
      map p | p in s.rows :: s.rows[p].(pausedKeep := false)
    else s.rows
  }

  function DecisionOf(r: Row): S.Decision {
    S.Decision(r.name, if r.pinned then r.scheme else Unknown, r.mode, r.pinnedLocal)
  }

  /** Writes a port's current decisions to the settings. */
  function Persist(c: Config, s: State, p: int): (t: State)
    ensures t == s.(store := t.store)
  {
    if !c.remembers || p !in s.rows then s
    else s.(store := S.Stored(s.store, p, S.Encode(DecisionOf(s.rows[p]))))
  }

  datatype Op =
    | Sync(snap: Snapshot, visits: seq<Visit>, gone: seq<int>)
    | SetPolicy(policy: Policy, visits: seq<Visit>)
    | Connect(dialer: nat, visits: seq<Visit>)
    | Disconnect(order: seq<int>)
    | CycleMode(port: int, env: Env)
    | ForwardNow(port: int, env: Env)
    | SetLocalPort(port: int, local: int, remember: bool, env: Env)
    | CycleScheme(port: int)
    | SetScheme(port: int, scheme: Scheme)
    | SetLabel(port: int, name: string)
    | ObserveScheme(port: int, scheme: Scheme)
    | Close

  /** The orders an op carries are orders the loops of the program can produce. */
  ghost predicate Legal(s: State, op: Op) {
    match op
    case Sync(snap, visits, gone) =>
      WellKeyed(snap) && Lists(PortsOf(visits), snap.Keys) && Lists(gone, s.rows.Keys - snap.Keys)
    case SetPolicy(_, visits) => Ascending(PortsOf(visits)) && Lists(PortsOf(visits), s.rows.Keys)
    case Connect(_, visits) => Ascending(PortsOf(visits)) && Lists(PortsOf(visits), s.rows.Keys)
    case Disconnect(order) => Ascending(order) && Lists(order, s.rows.Keys)
    case _ => true
  }

  lemma InPorts(vs: seq<Visit>, v: Visit)
    requires v in vs
    ensures v.port in PortsOf(vs)
  {
    var i :| 0 <= i < |vs| && vs[i] == v;
    assert PortsOf(vs)[i] == v.port;
  }

  lemma PortsMore(vs: seq<Visit>, v: Visit)
    ensures (set u | u in vs + [v] :: u.port) == (set u | u in vs :: u.port) + {v.port}
  {
    assert v in vs + [v];
  }

  /** The scanned ports are listed afterwards and nobody else is added. */
  lemma {:induction false} ObserveAllKeys(c: Config, s: State, snap: Snapshot, vs: seq<Visit>)
    requires forall v | v in vs :: v.port in snap
    ensures ObserveAll(c, s, snap, vs).rows.Keys == s.rows.Keys + (set v | v in vs :: v.port)
  {
    hide Observe, SameRest;
    if vs != [] {
      var rest, v := vs[..|vs| - 1], vs[|vs| - 1];
      ObserveAllKeys(c, s, snap, rest);
      PortsMore(rest, v);
      assert vs == rest + [v];
    }
  }

  ghost function SyncStep(c: Config, s: State, snap: Snapshot, visits: seq<Visit>, gone: seq<int>): State
    requires Legal(s, Sync(snap, visits, gone))
  {
    assert forall v | v in visits :: v.port in snap by {
      forall v | v in visits ensures v.port in snap { InPorts(visits, v); }
    }
    ObserveAllKeys(c, Based(s, snap), snap, visits);
    MissAll(c, ObserveAll(c, Based(s, snap), snap, visits), gone)
  }

  ghost function SetPolicyStep(c: Config, s: State, policy: Policy, visits: seq<Visit>): State
    requires Legal(s, SetPolicy(policy, visits))
  {
    assert forall v | v in visits :: v.port in s.rows by {
      forall v | v in visits ensures v.port in s.rows { InPorts(visits, v); }
    }
    ApplyAll(c, s.(rows := MarkPause(s, policy), policy := policy), visits)
  }

  ghost function ConnectStep(c: Config, s: State, d: nat, visits: seq<Visit>): State
    requires Legal(s, Connect(d, visits))
  {
    assert forall v | v in visits :: v.port in s.rows by {
      forall v | v in visits ensures v.port in s.rows { InPorts(visits, v); }
    }
    ApplyAll(c, s.(dialer := Some(d)), visits)
  }

  ghost function DisconnectStep(s: State, order: seq<int>): State
    requires Legal(s, Disconnect(order))
  {
    DropAll(s.(dialer := None), order)
  }

  function CycleModeStep(c: Config, s: State, p: int, env: Env): State {
    if p !in s.rows then s
    else
      var r := s.rows[p];
      var mode := r.mode.Next();
      var r1 := r.(mode := mode,
                   pausedKeep := r.pausedKeep && mode.Auto?,
                   err := if mode.Off? then r.err else None);
      Persist(c, Apply(c, Put(s, p, r1), p, env), p)
  }

  function ForwardNowStep(c: Config, s: State, p: int, env: Env): State {
    if p !in s.rows || s.rows[p].mode.Off? then s
    else Apply(c, Put(s, p, s.rows[p].(mode := S.On, pausedKeep := false, err := None)), p, env)
  }

  /** Takes the new pin, forgets the old assignment and closes the tunnel that sits on it. */
  function Relocate(s: State, p: int, local: int): (t: State)
    requires p in s.rows
    ensures OnlyRow(s, t, p)
  {
    var s1 := Put(s, p, s.rows[p].(pinnedLocal := local)).(sticky := s.sticky - {p});
    var s2 := ShutIfLive(s1, p, Relocating);
    Put(s2, p, s2.rows[p].(err := None))
  }

  function SetLocalPortStep(c: Config, s: State, p: int, local: int, remember: bool, env: Env): State {
    if !(0 <= local <= 65535) || p !in s.rows then s
    else
      var t := Apply(c, Relocate(s, p, local), p, env);
      if remember then Persist(c, t, p) else t
  }

  function SetSchemeStep(c: Config, s: State, p: int, scheme: Scheme): State {
    if p !in s.rows then s
    else Persist(c, Put(s, p, s.rows[p].(scheme := scheme, pinned := !scheme.Unknown?)), p)
  }

  function SetLabelStep(c: Config, s: State, p: int, name: string): State {
    if p !in s.rows then s else Persist(c, Put(s, p, s.rows[p].(name := name)), p)
  }

  function ObserveSchemeStep(s: State, p: int, scheme: Scheme): State {
    if scheme.Unknown? || p !in s.rows || s.rows[p].pinned then s
    else Put(s, p, s.rows[p].(scheme := scheme))
  }

  /** The local ports of the live tunnels. */
  function Locals(rows: map<int, Row>): set<int> {
    set p | p in rows && rows[p].tunnel.Some? :: rows[p].tunnel.value.local
  }

  function CloseStep(s: State): State {
    s.(rows := map p | p in s.rows :: s.rows[p].(tunnel := None), held := s.held - Locals(s.rows))
  }

  /** The effect of one call. */
  ghost function Step(c: Config, s: State, op: Op): State
    requires Legal(s, op)
  {
    match op
    case Sync(snap, visits, gone) => SyncStep(c, s, snap, visits, gone)
    case SetPolicy(policy, visits) => SetPolicyStep(c, s, policy, visits)
    case Connect(d, visits) => ConnectStep(c, s, d, visits)
    case Disconnect(order) => DisconnectStep(s, order)
    case CycleMode(p, env) => CycleModeStep(c, s, p, env)
    case ForwardNow(p, env) => ForwardNowStep(c, s, p, env)
    case SetLocalPort(p, local, remember, env) => SetLocalPortStep(c, s, p, local, remember, env)
    case CycleScheme(p) => if p in s.rows then SetSchemeStep(c, s, p, s.rows[p].scheme.Next()) else s
    case SetScheme(p, scheme) => SetSchemeStep(c, s, p, scheme)
    case SetLabel(p, name) => SetLabelStep(c, s, p, name)
    case ObserveScheme(p, scheme) => ObserveSchemeStep(s, p, scheme)
    case Close => CloseStep(s)
  }

  // ---------------------------------------------------------------- runs

  /** A manager nobody has called yet: it may already have been given a connection and settings. */
  predicate Initial(s: State) {
    s.rows == map[] && s.baseline == {} && !s.haveBase && s.sticky == map[] && s.held == {} && s.log == []
  }

  /** `tr` are the states of a run of the manager under the calls `ops`. */
  ghost predicate Run(c: Config, tr: seq<State>, ops: seq<Op>) {
    && c.grace > 0
    && |tr| == |ops| + 1
    && Initial(tr[0])
    && forall i | 0 <= i < |ops| :: Legal(tr[i], ops[i]) && tr[i + 1] == Step(c, tr[i], ops[i])
  }
}

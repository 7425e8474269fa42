/** The tunnel manager as the program has it: internal/tunnel/manager.go, objects changed in place.

    Every call is proved to have the effect of the corresponding `Op` of `TunnelModel`, so what is
    proved there about all runs is about these methods. Each method is one lock section. */
module Manager {
  import opened Wrappers
  import opened Schemes
  import opened Services
  import opened Policy
  import opened Allocation
  import opened Machine
  import opened TunnelModel
  import opened TunnelRuns
  import opened Text
  import F = Forwarder
  import St = Store
  import S = Settings

  /** The manager's private record for one remote port. */
  class Entry {
    var svc: Service
    var fwd: F.Forwarder?
    var skip: Skip
    var err: Option<AllocError>
    var mode: S.Mode
    var pinnedLocal: int
    var name: string
    var preexisting: bool
    var pausedKeep: bool
    var missing: nat
    var scheme: Scheme
    var pinned: bool

    constructor (r: Row)
      requires r.tunnel.None?
      ensures View() == r && fwd == null
    {
      svc, fwd, skip, err, mode, pinnedLocal := r.svc, null, r.skip, r.err, r.mode, r.pinnedLocal;
      name, preexisting, pausedKeep, missing, scheme, pinned :=
        r.name, r.preexisting, r.pausedKeep, r.missing, r.scheme, r.pinned;
    }

    function View(): Row
      reads this
    {
      Row(svc, if fwd == null then None else Some(fwd.View()), skip, err, mode, pinnedLocal, name,
          preexisting, pausedKeep, missing, scheme, pinned)
    }
  }

  /** Why a call about one port did not do what it was asked. */
  datatype Trouble = NotListed | IsOff | OutOfRange | Unopened(err: AllocError)

  function Failure(r: Row): Option<Trouble> {
    if r.err.Some? then Some(Unopened(r.err.value)) else None
  }

  datatype Want = Want(forward: bool, skip: Skip)

  lemma PutTwice(s: State, p: int, r1: Row, r2: Row)
    ensures Put(Put(s, p, r1), p, r2) == Put(s, p, r2)
  {
    assert s.rows[p := r1][p := r2] == s.rows[p := r2];
  }

  class Manager {
    const cfg: Config
    const table: PortTable
    const alloc: Allocator
    const settings: St.Store?
    const host: string

    var policy: Policy
    var entries: map<int, Entry>
    var baseline: set<int>
    var haveBase: bool
    var dialer: Option<nat>

    ghost var log: seq<Event>
    ghost var Repr: set<Entry>
    ghost var fwds: set<F.Forwarder>

    ghost predicate Valid()
      reads `entries, `Repr, `fwds, alloc`sticky, Repr, fwds
    {
      && alloc.table == table && alloc.samePort == cfg.samePort
      && (settings != null <==> cfg.remembers)
      && (forall p | p in alloc.sticky :: alloc.sticky[p] > 0)
      && (forall p | p in entries :: entries[p] in Repr && EntryValid(p, entries[p]))
    }

    ghost predicate EntryValid(p: int, e: Entry)
      reads `fwds, e, fwds
    {
      p > 0 && e.svc.port == p
      && (e.fwd != null ==> e.fwd in fwds && e.fwd.table == table && e.fwd.port == p && !e.fwd.stopped)
    }

    ghost function Rows(): map<int, Row>
      reads `entries, set p | p in entries :: entries[p]
    {
      map p | p in entries :: entries[p].View()
    }

    /** What this manager is on values. */
    ghost function Abs(): State
      reads this, alloc, table, settings, set p | p in entries :: entries[p]
    {
      State(policy, Rows(), baseline, haveBase, dialer, alloc.sticky, table.held,
            if settings == null then map[] else settings.HostOf(host).ports, log)
    }

    /** e is the entry of its port. */
    ghost predicate Mine(e: Entry)
      reads `entries, e`svc
    {
      e.svc.port in entries && entries[e.svc.port] == e
    }

    /** A manager made with these options, the grace period and the port ceiling defaulted where they are zero. */
    constructor (options: Config, table: PortTable, alloc: Allocator, settings: St.Store?, host: string, policy: Policy,
                 dialer: Option<nat>)
      requires alloc.table == table && alloc.samePort == options.samePort
      requires forall p | p in alloc.sticky :: alloc.sticky[p] > 0
      requires settings != null <==> options.remembers
      ensures Valid()
      ensures cfg.grace > 0 && cfg == options.(grace := if options.grace == 0 then 2 else options.grace)
      ensures Abs() == State(if policy.maxPort == 0 then policy.(maxPort := 65535) else policy, map[], {}, false, dialer,
                             alloc.sticky, table.held, if settings == null then map[] else settings.HostOf(host).ports, [])
      ensures alloc.sticky == map[] && table.held == {} ==> Initial(Abs())
      ensures fresh(Repr) && fresh(fwds)
    {
      this.cfg := if options.grace == 0 then options.(grace := 2) else options;
      this.table, this.alloc, this.settings, this.host := table, alloc, settings, host;
      this.policy := if policy.maxPort == 0 then policy.(maxPort := 65535) else policy;
      this.dialer, entries, baseline, haveBase := dialer, map[], {}, false;
      log, Repr, fwds := [], {}, {};
      new;
      assert Rows() == map[];
    }

    /** When only the entry of p and its forwarder have changed, so has only its row, and the other
        entries are as valid as before. */
    twostate lemma OnlyEntryChanged(p: int)
      requires old(Valid()) && entries == old(entries) && p in entries
      requires old(Repr) <= Repr && old(fwds) <= fwds
      requires forall q | q in entries && q != p :: unchanged(entries[q])
      requires forall f | f in old(fwds) && f != old(entries[p].fwd) :: unchanged(f)
      ensures Rows() == old(Rows())[p := entries[p].View()]
      ensures forall q | q in entries && q != p :: entries[q] in Repr && EntryValid(q, entries[q])
    {
      forall q | q in entries && q != p
        ensures entries[q].View() == old(entries[q].View()) && entries[q] in Repr && EntryValid(q, entries[q])
      {
        assert old(EntryValid(q, entries[q]) && EntryValid(p, entries[p]));
        assert entries[q].fwd != null ==> entries[q].fwd != old(entries[p].fwd);
        EntryStays(q);
      }
    }

    /** The user's standing decision if there is one, otherwise the policy. */
    function WantLocked(e: Entry): (w: Want)
      reads `policy, e
      ensures w == Want(Wanted(cfg.ip, policy, e.View()), Verdict(cfg.ip, policy, e.View()))
    {
      match e.mode
      case On => Want(true, NotSkipped)
      case Off => Want(false, SwitchedOff)
      case Auto =>
        if policy.paused && e.pausedKeep then Want(true, NotSkipped)
        else
          var skip := policy.Eval(cfg.ip, e.svc, e.preexisting);
          Want(skip.NotSkipped?, skip)
    }

    /** Tears down e's forwarder and releases its local port at once. */
    method CloseLocked(e: Entry, reason: Reason)
      requires Valid() && Mine(e) && e.fwd != null
      modifies this`log, e`fwd, e.fwd`stopped, table`held
      ensures Valid()
      ensures Abs() == Shut(old(Abs()), e.svc.port, reason)
    {
      hide Rows;
      ghost var s, r := Abs(), e.View();
      RowOf(e.svc.port);
      var fwd := e.fwd;
      e.fwd, log := null, log + [Closed(e.svc.port, fwd.local, reason)];
      fwd.Stop();
      fwd.Close();
      OnlyEntryChanged(e.svc.port);
      assert e.View() == r.(tunnel := None);
    }

    /** The row of an entry, as part of the whole. */
    lemma RowOf(p: int)
      requires p in entries
      ensures p in Abs().rows && Abs().rows[p] == entries[p].View()
    {
    }

    /** Notes why the last attempt to open e failed, and reports it unless that is old news. */
    method Refuse(e: Entry, err: AllocError)
      requires Valid() && Mine(e) && e.fwd == null
      modifies this`log, e`err
      ensures Valid()
      ensures var s, p, r := old(Abs()), e.svc.port, old(e.View());
              Abs() == s.(rows := s.rows[p := r.(err := Some(err))],
                          log := if r.err == Some(err) then s.log else s.log + [Failed(p, err)])
    {
      hide Rows;
      ghost var r := e.View();
      if e.err != Some(err) {
        e.err, log := Some(err), log + [Failed(e.svc.port, err)];
      }
      OnlyEntryChanged(e.svc.port);
      assert e.View() == r.(err := Some(err));
    }

    /** Starts the forwarder of e on a port that has just been opened. */
    method Start(e: Entry, local: int, remapped: bool)
      requires Valid() && Mine(e) && e.fwd == null && dialer.Some?
      modifies this`log, this`fwds, e`fwd, e`err
      ensures Valid() && fresh(fwds - old(fwds))
      ensures var s, p, r := old(Abs()), e.svc.port, old(e.View());
              Abs() == s.(rows := s.rows[p := r.(err := None, tunnel :=
                                                 Some(Tunnel(local, remapped, dialer.value, cfg.dialAddr(e.svc))))],
                          log := s.log + [Opened(p, local, remapped)])
    {
      hide Rows;
      ghost var r := e.View();
      var fwd := new F.Forwarder(table, e.svc.port, local, dialer.value, cfg.dialAddr(e.svc), remapped);
      e.err, e.fwd, fwds, log := None, fwd, fwds + {fwd}, log + [Opened(e.svc.port, local, remapped)];
      OnlyEntryChanged(e.svc.port);
      assert e.View() == r.(err := None, tunnel := Some(fwd.View()));
    }

    /** Asks the allocator for a port for e. */
    method AskFor(e: Entry) returns (o: Outcome)
      requires Valid() && Mine(e)
      modifies alloc`sticky, table`held
      ensures Valid() && e.View() == old(e.View())
      ensures var s := old(Abs());
              && o == Answer(cfg.samePort, s.sticky, s.held, e.svc.port, e.pinnedLocal, table.env)
              && Abs() == if o.Bound? then s.(sticky := s.sticky[e.svc.port := o.local], held := s.held + {o.local}) else s
    {
      hide Answer, Rows;
      o := alloc.Allocate(e.svc.port, e.pinnedLocal);
      assert Rows() == old(Rows());
    }

    /** The part of applyLocked that asks for a port. */
    method OpenLocked(e: Entry)
      requires Valid() && Mine(e) && e.fwd == null && dialer.Some?
      modifies this`log, this`fwds, e`fwd, e`err, alloc`sticky, table`held
      ensures Valid() && fresh(fwds - old(fwds))
      ensures Abs() == TryOpen(cfg, old(Abs()), e.svc.port, table.env)
    {
      hide Answer, TryOpen, Rows, Valid;
      RowOf(e.svc.port);
      TryOpenIs(cfg, Abs(), e.svc.port, table.env);
      var o := AskFor(e);
      if o.Refused? {
        Refuse(e, o.err);
      } else {
        Start(e, o.local, o.remapped);
      }
    }

    method Mark(e: Entry, skip: Skip)
      requires Valid() && Mine(e)
      modifies e`skip
      ensures Valid()
      ensures Abs() == Put(old(Abs()), e.svc.port, old(e.View()).(skip := skip))
    {
      hide Rows;
      ghost var r := e.View();
      e.skip := skip;
      OnlyEntryChanged(e.svc.port);
      assert e.View() == r.(skip := skip);
    }

    /** Opens or closes the tunnel for e to match the current policy. */
    method ApplyLocked(e: Entry) returns (ghost env: Env)
      requires Valid() && Mine(e)
      modifies this`log, this`fwds, e`fwd, e`skip, e`err, e.fwd, alloc`sticky, table
      ensures Valid() && fresh(fwds - old(fwds))
      ensures Abs() == Apply(cfg, old(Abs()), e.svc.port, env)
    {
      hide Verdict, Shut, TryOpen, Rows;
      RowOf(e.svc.port);
      table.Interfere();
      env := table.env;
      var want := WantLocked(e);
      Mark(e, want.skip);
      if !want.forward {
        if e.fwd != null {
          CloseLocked(e, Ruled(want.skip));
        }
      } else if e.fwd == null && dialer.Some? {
        OpenLocked(e);
      }
    }

    // -------------------------------------------------------------- scans

    /** The row for a port seen for the first time, with what the user decided about it last time. */
    function FreshRow(port: int, svc: Service): (r: Row)
      reads this, settings, alloc, table, set p | p in entries :: entries[p]
      requires settings != null <==> cfg.remembers
      ensures r == Fresh(cfg, Abs(), port, svc)
    {
      var d := if settings != null then S.Decode(settings.PortOf(host, port)) else S.Decode(S.NO_PORT);
      Row(svc, None, NotSkipped, None, d.mode, d.local, d.name, port in baseline, false, 0, d.scheme, !d.scheme.Unknown?)
    }

    /** When an entry has been added for p, there is only a row more. */
    twostate lemma OnlyEntryAdded(p: int, new e: Entry)
      requires old(Valid()) && old(p !in entries) && entries == old(entries)[p := e]
      requires forall q | q in old(entries) :: unchanged(old(entries)[q])
      requires forall f | f in old(fwds) :: unchanged(f)
      requires old(Repr) <= Repr && fwds == old(fwds)
      ensures Rows() == old(Rows())[p := e.View()]
      ensures forall q | q in entries && q != p :: entries[q] in Repr && EntryValid(q, entries[q])
    {
      hide Valid, EntryValid, Entry.View;
      forall q | q in entries && q != p
        ensures entries[q].View() == old(entries[q].View()) && entries[q] in Repr && EntryValid(q, entries[q])
      {
        EntryStays(q);
      }
    }

    /** An entry that has not changed is the same row and as valid as before. */
    twostate lemma EntryStays(q: int)
      requires old(Valid()) && q in old(entries) && q in entries && entries[q] == old(entries[q])
      requires unchanged(entries[q]) && forall f | f in old(fwds) && f == old(entries[q].fwd) :: unchanged(f)
      requires old(Repr) <= Repr && old(fwds) <= fwds
      ensures entries[q].View() == old(entries[q].View()) && entries[q] in Repr && EntryValid(q, entries[q])
    {
      assert old(EntryValid(q, entries[q]));
    }

    method List(port: int, svc: Service)
      requires Valid() && port > 0 && svc.port == port && port !in entries
      modifies this`entries, this`Repr
      ensures Valid() && fresh(Repr - old(Repr)) && port in entries && entries[port].fwd == null
      ensures Abs() == Put(old(Abs()), port, Fresh(cfg, old(Abs()), port, svc))
    {
      hide Fresh, Rows;
      var e := new Entry(FreshRow(port, svc));
      entries, Repr := entries[port := e], Repr + {e};
      OnlyEntryAdded(port, e);
    }

    /** A scan lists e: it is no longer missed, and keeps a command line that this scan lost. */
    method Refresh(e: Entry, svc: Service)
      requires Valid() && Mine(e) && e.svc.port == svc.port
      modifies e`missing, e`svc
      ensures Valid() && Mine(e) && e.svc.port == svc.port
      ensures var r := old(e.View());
              Abs() == Put(old(Abs()), svc.port, r.(missing := 0, svc := if svc.cmd == "" then svc.(cmd := r.svc.cmd) else svc))
    {
      hide Rows;
      ghost var r := e.View();
      e.missing, e.svc := 0, if svc.cmd == "" then svc.(cmd := e.svc.cmd) else svc;
      OnlyEntryChanged(svc.port);
      assert e.View() == r.(missing := 0, svc := e.svc);
    }

    /** Finds or makes the entry of a scanned port and brings it up to date with the scan. */
    method See(port: int, svc: Service) returns (e: Entry)
      requires Valid() && port > 0 && svc.port == port
      modifies this`entries, this`Repr, Repr
      ensures Valid() && fresh(Repr - old(Repr)) && Mine(e) && e.svc.port == port
      ensures e.fwd != null ==> e.fwd in fwds
      ensures Abs() == Put(old(Abs()), port, Seen(cfg, old(Abs()), port, svc))
    {
      hide Fresh, Rows;
      KeysOf();
      ghost var s := Abs();
      ghost var r := if port in entries then entries[port].View() else Fresh(cfg, s, port, svc);
      if port in entries {
        RowOf(port);
      } else {
        List(port, svc);
        RowOf(port);
      }
      e := entries[port];
      Refresh(e, svc);
      PutTwice(s, port, r, Seen(cfg, s, port, svc));
    }

    method ObserveLocked(port: int, svc: Service) returns (ghost env: Env)
      requires Valid() && port > 0 && svc.port == port
      modifies this`entries, this`log, this`Repr, this`fwds, Repr, fwds, alloc`sticky, table
      ensures Valid() && fresh(Repr - old(Repr)) && fresh(fwds - old(fwds))
      ensures Abs() == Observe(cfg, old(Abs()), port, svc, env)
    {
      hide Seen, Apply;
      var e := See(port, svc);
      env := ApplyLocked(e);
    }

    /** Counts one more scan without e. */
    method Age(e: Entry)
      requires Valid() && Mine(e)
      modifies e`missing
      ensures Valid() && e.missing == old(e.missing) + 1
      ensures var r := old(e.View()); Abs() == Put(old(Abs()), e.svc.port, r.(missing := r.missing + 1))
    {
      hide Rows;
      ghost var r := e.View();
      e.missing := e.missing + 1;
      OnlyEntryChanged(e.svc.port);
      assert e.View() == r.(missing := r.missing + 1);
    }

    method MissLocked(port: int)
      requires Valid() && port in entries
      modifies this`entries, this`log, Repr, fwds, table`held
      ensures Valid()
      ensures Abs() == Miss(cfg, old(Abs()), port)
    {
      hide Shut, Rows, Valid, Abs;
      EntryIsMine(port);
      RowOf(port);
      var e := entries[port];
      Age(e);
      if e.missing < cfg.grace {
        return;
      }
      RowOf(port);
      if e.fwd != null {
        CloseLocked(e, WentAway);
      }
      Unlist(port);
    }

    method Unlist(port: int)
      requires Valid()
      modifies this`entries
      ensures Valid() && Abs() == old(Abs()).(rows := old(Abs()).rows - {port})
    {
      entries := entries - {port};
      assert Rows() == old(Rows()) - {port};
    }

    lemma KeysOf()
      ensures Abs().rows.Keys == entries.Keys
    {
    }

    lemma ListsMore(vs: seq<Visit>, v: Visit, keys: set<int>)
      requires Lists(PortsOf(vs), keys) && v.port !in keys
      ensures Lists(PortsOf(vs + [v]), keys + {v.port})
    {
      var ps, more := PortsOf(vs), PortsOf(vs + [v]);
      assert more == ps + [v.port];
    }

    lemma KeyedBy(snap: Snapshot)
      requires WellKeyed(snap)
      ensures forall port | port in snap :: port > 0 && snap[port].port == port
    {
    }

    lemma NoVisits(s: State, snap: Snapshot)
      ensures Lists(PortsOf([]), snap.Keys - snap.Keys) && ObserveAll(cfg, s, snap, []) == s
    {
    }

    lemma ObserveAllMore(s: State, snap: Snapshot, vs: seq<Visit>, v: Visit)
      requires v.port in snap && forall u | u in vs :: u.port in snap
      ensures ObserveAll(cfg, s, snap, vs + [v]) ==
              Observe(cfg, ObserveAll(cfg, s, snap, vs), v.port, snap[v.port], v.env)
    {
      hide Observe;
      assert (vs + [v])[..|vs|] == vs;
    }

    /** Visits every scanned port, in no particular order. */
    method ObserveEach(snap: Snapshot) returns (ghost visits: seq<Visit>)
      requires Valid() && WellKeyed(snap)
      modifies this`entries, this`log, this`Repr, this`fwds, Repr, fwds, alloc`sticky, table
      ensures Valid() && fresh(Repr - old(Repr)) && fresh(fwds - old(fwds))
      ensures Lists(PortsOf(visits), snap.Keys) && forall v | v in visits :: v.port in snap
      ensures Abs() == ObserveAll(cfg, old(Abs()), snap, visits)
    {
      hide Observe, ObserveAll, Rows, Valid, Abs, Lists, PortsOf, WellKeyed;
      visits := [];
      NoVisits(Abs(), snap);
      assert forall port | port in snap :: port > 0 && snap[port].port == port by { KeyedBy(snap); }
      var todo := snap.Keys;
      while todo != {}
        invariant Valid() && fresh(Repr - old(Repr)) && fresh(fwds - old(fwds))
        invariant todo <= snap.Keys && Lists(PortsOf(visits), snap.Keys - todo)
        invariant forall v | v in visits :: v.port in snap
        invariant Abs() == ObserveAll(cfg, old(Abs()), snap, visits)
        decreases |todo|
      {
        var port := AnyOf(todo);
        ghost var env := ObserveLocked(port, snap[port]);
        ghost var v := Visit(port, env);
        ListsMore(visits, v, snap.Keys - todo);
        OneLess(snap.Keys, todo, port);
        ObserveAllMore(old(Abs()), snap, visits, v);
        visits := visits + [v];
        todo := todo - {port};
      }
      assert snap.Keys - todo == snap.Keys;
    }

    lemma MissAllMore(s: State, gone: seq<int>, keys: set<int>, p: int)
      requires Lists(gone, keys) && keys <= s.rows.Keys && p in s.rows && p !in keys
      ensures Lists(gone + [p], keys + {p}) && NoDup(gone + [p]) && forall q | q in gone + [p] :: q in s.rows
      ensures p in MissAll(cfg, s, gone).rows
      ensures MissAll(cfg, s, gone + [p]) == Miss(cfg, MissAll(cfg, s, gone), p)
    {
      hide Miss;
      assert (gone + [p])[..|gone|] == gone;
    }

    /** The ports of `keys` have been counted as missed, in the order of `gone`. */
    ghost predicate MissedSoFar(s: State, gone: seq<int>, keys: set<int>)
      reads this, alloc, table, settings, set p | p in entries :: entries[p]
    {
      Lists(gone, keys) && (forall p | p in gone :: p in s.rows) && Abs() == MissAll(cfg, s, gone)
    }

    method MissNext(port: int, ghost s: State, ghost gone: seq<int>, ghost keys: set<int>)
      requires Valid() && MissedSoFar(s, gone, keys) && keys <= s.rows.Keys && port in s.rows && port !in keys
      modifies this`entries, this`log, Repr, fwds, table`held
      ensures Valid() && MissedSoFar(s, gone + [port], keys + {port})
    {
      hide Miss, Rows, Valid, Abs, MissAll;
      MissAllMore(s, gone, keys, port);
      KeysOf();
      MissLocked(port);
    }

    /** Counts a miss for every listed port that the scan lacks, in no particular order. */
    method MissEach(scanned: set<int>) returns (ghost gone: seq<int>)
      requires Valid()
      modifies this`entries, this`log, Repr, fwds, table`held
      ensures Valid()
      ensures Lists(gone, old(Abs()).rows.Keys - scanned)
      ensures Abs() == MissAll(cfg, old(Abs()), gone)
    {
      KeysOf();
      ghost var s := Abs();
      var absent := entries.Keys - scanned;
      NoMisses(s, absent);
      gone := MissThese(absent);
      assert MissedSoFar(s, gone, absent);
    }

    method MissThese(absent: set<int>) returns (ghost gone: seq<int>)
      requires Valid() && absent <= Abs().rows.Keys && MissedSoFar(Abs(), [], {})
      modifies this`entries, this`log, Repr, fwds, table`held
      ensures Valid() && MissedSoFar(old(Abs()), gone, absent)
    {
      hide Rows, Valid, Abs, MissedSoFar;
      ghost var s := Abs();
      gone := [];
      var todo := absent;
      assert absent - todo == {};
      while todo != {}
        invariant Valid() && todo <= absent && MissedSoFar(s, gone, absent - todo)
        decreases |todo|
      {
        var port := AnyOf(todo);
        MissNext(port, s, gone, absent - todo);
        OneLess(absent, todo, port);
        gone := gone + [port];
        todo := todo - {port};
      }
      assert absent - todo == absent;
    }

    lemma NoMisses(s: State, keys: set<int>)
      ensures MissAll(cfg, s, []) == s && Lists([], {})
    {
    }

    /** The first scan is the baseline. */
    method SetBase(snap: Snapshot)
      requires Valid()
      modifies `baseline, `haveBase
      ensures Valid() && Abs() == Based(old(Abs()), snap)
    {
      hide Rows;
      if !haveBase {
        baseline := snap.Keys;
        haveBase := true;
      }
    }

    /** Reconciles the live tunnels with a freshly observed snapshot. The first call also establishes
        what was there before. */
    method Sync(snap: Snapshot) returns (ghost visits: seq<Visit>, ghost gone: seq<int>)
      requires Valid() && WellKeyed(snap)
      modifies this, Repr, fwds, alloc`sticky, table
      ensures Valid() && fresh(Repr - old(Repr)) && fresh(fwds - old(fwds))
      ensures Legal(old(Abs()), TunnelModel.Sync(snap, visits, gone))
      ensures Abs() == SyncStep(cfg, old(Abs()), snap, visits, gone)
    {
      hide ObserveAll, MissAll, Rows, Valid, Abs, Lists, WellKeyed;
      ghost var s := Abs();
      SetBase(snap);
      visits := ObserveEach(snap);
      ObserveAllKeys(cfg, Based(s, snap), snap, visits);
      ScannedAreVisited(visits, snap.Keys);
      gone := MissEach(snap.Keys);
      assert Based(s, snap).rows.Keys + snap.Keys - snap.Keys == s.rows.Keys - snap.Keys;
    }

    lemma ScannedAreVisited(vs: seq<Visit>, keys: set<int>)
      requires Lists(PortsOf(vs), keys)
      ensures (set v | v in vs :: v.port) == keys
    {
      forall p | p in keys ensures exists v | v in vs :: v.port == p {
        var i :| 0 <= i < |vs| && PortsOf(vs)[i] == p;
        assert vs[i] in vs;
      }
      forall v | v in vs ensures v.port in keys { InPorts(vs, v); }
    }

    // -------------------------------------------------------------- policy and link

    lemma ListsAt(ps: seq<int>, keys: set<int>, i: nat)
      requires Lists(ps, keys) && i < |ps|
      ensures ps[i] in keys
    {
      var p := ps[i];
      assert p in ps;
    }

    /** The entries by ascending remote port. */
    method SortedEntriesLocked() returns (out: seq<Entry>, ghost order: seq<int>)
      requires Valid()
      ensures Ascending(order) && Lists(order, entries.Keys) && |out| == |order|
      ensures forall i | 0 <= i < |out| :: order[i] in entries && out[i] == entries[order[i]]
    {
      var ports := SortPorts(entries.Keys);
      var es := entries;
      order := ports;
      ghost var keys := entries.Keys;
      forall i | 0 <= i < |ports| ensures ports[i] in es {
        ListsAt(ports, keys, i);
      }
      out := seq(|ports|, i requires 0 <= i < |ports| => es[ports[i]]);
    }

    /** The visits so far followed a prefix of the order, and all were applied. */
    ghost predicate AppliedSoFar(s: State, visits: seq<Visit>, order: seq<int>)
      reads this, alloc, table, settings, set p | p in entries :: entries[p]
    {
      && PortsOf(visits) <= order
      && (forall v | v in visits :: v.port in s.rows)
      && Abs() == ApplyAll(cfg, s, visits)
    }

    lemma ApplyAllMore(s: State, vs: seq<Visit>, v: Visit)
      requires v.port in s.rows && forall u | u in vs :: u.port in s.rows
      ensures ApplyAll(cfg, s, vs + [v]) == Apply(cfg, ApplyAll(cfg, s, vs), v.port, v.env)
      ensures PortsOf(vs + [v]) == PortsOf(vs) + [v.port]
    {
      hide Apply;
      assert (vs + [v])[..|vs|] == vs;
    }

    method ApplyNext(e: Entry, ghost s: State, ghost visits: seq<Visit>, ghost order: seq<int>) returns (ghost v: Visit)
      requires Valid() && AppliedSoFar(s, visits, order) && Mine(e) && e.svc.port in s.rows
      requires |visits| < |order| && order[|visits|] == e.svc.port
      modifies this`log, this`fwds, e`fwd, e`skip, e`err, e.fwd, alloc`sticky, table
      ensures Valid() && fresh(fwds - old(fwds)) && AppliedSoFar(s, visits + [v], order)
    {
      hide Apply, ApplyAll, Rows, Valid, Abs;
      ghost var env := ApplyLocked(e);
      v := Visit(e.svc.port, env);
      ApplyAllMore(s, visits, v);
    }

    lemma EntryIsMine(p: int)
      requires Valid() && p in entries
      ensures Mine(entries[p]) && entries[p].svc.port == p && entries[p] in Repr
      ensures entries[p].fwd != null ==> entries[p].fwd in fwds
    {
    }

    /** Brings every entry in line, by ascending remote port. */
    method ApplyEach() returns (ghost visits: seq<Visit>)
      requires Valid()
      modifies this`log, this`fwds, Repr, fwds, alloc`sticky, table
      ensures Valid() && fresh(fwds - old(fwds))
      ensures Ascending(PortsOf(visits)) && Lists(PortsOf(visits), old(Abs()).rows.Keys)
      ensures forall v | v in visits :: v.port in old(Abs()).rows
      ensures Abs() == ApplyAll(cfg, old(Abs()), visits)
    {
      hide Apply, ApplyAll, Rows, Valid;
      ghost var s := Abs();
      KeysOf();
      var out;
      ghost var order;
      out, order := SortedEntriesLocked();
      visits := [];
      NothingApplied(order);
      hide Abs, AppliedSoFar, Ascending, Lists;
      for i := 0 to |out|
        invariant Valid() && fresh(fwds - old(fwds)) && |visits| == i
        invariant AppliedSoFar(s, visits, order)
      {
        EntryIsMine(order[i]);
        ghost var v := ApplyNext(out[i], s, visits, order);
        visits := visits + [v];
      }
      AllApplied(s, visits, order);
    }

    lemma NothingApplied(order: seq<int>)
      ensures AppliedSoFar(Abs(), [], order)
    {
    }

    lemma AllApplied(s: State, visits: seq<Visit>, order: seq<int>)
      requires AppliedSoFar(s, visits, order) && |visits| == |order|
      ensures PortsOf(visits) == order && Abs() == ApplyAll(cfg, s, visits)
      ensures forall v | v in visits :: v.port in s.rows
    {
    }

    /** A row at the moment a pause begins or ends. */
    ghost function Paused(r: Row, pausing: bool): Row {
      r.(pausedKeep := pausing && r.mode.Auto? && r.tunnel.Some?)
    }

    ghost function PausedRows(rows: map<int, Row>, done: set<int>, pausing: bool): map<int, Row> {
      map p | p in rows :: if p in done then Paused(rows[p], pausing) else rows[p]
    }

    lemma PausedMore(rows: map<int, Row>, done: set<int>, p: int, pausing: bool)
      requires p in rows && p !in done
      ensures p in PausedRows(rows, done, pausing) && PausedRows(rows, done, pausing)[p] == rows[p]
      ensures PausedRows(rows, done + {p}, pausing) == PausedRows(rows, done, pausing)[p := Paused(rows[p], pausing)]
    {
    }

    lemma PausedNone(rows: map<int, Row>, pausing: bool)
      ensures PausedRows(rows, {}, pausing) == rows
    {
    }

    lemma PausedAll(s: State, policy: Policy)
      requires s.policy.paused != policy.paused
      ensures PausedRows(s.rows, s.rows.Keys, policy.paused) == MarkPause(s, policy)
    {
      var a, b := PausedRows(s.rows, s.rows.Keys, policy.paused), MarkPause(s, policy);
      assert a.Keys == b.Keys;
      forall p | p in a ensures a[p] == b[p] {
        assert p in s.rows;
      }
    }

    method Keep(port: int, pausing: bool)
      requires Valid() && port in entries
      modifies Repr
      ensures Valid()
      ensures var s := old(Abs()); port in s.rows && Abs() == Put(s, port, Paused(s.rows[port], pausing))
    {
      hide Rows;
      var e := entries[port];
      RowOf(port);
      ghost var r := e.View();
      e.pausedKeep := pausing && e.mode.Auto? && e.fwd != null;
      OnlyEntryChanged(port);
      assert e.View() == Paused(r, pausing);
    }

    method KeepNext(port: int, ghost s: State, ghost done: set<int>, pausing: bool)
      requires Valid() && port in s.rows && port !in done
      requires Abs() == s.(rows := PausedRows(s.rows, done, pausing))
      modifies Repr
      ensures Valid() && Abs() == s.(rows := PausedRows(s.rows, done + {port}, pausing))
    {
      hide Rows, Valid, Abs, PausedRows, Paused;
      PausedMore(s.rows, done, port, pausing);
      KeysOf();
      Keep(port, pausing);
    }

    /** Notes for every entry whether it stays up during the pause that begins, or that it ends. */
    method KeepEach(pausing: bool)
      requires Valid()
      modifies Repr
      ensures Valid()
      ensures Abs() == old(Abs()).(rows := PausedRows(old(Abs()).rows, old(Abs()).rows.Keys, pausing))
    {
      hide Rows, Valid, Abs, PausedRows, Paused;
      ghost var s := Abs();
      KeysOf();
      PausedNone(s.rows, pausing);
      var all := entries.Keys;
      var todo := all;
      assert all - todo == {};
      while todo != {}
        invariant Valid() && todo <= all == s.rows.Keys
        invariant Abs() == s.(rows := PausedRows(s.rows, all - todo, pausing))
        decreases |todo|
      {
        var port := AnyOf(todo);
        OneLess(all, todo, port);
        KeepNext(port, s, all - todo, pausing);
        todo := todo - {port};
      }
      assert all - todo == all;
    }

    /** Sets pausedKeep everywhere when the pause switch is thrown. */
    method SwitchPause(p: Policy)
      requires Valid()
      modifies `policy, Repr
      ensures Valid() && Abs() == old(Abs()).(rows := MarkPause(old(Abs()), p), policy := p)
    {
      hide Rows, Valid;
      ghost var s := Abs();
      if !policy.paused && p.paused {
        KeepEach(true);
        PausedAll(s, p);
      } else if policy.paused && !p.paused {
        KeepEach(false);
        PausedAll(s, p);
      }
      policy := p;
    }

    /** Replaces the policy and reconciles every known service against it. */
    method SetPolicy(p: Policy) returns (ghost visits: seq<Visit>)
      requires Valid()
      modifies this, Repr, fwds, alloc`sticky, table
      ensures Valid() && fresh(fwds - old(fwds))
      ensures Legal(old(Abs()), TunnelModel.SetPolicy(p, visits))
      ensures Abs() == SetPolicyStep(cfg, old(Abs()), p, visits)
    {
      hide Rows, Valid, Abs, ApplyAll, MarkPause, Ascending, Lists;
      SwitchPause(p);
      visits := ApplyEach();
    }

    /** Drops the tunnel of one entry and forgives what it missed. */
    method DropLocked(e: Entry)
      requires Valid() && Mine(e)
      modifies this`log, e`fwd, e`missing, e.fwd, table`held
      ensures Valid() && Abs() == TunnelModel.Drop(old(Abs()), e.svc.port)
    {
      hide Rows, Shut;
      RowOf(e.svc.port);
      if e.fwd != null {
        CloseLocked(e, Disconnected);
      }
      RowOf(e.svc.port);
      Forgive(e);
    }

    method Forgive(e: Entry)
      requires Valid() && Mine(e)
      modifies e`missing
      ensures Valid() && Abs() == Put(old(Abs()), e.svc.port, old(e.View()).(missing := 0))
    {
      hide Rows;
      ghost var r := e.View();
      e.missing := 0;
      OnlyEntryChanged(e.svc.port);
      assert e.View() == r.(missing := 0);
    }

    lemma DropAllMore(s: State, ps: seq<int>, p: int)
      requires p in s.rows && forall q | q in ps :: q in s.rows
      ensures DropAll(s, ps + [p]) == TunnelModel.Drop(DropAll(s, ps), p)
    {
      hide TunnelModel.Drop;
      assert (ps + [p])[..|ps|] == ps;
    }

    /** Closes every tunnel, by ascending remote port. */
    method DropEach() returns (ghost order: seq<int>)
      requires Valid()
      modifies this`log, Repr, fwds, table`held
      ensures Valid() && Ascending(order) && Lists(order, old(Abs()).rows.Keys)
      ensures Abs() == DropAll(old(Abs()), order)
    {
      hide Rows, Valid, Abs, DropAll, TunnelModel.Drop, Ascending, Lists;
      ghost var s := Abs();
      KeysOf();
      var out;
      out, order := SortedEntriesLocked();
      NoDrops(s);
      for i := 0 to |out|
        invariant Valid() && (forall q | q in order[..i] :: q in s.rows)
        invariant Abs() == DropAll(s, order[..i])
      {
        EntryIsMine(order[i]);
        DropAllMore(s, order[..i], order[i]);
        assert order[..i] + [order[i]] == order[..i + 1];
        DropLocked(out[i]);
      }
      assert order[..|out|] == order;
    }

    lemma NoDrops(s: State)
      ensures DropAll(s, []) == s
    {
    }

    /** Swaps the transport. None marks the link down and closes every forwarder; the assignments are
        remembered, so that reconnecting restores them. The op says which of the two happened. */
    method SetDialer(d: Option<nat>) returns (ghost op: Op)
      requires Valid()
      modifies this, Repr, fwds, alloc`sticky, table
      ensures Valid() && fresh(fwds - old(fwds))
      ensures if d.Some? then op.Connect? && op.dialer == d.value else op.Disconnect?
      ensures Legal(old(Abs()), op) && Abs() == Step(cfg, old(Abs()), op)
    {
      hide Rows, Valid, ApplyAll, DropAll, Ascending, Lists;
      ghost var s := Abs();
      dialer := d;
      assert Abs() == s.(dialer := d);
      hide Abs;
      if d.None? {
        ghost var order := DropEach();
        op := Disconnect(order);
      } else {
        ghost var visits := ApplyEach();
        op := Connect(d.value, visits);
      }
    }

    // -------------------------------------------------------------- one port at a time

    /** Writes a port's current decisions to the settings. */
    method Persist(port: int)
      requires Valid()
      modifies settings
      ensures Valid() && Abs() == TunnelModel.Persist(cfg, old(Abs()), port)
    {
      hide Rows, S.Stored;
      KeysOf();
      if settings == null || port !in entries {
        return;
      }
      RowOf(port);
      var e := entries[port];
      var saved := S.Port(e.name, if e.pinned then e.scheme.Text() else "", e.mode.Text(), e.pinnedLocal);
      assert saved == S.Encode(DecisionOf(e.View()));
      settings.SetPort(host, port, saved);
    }

    method SetMode(e: Entry, mode: S.Mode, keep: bool)
      requires Valid() && Mine(e)
      modifies e`mode, e`pausedKeep
      ensures Valid()
      ensures var r := old(e.View()); Abs() == Put(old(Abs()), e.svc.port, r.(mode := mode, pausedKeep := r.pausedKeep && keep))
    {
      hide Rows;
      ghost var r := e.View();
      e.mode, e.pausedKeep := mode, e.pausedKeep && keep;
      OnlyEntryChanged(e.svc.port);
      assert e.View() == r.(mode := mode, pausedKeep := r.pausedKeep && keep);
    }

    /** A choice of mode, which is an explicit retry when it is to forward. */
    method Choose(e: Entry, mode: S.Mode, keep: bool)
      requires Valid() && Mine(e)
      modifies e`mode, e`pausedKeep, e`err
      ensures Valid()
      ensures var r := old(e.View());
              Abs() == Put(old(Abs()), e.svc.port, r.(mode := mode, pausedKeep := r.pausedKeep && keep,
                                                      err := if mode.Off? then r.err else None))
    {
      hide Rows, Valid, Abs, Entry.View;
      ghost var s, p, r := Abs(), e.svc.port, e.View();
      SetMode(e, mode, keep);
      RowOf(p);
      if !mode.Off? {
        ghost var r1 := r.(mode := mode, pausedKeep := r.pausedKeep && keep);
        Clear(e);
        PutTwice(s, p, r1, r1.(err := None));
      }
    }

    /** Steps a port through auto, on and off, and remembers the choice. */
    method CycleMode(port: int) returns (mode: S.Mode, ghost env: Env)
      requires Valid()
      modifies this`log, this`fwds, Repr, fwds, alloc`sticky, table, settings
      ensures Valid() && fresh(fwds - old(fwds))
      ensures mode == if port in old(Abs()).rows then old(Abs()).rows[port].mode.Next() else S.Auto
      ensures Abs() == CycleModeStep(cfg, old(Abs()), port, env)
    {
      hide Rows, Valid, Apply, TunnelModel.Persist;
      env := table.env;
      KeysOf();
      if port !in entries {
        return S.Auto, env;
      }
      RowOf(port);
      EntryIsMine(port);
      var e := entries[port];
      mode := e.mode.Next();
      Choose(e, mode, mode.Auto?);
      env := ApplyLocked(e);
      Persist(port);
    }

    /** Opens a tunnel for a listed port that the policy skips, for this session only. A port the user
        switched off is left alone. */
    method ForwardNow(port: int) returns (trouble: Option<Trouble>, ghost env: Env)
      requires Valid()
      modifies this`log, this`fwds, Repr, fwds, alloc`sticky, table
      ensures Valid() && fresh(fwds - old(fwds))
      ensures Abs() == ForwardNowStep(cfg, old(Abs()), port, env)
      ensures trouble == if port !in old(Abs()).rows then Some(NotListed)
                         else if old(Abs()).rows[port].mode.Off? then Some(IsOff)
                         else Failure(Abs().rows[port])
    {
      hide Rows, Valid, Apply;
      env := table.env;
      KeysOf();
      if port !in entries {
        return Some(NotListed), env;
      }
      RowOf(port);
      EntryIsMine(port);
      var e := entries[port];
      if e.mode.Off? {
        return Some(IsOff), env;
      }
      Choose(e, S.On, false);
      env := ApplyLocked(e);
      RowOf(port);
      trouble := if e.err.Some? then Some(Unopened(e.err.value)) else None;
    }

    /** Takes the new pin and closes the tunnel that sits on the old port. */
    method Move(e: Entry, local: int)
      requires Valid() && Mine(e)
      modifies this`log, e`pinnedLocal, e`fwd, e`err, e.fwd, alloc`sticky, table`held
      ensures Valid() && Abs() == Relocate(old(Abs()), e.svc.port, local)
    {
      hide Rows, Shut;
      var port := e.svc.port;
      ghost var s := Abs();
      RowOf(port);
      Pin(e, local);
      RowOf(port);
      if e.fwd != null {
        CloseLocked(e, Relocating);
      }
      RowOf(port);
      Clear(e);
    }

    method Pin(e: Entry, local: int)
      requires Valid() && Mine(e)
      modifies e`pinnedLocal, alloc`sticky
      ensures Valid() && Mine(e) && e.svc.port == old(e.svc.port)
      ensures Abs() == Put(old(Abs()), e.svc.port, old(e.View()).(pinnedLocal := local))
                       .(sticky := old(Abs()).sticky - {e.svc.port})
    {
      hide Rows;
      ghost var r := e.View();
      e.pinnedLocal := local;
      alloc.Forget(e.svc.port);
      OnlyEntryChanged(e.svc.port);
      assert e.View() == r.(pinnedLocal := local);
    }

    method Clear(e: Entry)
      requires Valid() && Mine(e)
      modifies e`err
      ensures Valid() && Abs() == Put(old(Abs()), e.svc.port, old(e.View()).(err := None))
    {
      hide Rows;
      ghost var r := e.View();
      e.err := None;
      OnlyEntryChanged(e.svc.port);
      assert e.View() == r.(err := None);
    }

    /** Pins the local port a service is forwarded to, zero for the default, and reopens the tunnel. */
    method SetLocalPort(port: int, local: int, remember: bool) returns (trouble: Option<Trouble>, ghost env: Env)
      requires Valid()
      modifies this`log, this`fwds, Repr, fwds, alloc`sticky, table, settings
      ensures Valid() && fresh(fwds - old(fwds))
      ensures Abs() == SetLocalPortStep(cfg, old(Abs()), port, local, remember, env)
      ensures trouble == if !(0 <= local <= 65535) then Some(OutOfRange)
                         else if port !in old(Abs()).rows then Some(NotListed)
                         else Failure(Abs().rows[port])
    {
      hide Rows, Valid, Apply, Relocate, TunnelModel.Persist, Abs;
      env := table.env;
      if local < 0 || local > 65535 {
        return Some(OutOfRange), env;
      }
      KeysOf();
      if port !in entries {
        return Some(NotListed), env;
      }
      EntryIsMine(port);
      var e := entries[port];
      Move(e, local);
      EntryIsMine(port);
      env := ApplyLocked(e);
      RowOf(port);
      trouble := if e.err.Some? then Some(Unopened(e.err.value)) else None;
      if remember {
        Persist(port);
      }
    }

    method Classify(e: Entry, scheme: Scheme, pinned: bool)
      requires Valid() && Mine(e)
      modifies e`scheme, e`pinned
      ensures Valid()
      ensures Abs() == Put(old(Abs()), e.svc.port, old(e.View()).(scheme := scheme, pinned := pinned))
    {
      hide Rows;
      ghost var r := e.View();
      e.scheme, e.pinned := scheme, pinned;
      OnlyEntryChanged(e.svc.port);
      assert e.View() == r.(scheme := scheme, pinned := pinned);
    }

    /** Sets a port's scheme and remembers it; unknown clears the pin. */
    method SetScheme(port: int, scheme: Scheme) returns (r: Scheme)
      requires Valid()
      modifies Repr, settings
      ensures Valid() && Abs() == SetSchemeStep(cfg, old(Abs()), port, scheme)
      ensures r == if port in old(Abs()).rows then scheme else Unknown
    {
      hide Rows, Valid, TunnelModel.Persist;
      KeysOf();
      if port !in entries {
        return Unknown;
      }
      RowOf(port);
      EntryIsMine(port);
      Classify(entries[port], scheme, !scheme.Unknown?);
      Persist(port);
      return scheme;
    }

    /** Steps a port's scheme through unknown, http and https, and remembers the choice. */
    method CycleScheme(port: int) returns (r: Scheme)
      requires Valid()
      modifies Repr, settings
      ensures Valid() && Abs() == Step(cfg, old(Abs()), TunnelModel.CycleScheme(port))
      ensures r == if port in old(Abs()).rows then old(Abs()).rows[port].scheme.Next() else Unknown
    {
      hide Rows, Valid, SetSchemeStep;
      KeysOf();
      if port !in entries {
        return Unknown;
      }
      RowOf(port);
      r := SetScheme(port, entries[port].scheme.Next());
    }

    /** Records what a service revealed itself to be; a pinned scheme is never overwritten. */
    method ObserveScheme(port: int, scheme: Scheme)
      requires Valid()
      modifies Repr
      ensures Valid() && Abs() == ObserveSchemeStep(old(Abs()), port, scheme)
    {
      hide Rows, Valid;
      KeysOf();
      if scheme.Unknown? || port !in entries {
        return;
      }
      RowOf(port);
      EntryIsMine(port);
      var e := entries[port];
      if !e.pinned && e.scheme != scheme {
        Classify(e, scheme, false);
      } else if !e.pinned {
        assert Abs().rows[port := Abs().rows[port].(scheme := scheme)] == Abs().rows;
      }
    }

    method Name(e: Entry, name: string)
      requires Valid() && Mine(e)
      modifies e`name
      ensures Valid() && Abs() == Put(old(Abs()), e.svc.port, old(e.View()).(name := name))
    {
      hide Rows;
      ghost var r := e.View();
      e.name := name;
      OnlyEntryChanged(e.svc.port);
      assert e.View() == r.(name := name);
    }

    /** Gives a port a name, tidied up, and remembers it. */
    method SetLabel(port: int, name: string) returns (trouble: Option<Trouble>)
      requires Valid()
      modifies Repr, settings
      ensures Valid() && Abs() == SetLabelStep(cfg, old(Abs()), port, Tidy(name))
      ensures trouble == if port in old(Abs()).rows then None else Some(NotListed)
    {
      hide Rows, Valid, TunnelModel.Persist, Tidy;
      KeysOf();
      if port !in entries {
        return Some(NotListed);
      }
      RowOf(port);
      EntryIsMine(port);
      Name(entries[port], Tidy(name));
      Persist(port);
      return None;
    }

    // -------------------------------------------------------------- the table and the end

    /** The lifecycle state of an entry, for display. */
    function StateLocked(e: Entry): (r: Status)
      reads `policy, `dialer, e
      ensures e.fwd != null <==> r.Active?
      ensures r.Offline? ==> dialer.None? && Wanted(cfg.ip, policy, e.View())
    {
      if e.fwd != null then Active
      else if e.err.Some? then Error
      else if dialer.None? && WantLocked(e).forward then Offline
      else Skipped
    }

    predicate HiddenLocked(e: Entry)
      reads e
    {
      e.fwd == null && e.mode.Auto? && e.skip.Filtered()
    }

    /** The ports of the rows that are not filtered out of the table. */
    method VisiblePorts() returns (visible: set<int>)
      requires Valid()
      ensures forall p :: p in visible <==> p in entries && !HiddenLocked(entries[p])
    {
      visible := {};
      var todo := entries.Keys;
      while todo != {}
        invariant todo <= entries.Keys
        invariant forall p :: p in visible <==> p in entries.Keys - todo && !HiddenLocked(entries[p])
        decreases |todo|
      {
        var p := AnyOf(todo);
        if !HiddenLocked(entries[p]) {
          visible := visible + {p};
        }
        todo := todo - {p};
      }
    }

    lemma StateIs(p: int)
      requires p in entries
      ensures p in Abs().rows
      ensures StateLocked(entries[p]) == StatusOf(cfg, Abs(), Abs().rows[p])
      ensures HiddenLocked(entries[p]) == Hidden(Abs().rows[p])
    {
      hide Verdict;
    }

    /** A row of the table: p, with all that is known about it, and its status. */
    ghost predicate Shows(p: int, r: Row, status: Status)
      reads this, alloc, table, settings, set q | q in entries :: entries[q]
    {
      p in Abs().rows && !Hidden(Abs().rows[p]) && r == Abs().rows[p] && status == StatusOf(cfg, Abs(), r)
    }

    lemma ShowsRow(p: int)
      requires p in entries && !HiddenLocked(entries[p])
      ensures Shows(p, entries[p].View(), StateLocked(entries[p]))
    {
      hide StatusOf, Hidden;
      StateIs(p);
    }

    /** Every service worth showing, with its status, by ascending remote port. */
    method States() returns (out: seq<(int, Row, Status)>)
      requires Valid()
      ensures forall i, j | 0 <= i < j < |out| :: out[i].0 < out[j].0
      ensures forall i | 0 <= i < |out| :: Shows(out[i].0, out[i].1, out[i].2)
      ensures forall p | p in Abs().rows && !Hidden(Abs().rows[p]) :: exists i | 0 <= i < |out| :: out[i].0 == p
    {
      hide Verdict, Rows, StatusOf, Hidden, Shows;
      var visible := VisiblePorts();
      var ports := SortPorts(visible);
      out := [];
      for i := 0 to |ports|
        invariant |out| == i
        invariant forall j | 0 <= j < i :: out[j].0 == ports[j]
        invariant forall j | 0 <= j < i :: Shows(out[j].0, out[j].1, out[j].2)
      {
        assert ports[i] in ports;
        var e := entries[ports[i]];
        ShowsRow(ports[i]);
        out := out + [(ports[i], e.View(), StateLocked(e))];
      }
      KeysOf();
      forall p | p in Abs().rows && !Hidden(Abs().rows[p]) ensures exists i | 0 <= i < |out| :: out[i].0 == p {
        StateIs(p);
        var i :| 0 <= i < |ports| && ports[i] == p;
        assert out[i].0 == p;
      }
    }

    /** Detaches the forwarder of one entry without closing it. */
    method Detach(port: int) returns (f: F.Forwarder?)
      requires Valid() && port in entries
      modifies Repr
      ensures Valid() && f == old(entries[port].fwd)
      ensures var s := old(Abs());
              port in s.rows && Abs() == Put(s, port, s.rows[port].(tunnel := None))
    {
      hide Rows;
      var e := entries[port];
      RowOf(port);
      ghost var r := e.View();
      f := e.fwd;
      e.fwd := null;
      OnlyEntryChanged(port);
      assert e.View() == r.(tunnel := None);
    }

    ghost function Detached(rows: map<int, Row>, done: set<int>): map<int, Row> {
      map p | p in rows :: if p in done then rows[p].(tunnel := None) else rows[p]
    }

    ghost function LocalsIn(rows: map<int, Row>, done: set<int>): set<int> {
      set p | p in rows && p in done && rows[p].tunnel.Some? :: rows[p].tunnel.value.local
    }

    ghost function LocalsOf(fs: seq<F.Forwarder>): set<int> { set f | f in fs :: f.local }

    lemma DetachMore(rows: map<int, Row>, done: set<int>, p: int)
      requires p in rows && p !in done
      ensures p in Detached(rows, done) && Detached(rows, done)[p] == rows[p]
      ensures Detached(rows, done + {p}) == Detached(rows, done)[p := rows[p].(tunnel := None)]
      ensures LocalsIn(rows, done + {p}) ==
              LocalsIn(rows, done) + if rows[p].tunnel.Some? then {rows[p].tunnel.value.local} else {}
    {
    }

    lemma DetachNone(rows: map<int, Row>)
      ensures Detached(rows, {}) == rows && LocalsIn(rows, {}) == {} == LocalsOf([])
    {
    }

    lemma DetachAll(s: State)
      ensures s.(rows := Detached(s.rows, s.rows.Keys), held := s.held - LocalsIn(s.rows, s.rows.Keys)) == CloseStep(s)
    {
      assert Detached(s.rows, s.rows.Keys) == CloseStep(s).rows;
      assert LocalsIn(s.rows, s.rows.Keys) == Locals(s.rows);
    }

    lemma LocalsOfMore(fs: seq<F.Forwarder>, f: F.Forwarder)
      ensures LocalsOf(fs + [f]) == LocalsOf(fs) + {f.local}
    {
      assert (fs + [f])[|fs|] == f;
    }

    /** What is detached so far, and the forwarders it leaves to be closed. */
    ghost predicate DetachedSoFar(s: State, closing: seq<F.Forwarder>, done: set<int>)
      reads this, alloc, table, settings, fwds, set p | p in entries :: entries[p]
    {
      && (forall f | f in closing :: f in fwds && f.table == table && !f.stopped)
      && Abs() == s.(rows := Detached(s.rows, done)) && LocalsOf(closing) == LocalsIn(s.rows, done)
    }

    lemma NothingDetached()
      ensures DetachedSoFar(Abs(), [], {})
    {
      DetachNone(Abs().rows);
    }

    method DetachNext(port: int, ghost s: State, closing: seq<F.Forwarder>, ghost done: set<int>)
      returns (more: seq<F.Forwarder>)
      requires Valid() && DetachedSoFar(s, closing, done) && port in s.rows && port !in done
      modifies Repr
      ensures Valid() && DetachedSoFar(s, more, done + {port})
    {
      hide Rows, Valid, Abs, Detached, LocalsIn, LocalsOf;
      KeysOf();
      DetachMore(s.rows, done, port);
      RowOf(port);
      FwdOf(port);
      var f := Detach(port);
      more := closing;
      if f != null {
        LocalsOfMore(closing, f);
        more := closing + [f];
      }
    }

    /** Detaches every forwarder, in no particular order. */
    method DetachEach() returns (closing: seq<F.Forwarder>)
      requires Valid()
      modifies Repr
      ensures Valid() && DetachedSoFar(old(Abs()), closing, old(Abs()).rows.Keys)
    {
      hide Rows, Valid, Abs, DetachedSoFar;
      ghost var s := Abs();
      KeysOf();
      NothingDetached();
      closing := [];
      var all := entries.Keys;
      var todo := all;
      assert all - todo == {};
      while todo != {}
        invariant Valid() && todo <= all == s.rows.Keys && DetachedSoFar(s, closing, all - todo)
        decreases |todo|
      {
        var port := AnyOf(todo);
        OneLess(all, todo, port);
        closing := DetachNext(port, s, closing, all - todo);
        todo := todo - {port};
      }
      assert all - todo == all;
    }

    lemma FwdOf(port: int)
      requires Valid() && port in entries
      ensures var f := entries[port].fwd;
              f != null ==> f in fwds && f.table == table && !f.stopped && entries[port].View().tunnel == Some(f.View())
      ensures entries[port].fwd == null ==> entries[port].View().tunnel == None
    {
    }

    /** Closes one detached forwarder. */
    method CloseDetached(f: F.Forwarder)
      requires Valid() && NoTunnels() && f.table == table
      modifies f`stopped, table`held
      ensures Valid() && NoTunnels() && f.stopped
      ensures table.held == if old(f.stopped) then old(table.held) else old(table.held) - {f.local}
      ensures Abs() == old(Abs()).(held := table.held)
    {
      f.Close();
      assert Rows() == old(Rows());
    }

    /** Tears down every tunnel. */
    method Close()
      requires Valid()
      modifies Repr, fwds, table`held
      ensures Valid() && Abs() == CloseStep(old(Abs()))
    {
      ghost var s := Abs();
      var closing := DetachEach();
      DetachAll(s);
      NoneLive();
      ghost var t := Abs();
      assert t.held == table.held;
      hide Rows, Valid, Detached, LocalsIn, Abs, NoTunnels, LocalsOf;
      LocalsOfNone();
      assert closing[..0] == [];
      for i := 0 to |closing|
        invariant table.held == t.held - LocalsOf(closing[..i])
        invariant forall j | i <= j < |closing| :: closing[j].table == table && closing[j] in fwds
        invariant forall j | i <= j < |closing| :: !closing[j].stopped || closing[j].local !in table.held
        invariant NoTunnels() && Valid() && Abs() == t.(held := table.held)
      {
        assert closing[..i + 1] == closing[..i] + [closing[i]];
        LocalsOfMore(closing[..i], closing[i]);
        CloseDetached(closing[i]);
      }
      assert closing[..|closing|] == closing;
    }

    lemma LocalsOfNone()
      ensures LocalsOf([]) == {}
    {
    }

    ghost predicate NoTunnels()
      reads `entries, set p | p in entries :: entries[p]
    {
      forall p | p in entries :: entries[p].fwd == null
    }

    lemma NoneLive()
      requires forall p | p in Abs().rows :: Abs().rows[p].tunnel.None?
      ensures NoTunnels()
    {
      forall p | p in entries ensures entries[p].fwd == null { RowOf(p); }
    }
  }

  /** A library sort of distinct keys. */
  method SortPorts(keys: set<int>) returns (ps: seq<int>)
    ensures Ascending(ps) && Lists(ps, keys)
  {
    ps := [];
    var todo := keys;
    assert Ascending(ps) && Lists(ps, keys - todo);
    hide Ascending, Lists;
    while todo != {}
      invariant todo <= keys && Ascending(ps) && Lists(ps, keys - todo)
      decreases |todo|
    {
      var p := AnyOf(todo);
      var i := Slot(ps, p);
      InsertAscends(ps, keys - todo, i, p);
      InsertLists(ps, keys - todo, i, p);
      OneLess(keys, todo, p);
      ps := ps[..i] + [p] + ps[i..];
      todo := todo - {p};
    }
    assert keys - todo == keys;
  }

  /** Where p goes: behind everything smaller. */
  method Slot(ps: seq<int>, p: int) returns (i: nat)
    ensures i <= |ps| && (forall j | 0 <= j < i :: ps[j] < p) && (i < |ps| ==> ps[i] >= p)
  {
    i := 0;
    while i < |ps| && ps[i] < p
      invariant i <= |ps| && forall j | 0 <= j < i :: ps[j] < p
    {
      i := i + 1;
    }
  }

  lemma InsertAscends(ps: seq<int>, keys: set<int>, i: nat, p: int)
    requires Ascending(ps) && Lists(ps, keys) && i <= |ps| && p !in keys
    requires forall j | 0 <= j < i :: ps[j] < p
    requires i < |ps| ==> ps[i] >= p
    ensures Ascending(ps[..i] + [p] + ps[i..])
  {
    forall j | i <= j < |ps| ensures ps[j] > p {
      assert ps[j] in ps && ps[i] in ps;
    }
    assert forall x | x in ps[i..] :: x > p;
  }

  lemma InsertLists(ps: seq<int>, keys: set<int>, i: nat, p: int)
    requires Ascending(ps) && Lists(ps, keys) && i <= |ps| && p !in keys
    requires Ascending(ps[..i] + [p] + ps[i..])
    ensures Lists(ps[..i] + [p] + ps[i..], keys + {p})
  {
    var qs := ps[..i] + [p] + ps[i..];
    assert ps == ps[..i] + ps[i..];
    forall x ensures x in qs <==> x in keys + {p} {
      assert x in qs <==> x in ps[..i] || x == p || x in ps[i..];
      assert x in ps <==> x in ps[..i] || x in ps[i..];
    }
  }
}

/** Command lines are looked up once per process: internal/probe/monitor.go, build and resolve.

    `build` and the two ends of `resolve` are separate lock sections, and any number of lookups may
    be under way at once; so every interleaving is a sequence of calls of the methods here. */
module Resolve {
  import opened Wrappers
  import opened Services

  /** What has happened to batches of process numbers. */
  datatype BatchEvent = Asked(batch: seq<int>) | Failed(batch: seq<int>) | Answered(batch: seq<int>)

  /** How many batches contain the process. */
  function Containing(batches: seq<seq<int>>, pid: int): nat {
    if batches == [] then 0
    else Containing(batches[..|batches| - 1], pid) + if pid in batches[|batches| - 1] then 1 else 0
  }

  function AskedOf(log: seq<BatchEvent>): seq<seq<int>> {
    if log == [] then []
    else
      var rest, e := AskedOf(log[..|log| - 1]), log[|log| - 1];
      if e.Asked? then rest + [e.batch] else rest
  }

  function FailedOf(log: seq<BatchEvent>): seq<seq<int>> {
    if log == [] then []
    else
      var rest, e := FailedOf(log[..|log| - 1]), log[|log| - 1];
      if e.Failed? then rest + [e.batch] else rest
  }

  function AnsweredOf(log: seq<BatchEvent>): seq<seq<int>> {
    if log == [] then []
    else
      var rest, e := AnsweredOf(log[..|log| - 1]), log[|log| - 1];
      if e.Answered? then rest + [e.batch] else rest
  }

  /** The books of the protocol, for one process: it is marked unknown exactly while one lookup of it is
      under way or one has been answered, never both and never two; and it has been asked about once
      more often than lookups of it have failed, or as often when it is not marked. */
  ghost predicate Balanced(unknown: set<int>, outstanding: seq<seq<int>>, log: seq<BatchEvent>, pid: int) {
    var marked := if pid in unknown then 1 else 0;
    && Containing(outstanding, pid) + Containing(AnsweredOf(log), pid) == marked
    && Containing(AskedOf(log), pid) == Containing(FailedOf(log), pid) + marked
  }

  ghost predicate BalancedAll(unknown: set<int>, outstanding: seq<seq<int>>, log: seq<BatchEvent>) {
    forall pid :: Balanced(unknown, outstanding, log, pid)
  }

  lemma ContainingSnoc(batches: seq<seq<int>>, b: seq<int>, pid: int)
    ensures Containing(batches + [b], pid) == Containing(batches, pid) + if pid in b then 1 else 0
  {
    assert (batches + [b])[..|batches|] == batches;
  }

  lemma {:induction false} ContainingSplit(a: seq<seq<int>>, b: seq<seq<int>>, pid: int)
    ensures Containing(a + b, pid) == Containing(a, pid) + Containing(b, pid)
  {
    if b == [] {
      assert a + b == a;
    } else {
      var rest := b[..|b| - 1];
      ContainingSplit(a, rest, pid);
      assert a + b == a + rest + [b[|b| - 1]];
      ContainingSnoc(a + rest, b[|b| - 1], pid);
    }
  }

  /** Taking one batch away. */
  lemma ContainingWithout(batches: seq<seq<int>>, i: nat, pid: int)
    requires i < |batches|
    ensures Containing(batches[..i] + batches[i + 1..], pid) + (if pid in batches[i] then 1 else 0) == Containing(batches, pid)
  {
    assert batches == batches[..i] + [batches[i]] + batches[i + 1..];
    ContainingSplit(batches[..i] + [batches[i]], batches[i + 1..], pid);
    ContainingSnoc(batches[..i], batches[i], pid);
    ContainingSplit(batches[..i], batches[i + 1..], pid);
  }

  lemma LogSnoc(log: seq<BatchEvent>, e: BatchEvent)
    ensures AskedOf(log + [e]) == AskedOf(log) + if e.Asked? then [e.batch] else []
    ensures FailedOf(log + [e]) == FailedOf(log) + if e.Failed? then [e.batch] else []
    ensures AnsweredOf(log + [e]) == AnsweredOf(log) + if e.Answered? then [e.batch] else []
  {
    assert (log + [e])[..|log|] == log;
  }

  lemma AskKeepsBalance(unknown: set<int>, outstanding: seq<seq<int>>, log: seq<BatchEvent>, batch: seq<int>)
    requires BalancedAll(unknown, outstanding, log)
    requires forall p | p in batch :: p !in unknown
    ensures BalancedAll(unknown + (set p | p in batch), outstanding + [batch], log + [Asked(batch)])
  {
    LogSnoc(log, Asked(batch));
    var marked, under, told := unknown + (set p | p in batch), outstanding + [batch], log + [Asked(batch)];
    forall pid ensures Balanced(marked, under, told, pid) {
      assert Balanced(unknown, outstanding, log, pid);
      ContainingSnoc(outstanding, batch, pid);
      ContainingSnoc(AskedOf(log), batch, pid);
    }
  }

  lemma EndKeepsBalance(unknown: set<int>, outstanding: seq<seq<int>>, log: seq<BatchEvent>, i: nat, answered: bool)
    requires BalancedAll(unknown, outstanding, log) && i < |outstanding|
    ensures var batch := outstanding[i];
            BalancedAll(if answered then unknown else unknown - (set p | p in batch),
                        outstanding[..i] + outstanding[i + 1..],
                        log + [if answered then Answered(batch) else Failed(batch)])
  {
    var batch := outstanding[i];
    var e := if answered then Answered(batch) else Failed(batch);
    LogSnoc(log, e);
    var marked := if answered then unknown else unknown - (set p | p in batch);
    var under, told := outstanding[..i] + outstanding[i + 1..], log + [e];
    forall pid ensures Balanced(marked, under, told, pid) {
      assert Balanced(unknown, outstanding, log, pid);
      ContainingWithout(outstanding, i, pid);
      ContainingSnoc(AnsweredOf(log), batch, pid);
      ContainingSnoc(FailedOf(log), batch, pid);
    }
  }

  lemma {:induction false} ContainingTwo(batches: seq<seq<int>>, i: nat, j: nat, pid: int)
    requires i < j < |batches| && pid in batches[i] && pid in batches[j]
    ensures Containing(batches, pid) >= 2
  {
    ContainingWithout(batches, j, pid);
    var rest := batches[..j] + batches[j + 1..];
    assert rest[i] == batches[i];
    ContainingWithout(rest, i, pid);
  }

  /** What balanced books say: lookups under way are pairwise disjoint; no process is answered for
      twice, nor is one answered for that is still being looked up; and a process is asked about at
      most once more often than lookups of it have failed. */
  lemma BalanceMeans(unknown: set<int>, outstanding: seq<seq<int>>, log: seq<BatchEvent>, pid: int)
    requires BalancedAll(unknown, outstanding, log)
    ensures forall i, j | 0 <= i < j < |outstanding| :: !(pid in outstanding[i] && pid in outstanding[j])
    ensures Containing(AnsweredOf(log), pid) <= 1
    ensures Containing(AnsweredOf(log), pid) == 1 ==> Containing(outstanding, pid) == 0
    ensures Containing(AskedOf(log), pid) <= 1 + Containing(FailedOf(log), pid)
  {
    assert Balanced(unknown, outstanding, log, pid);
    forall i, j | 0 <= i < j < |outstanding| ensures !(pid in outstanding[i] && pid in outstanding[j]) {
      if pid in outstanding[i] && pid in outstanding[j] {
        ContainingTwo(outstanding, i, j, pid);
        assert false;
      }
    }
  }

  // ---------------------------------------------------------------- one scan

  /** A service with its command line filled in, if that is known. */
  function Filled(known: map<int, string>, svc: Service): Service {
    if svc.pid != 0 && svc.pid in known then svc.(cmd := known[svc.pid]) else svc
  }

  /** A process nobody has asked about: it has a number, no command line and no mark. */
  predicate Unasked(known: map<int, string>, unknown: set<int>, pid: int) {
    pid != 0 && pid !in known && pid !in unknown
  }

  predicate NoRepeats(pids: seq<int>) { forall i, j | 0 <= i < j < |pids| :: pids[i] != pids[j] }

  /** The batch has exactly the processes of the ports done that nobody had asked about. */
  ghost predicate AsksFor(scan: Snapshot, done: set<int>, known: map<int, string>, unknown: set<int>, need: seq<int>) {
    NoRepeats(need) && forall pid :: pid in need <==>
      Unasked(known, unknown, pid) && exists p | p in scan && p in done :: scan[p].pid == pid
  }

  /** The ports done have their lines filled in, the others are as they were scanned. */
  ghost predicate FilledIn(scan: Snapshot, done: set<int>, known: map<int, string>, snap: Snapshot) {
    snap.Keys == scan.Keys && forall p | p in scan :: snap[p] == if p in done then Filled(known, scan[p]) else scan[p]
  }

  lemma FilledMore(scan: Snapshot, done: set<int>, known: map<int, string>, snap: Snapshot, port: int)
    requires FilledIn(scan, done, known, snap) && port in scan && port !in done
    ensures port in snap && snap[port] == scan[port]
    ensures FilledIn(scan, done + {port}, known, snap[port := Filled(known, scan[port])])
    ensures Filled(known, scan[port]) == scan[port] ==> FilledIn(scan, done + {port}, known, snap)
  {
  }

  lemma AsksMore(scan: Snapshot, done: set<int>, known: map<int, string>, unknown: set<int>, need: seq<int>, port: int)
    requires AsksFor(scan, done, known, unknown, need) && port in scan
    ensures var pid := scan[port].pid;
      AsksFor(scan, done + {port}, known, unknown,
              if Unasked(known, unknown, pid) && pid !in need then need + [pid] else need)
  {
    hide Unasked;
    var pid := scan[port].pid;
    var more := if Unasked(known, unknown, pid) && pid !in need then need + [pid] else need;
    forall x ensures x in more <==>
      Unasked(known, unknown, x) && exists p | p in scan && p in done + {port} :: scan[p].pid == x
    {
      assert x in more <==> x in need || (x == pid && Unasked(known, unknown, pid));
      if p :| p in scan && p in done && scan[p].pid == x {
        assert p in done + {port};
      }
      assert port in done + {port};
    }
  }

  lemma Untouched(scan: Snapshot, known: map<int, string>, unknown: set<int>)
    ensures FilledIn(scan, {}, known, scan) && AsksFor(scan, {}, known, unknown, [])
  {
  }

  lemma WholeScan(scan: Snapshot, known: map<int, string>, unknown: set<int>, snap: Snapshot, need: seq<int>)
    requires FilledIn(scan, scan.Keys, known, snap) && AsksFor(scan, scan.Keys, known, unknown, need)
    ensures snap.Keys == scan.Keys && forall p | p in scan ::
              snap[p] == if scan[p].pid != 0 && scan[p].pid in known then scan[p].(cmd := known[scan[p].pid]) else scan[p]
    ensures forall i, j | 0 <= i < j < |need| :: need[i] != need[j]
    ensures forall pid :: pid in need <==>
              pid != 0 && pid !in known && pid !in unknown && exists p | p in scan :: scan[p].pid == pid
  {
    forall pid | Unasked(known, unknown, pid) && exists p | p in scan :: scan[p].pid == pid ensures pid in need {
      var p :| p in scan && scan[p].pid == pid;
      assert p in scan.Keys;
    }
  }

  lemma AsksOrNot(known: map<int, string>, unknown: set<int>, need: seq<int>, svc: Service)
    ensures Unasked(known, unknown, svc.pid) && svc.pid !in need <==>
              svc.pid != 0 && svc.pid !in known && svc.pid !in unknown + (set p | p in need)
  {
  }

  lemma Marked(pids: seq<int>, pid: int)
    ensures (set p | p in pids + [pid]) == (set p | p in pids) + {pid}
  {
  }

  lemma LearntMore(was: map<int, string>, found: map<int, string>, todo: set<int>, pid: int)
    requires pid in todo && todo <= found.Keys
    ensures was + (found - (todo - {pid})) == (was + (found - todo))[pid := found[pid]]
  {
  }

  class Monitor {
    var cmdlines: map<int, string>
    /** The processes that await resolution, or have had it. */
    var unknown: set<int>
    /** The lookups under way. */
    var outstanding: seq<seq<int>>
    ghost var log: seq<BatchEvent>

    ghost predicate Valid()
      reads this
    {
      BalancedAll(unknown, outstanding, log)
    }

    constructor ()
      ensures Valid() && cmdlines == map[] && unknown == {} && outstanding == [] && log == []
    {
      cmdlines, unknown, outstanding, log := map[], {}, [], [];
    }

    /** Fills in the command lines already known and asks for those of new processes, each once: the
        batch has exactly the processes of the scan that nobody has asked about. */
    method Build(scan: Snapshot) returns (snap: Snapshot, need: seq<int>)
      requires Valid()
      modifies this
      ensures Valid() && cmdlines == old(cmdlines)
      ensures snap.Keys == scan.Keys && forall p | p in scan ::
                snap[p] == if scan[p].pid != 0 && scan[p].pid in cmdlines then scan[p].(cmd := cmdlines[scan[p].pid])
                           else scan[p]
      ensures forall i, j | 0 <= i < j < |need| :: need[i] != need[j]
      ensures forall pid :: pid in need <==>
                && pid != 0 && pid !in cmdlines && pid !in old(unknown)
                && exists p | p in scan :: scan[p].pid == pid
      ensures unknown == old(unknown) + (set pid | pid in need)
      ensures outstanding == if need == [] then old(outstanding) else old(outstanding) + [need]
      ensures log == if need == [] then old(log) else old(log) + [Asked(need)]
    {
      snap, need := scan, [];
      var todo := scan.Keys;
      assert BalancedAll(unknown, outstanding, log);
      hide FilledIn, AsksFor, Valid, BalancedAll, Unasked, Filled, NoRepeats;
      Untouched(scan, cmdlines, unknown);
      assert scan.Keys - todo == {};
      while todo != {}
        invariant todo <= scan.Keys && FilledIn(scan, scan.Keys - todo, cmdlines, snap)
        invariant AsksFor(scan, scan.Keys - todo, cmdlines, old(unknown), need)
        invariant unknown == old(unknown) + (set pid | pid in need)
        invariant cmdlines == old(cmdlines) && outstanding == old(outstanding) && log == old(log)
        decreases |todo|
      {
        var port := AnyOf(todo);
        OneLess(scan.Keys, todo, port);
        snap, need := Look(scan, scan.Keys - todo, snap, need, port, old(unknown));
        todo := todo - {port};
      }
      assert scan.Keys - todo == scan.Keys;
      WholeScan(scan, cmdlines, old(unknown), snap, need);
      Ask(need, old(unknown));
    }

    /** Takes up one more port of the scan. */
    method Look(scan: Snapshot, ghost done: set<int>, sofar: Snapshot, asked: seq<int>, port: int, ghost was: set<int>)
      returns (snap: Snapshot, need: seq<int>)
      requires port in scan && port !in done && unknown == was + (set pid | pid in asked)
      requires FilledIn(scan, done, cmdlines, sofar) && AsksFor(scan, done, cmdlines, was, asked)
      modifies `unknown
      ensures FilledIn(scan, done + {port}, cmdlines, snap) && AsksFor(scan, done + {port}, cmdlines, was, need)
      ensures unknown == was + (set pid | pid in need)
    {
      hide FilledIn, AsksFor, Unasked;
      snap, need := sofar, asked;
      FilledMore(scan, done, cmdlines, snap, port);
      AsksMore(scan, done, cmdlines, was, need, port);
      var svc := snap[port];
      AsksOrNot(cmdlines, was, need, svc);
      if svc.pid != 0 {
        if svc.pid in cmdlines {
          snap := snap[port := svc.(cmd := cmdlines[svc.pid])];
        } else if svc.pid !in unknown {
          Marked(need, svc.pid);
          unknown := unknown + {svc.pid};
          need := need + [svc.pid];
        }
      }
    }

    /** Starts a lookup of a batch just marked, if there is any process in it. */
    method Ask(need: seq<int>, ghost was: set<int>)
      requires BalancedAll(was, outstanding, log) && unknown == was + (set pid | pid in need)
      requires forall pid | pid in need :: pid !in was
      modifies `outstanding, `log
      ensures Valid()
      ensures outstanding == if need == [] then old(outstanding) else old(outstanding) + [need]
      ensures log == if need == [] then old(log) else old(log) + [Asked(need)]
    {
      hide BalancedAll;
      if need != [] {
        AskKeepsBalance(was, outstanding, log, need);
        outstanding, log := outstanding + [need], log + [Asked(need)];
      } else {
        assert unknown == was;
      }
    }

    /** A lookup fails: its processes may be asked about again. */
    method ResolveFails(i: nat)
      requires Valid() && i < |outstanding|
      modifies this
      ensures Valid() && cmdlines == old(cmdlines)
      ensures unknown == old(unknown) - (set pid | pid in old(outstanding)[i])
      ensures outstanding == old(outstanding)[..i] + old(outstanding)[i + 1..] && log == old(log) + [Failed(old(outstanding)[i])]
    {
      var batch := outstanding[i];
      EndKeepsBalance(unknown, outstanding, log, i, false);
      outstanding := outstanding[..i] + outstanding[i + 1..];
      for k := 0 to |batch|
        invariant unknown == old(unknown) - (set pid | pid in batch[..k])
        invariant cmdlines == old(cmdlines) && log == old(log)
        invariant outstanding == old(outstanding)[..i] + old(outstanding)[i + 1..]
      {
        assert batch[..k + 1] == batch[..k] + [batch[k]];
        Marked(batch[..k], batch[k]);
        unknown := unknown - {batch[k]};
      }
      assert batch[..|batch|] == batch;
      log := log + [Failed(batch)];
    }

    /** A lookup is answered, with whatever lines came back; its processes are not asked about again. */
    method ResolveSucceeds(i: nat, found: map<int, string>)
      requires Valid() && i < |outstanding|
      modifies this
      ensures Valid() && cmdlines == old(cmdlines) + found && unknown == old(unknown)
      ensures outstanding == old(outstanding)[..i] + old(outstanding)[i + 1..] && log == old(log) + [Answered(old(outstanding)[i])]
    {
      EndKeepsBalance(unknown, outstanding, log, i, true);
      var batch := outstanding[i];
      outstanding, log := outstanding[..i] + outstanding[i + 1..], log + [Answered(batch)];
      Learn(found);
    }

    method Learn(found: map<int, string>)
      modifies `cmdlines
      ensures cmdlines == old(cmdlines) + found
    {
      var todo := found.Keys;
      ghost var was := cmdlines;
      assert found - todo == map[];
      while todo != {}
        invariant todo <= found.Keys && cmdlines == was + (found - todo)
        decreases |todo|
      {
        var pid := AnyOf(todo);
        cmdlines := cmdlines[pid := found[pid]];
        LearntMore(was, found, todo, pid);
        todo := todo - {pid};
      }
      assert found - todo == found;
    }
  }
}

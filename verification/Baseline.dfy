/** Services that were already there when the program connected: internal/tunnel/manager.go, Sync,
    and internal/tunnel/policy.go, Eval. */
module Baseline {
  import opened Wrappers
  import opened Policy
  import opened PortSets
  import opened TunnelModel
  import opened TunnelInvariants
  import opened TunnelFrames
  import opened TunnelLog
  import opened TunnelRuns
  import Pause
  import Window

  /** The ports of the first scan, once there has been one. */
  function FirstScan(ops: seq<Op>): Option<set<int>> {
    if Window.Scans(ops) == [] then None else Some(Window.Scans(ops)[0])
  }

  /** A row is marked pre-existing exactly when the first scan of the run lists its port. */
  lemma {:induction false} PreexistingIsFirstScan(c: Config, tr: seq<State>, ops: seq<Op>, n: nat)
    requires Run(c, tr, ops) && n <= |ops|
    ensures tr[n].haveBase <==> FirstScan(ops[..n]).Some?
    ensures tr[n].haveBase ==> tr[n].baseline == FirstScan(ops[..n]).value
    ensures forall p | p in tr[n].rows :: tr[n].haveBase && (tr[n].rows[p].preexisting <==> p in tr[n].baseline)
  {
    hide Step, Legal, StoreStep, Kin;
    if n == 0 {
      assert ops[..0] == [];
    } else {
      PreexistingIsFirstScan(c, tr, ops, n - 1);
      var s, op, t := tr[n - 1], ops[n - 1], tr[n];
      assert Legal(s, op) && t == Step(c, s, op);
      StepRows(c, s, op);
      assert ops[..n][..n - 1] == ops[..n - 1];
      forall p | p in t.rows ensures t.haveBase && (t.rows[p].preexisting <==> p in t.baseline) {
        PreexistingStep(c, s, op, t, p);
      }
    }
  }

  lemma PreexistingStep(c: Config, s: State, op: Op, t: State, p: int)
    requires p in t.rows && RowStep(c, s, op, t, p)
    ensures p in s.rows ==> t.rows[p].preexisting == s.rows[p].preexisting
    ensures p !in s.rows ==> op.Sync? && (t.rows[p].preexisting <==> p in Based(s, op.snap).baseline)
  {
  }

  /** With `existing` off, a port of the first scan that is never included and whose mode always
      is automatic never gets a tunnel and is never reported as opened: not after going away and
      coming back, not across reconnects, policy changes or pauses. */
  lemma BaselineStaysClosed(c: Config, tr: seq<State>, ops: seq<Op>, n: nat, p: int)
    requires Run(c, tr, ops) && n <= |ops| && NotClosed(ops, n)
    requires FirstScan(ops[..n]).Some? && p in FirstScan(ops[..n]).value
    requires forall i | 0 <= i <= n :: !tr[i].policy.existing && !Contains(tr[i].policy.included, p)
    requires forall i | 0 <= i <= n && p in tr[i].rows :: tr[i].rows[p].mode.Auto?
    ensures p !in Live(tr[n].rows)
    ensures forall e | 0 <= e < |tr[n].log| && tr[n].log[e].Opened? :: tr[n].log[e].port != p
  {
    hide Step;
    NeverLive(c, tr, ops, n, n, p);
    forall e | 0 <= e < |tr[n].log| && tr[n].log[e].Opened? ensures tr[n].log[e].port != p {
      OpenedWasLive(c, tr, ops, 0, n, e);
      var k :| 0 < k <= n && tr[n].log[e].port in Live(tr[k].rows);
      if tr[n].log[e].port == p {
        NeverLive(c, tr, ops, n, k, p);
      }
    }
  }

  lemma {:induction false} NeverLive(c: Config, tr: seq<State>, ops: seq<Op>, n: nat, k: nat, p: int)
    requires Run(c, tr, ops) && k <= n <= |ops| && NotClosed(ops, n)
    requires FirstScan(ops[..n]).Some? && p in FirstScan(ops[..n]).value
    requires forall i | 0 <= i <= n :: !tr[i].policy.existing && !Contains(tr[i].policy.included, p)
    requires forall i | 0 <= i <= n && p in tr[i].rows :: tr[i].rows[p].mode.Auto?
    ensures p in tr[k].rows ==> tr[k].rows[p].tunnel.None? && !tr[k].rows[p].pausedKeep
    decreases k
  {
    hide Step, Legal, StoreStep, RowStep, Verdict;
    RunsHold(c, tr, ops, k);
    if k > 0 && p in tr[k].rows {
      NeverLive(c, tr, ops, n, k - 1, p);
      var s, op, t := tr[k - 1], ops[k - 1], tr[k];
      assert Legal(s, op) && t == Step(c, s, op);
      StepRows(c, s, op);
      Pause.KeepMeansPaused(c, tr, ops, k - 1);
      Pause.KeepStep(c, s, op, t, p);
      PreexistingIsFirstScan(c, tr, ops, k);
      FirstScanStays(ops, k, n);
      NotWanted(c, t.policy, t.rows[p], p);
      assert Agrees(c, t, t.rows[p]);
    }
  }

  lemma NotWanted(c: Config, policy: Policy, r: Row, p: int)
    requires r.svc.port == p && r.mode.Auto? && r.preexisting && !r.pausedKeep
    requires !policy.existing && !Contains(policy.included, p)
    ensures !Wanted(c.ip, policy, r)
  {
  }

  lemma {:induction false} FirstScanStays(ops: seq<Op>, k: nat, n: nat)
    requires k <= n <= |ops| && FirstScan(ops[..k]).Some?
    ensures FirstScan(ops[..n]) == FirstScan(ops[..k])
    decreases n
  {
    if k < n {
      FirstScanStays(ops, k, n - 1);
      assert ops[..n][..n - 1] == ops[..n - 1];
    }
  }
}

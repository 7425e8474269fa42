/** What a row shows of its service: internal/tunnel/manager.go, Sync, the refresh of a listed entry. */
module Sightings {
  import opened Services
  import opened TunnelModel
  import opened TunnelFrames

  /** Call k is a scan that lists p. */
  predicate Sees(ops: seq<Op>, k: nat, p: int)
    requires k < |ops|
  {
    ops[k].Sync? && p in ops[k].snap
  }

  /** What the scan k says about p. */
  function Sighting(ops: seq<Op>, k: nat, p: int): Service
    requires k < |ops| && Sees(ops, k, p)
  {
    ops[k].snap[p]
  }

  /** The row of p was made by call m and has been there ever since, up to n. */
  predicate Made(tr: seq<State>, ops: seq<Op>, p: int, m: nat, n: nat) {
    && m < n <= |ops| && |tr| == |ops| + 1
    && p !in tr[m].rows && forall k | m < k <= n :: p in tr[k].rows
  }

  /** l is the last scan before n that lists p. */
  predicate LastSeen(ops: seq<Op>, p: int, l: nat, n: nat) {
    l < n <= |ops| && Sees(ops, l, p) && forall k | l < k < n :: !Sees(ops, k, p)
  }

  /** cmd is the last command line the scans from m on have told of p, or none if they told none. */
  predicate LastTold(ops: seq<Op>, p: int, m: nat, n: nat, cmd: string)
    requires n <= |ops|
  {
    if cmd == "" then forall k | m <= k < n && Sees(ops, k, p) :: Sighting(ops, k, p).cmd == ""
    else exists k | m <= k < n && Sees(ops, k, p) ::
           Sighting(ops, k, p).cmd == cmd && forall j | k < j < n && Sees(ops, j, p) :: Sighting(ops, j, p).cmd == ""
  }

  /** The service of a row once a scan has listed it, and after any other call. */
  lemma ServiceStep(c: Config, s: State, op: Op, t: State, p: int)
    requires Frame(c, s, op, t) && p in t.rows
    ensures if op.Sync? && p in op.snap then
              && t.rows[p].svc == op.snap[p].(cmd := t.rows[p].svc.cmd)
              && t.rows[p].svc.cmd ==
                 if op.snap[p].cmd == "" && p in s.rows then s.rows[p].svc.cmd else op.snap[p].cmd
            else p in s.rows && t.rows[p].svc == s.rows[p].svc
  {
    hide StoreStep, RestStep;
    assert RowStep(c, s, op, t, p);
  }

  lemma ToldMore(ops: seq<Op>, p: int, m: nat, n: nat, cmd: string)
    requires m <= n < |ops| && LastTold(ops, p, m, n, cmd)
    ensures !Sees(ops, n, p) ==> LastTold(ops, p, m, n + 1, cmd)
    ensures Sees(ops, n, p) ==>
              var told := Sighting(ops, n, p).cmd; LastTold(ops, p, m, n + 1, if told == "" then cmd else told)
  {
  }

  /** In every run a listed row has port, binds and process of the last scan that lists it, and the last command line
      that any scan has told since the row was made. */
  lemma {:induction false} RowsShowTheLastSighting(c: Config, tr: seq<State>, ops: seq<Op>, n: nat, p: int)
    returns (m: nat, l: nat)
    requires Run(c, tr, ops) && n <= |ops| && p in tr[n].rows
    ensures Made(tr, ops, p, m, n) && m <= l && Sees(ops, m, p) && LastSeen(ops, p, l, n)
    ensures var svc, seen := tr[n].rows[p].svc, Sighting(ops, l, p);
            && svc.port == p == seen.port && svc.binds == seen.binds && svc.pid == seen.pid && svc.proc == seen.proc
            && LastTold(ops, p, m, n, svc.cmd)
  {
    hide Step, Frame, LastTold;
    var s, op, t := tr[n - 1], ops[n - 1], tr[n];
    assert Legal(s, op) && t == Step(c, s, op);
    StepRows(c, s, op);
    ServiceStep(c, s, op, t, p);
    if p in s.rows {
      m, l := RowsShowTheLastSighting(c, tr, ops, n - 1, p);
      ToldMore(ops, p, m, n - 1, s.rows[p].svc.cmd);
      if Sees(ops, n - 1, p) {
        l := n - 1;
      }
    } else {
      m, l := n - 1, n - 1;
      ToldFirst(ops, p, m);
    }
  }

  lemma ToldFirst(ops: seq<Op>, p: int, m: nat)
    requires m < |ops| && Sees(ops, m, p)
    ensures LastTold(ops, p, m, m + 1, Sighting(ops, m, p).cmd)
  {
  }
}

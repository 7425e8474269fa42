/** The grace period as a sliding window: internal/tunnel/manager.go, Sync and SetDialer.

    The program counts missed scans per port and clears the counts when the link drops. Here
    the listed ports are characterised from the calls alone, without any counter. */
module Window {
  import opened Wrappers
  import opened TunnelModel
  import opened TunnelFrames

  /** The port sets of the scans among the calls. */
  function Scans(ops: seq<Op>): seq<set<int>> {
    if ops == [] then []
    else
      var rest, op := ops[..|ops| - 1], ops[|ops| - 1];
      if op.Sync? then Scans(rest) + [op.snap.Keys] else Scans(rest)
  }

  /** Where the link last dropped. */
  function LastDrop(ops: seq<Op>): (r: Option<nat>)
    ensures r.Some? ==> r.value < |ops| && ops[r.value].Disconnect?
    ensures forall i | 0 <= i < |ops| && (r.Some? ==> r.value < i) :: !ops[i].Disconnect?
  {
    if ops == [] then None
    else if ops[|ops| - 1].Disconnect? then Some(|ops| - 1)
    else LastDrop(ops[..|ops| - 1])
  }

  /** The scans since the link last dropped, or since the start. */
  function Since(ops: seq<Op>): seq<set<int>> {
    match LastDrop(ops)
    case None => Scans(ops)
    case Some(d) => Scans(ops[d..])
  }

  /** One of the last m scans lists p. */
  predicate Within(scans: seq<set<int>>, m: nat, p: int) {
    exists i | 0 <= i < |scans| && |scans| - m <= i :: p in scans[i]
  }

  /** p is listed: one of the last `grace` scans since the link last dropped lists it, or there
      have been fewer than that and it was listed when the link dropped. */
  predicate Listed(grace: nat, ops: seq<Op>, p: int)
    decreases |ops|
  {
    || Within(Since(ops), grace, p)
    || (|Since(ops)| < grace && LastDrop(ops).Some? && Listed(grace, ops[..LastDrop(ops).value], p))
  }

  /** How many scans in a row, up to the last one and back to the last drop, lack p. */
  function Missed(scans: seq<set<int>>, p: int): (m: nat)
    ensures m <= |scans|
    ensures forall i | |scans| - m <= i < |scans| :: p !in scans[i]
    ensures m < |scans| ==> p in scans[|scans| - 1 - m]
  {
    if scans == [] || p in scans[|scans| - 1] then 0 else Missed(scans[..|scans| - 1], p) + 1
  }

  lemma WithinMissed(scans: seq<set<int>>, m: nat, p: int)
    ensures Within(scans, m, p) <==> Missed(scans, p) < |scans| && Missed(scans, p) < m
  {
    var k := Missed(scans, p);
    if k < |scans| && k < m {
      assert p in scans[|scans| - 1 - k];
    }
  }

  lemma {:induction false} ScansTail(ops: seq<Op>, d: nat)
    requires d < |ops| && !ops[|ops| - 1].Sync?
    ensures Scans(ops[d..]) == if d == |ops| - 1 then [] else Scans(ops[..|ops| - 1][d..])
  {
    var tail := ops[d..];
    if d == |ops| - 1 {
      assert tail[..0] == [];
    } else {
      assert tail[..|tail| - 1] == ops[..|ops| - 1][d..];
    }
  }

  /** How the scans since the last drop change with one more call. */
  lemma SinceStep(ops: seq<Op>)
    requires ops != []
    ensures var rest, op := ops[..|ops| - 1], ops[|ops| - 1];
            && (op.Sync? ==> Since(ops) == Since(rest) + [op.snap.Keys] && LastDrop(ops) == LastDrop(rest))
            && (op.Disconnect? ==> Since(ops) == [] && LastDrop(ops) == Some(|ops| - 1))
            && (!op.Sync? && !op.Disconnect? ==> Since(ops) == Since(rest) && LastDrop(ops) == LastDrop(rest))
  {
    var rest, op := ops[..|ops| - 1], ops[|ops| - 1];
    match LastDrop(ops)
    case None =>
    case Some(d) =>
      if op.Sync? {
        var tail := ops[d..];
        assert tail[..|tail| - 1] == rest[d..];
      } else {
        ScansTail(ops, d);
      }
  }

  /** One more call and the listed ports. */
  lemma ListedStep(grace: nat, ops: seq<Op>, p: int)
    requires ops != [] && grace > 0
    ensures var rest, op := ops[..|ops| - 1], ops[|ops| - 1];
            Listed(grace, ops, p) <==>
            if op.Sync? then p in op.snap || (Listed(grace, rest, p) && Missed(Since(rest), p) + 1 < grace)
            else Listed(grace, rest, p)
  {
    var rest, op := ops[..|ops| - 1], ops[|ops| - 1];
    SinceStep(ops);
    if op.Sync? {
      WithinMissed(Since(ops), grace, p);
      WithinMissed(Since(rest), grace, p);
      assert Since(ops)[..|Since(ops)| - 1] == Since(rest);
      if LastDrop(ops).Some? {
        assert ops[..LastDrop(ops).value] == rest[..LastDrop(ops).value];
      }
    } else if op.Disconnect? {
      assert ops[..|ops| - 1] == rest;
    } else if LastDrop(ops).Some? {
      assert ops[..LastDrop(ops).value] == rest[..LastDrop(ops).value];
    }
  }

  /** p is listed exactly if the window has it, and its counter is the number of scans missed in a row. */
  predicate InWindow(c: Config, s: State, ops: seq<Op>, p: int) {
    && (p in s.rows <==> Listed(c.grace, ops, p))
    && (p in s.rows ==> s.rows[p].missing == Missed(Since(ops), p))
  }

  lemma WindowStep(c: Config, s: State, ops: seq<Op>, t: State, p: int)
    requires ops != [] && c.grace > 0 && InWindow(c, s, ops[..|ops| - 1], p)
    requires Frame(c, s, ops[|ops| - 1], t)
    ensures InWindow(c, t, ops, p)
  {
    hide Listed, Since, LastDrop, RestStep, StoreStep, RowStep;
    var rest, op := ops[..|ops| - 1], ops[|ops| - 1];
    ListedStep(c.grace, ops, p);
    SinceStep(ops);
    if p in t.rows {
      MissingStep(c, s, op, t, p);
      if op.Sync? {
        assert (Since(rest) + [op.snap.Keys])[..|Since(rest)|] == Since(rest);
      }
    }
  }

  /** In every run the listed ports are exactly those of the sliding window, and the counter of
      a listed port is the number of scans missed in a row. */
  lemma {:induction false} RowsAreTheWindow(c: Config, tr: seq<State>, ops: seq<Op>, n: nat)
    requires Run(c, tr, ops) && n <= |ops|
    ensures forall p :: p in tr[n].rows <==> Listed(c.grace, ops[..n], p)
    ensures forall p | p in tr[n].rows :: tr[n].rows[p].missing == Missed(Since(ops[..n]), p)
  {
    hide Step, Legal, Frame;
    if n == 0 {
      assert ops[..0] == [];
    } else {
      RowsAreTheWindow(c, tr, ops, n - 1);
      hide Listed, Missed, Since;
      assert Legal(tr[n - 1], ops[n - 1]) && tr[n] == Step(c, tr[n - 1], ops[n - 1]);
      StepRows(c, tr[n - 1], ops[n - 1]);
      assert ops[..n][..n - 1] == ops[..n - 1];
      forall p ensures InWindow(c, tr[n], ops[..n], p) {
        assert InWindow(c, tr[n - 1], ops[..n - 1], p);
        WindowStep(c, tr[n - 1], ops[..n], tr[n], p);
      }
      forall p ensures p in tr[n].rows <==> Listed(c.grace, ops[..n], p) {
        assert InWindow(c, tr[n], ops[..n], p);
      }
      forall p | p in tr[n].rows ensures tr[n].rows[p].missing == Missed(Since(ops[..n]), p) {
        assert InWindow(c, tr[n], ops[..n], p);
      }
    }
  }

  lemma MissingStep(c: Config, s: State, op: Op, t: State, p: int)
    requires p in t.rows && RowStep(c, s, op, t, p)
    ensures t.rows[p].missing ==
            if op.Sync? then (if p in op.snap then 0 else if p in s.rows then s.rows[p].missing + 1 else 0)
            else if op.Disconnect? then 0
            else if p in s.rows then s.rows[p].missing else 0
    ensures p in s.rows || (op.Sync? && p in op.snap)
  {
    hide Fresh;
  }

  /** While the link never drops, the listed ports are the union of the last `grace` scans. */
  lemma UnionOfScans(c: Config, tr: seq<State>, ops: seq<Op>, n: nat)
    requires Run(c, tr, ops) && n <= |ops|
    requires forall i | 0 <= i < n :: !ops[i].Disconnect?
    ensures forall p :: p in tr[n].rows <==> Within(Scans(ops[..n]), c.grace, p)
  {
    hide Step, Legal;
    RowsAreTheWindow(c, tr, ops, n);
    assert LastDrop(ops[..n]).None?;
  }
}

/** What holds in every state of every run of the tunnel manager: internal/tunnel/manager.go. */
module TunnelRuns {
  import opened TunnelModel
  import opened TunnelInvariants

  /** The first n calls do not include Close. */
  ghost predicate NotClosed(ops: seq<Op>, n: nat)
    requires n <= |ops|
  {
    forall j | 0 <= j < n :: !ops[j].Close?
  }

  /** Over whole runs: the listeners held are exactly those of the live tunnels, which share
      no port and mark a remap truthfully; and before Close the log replays to the live tunnels
      and every row agrees with a fresh evaluation. */
  lemma {:induction false} RunsHold(c: Config, tr: seq<State>, ops: seq<Op>, n: nat)
    requires Run(c, tr, ops) && n <= |ops|
    ensures Owned(tr[n])
    ensures NotClosed(ops, n) ==> Logged(tr[n]) && Reconciled(c, tr[n])
  {
    hide Step, Owned, Logged, Legal;
    if n == 0 {
      InitialHolds(c, tr[0]);
    } else {
      RunsHold(c, tr, ops, n - 1);
      var s := tr[n - 1];
      assert tr[n] == Step(c, s, ops[n - 1]);
      var logged := NotClosed(ops, n - 1);
      StepCoherent(c, s, ops[n - 1], logged);
      if NotClosed(ops, n) {
        StepReconciled(c, s, ops[n - 1]);
      }
    }
  }

  lemma InitialHolds(c: Config, s: State)
    requires Initial(s)
    ensures Owned(s) && Logged(s) && Reconciled(c, s)
  {
  }

  /** After Close no listener is left and nothing is live. */
  lemma AfterClose(c: Config, tr: seq<State>, ops: seq<Op>, n: nat)
    requires Run(c, tr, ops) && n < |ops| && ops[n].Close?
    ensures tr[n + 1].held == {} && Live(tr[n + 1].rows) == map[]
  {
    hide Owned;
    RunsHold(c, tr, ops, n);
    CloseOwned(tr[n]);
    assert tr[n + 1] == Step(c, tr[n], ops[n]);
  }

  // ---------------------------------------------------------------- what the table shows

  datatype Status = Active | Skipped | Error | Offline

  /** The status of a row. */
  function StatusOf(c: Config, s: State, r: Row): Status {
    if r.tunnel.Some? then Active
    else if r.err.Some? then Error
    else if s.dialer.None? && Wanted(c.ip, s.policy, r) then Offline
    else Skipped
  }

  predicate Hidden(r: Row) { r.tunnel.None? && r.mode.Auto? && r.skip.Filtered() }

  /** The status tells the truth: a row shown as skipped is not wanted; one shown as offline is
      wanted and only lacks the link; with the link up, a row is active exactly when it is wanted
      and its last attempt did not fail. A hidden row is ruled out by explicit configuration. */
  lemma StatusTells(c: Config, tr: seq<State>, ops: seq<Op>, n: nat, p: int)
    requires Run(c, tr, ops) && n <= |ops| && NotClosed(ops, n)
    requires p in tr[n].rows
    ensures var s, r := tr[n], tr[n].rows[p];
            && (StatusOf(c, s, r).Skipped? <==> r.err.None? && !Wanted(c.ip, s.policy, r))
            && (StatusOf(c, s, r).Offline? <==> r.err.None? && Wanted(c.ip, s.policy, r) && s.dialer.None?)
            && (StatusOf(c, s, r).Active? <==> r.err.None? && Wanted(c.ip, s.policy, r) && s.dialer.Some?)
            && (StatusOf(c, s, r).Active? ==> r.skip.NotSkipped?)
            && (Hidden(r) ==> Verdict(c.ip, s.policy, r).Filtered() && !Wanted(c.ip, s.policy, r))
  {
    hide Verdict;
    RunsHold(c, tr, ops, n);
    assert Agrees(c, tr[n], tr[n].rows[p]);
  }

  // ---------------------------------------------------------------- the log, port by port

  predicate About(e: Event, p: int) { !e.Failed? && e.port == p }

  /** The openings and closings of one port. */
  function History(log: seq<Event>, p: int): seq<Event> {
    if log == [] then []
    else
      var rest, e := log[..|log| - 1], log[|log| - 1];
      if About(e, p) then History(rest, p) + [e] else History(rest, p)
  }

  /** Openings and closings take turns, beginning with an opening; each closing names the local
      port of the opening it ends; an opening is marked as remapped exactly when the ports differ. */
  ghost predicate Alternates(h: seq<Event>) { forall i | 0 <= i < |h| :: TakesTurn(h, i) }

  predicate TakesTurn(h: seq<Event>, i: nat)
    requires i < |h|
  {
    if i % 2 == 0 then h[i].Opened? && (h[i].remapped <==> h[i].local != h[i].port)
    else h[i].Closed? && h[i - 1].Opened? && h[i].local == h[i - 1].local
  }

  /** What the openings and closings of one port so far tell about it: alternating, and open on `live`. */
  ghost predicate Tells(h: seq<Event>, p: int, live: map<int, int>) {
    && Alternates(h)
    && (p in live <==> |h| % 2 == 1)
    && (p in live ==> h[|h| - 1].Opened? && h[|h| - 1].local == live[p])
    && (forall i | 0 <= i < |h| :: h[i].port == p)
  }

  lemma AlternatesMore(h: seq<Event>, e: Event)
    requires Alternates(h)
    requires if |h| % 2 == 0 then e.Opened? && (e.remapped <==> e.local != e.port)
             else h[|h| - 1].Opened? && e.Closed? && e.local == h[|h| - 1].local
    ensures Alternates(h + [e])
  {
    var more := h + [e];
    forall i | 0 <= i < |more| ensures TakesTurn(more, i) {
      if i < |h| {
        assert TakesTurn(h, i) && more[i] == h[i];
        if i > 0 { assert more[i - 1] == h[i - 1]; }
      }
    }
  }

  lemma HistorySnoc(log: seq<Event>, p: int)
    requires log != []
    ensures var rest, e := log[..|log| - 1], log[|log| - 1];
            History(log, p) == if About(e, p) then History(rest, p) + [e] else History(rest, p)
  {
  }

  lemma {:induction false} BalancedAlternates(log: seq<Event>, p: int)
    requires Balanced(log)
    ensures Tells(History(log, p), p, Replay(log))
  {
    if log != [] {
      var rest, e := log[..|log| - 1], log[|log| - 1];
      BalancedAlternates(rest, p);
      HistorySnoc(log, p);
      hide Alternates, History;
      if About(e, p) {
        AlternatesMore(History(rest, p), e);
      }
    }
  }

  /** In every run without Close, port by port: opened and closed events alternate, each closing
      with the local port of its opening, and the last one is an opening exactly when the port
      has a tunnel, on that local port. */
  lemma EventsTellTheTunnels(c: Config, tr: seq<State>, ops: seq<Op>, n: nat, p: int)
    requires Run(c, tr, ops) && n <= |ops| && NotClosed(ops, n)
    ensures var h, live := History(tr[n].log, p), Live(tr[n].rows);
            && Alternates(h)
            && (p in live <==> |h| % 2 == 1)
            && (p in live ==> h[|h| - 1].Opened? && h[|h| - 1].port == p && h[|h| - 1].local == live[p])
  {
    RunsHold(c, tr, ops, n);
    BalancedAlternates(tr[n].log, p);
  }
}

/** Decisions survive: internal/tunnel/manager.go, Sync and persist, over internal/config/config.go. */
module Decisions {
  import opened Wrappers
  import opened Schemes
  import opened Allocation
  import opened TunnelModel
  import opened TunnelFrames
  import S = Settings

  /** Calls that change a decision about p for this session only. */
  predicate SessionOnly(op: Op, p: int) {
    (op.ForwardNow? && op.port == p) || (op.SetLocalPort? && op.port == p && !op.remember)
  }

  /** A row's decisions are those the settings hold for its port. */
  ghost predicate Remembered(s: State, p: int)
    requires p in s.rows
  {
    && DecisionOf(s.rows[p]) == S.Decode(S.Lookup(s.store, p))
    && (s.rows[p].pinned ==> !s.rows[p].scheme.Unknown?)
  }

  lemma RememberedStep(c: Config, s: State, op: Op, t: State, p: int)
    requires c.remembers && !SessionOnly(op, p)
    requires p in t.rows && Frame(c, s, op, t)
    requires p in s.rows ==> Remembered(s, p)
    ensures Remembered(t, p)
  {
    hide S.Stored, S.Encode, S.Decode, S.Lookup, KeysStep, RestStep;
    if Persists(s, op).Some? {
      var q := Persists(s, op).value;
      S.StoreRoundTrip(s.store, q, DecisionOf(t.rows[q]));
    }
    assert RowStep(c, s, op, t, p);
  }

  /** A row made from the settings shows them as long as no session-only call names its port. */
  lemma {:induction false} RememberedSince(c: Config, tr: seq<State>, ops: seq<Op>, p: int, m: nat, n: nat)
    requires Run(c, tr, ops) && m <= n <= |ops| && c.remembers && p !in tr[m].rows
    requires forall i | m <= i < n :: !SessionOnly(ops[i], p)
    ensures p in tr[n].rows ==> Remembered(tr[n], p)
    decreases n
  {
    hide Step, Legal, Frame, Remembered;
    if n > m {
      RememberedSince(c, tr, ops, p, m, n - 1);
      var s, op, t := tr[n - 1], ops[n - 1], tr[n];
      assert Legal(s, op) && t == Step(c, s, op);
      StepRows(c, s, op);
      if p in t.rows {
        RememberedStep(c, s, op, t, p);
      }
    }
  }

  /** In every run, a port that no session-only call named has the label, mode, local pin and
      pinned scheme that the settings hold for it. */
  lemma DecisionsAreRemembered(c: Config, tr: seq<State>, ops: seq<Op>, n: nat, p: int)
    requires Run(c, tr, ops) && n <= |ops| && c.remembers
    requires forall i | 0 <= i < n :: !SessionOnly(ops[i], p)
    ensures p in tr[n].rows ==> Remembered(tr[n], p)
  {
    hide Step, Legal, Remembered;
    RememberedSince(c, tr, ops, p, 0, n);
  }

  /** The stored entry of a port changes only by a call that persists that very port, which is
      then listed; with any settings, in any run. */
  lemma OnlyPersistWrites(c: Config, s: State, op: Op, p: int)
    requires Legal(s, op)
    requires S.Lookup(Step(c, s, op).store, p) != S.Lookup(s.store, p)
    ensures c.remembers && Persists(s, op) == Some(p) && p in s.rows
  {
    hide Step, KeysStep, RestStep, RowStep, S.Encode;
    StepRows(c, s, op);
  }

  /** Call k writes the decisions of p to the settings. */
  predicate Writes(tr: seq<State>, ops: seq<Op>, p: int, k: nat)
    requires k < |ops| && k < |tr|
  {
    Persists(tr[k], ops[k]) == Some(p)
  }

  /** Without such a call the settings of p stay what they are. */
  lemma {:induction false} StaysStored(c: Config, tr: seq<State>, ops: seq<Op>, p: int, i: nat, j: nat)
    requires Run(c, tr, ops) && i <= j <= |ops|
    requires forall k | i <= k < j :: !Writes(tr, ops, p, k)
    ensures S.Lookup(tr[j].store, p) == S.Lookup(tr[i].store, p)
    decreases j
  {
    hide Step, Legal, Persists;
    if i < j {
      StaysStored(c, tr, ops, p, i, j - 1);
      var s, op, t := tr[j - 1], ops[j - 1], tr[j];
      assert Legal(s, op) && t == Step(c, s, op) && !Writes(tr, ops, p, j - 1);
      if S.Lookup(t.store, p) != S.Lookup(s.store, p) {
        OnlyPersistWrites(c, s, op, p);
      }
    }
  }

  /** A call that writes leaves the settings of p with the decisions its row then has. */
  lemma WritesItsRow(c: Config, s: State, op: Op, t: State, p: int)
    requires c.remembers && Frame(c, s, op, t) && Persists(s, op) == Some(p)
    ensures p in t.rows && S.Decode(S.Lookup(t.store, p)) == DecisionOf(t.rows[p])
  {
    hide S.Stored, S.Encode, S.Decode, S.Lookup, KeysStep, RestStep, RowStep;
    S.StoreRoundTrip(s.store, p, DecisionOf(t.rows[p]));
  }

  /** The settings at j are those of the last call since i that wrote. */
  ghost predicate LastWrote(tr: seq<State>, ops: seq<Op>, p: int, k: nat, j: nat) {
    && k < j <= |ops| && |tr| == |ops| + 1
    && Writes(tr, ops, p, k) && (forall l | k < l < j :: !Writes(tr, ops, p, l))
    && p in tr[k + 1].rows && S.Decode(S.Lookup(tr[j].store, p)) == DecisionOf(tr[k + 1].rows[p])
  }

  /** In every run the settings of a port are what they were, or, once calls have written them, the decisions
      of its row right after the last of these. */
  lemma {:induction false} SettingsTellLastWrite(c: Config, tr: seq<State>, ops: seq<Op>, p: int, i: nat, j: nat)
    requires Run(c, tr, ops) && i <= j <= |ops| && c.remembers
    ensures if exists k | i <= k < j :: Writes(tr, ops, p, k)
            then exists k | i <= k < j :: LastWrote(tr, ops, p, k, j)
            else S.Lookup(tr[j].store, p) == S.Lookup(tr[i].store, p)
    decreases j
  {
    hide Step, Legal, Writes, Frame, S.Decode, S.Lookup;
    if !exists k | i <= k < j :: Writes(tr, ops, p, k) {
      StaysStored(c, tr, ops, p, i, j);
    } else if Writes(tr, ops, p, j - 1) {
      WroteJustNow(c, tr, ops, p, j - 1);
    } else {
      SettingsTellLastWrite(c, tr, ops, p, i, j - 1);
      StaysStored(c, tr, ops, p, j - 1, j);
      var k :| i <= k < j - 1 && LastWrote(tr, ops, p, k, j - 1);
      assert LastWrote(tr, ops, p, k, j);
    }
  }

  lemma WroteJustNow(c: Config, tr: seq<State>, ops: seq<Op>, p: int, k: nat)
    requires Run(c, tr, ops) && k < |ops| && c.remembers && Writes(tr, ops, p, k)
    ensures LastWrote(tr, ops, p, k, k + 1)
  {
    hide Step, Legal, Frame, Persists;
    assert Legal(tr[k], ops[k]) && tr[k + 1] == Step(c, tr[k], ops[k]);
    StepRows(c, tr[k], ops[k]);
    WritesItsRow(c, tr[k], ops[k], tr[k + 1], p);
  }

  /** A port that goes after the grace period and is seen again later comes back with the
      decisions it had when it went. */
  lemma ComesBackTheSame(c: Config, tr: seq<State>, ops: seq<Op>, p: int, i: nat, j: nat)
    requires Run(c, tr, ops) && i + 1 < j <= |ops| && c.remembers
    requires forall k | 0 <= k < j :: !SessionOnly(ops[k], p)
    requires p in tr[i].rows && p in tr[j].rows && forall k | i < k < j :: p !in tr[k].rows
    ensures DecisionOf(tr[j].rows[p]) == DecisionOf(tr[i].rows[p])
  {
    hide Step, Frame;
    DecisionsAreRemembered(c, tr, ops, i, p);
    DecisionsAreRemembered(c, tr, ops, j, p);
    assert Remembered(tr[i], p) && Remembered(tr[j], p);
    StepRows(c, tr[i], ops[i]);
    GoingIsNotPersisting(c, tr[i], ops[i], tr[i + 1], p);
    AbsentWritesNothing(c, tr, ops, p, i, j);
    StaysStored(c, tr, ops, p, i, j);
  }

  lemma AbsentWritesNothing(c: Config, tr: seq<State>, ops: seq<Op>, p: int, i: nat, j: nat)
    requires i < j <= |ops| && |tr| == |ops| + 1
    requires !Writes(tr, ops, p, i) && forall k | i < k < j :: p !in tr[k].rows
    ensures forall k | i <= k < j :: !Writes(tr, ops, p, k)
  {
  }

  lemma GoingIsNotPersisting(c: Config, s: State, op: Op, t: State, p: int)
    requires Frame(c, s, op, t) && p in s.rows && p !in t.rows
    ensures Persists(s, op) != Some(p)
  {
  }

  /** Traffic never changes a pinned scheme, nor any decision at all. */
  lemma ObservationKeepsDecisions(s: State, p: int, scheme: Scheme, q: int)
    requires q in s.rows
    ensures var t := ObserveSchemeStep(s, p, scheme);
            && DecisionOf(t.rows[q]) == DecisionOf(s.rows[q])
            && (s.rows[q].pinned ==> t.rows[q] == s.rows[q])
  {
  }

  // ---------------------------------------------------------------- for this session only

  /** Call k leaves p listed and does not change its mode, but for forwarding it now. */
  predicate LeavesMode(tr: seq<State>, ops: seq<Op>, p: int, k: nat)
    requires k < |ops| && |tr| == |ops| + 1
  {
    p in tr[k + 1].rows && !(ops[k].CycleMode? && ops[k].port == p)
  }

  predicate SetsPort(op: Op, p: int) { op.SetLocalPort? && op.port == p && 0 <= op.local <= 65535 }

  /** Call k leaves p listed and does not set its local port. */
  predicate LeavesPin(tr: seq<State>, ops: seq<Op>, p: int, k: nat)
    requires k < |ops| && |tr| == |ops| + 1
  {
    p in tr[k + 1].rows && !SetsPort(ops[k], p)
  }

  lemma ModeStep(c: Config, s: State, op: Op, t: State, p: int)
    requires Frame(c, s, op, t) && p in s.rows
    ensures p in t.rows && s.rows[p].mode == S.On && !(op.CycleMode? && op.port == p) ==> t.rows[p].mode == S.On
    ensures op.ForwardNow? && op.port == p && !s.rows[p].mode.Off? ==> p in t.rows && t.rows[p].mode == S.On
  {
    hide RestStep, StoreStep, S.Decode, S.Lookup;
    if p in t.rows {
      assert RowStep(c, s, op, t, p);
    }
  }

  lemma PinStep(c: Config, s: State, op: Op, t: State, p: int)
    requires Frame(c, s, op, t) && p in s.rows
    ensures p in t.rows && !SetsPort(op, p) ==> t.rows[p].pinnedLocal == s.rows[p].pinnedLocal
    ensures SetsPort(op, p) ==> p in t.rows && t.rows[p].pinnedLocal == op.local
  {
    hide RestStep, StoreStep, S.Decode, S.Lookup;
    if p in t.rows {
      assert RowStep(c, s, op, t, p);
    }
  }

  lemma {:induction false} ModeStands(c: Config, tr: seq<State>, ops: seq<Op>, p: int, i: nat, j: nat)
    requires Run(c, tr, ops) && i < j <= |ops| && forall k | i < k < j :: LeavesMode(tr, ops, p, k)
    requires p in tr[i].rows && !tr[i].rows[p].mode.Off? && ops[i].ForwardNow? && ops[i].port == p
    ensures p in tr[j].rows && tr[j].rows[p].mode == S.On
    decreases j
  {
    hide Step, Legal, Frame;
    assert Legal(tr[j - 1], ops[j - 1]) && tr[j] == Step(c, tr[j - 1], ops[j - 1]);
    StepRows(c, tr[j - 1], ops[j - 1]);
    if i + 1 < j {
      assert LeavesMode(tr, ops, p, j - 1);
      ModeStands(c, tr, ops, p, i, j - 1);
    }
    ModeStep(c, tr[j - 1], ops[j - 1], tr[j], p);
  }

  lemma {:induction false} PinStands(c: Config, tr: seq<State>, ops: seq<Op>, p: int, i: nat, j: nat)
    requires Run(c, tr, ops) && i < j <= |ops| && forall k | i < k < j :: LeavesPin(tr, ops, p, k)
    requires p in tr[i].rows && SetsPort(ops[i], p)
    ensures p in tr[j].rows && tr[j].rows[p].pinnedLocal == ops[i].local
    decreases j
  {
    hide Step, Legal, Frame;
    assert Legal(tr[j - 1], ops[j - 1]) && tr[j] == Step(c, tr[j - 1], ops[j - 1]);
    StepRows(c, tr[j - 1], ops[j - 1]);
    if i + 1 < j {
      assert LeavesPin(tr, ops, p, j - 1);
      PinStands(c, tr, ops, p, i, j - 1);
    }
    PinStep(c, tr[j - 1], ops[j - 1], tr[j], p);
  }

  /** ForwardNow is documented to be for the session only. While the mode it set stands, the settings hold
      that mode exactly if they did before, or some later call about the port wrote them. */
  lemma ForwardNowIsWritten(c: Config, tr: seq<State>, ops: seq<Op>, p: int, i: nat, j: nat)
    requires Run(c, tr, ops) && i < j <= |ops| && c.remembers && forall k | i < k < j :: LeavesMode(tr, ops, p, k)
    requires p in tr[i].rows && !tr[i].rows[p].mode.Off? && ops[i].ForwardNow? && ops[i].port == p
    ensures S.Decode(S.Lookup(tr[j].store, p)).mode == S.On
       <==> S.Decode(S.Lookup(tr[i].store, p)).mode == S.On || exists k | i < k < j :: Writes(tr, ops, p, k)
  {
    hide Step, Legal, S.Decode, S.Lookup;
    SettingsTellLastWrite(c, tr, ops, p, i, j);
    assert !Writes(tr, ops, p, i);
    if k :| i <= k < j && LastWrote(tr, ops, p, k, j) {
      ModeStands(c, tr, ops, p, i, k + 1);
    }
  }

  /** So is TryLocalPort: the same about the local port it set. */
  lemma TriedPortIsWritten(c: Config, tr: seq<State>, ops: seq<Op>, p: int, i: nat, j: nat)
    requires Run(c, tr, ops) && i < j <= |ops| && c.remembers && forall k | i < k < j :: LeavesPin(tr, ops, p, k)
    requires p in tr[i].rows && SetsPort(ops[i], p) && !ops[i].remember
    ensures S.Decode(S.Lookup(tr[j].store, p)).local == ops[i].local
       <==> S.Decode(S.Lookup(tr[i].store, p)).local == ops[i].local || exists k | i < k < j :: Writes(tr, ops, p, k)
  {
    hide Step, Legal, S.Decode, S.Lookup;
    SettingsTellLastWrite(c, tr, ops, p, i, j);
    assert !Writes(tr, ops, p, i);
    if k :| i <= k < j && LastWrote(tr, ops, p, k, j) {
      PinStands(c, tr, ops, p, i, k + 1);
    }
  }

  /** A choice nothing has written is forgotten with its row: a port that goes and comes back has what the
      settings held all along. */
  lemma UnwrittenIsForgotten(c: Config, tr: seq<State>, ops: seq<Op>, p: int, i: nat, m: nat, j: nat)
    requires Run(c, tr, ops) && i <= m < j <= |ops| && c.remembers
    requires p !in tr[m].rows && p in tr[j].rows && forall k | m <= k < j :: !SessionOnly(ops[k], p)
    requires forall k | i <= k < j :: !Writes(tr, ops, p, k)
    ensures DecisionOf(tr[j].rows[p]) == S.Decode(S.Lookup(tr[i].store, p))
  {
    hide Step, Legal, Writes;
    RememberedSince(c, tr, ops, p, m, j);
    StaysStored(c, tr, ops, p, i, j);
  }

  /** The shortest such run: a label writes the mode that ForwardNow set. With the session-only call left
      out, the same label writes the mode of before. */
  lemma SessionChoiceIsWrittenLater(c: Config, s: State, p: int, env: Env, name: string)
    requires c.remembers && p in s.rows && s.rows[p].mode.Auto?
    ensures var t := ForwardNowStep(c, s, p, env);
            && t.store == s.store
            && S.Decode(S.Lookup(SetLabelStep(c, t, p, name).store, p)).mode == S.On
            && S.Decode(S.Lookup(SetLabelStep(c, s, p, name).store, p)).mode == S.Auto
  {
    hide Apply, Verdict, S.Encode, S.Stored, S.Decode;
    var t := ForwardNowStep(c, s, p, env);
    ApplyRow(c, Put(s, p, s.rows[p].(mode := S.On, pausedKeep := false, err := None)), p, env);
    S.StoreRoundTrip(t.store, p, DecisionOf(t.rows[p].(name := name)));
    S.StoreRoundTrip(s.store, p, DecisionOf(s.rows[p].(name := name)));
  }
}

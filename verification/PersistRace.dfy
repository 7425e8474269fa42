/** Remembering a decision at the grain of its locks: internal/tunnel/manager.go, CycleMode,
    SetLabel, SetScheme and SetLocalPort, persist, and Sync.

    A decision is made in one lock section, read back in a second one and written to the settings in a
    third, that of the store; scans come in between. Decisions are made one at a time, by the user
    interface. Here a row is only its decision, of any kind. */
module PersistRace {

  datatype Pending<D> = Idle | ToRead(port: int) | ToWrite(port: int, d: D)

  /** `store` is total: a port without an entry reads as the default. */
  datatype State<D> = State(rows: map<int, D>, store: int -> D, pending: Pending<D>)

  datatype Step<D> =
    | Decide(port: int, d: D)  // a listed port's decision changes
    | Read                     // persist reads the row, if it is still listed
    | Write                    // and writes what it read
    | Gone(port: int)          // a port is no longer listed
    | Seen(port: int)          // a port is listed, with the decision remembered for it

  predicate Enabled<D>(s: State<D>, step: Step<D>) {
    match step
    case Decide(p, _) => s.pending.Idle? && p in s.rows
    case Read => s.pending.ToRead?
    case Write => s.pending.ToWrite?
    case Gone(p) => p in s.rows
    case Seen(p) => p !in s.rows
  }

  function Next<D>(s: State<D>, step: Step<D>): State<D>
    requires Enabled(s, step)
  {
    match step
    case Decide(p, d) => s.(rows := s.rows[p := d], pending := ToRead(p))
    case Read =>
      s.(pending := if s.pending.port in s.rows then ToWrite(s.pending.port, s.rows[s.pending.port]) else Idle)
    case Write =>
      var (p, d) := (s.pending.port, s.pending.d);
      s.(store := q => if q == p then d else s.store(q), pending := Idle)
    case Gone(p) => s.(rows := s.rows - {p})
    case Seen(p) => s.(rows := s.rows[p := s.store(p)])
  }

  /** p shows what is remembered for it, if it is listed. */
  predicate Agrees<D(==)>(s: State<D>, p: int) { p in s.rows ==> s.rows[p] == s.store(p) }

  /** Every port agrees, except the one whose decision is on its way to the settings. */
  ghost predicate AllButPending<D>(s: State<D>) {
    forall p | p in s.rows :: Agrees(s, p) || (!s.pending.Idle? && s.pending.port == p)
  }

  ghost predicate Run<D(!new)>(tr: seq<State<D>>, steps: seq<Step<D>>) {
    && |tr| == |steps| + 1
    && tr[0].rows == map[] && tr[0].pending.Idle?
    && forall i | 0 <= i < |steps| :: Enabled(tr[i], steps[i]) && tr[i + 1] == Next(tr[i], steps[i])
  }

  lemma AtStep<D(!new)>(tr: seq<State<D>>, steps: seq<Step<D>>, i: nat)
    requires Run(tr, steps) && i < |steps|
    ensures |tr| == |steps| + 1 && Enabled(tr[i], steps[i]) && tr[i + 1] == Next(tr[i], steps[i])
  {
  }

  // ---------------------------------------------------------------- one decision on its way

  /** Between the read at r and the moment n nothing has been written. */
  predicate NoWrite<D>(steps: seq<Step<D>>, r: nat, n: nat) {
    n <= |steps| && forall k | r < k < n :: !steps[k].Write?
  }

  /** What the read at r left to be written is still to be written at n. */
  ghost predicate OnItsWay<D>(tr: seq<State<D>>, steps: seq<Step<D>>, r: nat, n: nat) {
    r < n <= |steps| && |tr| == |steps| + 1 && steps[r].Read? && tr[r + 1].pending.ToWrite? && NoWrite(steps, r, n)
  }

  predicate WentSince<D(==)>(steps: seq<Step<D>>, p: int, r: nat, n: nat)
    requires n <= |steps|
  {
    exists k | r < k < n :: steps[k] == Gone(p)
  }

  /** After r and before n, p was no longer listed at some time, and came back for good. */
  predicate WentAndCame<D(==)>(steps: seq<Step<D>>, p: int, r: nat, n: nat)
    requires n <= |steps|
  {
    exists b | r < b < n :: steps[b] == Seen(p) && WentSince(steps, p, r, b) && !WentSince(steps, p, b, n)
  }

  lemma WentOneMore<D>(steps: seq<Step<D>>, p: int, r: nat, m: nat)
    requires r < m < |steps|
    ensures WentSince(steps, p, r, m + 1) <==> WentSince(steps, p, r, m) || steps[m] == Gone(p)
    ensures WentAndCame(steps, p, r, m + 1) <==>
              if steps[m] == Seen(p) then WentSince(steps, p, r, m)
              else WentAndCame(steps, p, r, m) && steps[m] != Gone(p)
  {
  }

  /** Until it is written, the decision read at r stays what it was and nothing else is remembered; its
      row has it until the port goes, and once the port is back shows what was remembered before. */
  lemma {:induction false} UntilWritten<D(!new)>(tr: seq<State<D>>, steps: seq<Step<D>>, r: nat, n: nat)
    requires Run(tr, steps) && OnItsWay(tr, steps, r, n)
    ensures tr[n].pending == tr[r + 1].pending && tr[n].store == tr[r].store
    ensures var p, d := tr[n].pending.port, tr[n].pending.d;
            && (p in tr[n].rows <==> !WentSince(steps, p, r, n) || WentAndCame(steps, p, r, n))
            && (p in tr[n].rows ==>
                  tr[n].rows[p] == (if WentSince(steps, p, r, n) then tr[r].store(p) else d))
    decreases n
  {
    hide Run, WentSince, WentAndCame;
    AtStep(tr, steps, n - 1);
    var p := tr[r + 1].pending.port;
    if n > r + 1 {
      UntilWritten(tr, steps, r, n - 1);
      WentOneMore(steps, p, r, n - 1);
    } else {
      NothingBetween(steps, p, r);
    }
  }

  lemma NothingBetween<D>(steps: seq<Step<D>>, p: int, r: nat)
    requires r < |steps|
    ensures !WentSince(steps, p, r, r + 1)
  {
  }

  /** What is to be written was read once, and nothing has been written since. */
  lemma {:induction false} WasRead<D(!new)>(tr: seq<State<D>>, steps: seq<Step<D>>, n: nat) returns (r: nat)
    requires Run(tr, steps) && n <= |steps| && tr[n].pending.ToWrite?
    ensures OnItsWay(tr, steps, r, n)
  {
    hide Run, NoWrite;
    Starts(tr, steps);
    AtStep(tr, steps, n - 1);
    r := n - 1;
    if !steps[n - 1].Read? {
      r := WasRead(tr, steps, n - 1);
    }
    LastIsNoWrite(steps, r, n);
  }

  lemma Starts<D(!new)>(tr: seq<State<D>>, steps: seq<Step<D>>)
    requires Run(tr, steps)
    ensures |tr| == |steps| + 1 && tr[0].rows == map[] && tr[0].pending.Idle?
  {
  }

  lemma LastIsNoWrite<D>(steps: seq<Step<D>>, r: nat, n: nat)
    requires r < n <= |steps|
    requires r == n - 1 || (NoWrite(steps, r, n - 1) && !steps[n - 1].Write?)
    ensures NoWrite(steps, r, n)
  {
  }

  // ---------------------------------------------------------------- when it comes too late

  /** A scan overtook the decision read at r: before it is written, its port went and came back, with what was
      remembered for it at the read, and that was something else. */
  ghost predicate Overtaken<D(!new)>(tr: seq<State<D>>, steps: seq<Step<D>>, r: nat, n: nat) {
    && OnItsWay(tr, steps, r, n)
    && var p, d := tr[r + 1].pending.port, tr[r + 1].pending.d;
       WentAndCame(steps, p, r, n) && tr[r].store(p) != d
  }

  /** A decision that is written agrees with its row unless a scan overtook it. */
  lemma WrittenAgrees<D(!new)>(tr: seq<State<D>>, steps: seq<Step<D>>, r: nat, n: nat)
    requires Run(tr, steps) && OnItsWay(tr, steps, r, n) && n < |steps| && steps[n].Write?
    ensures Agrees(tr[n + 1], tr[r + 1].pending.port) <==> !Overtaken(tr, steps, r, n)
  {
    hide Run, WentSince;
    UntilWritten(tr, steps, r, n);
    AtStep(tr, steps, n);
    CameAfterGoing(steps, tr[r + 1].pending.port, r, n);
  }

  lemma CameAfterGoing<D>(steps: seq<Step<D>>, p: int, r: nat, n: nat)
    requires n <= |steps|
    ensures WentAndCame(steps, p, r, n) ==> WentSince(steps, p, r, n)
  {
  }

  /** Nothing but a write can set a row apart from the settings. */
  lemma OtherSteps<D>(s: State<D>, step: Step<D>)
    requires Enabled(s, step) && AllButPending(s)
    requires step.Write? ==> Agrees(Next(s, step), s.pending.port)
    ensures AllButPending(Next(s, step))
  {
    var t := Next(s, step);
    forall p | p in t.rows ensures Agrees(t, p) || (!t.pending.Idle? && t.pending.port == p) {
      if p in s.rows {
        assert Agrees(s, p) || (!s.pending.Idle? && s.pending.port == p);
      }
    }
  }

  /** In every run and under every interleaving, all listed ports but the one whose decision is on its way
      have the decision that is remembered for them at all times, exactly if no write was overtaken. */
  lemma {:induction false} RememberedUnlessOvertaken<D(!new)>(tr: seq<State<D>>, steps: seq<Step<D>>, n: nat)
    requires Run(tr, steps) && n <= |steps|
    ensures (forall m | 0 <= m <= n :: AllButPending(tr[m]))
       <==> (forall r, w | 0 <= r < w < n && steps[w].Write? :: !Overtaken(tr, steps, r, w))
  {
    hide Run, AllButPending, Overtaken;
    Starts(tr, steps);
    if forall m | 0 <= m <= n :: AllButPending(tr[m]) {
      forall r: nat, w: nat | r < w < n && steps[w].Write? ensures !Overtaken(tr, steps, r, w) {
        NotOvertaken(tr, steps, r, w);
      }
    }
    if forall r, w | 0 <= r < w < n && steps[w].Write? :: !Overtaken(tr, steps, r, w) {
      if n == 0 {
        NothingListed(tr, steps);
      } else {
        RememberedUnlessOvertaken(tr, steps, n - 1);
        StaysRemembered(tr, steps, n - 1);
      }
    }
  }

  lemma NothingListed<D(!new)>(tr: seq<State<D>>, steps: seq<Step<D>>)
    requires Run(tr, steps)
    ensures AllButPending(tr[0])
  {
  }

  lemma NotOvertaken<D(!new)>(tr: seq<State<D>>, steps: seq<Step<D>>, r: nat, w: nat)
    requires Run(tr, steps) && r < w < |steps| && steps[w].Write? && AllButPending(tr[w + 1])
    ensures !Overtaken(tr, steps, r, w)
  {
    if Overtaken(tr, steps, r, w) {
      AtStep(tr, steps, w);
      WrittenAgrees(tr, steps, r, w);
    }
  }

  lemma StaysRemembered<D(!new)>(tr: seq<State<D>>, steps: seq<Step<D>>, n: nat)
    requires Run(tr, steps) && n < |steps| && AllButPending(tr[n])
    requires steps[n].Write? ==> forall r: nat | r < n :: !Overtaken(tr, steps, r, n)
    ensures AllButPending(tr[n + 1])
  {
    hide Run, AllButPending, Overtaken;
    AtStep(tr, steps, n);
    if steps[n].Write? {
      var r := WasRead(tr, steps, n);
      UntilWritten(tr, steps, r, n);
      WrittenAgrees(tr, steps, r, n);
    }
    OtherSteps(tr[n], steps[n]);
  }

  /** So when no decision is on its way, every listed port has what is remembered for it. */
  lemma QuietMeansRemembered<D(!new)>(tr: seq<State<D>>, steps: seq<Step<D>>, n: nat)
    requires Run(tr, steps) && n <= |steps| && tr[n].pending.Idle?
    requires forall r, w | 0 <= r < w < n && steps[w].Write? :: !Overtaken(tr, steps, r, w)
    ensures forall p | p in tr[n].rows :: Agrees(tr[n], p)
  {
    hide Run, Overtaken;
    Starts(tr, steps);
    RememberedUnlessOvertaken(tr, steps, n);
    assert AllButPending(tr[n]);
  }

  /** It does happen: a port is switched, and goes and comes back between the read and the write. It is left
      with the old decision while the new one is remembered. */
  lemma OvertakenHappens<D(!new)>(p: int, was: D, d: D) returns (tr: seq<State<D>>, steps: seq<Step<D>>)
    requires was != d
    ensures Run(tr, steps) && |steps| == 6 && steps[5] == Write && Overtaken(tr, steps, 2, 5)
    ensures tr[6].pending.Idle? && p in tr[6].rows && tr[6].rows[p] == was && tr[6].store(p) == d
  {
    steps := [Seen(p), Decide(p, d), Read, Gone(p), Seen(p), Write];
    var s0 := State(map[], q => was, Idle);
    var s1 := Next(s0, Seen(p));
    var s2 := Next(s1, Decide(p, d));
    var s3 := Next(s2, Read);
    var s4 := Next(s3, Gone(p));
    var s5 := Next(s4, Seen(p));
    tr := [s0, s1, s2, s3, s4, s5, Next(s5, Write)];
    assert steps[3] == Gone(p) && steps[4] == Seen(p);
    assert WentSince(steps, p, 2, 4);
    assert WentAndCame(steps, p, 2, 5);
  }
}

/** The connection lifecycle: internal/app/app.go, supervisor.run, nextBackoff, wait, takeClient. */
module Supervisor {
  import opened Wrappers
  import opened Services

  const BACKOFF_START := 1
  const BACKOFF_MAX := 30

  function NextBackoff(d: nat): nat {
    if d * 2 > BACKOFF_MAX then BACKOFF_MAX else d * 2
  }

  /** What the supervisor does to the outside, in order. Connections are numbered. */
  datatype Call =
    | Install(client: nat)     // SetDialer with a fresh connection
    | Drop                     // SetDialer(nil)
    | Scan(snap: Snapshot)     // Sync
    | Hangup(client: nat)      // close a connection
    | Wait(seconds: nat)

  /** One turn of the loop as the outside world plays it: whether the application was shutting down
      when the turn began, whether it took the connection just afterwards, what connecting yields,
      which scans arrive, and whether the waits are cut short by a shutdown. */
  datatype Turn = Turn(
    cancelled: bool,
    shutdown: bool,
    connect: Option<nat>,
    cancelledConnecting: bool,
    scans: seq<Snapshot>,
    shutdownRunning: bool,
    waited: bool)

  // ---------------------------------------------------------------- what the calls amount to

  /** The connection the manager dials over after the calls. */
  function Linked(start: Option<nat>, calls: seq<Call>): Option<nat> {
    if calls == [] then start
    else match calls[|calls| - 1]
      case Install(d) => Some(d)
      case Drop => None
      case _ => Linked(start, calls[..|calls| - 1])
  }

  /** A connection is installed only over none, dropped only when there is one, and scans arrive
      only while there is one. */
  predicate Disciplined(start: Option<nat>, calls: seq<Call>) {
    forall i | 0 <= i < |calls| ::
      && (calls[i].Install? ==> Linked(start, calls[..i]).None?)
      && (calls[i].Drop? || calls[i].Scan? ==> Linked(start, calls[..i]).Some?)
  }

  /** How many waits there have been since a connection was last installed. */
  function WaitsSince(calls: seq<Call>): nat {
    if calls == [] then 0
    else match calls[|calls| - 1]
      case Install(_) => 0
      case Wait(_) => WaitsSince(calls[..|calls| - 1]) + 1
      case _ => WaitsSince(calls[..|calls| - 1])
  }

  function Pow2(k: nat): nat { if k == 0 then 1 else 2 * Pow2(k - 1) }

  /** The delay before the k-th attempt after a connection: 1, 2, 4, 8, 16 and then 30 seconds. */
  function Delay(k: nat): nat
    requires k > 0
  {
    if Pow2(k - 1) < BACKOFF_MAX then Pow2(k - 1) else BACKOFF_MAX
  }

  /** Every wait is as long as its place since the last connection says. */
  predicate BacksOff(calls: seq<Call>) {
    forall i | 0 <= i < |calls| && calls[i].Wait? :: calls[i].seconds == Delay(WaitsSince(calls[..i]) + 1)
  }

  lemma NextDelay(k: nat)
    requires k > 0
    ensures NextBackoff(Delay(k)) == Delay(k + 1)
  {
    assert Pow2(k) == 2 * Pow2(k - 1);
  }

  /** In seconds: 1, 2, 4, 8, 16, and 30 from then on. */
  lemma {:induction false} Delays(k: nat)
    requires k > 0
    ensures Delay(k) == if k == 1 then 1 else if k == 2 then 2 else if k == 3 then 4 else if k == 4 then 8
                        else if k == 5 then 16 else 30
  {
    if k > 6 {
      Delays(k - 1);
      assert Pow2(k - 1) == 2 * Pow2(k - 2);
    } else {
      assert Pow2(1) == 2 && Pow2(2) == 4 && Pow2(3) == 8 && Pow2(4) == 16 && Pow2(5) == 32;
    }
  }

  lemma LinkedSnoc(start: Option<nat>, calls: seq<Call>, call: Call)
    ensures Linked(start, calls + [call]) ==
            match call case Install(d) => Some(d) case Drop => None case _ => Linked(start, calls)
    ensures WaitsSince(calls + [call]) ==
            match call case Install(_) => 0 case Wait(_) => WaitsSince(calls) + 1 case _ => WaitsSince(calls)
  {
    assert (calls + [call])[..|calls|] == calls;
  }

  function Scans(snaps: seq<Snapshot>): (calls: seq<Call>)
    ensures |calls| == |snaps| && forall i | 0 <= i < |snaps| :: calls[i] == Scan(snaps[i])
  {
    seq(|snaps|, i requires 0 <= i < |snaps| => Scan(snaps[i]))
  }

  /** Everything done over a connection, after its installation: the scans in the order in
      which they arrived, then the manager's link goes before the connection itself. */
  function Session(client: nat, snaps: seq<Snapshot>): seq<Call> {
    Scans(snaps) + [Drop, Hangup(client)]
  }

  function SessionAndWait(client: nat, turn: Turn): seq<Call> {
    Session(client, turn.scans) + if turn.shutdownRunning then [] else [Wait(Delay(1))]
  }

  /** What one turn does when k waits have passed since the last connection, and whether another follows. */
  function TurnCalls(client: Option<nat>, k: nat, turn: Turn): (seq<Call>, bool) {
    if turn.cancelled then ([], false)
    else if turn.shutdown then (if client.Some? then [Hangup(client.value)] else [], false)
    else if client.None? && turn.connect.None? then
      if turn.cancelledConnecting then ([], false) else ([Wait(Delay(k + 1))], turn.waited)
    else
      (if client.Some? then SessionAndWait(client.value, turn)
       else [Install(turn.connect.value)] + SessionAndWait(turn.connect.value, turn),
       !turn.shutdownRunning && turn.waited)
  }

  /** All calls of a supervisor in a given world. */
  function Calls(client: Option<nat>, k: nat, world: seq<Turn>): seq<Call>
    decreases |world|
  {
    if world == [] then []
    else
      var (calls, more) := TurnCalls(client, k, world[0]);
      calls + if more then Calls(None, if client.None? && world[0].connect.None? then k + 1 else 1, world[1..]) else []
  }

  // ---------------------------------------------------------------- what comes of a world

  /** The turn has a connection: the first one, or one it made. */
  predicate Connects(client: Option<nat>, turn: Turn) {
    !turn.cancelled && !turn.shutdown && (client.Some? || turn.connect.Some?)
  }

  /** The turn ends by waiting for the next attempt: it was not cut short by the end of the program. */
  predicate Pauses(client: Option<nat>, turn: Turn) {
    && !turn.cancelled && !turn.shutdown
    && !(if client.Some? || turn.connect.Some? then turn.shutdownRunning else turn.cancelledConnecting)
  }

  /** The loop goes on after the turn. */
  predicate GoesOn(client: Option<nat>, turn: Turn) { Pauses(client, turn) && turn.waited }

  /** The loop gets to turn i; only the first turn can begin with a connection. */
  predicate Reached(client: Option<nat>, world: seq<Turn>, i: nat)
    requires i <= |world|
  {
    forall j | 0 <= j < i :: GoesOn(if j == 0 then client else None, world[j])
  }

  /** A connection that was served, and the scans that arrived over it. */
  datatype Served = Served(client: nat, scans: seq<Snapshot>)

  /** What the first n turns served, as far as the loop gets to them and they have a connection. */
  function Sessions(client: Option<nat>, world: seq<Turn>, n: nat): seq<Served>
    requires n <= |world|
  {
    if n == 0 then []
    else
      var turn, before := world[n - 1], if n == 1 then client else None;
      Sessions(client, world, n - 1)
      + if Reached(client, world, n - 1) && Connects(before, turn)
        then [Served(if before.Some? then before.value else turn.connect.value, turn.scans)] else []
  }

  /** How many of the first n turns the loop gets to and waits in. */
  function PauseCount(client: Option<nat>, world: seq<Turn>, n: nat): nat
    requires n <= |world|
  {
    if n == 0 then 0
    else
      PauseCount(client, world, n - 1)
      + if Reached(client, world, n - 1) && Pauses(if n == 1 then client else None, world[n - 1]) then 1 else 0
  }

  /** Scans with the connection they came over. */
  function Over(client: Option<nat>, snaps: seq<Snapshot>): (r: seq<(Option<nat>, Snapshot)>)
    ensures |r| == |snaps| && forall i | 0 <= i < |r| :: r[i] == (client, snaps[i])
  {
    seq(|snaps|, i requires 0 <= i < |snaps| => (client, snaps[i]))
  }

  function AllScans(served: seq<Served>): seq<(Option<nat>, Snapshot)> {
    if served == [] then []
    else AllScans(served[..|served| - 1]) + Over(Some(served[|served| - 1].client), served[|served| - 1].scans)
  }

  function Clients(served: seq<Served>): (r: seq<nat>)
    ensures |r| == |served| && forall i | 0 <= i < |r| :: r[i] == served[i].client
  {
    seq(|served|, i requires 0 <= i < |served| => served[i].client)
  }

  /** The scans among the calls, each with the connection the manager then dials over. */
  function Synced(start: Option<nat>, calls: seq<Call>): seq<(Option<nat>, Snapshot)> {
    if calls == [] then []
    else
      var rest := calls[..|calls| - 1];
      Synced(start, rest) + match calls[|calls| - 1] case Scan(snap) => [(Linked(start, rest), snap)] case _ => []
  }

  /** The connections closed by the calls. */
  function Closings(calls: seq<Call>): seq<nat> {
    if calls == [] then []
    else Closings(calls[..|calls| - 1]) + match calls[|calls| - 1] case Hangup(d) => [d] case _ => []
  }

  function WaitCount(calls: seq<Call>): nat {
    if calls == [] then 0 else WaitCount(calls[..|calls| - 1]) + if calls[|calls| - 1].Wait? then 1 else 0
  }

  /** A connection is closed right after the manager has dropped it, and dropped only to be closed. */
  predicate ClosesWhatItDrops(start: Option<nat>, calls: seq<Call>) {
    && (forall i | 0 <= i < |calls| && calls[i].Drop? ::
          Linked(start, calls[..i]).Some? && i + 1 < |calls| && calls[i + 1] == Hangup(Linked(start, calls[..i]).value))
    && (forall i | 0 <= i < |calls| && calls[i].Hangup? :: i > 0 && calls[i - 1].Drop?)
  }

  lemma OneCall(start: Option<nat>, calls: seq<Call>, call: Call)
    ensures Closings(calls + [call]) == Closings(calls) + match call case Hangup(d) => [d] case _ => []
    ensures WaitCount(calls + [call]) == WaitCount(calls) + if call.Wait? then 1 else 0
    ensures Synced(start, calls + [call]) ==
            Synced(start, calls) + match call case Scan(snap) => [(Linked(start, calls), snap)] case _ => []
  {
    hide Linked;
    assert (calls + [call])[..|calls|] == calls;
  }

  lemma {:induction false} LinkedAppend(start: Option<nat>, a: seq<Call>, b: seq<Call>)
    ensures Linked(start, a + b) == Linked(Linked(start, a), b)
    ensures Closings(a + b) == Closings(a) + Closings(b) && WaitCount(a + b) == WaitCount(a) + WaitCount(b)
    ensures Synced(start, a + b) == Synced(start, a) + Synced(Linked(start, a), b)
  {
    if b == [] {
      assert a + b == a;
    } else {
      hide Linked, Closings, Synced, WaitCount;
      var rest, call := b[..|b| - 1], b[|b| - 1];
      LinkedAppend(start, a, rest);
      assert a + b == a + rest + [call] && b == rest + [call];
      OneCall(start, a + rest, call);
      OneCall(Linked(start, a), rest, call);
      LinkedSnoc(start, a + rest, call);
      LinkedSnoc(Linked(start, a), rest, call);
      Regroup(Closings(a), Closings(rest), match call case Hangup(d) => [d] case _ => []);
      Regroup(Synced(start, a), Synced(Linked(start, a), rest),
              match call case Scan(snap) => [(Linked(start, a + rest), snap)] case _ => []);
    }
  }

  lemma ClosesAppend(start: Option<nat>, a: seq<Call>, b: seq<Call>)
    requires ClosesWhatItDrops(start, a) && ClosesWhatItDrops(Linked(start, a), b)
    ensures ClosesWhatItDrops(start, a + b)
  {
    hide Linked;
    var all := a + b;
    forall i | 0 <= i < |all| && all[i].Drop?
      ensures Linked(start, all[..i]).Some? && i + 1 < |all| && all[i + 1] == Hangup(Linked(start, all[..i]).value)
    {
      if i < |a| {
        assert all[..i] == a[..i] && all[i] == a[i];
      } else {
        assert all[..i] == a + b[..i - |a|] && all[i] == b[i - |a|];
        LinkedAppend(start, a, b[..i - |a|]);
      }
    }
  }

  /** Scans change no connection. */
  lemma {:induction false} ScansAre(start: Option<nat>, snaps: seq<Snapshot>)
    ensures Linked(start, Scans(snaps)) == start && Closings(Scans(snaps)) == [] && WaitCount(Scans(snaps)) == 0
    ensures Synced(start, Scans(snaps)) == Over(start, snaps)
  {
    if snaps != [] {
      var rest, calls := snaps[..|snaps| - 1], Scans(snaps);
      ScansAre(start, rest);
      assert calls[..|calls| - 1] == Scans(rest);
      assert Over(start, snaps) == Over(start, rest) + [(start, snaps[|snaps| - 1])];
    }
  }

  /** A session hands on its scans over its connection, then gives the connection up and closes it. */
  lemma SessionDoes(d: nat, snaps: seq<Snapshot>)
    ensures var calls := Session(d, snaps);
            && Linked(Some(d), calls) == None && Closings(calls) == [d] && WaitCount(calls) == 0
            && Synced(Some(d), calls) == Over(Some(d), snaps) && ClosesWhatItDrops(Some(d), calls)
  {
    hide Linked, Closings, Synced, WaitCount;
    var scans := Scans(snaps);
    ScansAre(Some(d), snaps);
    EndDoes(d);
    LinkedAppend(Some(d), scans, [Drop, Hangup(d)]);
    var calls := Session(d, snaps);
    assert calls[..|scans|] == scans;
  }

  lemma EndDoes(d: nat)
    ensures var calls := [Drop, Hangup(d)];
            Linked(Some(d), calls) == None && Closings(calls) == [d] && WaitCount(calls) == 0 && Synced(Some(d), calls) == []
  {
    var calls := [Drop, Hangup(d)];
    assert calls[..1] == [Drop] && [Drop][..0] == [];
    assert Linked(Some(d), [Drop]) == None;
    assert WaitCount([Drop]) == 0 && Closings([Drop]) == [] && Synced(Some(d), [Drop]) == [];
  }

  lemma WaitDoes(seconds: nat)
    ensures var calls := [Wait(seconds)];
            Linked(None, calls) == None && Closings(calls) == [] && WaitCount(calls) == 1 && Synced(None, calls) == []
            && ClosesWhatItDrops(None, calls)
  {
  }

  lemma SessionAndWaitDoes(d: nat, turn: Turn)
    ensures var calls := SessionAndWait(d, turn);
            && Linked(Some(d), calls) == None && Closings(calls) == [d]
            && WaitCount(calls) == (if turn.shutdownRunning then 0 else 1)
            && Synced(Some(d), calls) == Over(Some(d), turn.scans) && ClosesWhatItDrops(Some(d), calls)
  {
    hide Session, Linked, Synced, Closings, WaitCount, ClosesWhatItDrops, Delay;
    var calls := Session(d, turn.scans);
    SessionDoes(d, turn.scans);
    if turn.shutdownRunning {
      assert calls + [] == calls;
    } else {
      WaitDoes(Delay(1));
      LinkedAppend(Some(d), calls, [Wait(Delay(1))]);
      ClosesAppend(Some(d), calls, [Wait(Delay(1))]);
    }
  }

  lemma InstallDoes(d: nat)
    ensures var calls := [Install(d)];
            Linked(None, calls) == Some(d) && Closings(calls) == [] && WaitCount(calls) == 0 && Synced(None, calls) == []
            && ClosesWhatItDrops(None, calls)
  {
  }

  /** The connection the application takes and closes when it shuts down before the first session. */
  function Abandoned(client: Option<nat>, world: seq<Turn>): seq<nat> {
    if client.Some? && world != [] && !world[0].cancelled && world[0].shutdown then [client.value] else []
  }

  /** What some calls come to: the scans that arrived, all of them and in order, each over its own connection;
      every connection served is closed once, right after the manager has dropped it; and so many waits. Only
      a connection that the application closes is closed without having been dropped. */
  ghost predicate ComeTo(client: Option<nat>, calls: seq<Call>, served: seq<Served>, abandoned: seq<nat>, waits: nat) {
    && Synced(client, calls) == AllScans(served)
    && Closings(calls) == Clients(served) + abandoned
    && WaitCount(calls) == waits
    && (ClosesWhatItDrops(client, calls) || (client.Some? && abandoned == [client.value] && calls == [Hangup(client.value)]))
  }

  lemma TurnDoes(client: Option<nat>, k: nat, turn: Turn)
    ensures var ((calls, more), served) := (TurnCalls(client, k, turn), Sessions(client, [turn], 1));
            && more == GoesOn(client, turn) && (more ==> Linked(client, calls) == None)
            && ComeTo(client, calls, served, Abandoned(client, [turn]), if Pauses(client, turn) then 1 else 0)
  {
    hide SessionAndWait, Delay;
    var served := Sessions(client, [turn], 1);
    assert Sessions(client, [turn], 0) == [];
    if Connects(client, turn) {
      var d := if client.Some? then client.value else turn.connect.value;
      assert served == [Served(d, turn.scans)];
      OneServed(served[0]);
      ConnectedDoes(client, d, turn);
    } else if Pauses(client, turn) {
      WaitDoes(Delay(k + 1));
      NothingServed(client);
    } else if Abandoned(client, [turn]) != [] {
      AbandonedIs(client.value);
    } else {
      NothingServed(client);
    }
  }

  lemma AbandonedIs(d: nat)
    ensures ComeTo(Some(d), [Hangup(d)], [], [d], 0)
  {
    assert [Hangup(d)][..0] == [];
  }

  lemma ConnectedDoes(client: Option<nat>, d: nat, turn: Turn)
    requires client.Some? ==> d == client.value
    ensures var calls := if client.Some? then SessionAndWait(d, turn) else [Install(d)] + SessionAndWait(d, turn);
            && Linked(client, calls) == None && Closings(calls) == [d]
            && WaitCount(calls) == (if turn.shutdownRunning then 0 else 1)
            && Synced(client, calls) == Over(Some(d), turn.scans) && ClosesWhatItDrops(client, calls)
  {
    hide SessionAndWait, Linked, Synced, Closings, WaitCount, ClosesWhatItDrops;
    SessionAndWaitDoes(d, turn);
    if client.None? {
      InstallDoes(d);
      LinkedAppend(None, [Install(d)], SessionAndWait(d, turn));
      ClosesAppend(None, [Install(d)], SessionAndWait(d, turn));
    }
  }

  lemma OneServed(s: Served)
    ensures AllScans([s]) == Over(Some(s.client), s.scans) && Clients([s]) == [s.client]
  {
    assert [s][..0] == [];
  }

  lemma {:induction false} PausesFront(client: Option<nat>, world: seq<Turn>, n: nat)
    requires 0 < n <= |world|
    ensures PauseCount(client, world, n) ==
            (if Pauses(client, world[0]) then 1 else 0) + if GoesOn(client, world[0]) then PauseCount(None, world[1..], n - 1) else 0
  {
    hide GoesOn, Pauses;
    assert PauseCount(client, world, 0) == 0;
    if n > 1 {
      PausesFront(client, world, n - 1);
      assert world[1..][n - 2] == world[n - 1];
      ReachedFront(client, world, n - 1);
    }
  }

  /** What is served is what the first turn serves and, if the loop goes on, what the others serve. */
  lemma {:induction false} SessionsFront(client: Option<nat>, world: seq<Turn>, n: nat)
    requires 0 < n <= |world|
    ensures Sessions(client, world, n) ==
            Sessions(client, [world[0]], 1) + if GoesOn(client, world[0]) then Sessions(None, world[1..], n - 1) else []
  {
    hide GoesOn, Connects;
    assert Sessions(client, world, 0) == [] == Sessions(client, [world[0]], 0);
    if n > 1 {
      SessionsFront(client, world, n - 1);
      assert world[1..][n - 2] == world[n - 1];
      ReachedFront(client, world, n - 1);
    }
  }

  lemma ReachedFront(client: Option<nat>, world: seq<Turn>, i: nat)
    requires 0 < i <= |world|
    ensures Reached(client, world, i) <==> GoesOn(client, world[0]) && Reached(None, world[1..], i - 1)
  {
    hide GoesOn;
    if GoesOn(client, world[0]) && Reached(None, world[1..], i - 1) {
      forall j | 0 <= j < i ensures GoesOn(if j == 0 then client else None, world[j]) {
        if j > 0 {
          assert world[1..][j - 1] == world[j];
          assert GoesOn(None, world[1..][j - 1]);
        }
      }
    }
    if Reached(client, world, i) {
      assert GoesOn(client, world[0]);
      forall j | 0 <= j < i - 1 ensures GoesOn(if j == 0 then None else None, world[1..][j]) {
        assert GoesOn(None, world[j + 1]);
      }
    }
  }

  lemma Regroup<T>(a: seq<T>, b: seq<T>, c: seq<T>)
    ensures a + b + c == a + (b + c)
  {
  }

  lemma OneMoreServed(a: seq<Served>, s: Served)
    ensures AllScans(a + [s]) == AllScans(a) + Over(Some(s.client), s.scans)
  {
    hide Over;
    assert (a + [s])[..|a|] == a;
  }

  lemma {:induction false} ServedAppend(a: seq<Served>, b: seq<Served>)
    ensures AllScans(a + b) == AllScans(a) + AllScans(b)
  {
    if b == [] {
      assert a + b == a;
    } else {
      var rest, s := b[..|b| - 1], b[|b| - 1];
      ServedAppend(a, rest);
      Regroup(a, rest, [s]);
      assert b == rest + [s];
      OneMoreServed(a + rest, s);
      OneMoreServed(rest, s);
      hide AllScans, Over;
      Regroup(AllScans(a), AllScans(rest), Over(Some(s.client), s.scans));
    }
  }

  lemma ClientsAppend(a: seq<Served>, b: seq<Served>)
    ensures Clients(a + b) == Clients(a) + Clients(b)
  {
  }

  lemma CallsFront(client: Option<nat>, k: nat, world: seq<Turn>)
    requires world != []
    ensures var (calls, more) := TurnCalls(client, k, world[0]);
            Calls(client, k, world) ==
            calls + if more then Calls(None, if client.None? && world[0].connect.None? then k + 1 else 1, world[1..]) else []
  {
    hide TurnCalls;
  }

  lemma {:induction false} CallsServe(client: Option<nat>, k: nat, world: seq<Turn>)
    ensures ComeTo(client, Calls(client, k, world), Sessions(client, world, |world|), Abandoned(client, world),
                   PauseCount(client, world, |world|))
    decreases |world|
  {
    hide Calls, TurnCalls, Linked, ComeTo, Pauses, GoesOn, Sessions, PauseCount, Abandoned;
    if world == [] {
      NothingToDo(client, k);
    } else {
      CallsFront(client, k, world);
      SameAbandoned(client, world);
      var (calls, more) := TurnCalls(client, k, world[0]);
      var first, w := Sessions(client, [world[0]], 1), if Pauses(client, world[0]) then 1 else 0;
      TurnDoes(client, k, world[0]);
      SessionsFront(client, world, |world|);
      PausesFront(client, world, |world|);
      var next := if client.None? && world[0].connect.None? then k + 1 else 1;
      var tail, rest, v := Calls(None, next, world[1..]), Sessions(None, world[1..], |world| - 1),
                           PauseCount(None, world[1..], |world| - 1);
      if more {
        NotAbandoned(client, world);
        CallsServe(None, next, world[1..]);
        assert |world[1..]| == |world| - 1;
        Together(client, calls, tail, first, rest, w, v);
        assert Calls(client, k, world) == calls + tail;
        assert Sessions(client, world, |world|) == first + rest;
      } else {
        assert Calls(client, k, world) == calls + [] == calls;
        assert Sessions(client, world, |world|) == first + [] == first;
      }
    }
  }

  lemma Together(client: Option<nat>, calls: seq<Call>, tail: seq<Call>, first: seq<Served>, rest: seq<Served>, w: nat, v: nat)
    requires Linked(client, calls) == None
    requires ComeTo(client, calls, first, [], w) && ComeTo(None, tail, rest, [], v)
    ensures ComeTo(client, calls + tail, first + rest, [], w + v)
  {
    hide Linked, Synced, Closings, WaitCount, ClosesWhatItDrops, AllScans, Clients;
    LinkedAppend(client, calls, tail);
    ClosesAppend(client, calls, tail);
    ServedAppend(first, rest);
    ClientsAppend(first, rest);
    assert Clients(first) + [] == Clients(first) && Clients(rest) + [] == Clients(rest);
    assert Clients(first + rest) + [] == Clients(first + rest);
  }

  lemma NothingToDo(client: Option<nat>, k: nat)
    ensures ComeTo(client, Calls(client, k, []), Sessions(client, [], 0), Abandoned(client, []), PauseCount(client, [], 0))
  {
    NothingServed(client);
  }

  lemma SameAbandoned(client: Option<nat>, world: seq<Turn>)
    requires world != []
    ensures Abandoned(client, world) == Abandoned(client, [world[0]])
  {
  }

  lemma NotAbandoned(client: Option<nat>, world: seq<Turn>)
    requires world != [] && GoesOn(client, world[0])
    ensures Abandoned(client, world) == [] == Abandoned(client, [world[0]]) == Abandoned(None, world[1..])
  {
  }

  lemma NothingServed(client: Option<nat>)
    ensures ComeTo(client, [], [], [], 0)
  {
  }

  class Supervisor {
    var client: Option<nat>
    ghost const start: Option<nat>
    ghost var calls: seq<Call>

    /** The supervisor holds the connection the manager dials over, and has kept its discipline. */
    ghost predicate Valid()
      reads this
    {
      && Linked(start, calls) == client
      && Disciplined(start, calls) && BacksOff(calls)
    }

    /** The manager is made with the first connection already in place. */
    constructor (first: nat)
      ensures Valid() && calls == [] && client == start == Some(first)
    {
      client, start, calls := Some(first), Some(first), [];
    }

    ghost method Record(call: Call)
      modifies `calls
      ensures calls == old(calls) + [call]
      ensures old(Disciplined(start, calls))
              && (call.Install? ==> old(Linked(start, calls)).None?)
              && (call.Drop? || call.Scan? ==> old(Linked(start, calls)).Some?)
              ==> Disciplined(start, calls)
      ensures old(BacksOff(calls)) && (call.Wait? ==> call.seconds == Delay(old(WaitsSince(calls)) + 1)) ==> BacksOff(calls)
      ensures Linked(start, calls) ==
              match call case Install(d) => Some(d) case Drop => None case _ => old(Linked(start, calls))
      ensures WaitsSince(calls) ==
              match call case Install(_) => 0 case Wait(_) => old(WaitsSince(calls)) + 1 case _ => old(WaitsSince(calls))
    {
      LinkedSnoc(start, calls, call);
      ghost var before := calls;
      calls := calls + [call];
      assert forall i | 0 <= i <= |before| :: calls[..i] == before[..i];
      assert before[..|before|] == before;
    }

    /** Detaches the current connection, so that it is closed once. */
    method TakeClient() returns (c: Option<nat>)
      modifies `client
      ensures c == old(client) && client == None
    {
      c, client := client, None;
    }

    /** One session over the current connection: the prober's scans until it stops, then the end. */
    method Serve(snaps: seq<Snapshot>)
      requires Valid() && client.Some? && WaitsSince(calls) == 0
      modifies this
      ensures Valid() && client.None? && WaitsSince(calls) == 0
      ensures calls == old(calls) + Session(old(client).value, snaps)
    {
      hide Linked, WaitsSince, Disciplined, BacksOff;
      for j := 0 to |snaps|
        invariant Valid() && client == old(client) && WaitsSince(calls) == 0
        invariant calls == old(calls) + Scans(snaps[..j])
      {
        Record(Scan(snaps[j]));
        assert Scans(snaps[..j + 1]) == Scans(snaps[..j]) + [Scan(snaps[j])];
      }
      assert snaps[..|snaps|] == snaps;
      Record(Drop);
      // on a shutdown it may be the application that takes the connection and closes it
      var taken := TakeClient();
      Record(Hangup(taken.value));
    }

    /** One turn of the loop; `more` says whether the loop goes on, with which backoff. */
    method TakeTurn(turn: Turn, backoff: nat) returns (more: bool, next: nat)
      requires Valid() && backoff == Delay(WaitsSince(calls) + 1)
      requires client.Some? ==> WaitsSince(calls) == 0
      modifies this
      ensures Disciplined(start, calls) && BacksOff(calls)
      ensures var (did, goesOn) := TurnCalls(old(client), old(WaitsSince(calls)), turn);
              calls == old(calls) + did && more == goesOn
      ensures more ==> Valid() && client.None? && next == Delay(WaitsSince(calls) + 1)
      ensures more ==> WaitsSince(calls) ==
                       if old(client).None? && turn.connect.None? then old(WaitsSince(calls)) + 1 else 1
    {
      hide Linked, WaitsSince, Disciplined, BacksOff, Session, Delay;
      more, next := false, backoff;
      if turn.cancelled {
      } else if turn.shutdown {
        // the application has taken the connection, and with the context cancelled the
        // attempt to connect that would follow fails and ends the loop
        var taken := TakeClient();
        if taken.Some? {
          Record(Hangup(taken.value));
        }
      } else if client.None? && turn.connect.None? {
        more, next := FailToConnect(turn, backoff);
      } else {
        more, next := Connected(turn);
      }
    }

    /** A turn whose attempt to connect fails. */
    method FailToConnect(turn: Turn, backoff: nat) returns (more: bool, next: nat)
      requires Valid() && backoff == Delay(WaitsSince(calls) + 1) && client.None?
      modifies this
      ensures Valid() && client.None?
      ensures calls == old(calls) + if turn.cancelledConnecting then [] else [Wait(backoff)]
      ensures more == (!turn.cancelledConnecting && turn.waited)
      ensures more ==> WaitsSince(calls) == old(WaitsSince(calls)) + 1 && next == Delay(WaitsSince(calls) + 1)
    {
      hide Linked, WaitsSince, Disciplined, BacksOff, Delay, NextBackoff;
      if turn.cancelledConnecting {
        return false, backoff;
      }
      NextDelay(WaitsSince(calls) + 1);
      Record(Wait(backoff));
      return turn.waited, NextBackoff(backoff);
    }

    /** A turn that has a connection, or gets one. */
    method Connected(turn: Turn) returns (more: bool, next: nat)
      requires Valid() && (client.Some? ==> WaitsSince(calls) == 0)
      requires client.None? ==> turn.connect.Some?
      modifies this
      ensures Valid() && client.None?
      ensures calls == old(calls)
                       + if old(client).Some? then SessionAndWait(old(client).value, turn)
                         else [Install(turn.connect.value)] + SessionAndWait(turn.connect.value, turn)
      ensures more == (!turn.shutdownRunning && turn.waited)
      ensures more ==> WaitsSince(calls) == 1 && next == Delay(WaitsSince(calls) + 1)
    {
      hide Linked, WaitsSince, Disciplined, BacksOff, SessionAndWait, Delay;
      if client.None? {
        client := turn.connect;
        Record(Install(client.value));
        Regroup(old(calls), [Install(client.value)], SessionAndWait(client.value, turn));
      }
      more, next := ServeAndWait(turn);
    }

    /** The part of a turn that follows the connection. */
    method ServeAndWait(turn: Turn) returns (more: bool, next: nat)
      requires Valid() && client.Some? && WaitsSince(calls) == 0
      modifies this
      ensures Valid() && client.None?
      ensures calls == old(calls) + SessionAndWait(old(client).value, turn)
      ensures more == (!turn.shutdownRunning && turn.waited)
      ensures more ==> next == Delay(WaitsSince(calls) + 1) && WaitsSince(calls) == 1
    {
      assert Delay(1) == BACKOFF_START;
      hide Linked, WaitsSince, Disciplined, BacksOff, Session, Delay, NextBackoff;
      more, next := false, BACKOFF_START;
      Regroup(calls, Session(client.value, turn.scans), if turn.shutdownRunning then [] else [Wait(Delay(1))]);
      Serve(turn.scans);
      if turn.shutdownRunning {
        return;
      }
      NextDelay(WaitsSince(calls) + 1);
      Record(Wait(next));
      return turn.waited, NextBackoff(next);
    }

    /** Owns the connection lifecycle, for as many turns as the world plays. Of what it does: every scan that
        arrives is handed on, in order and over its own connection; every connection served is closed once, right
        after the manager has dropped it; the waits are as many as they should be, and as long; and a connection is
        installed only over none. */
    method Run(world: seq<Turn>)
      requires Valid() && WaitsSince(calls) == 0
      modifies this
      ensures Disciplined(start, calls) && BacksOff(calls)
      ensures calls == old(calls) + Calls(old(client), 0, world)
      ensures ComeTo(old(client), calls[|old(calls)|..], Sessions(old(client), world, |world|),
                     Abandoned(old(client), world), PauseCount(old(client), world, |world|))
    {
      hide ComeTo, Sessions, Abandoned, PauseCount, Linked, WaitsSince, Disciplined, BacksOff, Calls;
      CallsServe(client, 0, world);
      RunCalls(world);
      assert calls[|old(calls)|..] == Calls(old(client), 0, world);
    }

    method RunCalls(world: seq<Turn>)
      requires Valid() && WaitsSince(calls) == 0
      modifies this
      ensures calls == old(calls) + Calls(old(client), 0, world)
      ensures Disciplined(start, calls) && BacksOff(calls)
    {
      hide Linked, WaitsSince, Disciplined, BacksOff, TurnCalls;
      var backoff := BACKOFF_START;
      for i := 0 to |world|
        invariant Valid() && backoff == Delay(WaitsSince(calls) + 1)
        invariant client.Some? ==> WaitsSince(calls) == 0
        invariant calls + Calls(client, WaitsSince(calls), world[i..]) == old(calls) + Calls(old(client), 0, world)
      {
        assert world[i..][0] == world[i] && world[i..][1..] == world[i + 1..];
        var more, next := TakeTurn(world[i], backoff);
        if !more {
          return;
        }
        backoff := next;
      }
    }
  }
}

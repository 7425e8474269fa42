/** The order of the table: internal/ui/sort.go. */
module Table {
  import opened Text
  import opened TunnelRuns
  import opened Policy
  import Merge

  /** A row as the table has it. Times are numbers; the byte counters are 64 bits wide. */
  datatype Line = Line(
    remotePort: nat,
    localPort: nat,
    name: string,
    cmd: string,
    proc: string,
    status: Status,
    skip: Skip,
    firstSeen: int,
    bytesIn: nat,
    bytesOut: nat,
    totalConns: nat)

  predicate DistinctPorts(rows: seq<Line>) {
    forall i, j | 0 <= i < j < |rows| :: rows[i].remotePort != rows[j].remotePort
  }

  datatype SortKey = SortRemote | SortLocal | SortProcess | SortAge | SortTraffic | SortConns

  /** How the table is sorted; `lower` is the library's lower-casing. */
  datatype Order = Order(key: SortKey, reverse: bool, inactiveLast: bool, lower: string -> string) {

    function Name(r: Line): string { lower(if r.name == "" then r.cmd else r.name) }

    function Traffic(r: Line): nat { (r.bytesIn + r.bytesOut) % 0x1_0000_0000_0000_0000 }

    /** The chosen order, ties broken by remote port. */
    predicate Less(a: Line, b: Line) {
      match key
      case SortLocal => if a.localPort != b.localPort then a.localPort < b.localPort else a.remotePort < b.remotePort
      case SortProcess =>
        if Name(a) != Name(b) then Merge.StringLess(Name(a), Name(b)) else a.remotePort < b.remotePort
      case SortAge => if a.firstSeen != b.firstSeen then a.firstSeen > b.firstSeen else a.remotePort < b.remotePort
      case SortTraffic => if Traffic(a) != Traffic(b) then Traffic(a) > Traffic(b) else a.remotePort < b.remotePort
      case SortConns =>
        if a.totalConns != b.totalConns then a.totalConns > b.totalConns else a.remotePort < b.remotePort
      case SortRemote => a.remotePort < b.remotePort
    }

    predicate Inner(a: Line, b: Line) { if reverse then Less(b, a) else Less(a, b) }

    /** a comes before b: live rows first if asked for, then the chosen order, perhaps reversed. */
    predicate Ordered(a: Line, b: Line) {
      if inactiveLast && a.status.Active? != b.status.Active? then a.status.Active? else Inner(a, b)
    }

    /** a may stand before b. */
    predicate AtMost(a: Line, b: Line) { !Ordered(b, a) }

    lemma LessIsTotal(a: Line, b: Line)
      ensures Less(a, b) || Less(b, a) || a.remotePort == b.remotePort
      ensures !(Less(a, b) && Less(b, a))
    {
      Merge.StringOrder(Name(a), Name(b));
    }

    lemma LessIsTransitive(a: Line, b: Line, c: Line)
      requires Less(a, b) && Less(b, c)
      ensures Less(a, c)
    {
      if key.SortProcess? && Name(a) != Name(b) && Name(b) != Name(c) {
        Merge.StringLessTransitive(Name(a), Name(b), Name(c));
        Merge.StringOrder(Name(a), Name(c));
      }
    }

    /** On rows with distinct remote ports every combination of key, direction and grouping is a
        strict total order. */
    lemma StrictTotalOrder(a: Line, b: Line, c: Line)
      ensures !Ordered(a, a)
      ensures a.remotePort != b.remotePort ==> (Ordered(a, b) <==> !Ordered(b, a))
      ensures Ordered(a, b) && Ordered(b, c) ==> Ordered(a, c)
    {
      hide Less;
      LessIsTotal(a, a);
      LessIsTotal(a, b);
      if Less(a, b) && Less(b, c) {
        LessIsTransitive(a, b, c);
      }
      if Less(c, b) && Less(b, a) {
        LessIsTransitive(c, b, a);
      }
    }

    /** Two rows neither of which comes before the other agree in all that matters to the order. */
    lemma TiesAgree(a: Line, b: Line, c: Line)
      requires !Ordered(a, b) && !Ordered(b, a)
      ensures Ordered(a, c) <==> Ordered(b, c)
      ensures Ordered(c, a) <==> Ordered(c, b)
    {
      hide Merge.StringLess;
      Merge.StringOrder(Name(a), Name(b));
    }

    lemma AtMostIsTransitive(a: Line, b: Line, c: Line)
      requires AtMost(a, b) && AtMost(b, c)
      ensures AtMost(a, c)
    {
      hide Ordered;
      if Ordered(c, a) {
        StrictTotalOrder(c, a, b);
        if !Ordered(a, b) {
          TiesAgree(a, b, c);
        }
        StrictTotalOrder(a, b, c);
        StrictTotalOrder(c, a, b);
      }
    }

    predicate Sorted(rows: seq<Line>) { forall i, j | 0 <= i < j < |rows| :: AtMost(rows[i], rows[j]) }

    // -------------------------------------------------------------- stable insertion

    /** r put behind everything it does not come before. */
    function Place(sorted: seq<Line>, r: Line): seq<Line> {
      if sorted == [] || !Ordered(r, sorted[|sorted| - 1]) then sorted + [r]
      else Place(sorted[..|sorted| - 1], r) + [sorted[|sorted| - 1]]
    }

    function Arranged(rows: seq<Line>): seq<Line> {
      if rows == [] then [] else Place(Arranged(rows[..|rows| - 1]), rows[|rows| - 1])
    }

    lemma SortedSnoc(xs: seq<Line>, x: Line)
      ensures Sorted(xs + [x]) <==> Sorted(xs) && forall y | y in xs :: AtMost(y, x)
    {
      hide AtMost;
      var all := xs + [x];
      if Sorted(all) {
        forall y | y in xs ensures AtMost(y, x) {
          var i :| 0 <= i < |xs| && xs[i] == y;
          assert AtMost(all[i], all[|xs|]);
        }
        forall i, j | 0 <= i < j < |xs| ensures AtMost(xs[i], xs[j]) {
          assert AtMost(all[i], all[j]);
        }
      }
    }

    lemma {:induction false} PlaceKeepsSorted(sorted: seq<Line>, r: Line)
      requires Sorted(sorted)
      ensures Sorted(Place(sorted, r)) && multiset(Place(sorted, r)) == multiset(sorted) + multiset{r}
    {
      hide Ordered, Sorted;
      SortedSnoc(sorted, r);
      if sorted != [] {
        var front, last := sorted[..|sorted| - 1], sorted[|sorted| - 1];
        assert sorted == front + [last];
        SortedSnoc(front, last);
        if Ordered(r, last) {
          PlaceKeepsSorted(front, r);
          StrictTotalOrder(r, last, r);
          var placed := Place(front, r);
          forall x | x in placed ensures AtMost(x, last) {
            assert x in multiset(placed);
            assert x in front || x == r;
          }
          SortedSnoc(placed, last);
        } else {
          forall x | x in sorted ensures AtMost(x, r) {
            if x in front {
              AtMostIsTransitive(x, last, r);
            }
          }
        }
      }
    }

    lemma {:induction false} ArrangedIsSorted(rows: seq<Line>)
      ensures Sorted(Arranged(rows)) && multiset(Arranged(rows)) == multiset(rows)
    {
      hide Ordered, Sorted;
      if rows == [] {
        NothingIsSorted();
      } else {
        var front, last := rows[..|rows| - 1], rows[|rows| - 1];
        ArrangedIsSorted(front);
        PlaceKeepsSorted(Arranged(front), last);
        assert rows == front + [last];
      }
    }

    lemma NothingIsSorted()
      ensures Sorted([])
    {
    }

    /** The array while r sinks to its place: sorted around it, the rest untouched. */
    function Sinking(sorted: seq<Line>, r: Line, j: nat, rest: seq<Line>): seq<Line>
      requires j <= |sorted|
    {
      sorted[..j] + [r] + sorted[j..] + rest
    }

    lemma SinkingStep(sorted: seq<Line>, r: Line, j: nat, rest: seq<Line>)
      requires 0 < j <= |sorted|
      ensures var now := Sinking(sorted, r, j, rest);
              now[j] == r && now[j - 1] == sorted[j - 1]
              && now[j := sorted[j - 1]][j - 1 := r] == Sinking(sorted, r, j - 1, rest)
    {
    }

    /** Sinks row i into the sorted rows before it. */
    method Insert(rows: array<Line>, i: nat)
      requires i < rows.Length
      modifies rows
      ensures rows[..] == Place(old(rows[..i]), old(rows[i])) + old(rows[i + 1..])
    {
      hide Ordered;
      ghost var sorted, r, rest := rows[..i], rows[i], rows[i + 1..];
      var j := i;
      assert rows[..] == Sinking(sorted, r, j, rest);
      assert sorted[..j] == sorted && Place(sorted, r) + sorted[j..] == Place(sorted, r);
      hide Place, Sinking;
      while j > 0 && Below(rows, j)
        invariant 0 <= j <= i && rows[..] == Sinking(sorted, r, j, rest)
        invariant Place(sorted, r) == Place(sorted[..j], r) + sorted[j..]
      {
        SinkingStep(sorted, r, j, rest);
        assert rows[..][j] == r && rows[..][j - 1] == sorted[j - 1];
        PlaceStep(sorted, r, j);
        rows[j], rows[j - 1] := rows[j - 1], rows[j];
        j := j - 1;
      }
      Settled(sorted, r, j, rest, rows[..]);
    }

    predicate Below(rows: array<Line>, j: nat)
      requires 0 < j < rows.Length
      reads rows
    {
      Ordered(rows[j], rows[j - 1])
    }

    lemma Settled(sorted: seq<Line>, r: Line, j: nat, rest: seq<Line>, now: seq<Line>)
      requires j <= |sorted| && now == Sinking(sorted, r, j, rest)
      requires Place(sorted, r) == Place(sorted[..j], r) + sorted[j..]
      requires j > 0 ==> !Ordered(now[j], now[j - 1])
      ensures now == Place(sorted, r) + rest
    {
      hide Ordered;
      if j > 0 {
        SinkingStep(sorted, r, j, rest);
      }
      PlaceEnd(sorted, r, j);
    }

    /** Orders the rows in place. */
    method SortStates(rows: array<Line>)
      modifies rows
      ensures rows[..] == Arranged(old(rows[..]))
    {
      hide Ordered, Place, Arranged;
      ghost var was := rows[..];
      ArrangedNone(was);
      for i := 0 to rows.Length
        invariant rows[..] == Arranged(was[..i]) + was[i..] && |Arranged(was[..i])| == i
      {
        Halves(rows[..], Arranged(was[..i]), was, i);
        PlaceLength(Arranged(was[..i]), was[i]);
        ArrangedOneMore(was, i);
        Insert(rows, i);
      }
      assert was[..rows.Length] == was;
    }

    lemma ArrangedNone(was: seq<Line>)
      ensures Arranged(was[..0]) == []
    {
    }

    lemma ArrangedOneMore(was: seq<Line>, i: nat)
      requires i < |was|
      ensures Arranged(was[..i + 1]) == Place(Arranged(was[..i]), was[i])
    {
      hide Place;
      assert was[..i + 1][..i] == was[..i];
    }

    /** The rows are a sorted part of length i and the rows that are still as they were. */
    lemma Halves(now: seq<Line>, done: seq<Line>, was: seq<Line>, i: nat)
      requires i < |was| && |done| == i && now == done + was[i..]
      ensures |now| == |was| && now[..i] == done && now[i] == was[i] && now[i + 1..] == was[i + 1..]
    {
    }

    lemma {:induction false} PlaceLength(sorted: seq<Line>, r: Line)
      ensures |Place(sorted, r)| == |sorted| + 1
    {
      hide Ordered;
      if sorted != [] {
        PlaceLength(sorted[..|sorted| - 1], r);
      }
    }

    lemma PlaceStep(sorted: seq<Line>, r: Line, j: nat)
      requires 0 < j <= |sorted| && Ordered(r, sorted[j - 1])
      requires Place(sorted, r) == Place(sorted[..j], r) + sorted[j..]
      ensures Place(sorted, r) == Place(sorted[..j - 1], r) + sorted[j - 1..]
    {
      hide Ordered;
      assert sorted[..j][..j - 1] == sorted[..j - 1];
      assert [sorted[j - 1]] + sorted[j..] == sorted[j - 1..];
    }

    lemma PlaceEnd(sorted: seq<Line>, r: Line, j: nat)
      requires j <= |sorted| && (j > 0 ==> !Ordered(r, sorted[j - 1]))
      ensures Place(sorted[..j], r) == sorted[..j] + [r]
    {
      hide Ordered;
    }

    // -------------------------------------------------------------- what the order amounts to

    /** In sorted rows with distinct remote ports, only the first has nobody before it. */
    lemma FirstIsLeast(xs: seq<Line>, x: Line)
      requires Sorted(xs) && DistinctPorts(xs) && x in xs && AtMost(x, xs[0])
      ensures x == xs[0]
    {
      hide Ordered;
      var i :| 0 <= i < |xs| && xs[i] == x;
      if i > 0 {
        assert AtMost(xs[0], xs[i]);
        StrictTotalOrder(xs[0], xs[i], xs[0]);
      }
    }

    lemma FirstIsAtMost(ys: seq<Line>, x: Line)
      requires Sorted(ys) && x in ys
      ensures AtMost(ys[0], x)
    {
      hide Ordered;
      StrictTotalOrder(x, x, x);
    }

    /** Two sorted arrangements of the same rows begin alike. */
    lemma FirstOf(xs: seq<Line>, ys: seq<Line>)
      requires multiset(xs) == multiset(ys) && Sorted(xs) && Sorted(ys) && DistinctPorts(xs) && xs != []
      ensures ys != [] && xs[0] == ys[0]
    {
      hide Ordered, Sorted, DistinctPorts, AtMost;
      assert xs[0] in multiset(ys);
      assert ys[0] in multiset(xs);
      FirstIsAtMost(ys, xs[0]);
      FirstIsLeast(xs, ys[0]);
    }

    lemma RestOf(xs: seq<Line>)
      requires xs != []
      ensures multiset(xs[1..]) == multiset(xs) - multiset{xs[0]}
      ensures Sorted(xs) ==> Sorted(xs[1..])
      ensures DistinctPorts(xs) ==> DistinctPorts(xs[1..])
    {
      hide AtMost;
      SplitFirst(xs);
      var rest := xs[1..];
      assert forall i | 0 <= i < |rest| :: rest[i] == xs[i + 1];
    }

    lemma SplitFirst(xs: seq<Line>)
      requires xs != []
      ensures multiset(xs[1..]) == multiset(xs) - multiset{xs[0]}
    {
      assert xs == [xs[0]] + xs[1..];
    }

    /** There is only one sorted arrangement of rows with distinct remote ports. */
    lemma {:induction false} SortedIsUnique(xs: seq<Line>, ys: seq<Line>)
      requires multiset(xs) == multiset(ys) && Sorted(xs) && Sorted(ys) && DistinctPorts(xs)
      ensures xs == ys
    {
      hide Ordered, AtMost, Sorted, DistinctPorts;
      if xs == [] {
        assert |multiset(ys)| == 0;
      } else {
        FirstOf(xs, ys);
        RestOf(xs);
        RestOf(ys);
        SortedIsUnique(xs[1..], ys[1..]);
        assert xs == [xs[0]] + xs[1..] && ys == [ys[0]] + ys[1..];
      }
    }

    /** So the table does not depend on the order in which the rows came. */
    lemma CanonicalOrder(rows: seq<Line>, others: seq<Line>)
      requires multiset(rows) == multiset(others) && DistinctPorts(rows)
      ensures Arranged(rows) == Arranged(others)
    {
      hide Ordered;
      ArrangedIsSorted(rows);
      ArrangedIsSorted(others);
      DistinctAgain(rows, Arranged(rows));
      SortedIsUnique(Arranged(rows), Arranged(others));
    }

    lemma DistinctAgain(rows: seq<Line>, others: seq<Line>)
      requires multiset(rows) == multiset(others) && DistinctPorts(rows)
      ensures DistinctPorts(others)
    {
      forall i, j | 0 <= i < j < |others| ensures others[i].remotePort != others[j].remotePort {
        assert others == others[..i] + [others[i]] + others[i + 1..j] + [others[j]] + others[j + 1..];
        if others[i] == others[j] {
          assert multiset(rows)[others[i]] >= 2;
          TwiceIsTwoPlaces(rows, others[i]);
        } else {
          assert others[i] in multiset(rows) && others[j] in multiset(rows);
          var k :| 0 <= k < |rows| && rows[k] == others[i];
          var l :| 0 <= l < |rows| && rows[l] == others[j];
          assert k < l || l < k;
        }
      }
    }

    lemma TwiceIsTwoPlaces(rows: seq<Line>, x: Line)
      requires multiset(rows)[x] >= 2
      ensures exists i, j | 0 <= i < j < |rows| :: rows[i] == x == rows[j]
    {
      assert x in multiset(rows);
      var i :| 0 <= i < |rows| && rows[i] == x;
      assert rows == rows[..i] + [x] + rows[i + 1..];
      if x in rows[..i] {
        var j :| 0 <= j < i && rows[j] == x;
      } else {
        assert multiset(rows)[x] == multiset(rows[..i])[x] + 1 + multiset(rows[i + 1..])[x];
        assert multiset(rows[..i])[x] == 0;
        assert x in rows[i + 1..];
        var j :| i < j < |rows| && rows[j] == x;
      }
    }

    /** With the inactive rows last, the live rows form a prefix, and both groups are sorted as chosen. */
    lemma LiveRowsFirst(rows: seq<Line>, i: nat, j: nat)
      requires inactiveLast && i < j < |rows|
      ensures var t := Arranged(rows);
              && |t| == |rows|
              && (t[j].status.Active? ==> t[i].status.Active?)
              && (t[i].status.Active? == t[j].status.Active? ==> !Inner(t[j], t[i]))
    {
      ArrangedIsSorted(rows);
      assert |Arranged(rows)| == |multiset(Arranged(rows))| == |rows|;
      assert AtMost(Arranged(rows)[i], Arranged(rows)[j]);
    }

    lemma ReversedIs(a: Line, b: Line)
      requires !inactiveLast
      ensures this.(reverse := !reverse).Ordered(a, b) <==> Ordered(b, a)
    {
    }

    /** What is sorted one way is sorted the other way when read backwards. */
    lemma SortedBackwards(t: seq<Line>)
      requires !inactiveLast && Sorted(t) && DistinctPorts(t)
      ensures this.(reverse := !reverse).Sorted(Backwards(t))
    {
      hide Ordered;
      var back, u := this.(reverse := !reverse), Backwards(t);
      BackwardsIs(t);
      forall i, j | 0 <= i < j < |u| ensures back.AtMost(u[i], u[j]) {
        assert AtMost(t[|t| - 1 - j], t[|t| - 1 - i]);
        assert t[|t| - 1 - j] == u[j] && t[|t| - 1 - i] == u[i];
        ReversedIs(u[j], u[i]);
        StrictTotalOrder(u[i], u[j], u[i]);
      }
    }

    lemma SameLength(xs: seq<Line>, ys: seq<Line>)
      requires multiset(xs) == multiset(ys)
      ensures |xs| == |ys|
    {
      assert |xs| == |multiset(xs)| == |multiset(ys)| == |ys|;
    }

    /** Which way each key sorts: by port numbers and names upwards, by age, traffic and connections downwards, so the newest and
        busiest come first; ties by remote port upwards. */
    lemma SortsBy(rows: seq<Line>, i: nat, j: nat)
      requires i < j < |rows| && !inactiveLast && !reverse && DistinctPorts(rows)
      ensures |Arranged(rows)| == |rows|
      ensures var (a, b) := (Arranged(rows)[i], Arranged(rows)[j]);
              var titleOf := (r: Line) => lower(if r.name != "" then r.name else r.cmd);
              var tied := a.remotePort < b.remotePort;
              match key
              case SortRemote => tied
              case SortLocal => a.localPort < b.localPort || (a.localPort == b.localPort && tied)
              case SortProcess => Merge.StringLess(titleOf(a), titleOf(b)) || (titleOf(a) == titleOf(b) && tied)
              case SortAge => a.firstSeen > b.firstSeen || (a.firstSeen == b.firstSeen && tied)
              case SortTraffic =>
                var total := (r: Line) => (r.bytesIn + r.bytesOut) % 0x1_0000_0000_0000_0000;
                total(a) > total(b) || (total(a) == total(b) && tied)
              case SortConns => a.totalConns > b.totalConns || (a.totalConns == b.totalConns && tied)
    {
      hide Merge.StringLess, Arranged;
      ArrangedIsSorted(rows);
      SameLength(Arranged(rows), rows);
      DistinctAgain(rows, Arranged(rows));
      var a, b := Arranged(rows)[i], Arranged(rows)[j];
      assert AtMost(a, b) && a.remotePort != b.remotePort;
      Merge.StringOrder(Name(a), Name(b));
    }

    /** Reversing the direction reverses the table, when inactive rows are not set apart. */
    lemma ReversedOrder(rows: seq<Line>, i: nat)
      requires !inactiveLast && DistinctPorts(rows) && i < |rows|
      ensures var back := this.(reverse := !reverse);
              |Arranged(rows)| == |back.Arranged(rows)| == |rows|
              && back.Arranged(rows)[i] == Arranged(rows)[|rows| - 1 - i]
    {
      hide Ordered, Sorted, DistinctPorts, Arranged;
      var back, t := this.(reverse := !reverse), Arranged(rows);
      ArrangedIsSorted(rows);
      back.ArrangedIsSorted(rows);
      SameLength(t, rows);
      SameLength(back.Arranged(rows), rows);
      DistinctAgain(rows, t);
      var u := Backwards(t);
      BackwardsIs(t);
      SortedBackwards(t);
      back.DistinctAgain(rows, u);
      back.SortedIsUnique(u, back.Arranged(rows));
    }

    // -------------------------------------------------------------- leaving rows out

    lemma {:induction false} KeptAreSorted(rows: seq<Line>, p: Line -> bool)
      requires Sorted(rows)
      ensures Sorted(Keep(rows, p)) && forall x | x in Keep(rows, p) :: x in rows && p(x)
    {
      hide Ordered, AtMost;
      if rows != [] {
        var front, last := rows[..|rows| - 1], rows[|rows| - 1];
        KeptAreSorted(front, p);
        assert forall x | x in front :: AtMost(x, last);
      }
    }

    lemma {:induction false} PlaceAndKeep(sorted: seq<Line>, r: Line, p: Line -> bool)
      requires Sorted(sorted)
      ensures Keep(Place(sorted, r), p) == if p(r) then Place(Keep(sorted, p), r) else Keep(sorted, p)
    {
      hide Ordered;
      if sorted == [] {
        KeepSnoc([], r, p);
      } else {
        var front, last := sorted[..|sorted| - 1], sorted[|sorted| - 1];
        if Ordered(r, last) {
          PlaceAndKeep(front, r, p);
          KeepSnoc(Place(front, r), last, p);
          var kept := Keep(front, p);
          assert (kept + [last])[..|kept|] == kept;
        } else {
          KeepSnoc(sorted, r, p);
          KeptAreSorted(sorted, p);
          var kept := Keep(sorted, p);
          if kept != [] {
            var x := kept[|kept| - 1];
            assert x in sorted;
            AtMostLast(sorted, x);
            AtMostIsTransitive(x, last, r);
          }
        }
      }
    }

    lemma AtMostLast(sorted: seq<Line>, x: Line)
      requires Sorted(sorted) && x in sorted
      ensures AtMost(x, sorted[|sorted| - 1])
    {
      hide Ordered;
      StrictTotalOrder(x, x, x);
    }

    /** Leaving rows out and sorting can be done in either order. */
    lemma {:induction false} ArrangeAndKeep(rows: seq<Line>, p: Line -> bool)
      ensures Keep(Arranged(rows), p) == Arranged(Keep(rows, p))
    {
      hide Ordered, Sorted, Place;
      if rows != [] {
        var front, last := rows[..|rows| - 1], rows[|rows| - 1];
        ArrangeAndKeep(front, p);
        ArrangedIsSorted(front);
        PlaceAndKeep(Arranged(front), last, p);
        var kept := Keep(front, p);
        assert (kept + [last])[..|kept|] == kept;
      }
    }
  }

  // ---------------------------------------------------------------- leaving rows out

  /** The rows that satisfy p, in their order. */
  function Keep(rows: seq<Line>, p: Line -> bool): seq<Line> {
    if rows == [] then []
    else
      var kept, last := Keep(rows[..|rows| - 1], p), rows[|rows| - 1];
      if p(last) then kept + [last] else kept
  }

  lemma KeepSnoc(rows: seq<Line>, r: Line, p: Line -> bool)
    ensures Keep(rows + [r], p) == Keep(rows, p) + if p(r) then [r] else []
  {
    assert (rows + [r])[..|rows|] == rows;
  }

  /** Not a pre-existing service without a tunnel. */
  predicate Shown(r: Line) { !(r.skip.Preexisting? && !r.status.Active?) }

  /** Drops services that were already running when the program connected and are not forwarded. */
  method HidePreexisting(rows: seq<Line>) returns (out: seq<Line>)
    ensures out == Keep(rows, Shown)
    ensures forall r :: r in out <==> r in rows && (r.status == Active || r.skip != Preexisting)
  {
    out := [];
    for i := 0 to |rows|
      invariant out == Keep(rows[..i], Shown)
      invariant forall r :: r in out <==> r in rows[..i] && (r.status == Active || r.skip != Preexisting)
    {
      KeepSnoc(rows[..i], rows[i], Shown);
      assert rows[..i + 1] == rows[..i] + [rows[i]];
      if rows[i].skip.Preexisting? && !rows[i].status.Active? {
        continue;
      }
      out := out + [rows[i]];
    }
    assert rows[..|rows|] == rows;
  }

  function StatusText(st: Status): string {
    match st
    case Active => "active"
    case Skipped => "skipped"
    case Error => "error"
    case Offline => "offline"
  }

  /** The query occurs in the row's command, name, process, ports or status. */
  predicate Matches(lower: string -> string, q: string, r: Line) {
    || Occurs(q, lower(r.cmd)) || Occurs(q, lower(r.name)) || Occurs(q, lower(r.proc))
    || Occurs(q, Itoa(r.remotePort)) || Occurs(q, Itoa(r.localPort))
    || Occurs(q, StatusText(r.status))
  }

  /** Keeps the rows that match a query, whatever its case; an empty query keeps all. */
  method FilterStates(rows: seq<Line>, query: string, lower: string -> string) returns (out: seq<Line>)
    ensures var q := lower(TrimSpace(query));
            out == if q == "" then rows else Keep(rows, r => Matches(lower, q, r))
    ensures forall r | r in out :: r in rows
    ensures var q := lower(TrimSpace(query));
            q != "" ==> forall r | r in rows :: r in out <==>
              exists text | text in [lower(r.cmd), lower(r.name), lower(r.proc), Itoa(r.remotePort), Itoa(r.localPort),
                                     match r.status case Active => "active" case Skipped => "skipped"
                                                    case Error => "error" case Offline => "offline"] :: Occurs(q, text)
  {
    var q := lower(TrimSpace(query));
    if q == "" {
      return rows;
    }
    var p := (r: Line) => Matches(lower, q, r);
    out := [];
    for i := 0 to |rows|
      invariant out == Keep(rows[..i], p)
    {
      KeepSnoc(rows[..i], rows[i], p);
      assert rows[..i + 1] == rows[..i] + [rows[i]];
      if Matches(lower, q, rows[i]) {
        out := out + [rows[i]];
      }
    }
    assert rows[..|rows|] == rows;
    forall r ensures r in out <==> r in rows && Matches(lower, q, r) {
      KeptAre(rows, p, r);
    }
  }

  lemma {:induction false} KeptAre(rows: seq<Line>, p: Line -> bool, r: Line)
    ensures r in Keep(rows, p) <==> r in rows && p(r)
  {
    if rows != [] {
      KeptAre(rows[..|rows| - 1], p, r);
      assert rows == rows[..|rows| - 1] + [rows[|rows| - 1]];
    }
  }

  function Backwards(rows: seq<Line>): (r: seq<Line>)
    ensures |r| == |rows|
  {
    if rows == [] then [] else [rows[|rows| - 1]] + Backwards(rows[..|rows| - 1])
  }

  lemma {:induction false} BackwardsIs(rows: seq<Line>)
    ensures multiset(Backwards(rows)) == multiset(rows)
    ensures forall i | 0 <= i < |rows| :: Backwards(rows)[i] == rows[|rows| - 1 - i]
  {
    if rows != [] {
      var front, last := rows[..|rows| - 1], rows[|rows| - 1];
      BackwardsIs(front);
      assert rows == front + [last];
      assert Backwards(rows) == [last] + Backwards(front);
    }
  }
}

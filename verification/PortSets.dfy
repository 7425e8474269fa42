/** Sets of TCP ports as lists of ranges: internal/tunnel/portset.go. */
module PortSets {
  import opened Text

  datatype PortRange = PortRange(lo: int, hi: int)

  type PortSet = seq<PortRange>

  datatype SpecError = NotANumber(text: string) | NotAPort(n: int) | Inverted(lo: int, hi: int)

  datatype Parsed<T> = Ok(value: T) | Bad(error: SpecError)

  predicate Contains(ps: PortSet, port: int) {
    exists r | r in ps :: r.lo <= port <= r.hi
  }

  /** A range as parsing yields it. */
  predicate ValidRange(r: PortRange) { 1 <= r.lo <= r.hi <= 65535 }

  predicate IsSeparator(c: char) { c == ',' || c == ' ' || c == '\t' }

  function ParsePort(s: string): Parsed<int> {
    match Atoi(TrimSpace(s))
    case None => Bad(NotANumber(TrimSpace(s)))
    case Some(p) => if p < 1 || p > 65535 then Bad(NotAPort(p)) else Ok(p)
  }

  function ParseRange(f: string): (r: Parsed<PortRange>)
    ensures r.Ok? ==> ValidRange(r.value)
  {
    match Cut(f, '-')
    case None =>
      (match ParsePort(f)
       case Bad(e) => Bad(e)
       case Ok(p) => Ok(PortRange(p, p)))
    case Some((a, b)) =>
      match (ParsePort(a), ParsePort(b))
      case (Bad(e), _) => Bad(e)
      case (Ok(_), Bad(e)) => Bad(e)
      case (Ok(lo), Ok(hi)) => if lo > hi then Bad(Inverted(lo, hi)) else Ok(PortRange(lo, hi))
  }

  /** The ranges of a list of fields in the order of the text, or the first error. */
  function Ranges(fields: seq<string>): (r: Parsed<seq<PortRange>>)
    ensures r.Ok? ==> |r.value| == |fields| && forall i | 0 <= i < |fields| :: ParseRange(fields[i]) == Ok(r.value[i])
  {
    if fields == [] then Ok([])
    else match ParseRange(fields[0])
      case Bad(e) => Bad(e)
      case Ok(r) =>
        match Ranges(fields[1..])
        case Bad(e) => Bad(e)
        case Ok(rs) => Ok([r] + rs)
  }

  predicate SortedByLo(ps: seq<PortRange>) { forall i, j | 0 <= i < j < |ps| :: ps[i].lo <= ps[j].lo }

  /** What a specification means, before sorting. */
  function Meaning(spec: string): Parsed<seq<PortRange>> { Ranges(Fields(spec, IsSeparator)) }

  /** Parses a comma- or space-separated list of ports and ranges. The set is sorted; it has exactly
      the ports that the ranges of the text have, whatever their order. */
  method ParsePortSet(spec: string) returns (r: Parsed<PortSet>)
    ensures Meaning(spec).Bad? ==> r == Bad(Meaning(spec).error)
    ensures Meaning(spec).Ok? ==> r.Ok? && SortedByLo(r.value) && multiset(r.value) == multiset(Meaning(spec).value)
    ensures r.Ok? ==> forall port :: Contains(r.value, port) <==>
              exists f | f in Fields(spec, IsSeparator) :: InField(f, port)
  {
    hide Fields, ParseRange, SortedByLo, InField, Contains;
    var fields := Fields(spec, IsSeparator);
    var ps: PortSet := [];
    for i := 0 to |fields|
      invariant Ranges(fields[..i]) == Ok(ps)
    {
      RangesSnoc(fields[..i], fields[i]);
      assert fields[..i] + [fields[i]] == fields[..i + 1];
      match ParseRange(fields[i])
      case Bad(e) =>
        RangesStop(fields, i + 1);
        return Bad(e);
      case Ok(range) =>
        ps := ps + [range];
    }
    assert fields[..|fields|] == fields;
    var sorted := SortByLo(ps);
    forall port ensures Contains(sorted, port) <==> exists f | f in fields :: InField(f, port) {
      SameMembers(sorted, ps, port);
      MembersOfFields(fields, ps, port);
    }
    return Ok(sorted);
  }

  /** The range that a field spells has the port. */
  predicate InField(f: string, port: int) {
    ParseRange(f).Ok? && ParseRange(f).value.lo <= port <= ParseRange(f).value.hi
  }

  lemma MembersOfFields(fields: seq<string>, ps: PortSet, port: int)
    requires Ranges(fields) == Ok(ps)
    ensures Contains(ps, port) <==> exists f | f in fields :: InField(f, port)
  {
    if Contains(ps, port) {
      var r :| r in ps && r.lo <= port <= r.hi;
      var i :| 0 <= i < |ps| && ps[i] == r;
      assert InField(fields[i], port);
    }
    if f :| f in fields && InField(f, port) {
      var i :| 0 <= i < |fields| && fields[i] == f;
      assert ps[i] in ps;
    }
  }

  lemma SameMembers(ps: PortSet, qs: PortSet, port: int)
    requires multiset(ps) == multiset(qs)
    ensures Contains(ps, port) <==> Contains(qs, port)
  {
    assert forall r :: r in ps <==> r in multiset(ps);
    assert forall r :: r in qs <==> r in multiset(qs);
  }

  lemma {:induction false} RangesSnoc(fields: seq<string>, f: string)
    ensures Ranges(fields + [f]) ==
            match Ranges(fields)
            case Bad(e) => Bad(e)
            case Ok(rs) => (match ParseRange(f) case Bad(e) => Bad(e) case Ok(r) => Ok(rs + [r]))
  {
    if fields == [] {
      assert fields + [f] == [f] && [f][1..] == [];
      assert forall r: PortRange :: [r] + [] == [] + [r];
    } else {
      RangesSnoc(fields[1..], f);
      assert (fields + [f])[1..] == fields[1..] + [f] && (fields + [f])[0] == fields[0];
      if Ranges(fields).Ok? && ParseRange(f).Ok? {
        var r0, rs, r := ParseRange(fields[0]).value, Ranges(fields[1..]).value, ParseRange(f).value;
        assert [r0] + (rs + [r]) == [r0] + rs + [r];
      }
    }
  }

  /** The first error decides. */
  lemma {:induction false} RangesStop(fields: seq<string>, k: nat)
    requires k <= |fields| && Ranges(fields[..k]).Bad?
    ensures Ranges(fields) == Ranges(fields[..k])
    decreases |fields| - k
  {
    if k < |fields| {
      RangesSnoc(fields[..k], fields[k]);
      assert fields[..k] + [fields[k]] == fields[..k + 1];
      RangesStop(fields, k + 1);
    } else {
      assert fields[..k] == fields;
    }
  }

  /** A library sort. */
  method SortByLo(ps: PortSet) returns (qs: PortSet)
    ensures SortedByLo(qs) && multiset(qs) == multiset(ps)
  {
    qs := [];
    assert SortedByLo(qs) && multiset(qs) == multiset(ps[..0]);
    hide SortedByLo;
    for k := 0 to |ps|
      invariant SortedByLo(qs) && multiset(qs) == multiset(ps[..k])
    {
      var i := Position(qs, ps[k]);
      InsertRange(qs, ps[..k], i, ps[k]);
      assert ps[..k + 1] == ps[..k] + [ps[k]];
      qs := qs[..i] + [ps[k]] + qs[i..];
    }
    assert ps[..|ps|] == ps;
  }

  /** Where r goes: behind everything that begins no later. */
  method Position(qs: PortSet, r: PortRange) returns (i: nat)
    ensures i <= |qs| && (forall j | 0 <= j < i :: qs[j].lo <= r.lo) && (i < |qs| ==> qs[i].lo > r.lo)
  {
    i := 0;
    while i < |qs| && qs[i].lo <= r.lo
      invariant i <= |qs| && forall j | 0 <= j < i :: qs[j].lo <= r.lo
    {
      i := i + 1;
    }
  }

  lemma InsertRange(qs: PortSet, ps: PortSet, i: nat, r: PortRange)
    requires SortedByLo(qs) && multiset(qs) == multiset(ps)
    requires i <= |qs| && (forall j | 0 <= j < i :: qs[j].lo <= r.lo) && (i < |qs| ==> qs[i].lo > r.lo)
    ensures SortedByLo(qs[..i] + [r] + qs[i..]) && multiset(qs[..i] + [r] + qs[i..]) == multiset(ps + [r])
  {
    assert qs == qs[..i] + qs[i..];
  }

  // ---------------------------------------------------------------- what is and is not a specification

  /** A number that is no port, and a range the wrong way round, are errors that say so. */
  lemma BadPorts(n: nat, m: nat)
    requires n <= MAX_INT && m <= MAX_INT
    ensures n < 1 || n > 65535 ==> ParseRange(Itoa(n)) == Bad(NotAPort(n))
    ensures 1 <= m < n <= 65535 ==> ParseRange(Itoa(n) + ['-'] + Itoa(m)) == Bad(Inverted(n, m))
    ensures 1 <= n <= 65535 ==> ParseRange(Itoa(n)) == Ok(PortRange(n, n))
    ensures 1 <= n <= m <= 65535 ==> ParseRange(Itoa(n) + ['-'] + Itoa(m)) == Ok(PortRange(n, m))
  {
    hide Cut, Itoa, Atoi;
    PortOf(n);
    PortOf(m);
    assert '-' !in Itoa(n);
    CutAbsent(Itoa(n), '-');
    CutJoined(Itoa(n), '-', Itoa(m));
  }

  lemma PortOf(n: nat)
    requires n <= MAX_INT
    ensures ParsePort(Itoa(n)) == if n < 1 || n > 65535 then Bad(NotAPort(n)) else Ok(n)
  {
    hide Itoa;
    AtoiOfItoa(n);
    NothingToTrim(Itoa(n));
  }

  /** Commas, spaces and tabs separate, any number of them. */
  lemma TwoPorts(n: int, m: int, between: string)
    requires 1 <= n <= 65535 && 1 <= m <= 65535
    requires between != [] && forall c | c in between :: c == ',' || c == ' ' || c == '\t'
    ensures Meaning(Itoa(n) + between + Itoa(m)) == Ok([PortRange(n, n), PortRange(m, m)])
  {
    hide Itoa, ParseRange;
    BadPorts(n, n);
    BadPorts(m, m);
    var (a, b) := (Itoa(n), Itoa(m));
    assert forall i | 0 <= i < |a| :: IsDigit(a[i]);
    assert forall i | 0 <= i < |b| :: IsDigit(b[i]);
    FieldsAround(a, between, b);
    assert [a][1..] == [] && Ranges([a]) == Ok([PortRange(n, n)] + []);
    RangesSnoc([a], b);
    assert [a] + [b] == [a, b] && [PortRange(n, n)] + [] + [PortRange(m, m)] == [PortRange(n, n), PortRange(m, m)];
  }

  lemma {:induction false} FieldsAround(a: string, between: string, b: string)
    requires between != [] && forall c | c in between :: IsSeparator(c)
    requires Solid(a, IsSeparator) && Solid(b, IsSeparator)
    ensures Fields(a + between + b, IsSeparator) == [a, b]
  {
    var x, rest := between[0], between[1..];
    assert a + between + b == a + [x] + (rest + b);
    FieldsMean(a, x, rest + b, IsSeparator);
    FieldsAfter(rest, b);
  }

  lemma {:induction false} FieldsAfter(between: string, b: string)
    requires forall c | c in between :: IsSeparator(c)
    requires Solid(b, IsSeparator)
    ensures Fields(between + b, IsSeparator) == [b]
  {
    if between == [] {
      assert between + b == b;
      FieldsMean(b, ',', [], IsSeparator);
    } else {
      var x, rest := between[0], between[1..];
      assert between + b == [] + [x] + (rest + b);
      FieldsMean([], x, rest + b, IsSeparator);
      FieldsAfter(rest, b);
    }
  }

  // ---------------------------------------------------------------- printing

  function RangeText(r: PortRange): string
    requires ValidRange(r)
  {
    if r.lo == r.hi then Itoa(r.lo) else Itoa(r.lo) + ['-'] + Itoa(r.hi)
  }

  function Parts(ps: PortSet): (parts: seq<string>)
    requires forall r | r in ps :: ValidRange(r)
    ensures |parts| == |ps| && forall i | 0 <= i < |ps| :: parts[i] == RangeText(ps[i])
  {
    seq(|ps|, i requires 0 <= i < |ps| => RangeText(ps[i]))
  }

  /** Renders a set back into the form it was specified in. */
  method Print(ps: PortSet) returns (s: string)
    requires forall r | r in ps :: ValidRange(r)
    ensures s == Join(Parts(ps), ',')
  {
    var parts := [];
    for i := 0 to |ps|
      invariant parts == Parts(ps)[..i]
    {
      assert ps[i] in ps && ValidRange(ps[i]);
      if ps[i].lo == ps[i].hi {
        parts := parts + [Itoa(ps[i].lo)];
      } else {
        parts := parts + [Itoa(ps[i].lo) + ['-'] + Itoa(ps[i].hi)];
      }
    }
    assert Parts(ps)[..|ps|] == Parts(ps);
    s := Join(parts, ',');
  }

  lemma DigitsArePlain(s: string)
    requires forall i | 0 <= i < |s| :: IsDigit(s[i])
    ensures TrimSpace(s) == s && '-' !in s
    ensures forall i | 0 <= i < |s| :: !IsSeparator(s[i])
  {
    NothingToTrim(s);
  }

  lemma PortRoundTrip(p: int)
    requires 1 <= p <= 65535
    ensures ParsePort(Itoa(p)) == Ok(p)
  {
    DigitsArePlain(Itoa(p));
    AtoiOfItoa(p);
  }

  lemma RangeRoundTrip(r: PortRange)
    requires ValidRange(r)
    ensures ParseRange(RangeText(r)) == Ok(r)
    ensures Solid(RangeText(r), IsSeparator)
    ensures RangeText(r) == if r.lo == r.hi then Itoa(r.lo) else Itoa(r.lo) + "-" + Itoa(r.hi)
  {
    PortRoundTrip(r.lo);
    PortRoundTrip(r.hi);
    DigitsArePlain(Itoa(r.lo));
    DigitsArePlain(Itoa(r.hi));
    if r.lo == r.hi {
      CutAbsent(Itoa(r.lo), '-');
    } else {
      CutJoined(Itoa(r.lo), '-', Itoa(r.hi));
    }
  }

  lemma {:induction false} PartsParse(ps: PortSet)
    requires forall r | r in ps :: ValidRange(r)
    ensures Ranges(Parts(ps)) == Ok(ps)
  {
    hide ParseRange, RangeText;
    if ps != [] {
      RangeRoundTrip(ps[0]);
      PartsParse(ps[1..]);
      assert Parts(ps)[1..] == Parts(ps[1..]);
      assert ps == [ps[0]] + ps[1..];
    }
  }

  /** Parsing what was printed succeeds and means the very ranges that were printed. */
  lemma PrintRoundTrip(ps: PortSet)
    requires forall r | r in ps :: ValidRange(r)
    ensures Meaning(Join(Parts(ps), ',')) == Ok(ps)
  {
    forall f | f in Parts(ps) ensures Solid(f, IsSeparator) {
      var k :| 0 <= k < |ps| && Parts(ps)[k] == f;
      assert ps[k] in ps;
      RangeRoundTrip(ps[k]);
    }
    FieldsOfJoin(Parts(ps), ',', IsSeparator);
    PartsParse(ps);
  }

  /** So a specification that parses, printed and parsed again, has the same ports. */
  method Reparse(spec: string) returns (first: Parsed<PortSet>, second: Parsed<PortSet>)
    ensures Meaning(spec).Ok? ==> first.Ok? && second.Ok? && multiset(second.value) == multiset(first.value)
    ensures Meaning(spec).Ok? ==> forall port :: Contains(second.value, port) <==> Contains(first.value, port)
  {
    first := ParsePortSet(spec);
    second := first;
    if first.Ok? {
      forall r | r in first.value ensures ValidRange(r) {
        assert r in multiset(Meaning(spec).value);
      }
      PrintRoundTrip(first.value);
      var text := Print(first.value);
      second := ParsePortSet(text);
      forall port ensures Contains(second.value, port) <==> Contains(first.value, port) {
        SameMembers(second.value, first.value, port);
      }
    }
  }
}

/** The few text functions of the standard library that the program relies on. */
module Text {
  import opened Wrappers

  // ---------------------------------------------------------------- numbers

  predicate IsDigit(c: char) { '0' <= c <= '9' }

  function Digit(d: nat): char
    requires d < 10
  {
    ['0', '1', '2', '3', '4', '5', '6', '7', '8', '9'][d]
  }

  function Value(c: char): nat
    requires IsDigit(c)
  {
    c as int - '0' as int
  }

  /** Decimal digits, most significant first. */
  function Itoa(n: nat): (s: string)
    ensures s != [] && forall i | 0 <= i < |s| :: IsDigit(s[i])
  {
    if n < 10 then [Digit(n)] else Itoa(n / 10) + [Digit(n % 10)]
  }

  /** The last digit stands for the remainder by ten, the others for the quotient. */
  lemma ItoaMeans(n: nat)
    ensures var s := Itoa(n);
            && s[|s| - 1] as int == '0' as int + n % 10
            && s[..|s| - 1] == if n < 10 then [] else Itoa(n / 10)
  {
  }

  function Natural(s: string): Option<nat> {
    if s == [] || !IsDigit(s[|s| - 1]) then None
    else if |s| == 1 then Some(Value(s[0]))
    else match Natural(s[..|s| - 1])
      case None => None
      case Some(n) => Some(10 * n + Value(s[|s| - 1]))
  }

  const MAX_INT := 0x7FFF_FFFF_FFFF_FFFF

  /** A decimal number with an optional sign that fits a 64-bit integer. */
  function Atoi(s: string): Option<int> {
    var negative := s != [] && s[0] == '-';
    var digits := if s != [] && (s[0] == '-' || s[0] == '+') then s[1..] else s;
    match Natural(digits)
    case None => None
    case Some(n) =>
      var value: int := if negative then -(n as int) else n;
      if -MAX_INT - 1 <= value <= MAX_INT then Some(value) else None
  }

  lemma {:induction false} NaturalOfItoa(n: nat)
    ensures Natural(Itoa(n)) == Some(n)
  {
    if n >= 10 {
      NaturalOfItoa(n / 10);
      var s := Itoa(n);
      assert s[..|s| - 1] == Itoa(n / 10);
    }
  }

  lemma AtoiOfItoa(n: nat)
    requires n <= MAX_INT
    ensures Atoi(Itoa(n)) == Some(n) && Atoi("+" + Itoa(n)) == Some(n) && Atoi("-" + Itoa(n)) == Some(-(n as int))
  {
    NaturalOfItoa(n);
    assert IsDigit(Itoa(n)[0]);
    assert ("+" + Itoa(n))[1..] == Itoa(n) && ("-" + Itoa(n))[1..] == Itoa(n);
  }

  // ---------------------------------------------------------------- blanks and fields

  /** White space as Unicode has it. */
  predicate IsSpace(c: char) {
    || c == ' ' || '\t' <= c <= '\r' || c == '\U{85}' || c == '\U{A0}' || c == '\U{1680}'
    || '\U{2000}' <= c <= '\U{200A}' || c == '\U{2028}' || c == '\U{2029}' || c == '\U{202F}'
    || c == '\U{205F}' || c == '\U{3000}'
  }

  function TrimSpaceLeft(s: string): string {
    if s != [] && IsSpace(s[0]) then TrimSpaceLeft(s[1..]) else s
  }

  function TrimSpaceRight(s: string): string {
    if s != [] && IsSpace(s[|s| - 1]) then TrimSpaceRight(s[..|s| - 1]) else s
  }

  function TrimSpace(s: string): string { TrimSpaceRight(TrimSpaceLeft(s)) }

  lemma {:induction false} TrimLeftMeans(s: string) returns (before: string)
    ensures s == before + TrimSpaceLeft(s) && forall c | c in before :: IsSpace(c)
    ensures TrimSpaceLeft(s) == [] || !IsSpace(TrimSpaceLeft(s)[0])
  {
    before := [];
    if s != [] && IsSpace(s[0]) {
      var rest := TrimLeftMeans(s[1..]);
      before := [s[0]] + rest;
      assert s == [s[0]] + s[1..];
    }
  }

  lemma {:induction false} TrimRightMeans(s: string) returns (after: string)
    ensures s == TrimSpaceRight(s) + after && forall c | c in after :: IsSpace(c)
    ensures var t := TrimSpaceRight(s); t == [] || (!IsSpace(t[|t| - 1]) && t[0] == s[0])
  {
    after := [];
    if s != [] && IsSpace(s[|s| - 1]) {
      var rest := TrimRightMeans(s[..|s| - 1]);
      after := rest + [s[|s| - 1]];
      assert s == s[..|s| - 1] + [s[|s| - 1]];
    }
  }

  /** Trimming takes blanks off both ends, and all of them. */
  lemma TrimSpaceMeans(s: string) returns (before: string, after: string)
    ensures s == before + TrimSpace(s) + after && forall c | c in before + after :: IsSpace(c)
    ensures var t := TrimSpace(s); t == [] || (!IsSpace(t[0]) && !IsSpace(t[|t| - 1]))
  {
    before := TrimLeftMeans(s);
    after := TrimRightMeans(TrimSpaceLeft(s));
  }

  lemma NothingToTrim(s: string)
    requires forall i | 0 <= i < |s| :: !IsSpace(s[i])
    ensures TrimSpace(s) == s
  {
  }

  /** The runs of characters between separators; `cur` is the run being read. */
  function FieldsFrom(s: string, sep: char -> bool, cur: string): seq<string> {
    var flushed := if cur == [] then [] else [cur];
    if s == [] then flushed
    else if sep(s[0]) then flushed + FieldsFrom(s[1..], sep, [])
    else FieldsFrom(s[1..], sep, cur + [s[0]])
  }

  function Fields(s: string, sep: char -> bool): seq<string> { FieldsFrom(s, sep, []) }

  lemma {:induction false} FieldsThrough(part: string, rest: string, sep: char -> bool, cur: string)
    requires forall i | 0 <= i < |part| :: !sep(part[i])
    ensures FieldsFrom(part + rest, sep, cur) == FieldsFrom(rest, sep, cur + part)
  {
    if part == [] {
      assert part + rest == rest && cur + part == cur;
    } else {
      assert (part + rest)[1..] == part[1..] + rest;
      FieldsThrough(part[1..], rest, sep, cur + [part[0]]);
      assert cur + [part[0]] + part[1..] == cur + part;
    }
  }

  lemma {:induction false} FieldsFromSplit(a: string, x: char, b: string, sep: char -> bool, cur: string)
    requires sep(x)
    ensures FieldsFrom(a + [x] + b, sep, cur) == FieldsFrom(a, sep, cur) + FieldsFrom(b, sep, [])
  {
    var s := a + [x] + b;
    if a == [] {
      assert s[0] == x && s[1..] == b;
    } else {
      assert s[0] == a[0] && s[1..] == a[1..] + [x] + b;
      if sep(a[0]) {
        FieldsFromSplit(a[1..], x, b, sep, []);
      } else {
        FieldsFromSplit(a[1..], x, b, sep, cur + [a[0]]);
      }
    }
  }

  /** What splitting is: nothing has no fields, what has no separator is one field, and a separator divides the
      fields before it from those after it, however many separators follow one another. */
  lemma FieldsMean(a: string, x: char, b: string, sep: char -> bool)
    requires sep(x)
    ensures Fields([], sep) == []
    ensures a != [] && (forall i | 0 <= i < |a| :: !sep(a[i])) ==> Fields(a, sep) == [a]
    ensures Fields(a + [x] + b, sep) == Fields(a, sep) + Fields(b, sep)
  {
    FieldsFromSplit(a, x, b, sep, []);
    if a != [] && forall i | 0 <= i < |a| :: !sep(a[i]) {
      FieldsThrough(a, [], sep, []);
      assert a + [] == a && [] + a == a;
    }
  }

  /** The parts with a separator between any two. */
  function Join(parts: seq<string>, between: char): string {
    if parts == [] then []
    else if |parts| == 1 then parts[0]
    else parts[0] + [between] + Join(parts[1..], between)
  }

  /** A field: not empty and without separators. */
  predicate Solid(f: string, sep: char -> bool) { f != [] && forall i | 0 <= i < |f| :: !sep(f[i]) }

  /** Splitting what was joined gives the parts back. */
  lemma {:induction false} FieldsOfJoin(parts: seq<string>, between: char, sep: char -> bool)
    requires sep(between)
    requires forall f | f in parts :: Solid(f, sep)
    ensures Fields(Join(parts, between), sep) == parts
  {
    if parts != [] {
      var p := parts[0];
      assert Solid(p, sep);
      if |parts| == 1 {
        FieldsThrough(p, [], sep, []);
        assert p + [] == p && [] + p == p && parts == [p];
      } else {
        var rest := Join(parts[1..], between);
        FieldsOfJoin(parts[1..], between, sep);
        FieldsThrough(p, [between] + rest, sep, []);
        assert p + [between] + rest == p + ([between] + rest);
        assert [] + p == p;
        assert ([between] + rest)[1..] == rest;
        assert parts == [p] + parts[1..];
      }
    }
  }

  /** Text with its runs of blanks reduced to single spaces and none at the ends. */
  function Tidy(s: string): string { Join(Fields(s, IsSpace), ' ') }

  lemma {:induction false} FieldsAreSolid(s: string, sep: char -> bool, cur: string)
    requires forall i | 0 <= i < |cur| :: !sep(cur[i])
    ensures forall f | f in FieldsFrom(s, sep, cur) :: Solid(f, sep)
  {
    if s != [] {
      if sep(s[0]) {
        FieldsAreSolid(s[1..], sep, []);
      } else {
        FieldsAreSolid(s[1..], sep, cur + [s[0]]);
      }
    }
  }

  /** Every blank is a single space between two words. */
  predicate Spaced(s: string) {
    forall i | 0 <= i < |s| && IsSpace(s[i]) ::
      s[i] == ' ' && 0 < i < |s| - 1 && !IsSpace(s[i - 1]) && !IsSpace(s[i + 1])
  }

  lemma {:induction false} JoinIsSpaced(words: seq<string>)
    requires forall w | w in words :: Solid(w, IsSpace)
    ensures Spaced(Join(words, ' '))
    ensures words != [] ==> var s := Join(words, ' '); s != [] && !IsSpace(s[0]) && !IsSpace(s[|s| - 1])
  {
    if words != [] {
      var w := words[0];
      assert Solid(w, IsSpace);
      if |words| > 1 {
        var rest, all := Join(words[1..], ' '), Join(words, ' ');
        JoinIsSpaced(words[1..]);
        assert all == w + [' '] + rest;
        forall i | 0 <= i < |all| && IsSpace(all[i])
          ensures all[i] == ' ' && 0 < i < |all| - 1 && !IsSpace(all[i - 1]) && !IsSpace(all[i + 1])
        {
          if i > |w| {
            assert IsSpace(rest[i - |w| - 1]);
          }
        }
      }
    }
  }

  /** Tidying keeps the words and leaves one space between any two, and it is done once and for all. */
  lemma TidyMeans(s: string)
    ensures Fields(Tidy(s), IsSpace) == Fields(s, IsSpace) && Spaced(Tidy(s))
    ensures Tidy(Tidy(s)) == Tidy(s)
  {
    FieldsAreSolid(s, IsSpace, []);
    FieldsOfJoin(Fields(s, IsSpace), ' ', IsSpace);
    JoinIsSpaced(Fields(s, IsSpace));
  }

  /** q occurs in s. */
  predicate Occurs(q: string, s: string) { exists i | 0 <= i <= |s| :: q <= s[i..] }

  /** That is, something stands before it and something after. */
  lemma OccursMeans(q: string, s: string)
    ensures Occurs(q, s) <==> exists n | 0 <= n <= |s| - |q| :: s == s[..n] + q + s[n + |q|..]
  {
    if n :| 0 <= n <= |s| - |q| && s == s[..n] + q + s[n + |q|..] {
      assert s[n..] == q + s[n + |q|..];
    }
    if i :| 0 <= i <= |s| && q <= s[i..] {
      assert s == s[..i] + q + s[i + |q|..];
    }
  }

  /** Splits around the first occurrence of a character. */
  function Cut(s: string, c: char): Option<(string, string)> {
    if s == [] then None
    else if s[0] == c then Some(([], s[1..]))
    else match Cut(s[1..], c)
      case None => None
      case Some((a, b)) => Some(([s[0]] + a, b))
  }

  lemma {:induction false} CutAbsent(s: string, c: char)
    requires c !in s
    ensures Cut(s, c) == None
  {
    if s != [] {
      CutAbsent(s[1..], c);
    }
  }

  lemma {:induction false} CutJoined(a: string, c: char, b: string)
    requires c !in a
    ensures Cut(a + [c] + b, c) == Some((a, b))
  {
    var s := a + [c] + b;
    if a == [] {
      assert s[1..] == b;
    } else {
      CutJoined(a[1..], c, b);
      assert s[1..] == a[1..] + [c] + b;
      assert [a[0]] + a[1..] == a;
    }
  }
}

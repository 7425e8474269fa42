/** The prober's framed output stream: internal/probe/monitor.go, consume, and internal/probe/script.go. */
module Framing {
  import opened Wrappers
  import opened Text

  const MARK_READY := "@@AUTOTUN-READY"
  const MARK_SCAN := "@@AUTOTUN-SCAN"
  const MARK_SOCKMAP := "@@AUTOTUN-SOCKMAP"
  const MARK_END := "@@AUTOTUN-END"
  const MARK_ERROR := "@@AUTOTUN-ERROR"

  /** The discovery tool in use on the remote host. */
  datatype Mode = SS | Lsof | Netstat | Proc

  function ParseMode(s: string): Option<Mode> {
    if s == "ss" then Some(SS)
    else if s == "lsof" then Some(Lsof)
    else if s == "netstat" then Some(Netstat)
    else if s == "proc" then Some(Proc)
    else None
  }

  datatype Info = Info(mode: Mode, os: string)

  /** One scan's raw output, as handed on for parsing; without a mode nothing is parsed. */
  datatype Scan = Scan(mode: Option<Mode>, body: string, sockMap: string)

  /** Why the stream stopped. */
  datatype Stop =
    | RemoteError(text: string)
    | UnknownMode(name: string)
    | Cancelled
    | Unreadable
    | Silent
    | EndOfStream

  /** The variables of the decoder. */
  datatype Decoder = Decoder(
    mode: Option<Mode>,
    ready: bool,
    inScan: bool,
    inSockMap: bool,
    body: string,
    sockMap: string,
    readies: seq<Info>,
    scans: seq<Scan>)

  const START := Decoder(None, false, false, false, "", "", [], [])

  /** What a READY line announces. */
  function Announced(line: string): Parsed {
    var f := Fields(line, IsSpace);
    if |f| < 3 then Good(Info(SS, ""))
    else match ParseMode(f[2])
      case None => Unknown(f[2])
      case Some(m) => Good(Info(m, if |f| >= 4 then f[3] else ""))
  }

  datatype Parsed = Good(info: Info) | Unknown(name: string)

  /** The effect of one line; a line that ends the stream changes nothing. */
  function Feed(d: Decoder, line: string): (Decoder, Option<Stop>) {
    if MARK_ERROR <= line then (d, Some(RemoteError(TrimSpace(line[|MARK_ERROR|..]))))
    else if MARK_READY <= line then
      match Announced(line)
      case Unknown(name) => (d, Some(UnknownMode(name)))
      case Good(info) => (d.(mode := Some(info.mode), ready := true, readies := d.readies + [info]), None)
    else if line == MARK_SCAN then (d.(inScan := true, inSockMap := false, body := "", sockMap := ""), None)
    else if line == MARK_SOCKMAP then (d.(inSockMap := true), None)
    else if line == MARK_END then
      if !d.inScan then (d, None)
      else (d.(inScan := false, inSockMap := false, scans := d.scans + [Scan(d.mode, d.body, d.sockMap)]), None)
    else if d.inSockMap then (d.(sockMap := d.sockMap + line + "\n"), None)
    else if d.inScan then (d.(body := d.body + line + "\n"), None)
    else (d, None)
  }

  /** The effect of many lines, up to the first that ends the stream. */
  function FeedAll(d: Decoder, lines: seq<string>): (Decoder, Option<Stop>)
    decreases |lines|
  {
    if lines == [] then (d, None)
    else
      var (e, stop) := Feed(d, lines[0]);
      if stop.Some? then (e, stop) else FeedAll(e, lines[1..])
  }

  /** Reads the framed stream. Every scan handed on and every announcement made is one of `FeedAll`, in
      its order; the session's cancellation, asked about after every line but a stray END, only cuts
      the stream short. */
  method Consume(lines: seq<string>, cancelled: seq<bool>, unreadable: bool)
    returns (readies: seq<Info>, scans: seq<Scan>, stop: Stop, ghost used: nat)
    requires |cancelled| == |lines|
    ensures used <= |lines|
    ensures readies == FeedAll(START, lines[..used]).0.readies && scans == FeedAll(START, lines[..used]).0.scans
    ensures !stop.Cancelled? ==>
              stop == var (d, s) := FeedAll(START, lines);
                      if s.Some? then s.value
                      else if unreadable then Unreadable
                      else if !d.ready then Silent
                      else EndOfStream
    ensures stop.Cancelled? ==> used > 0 && cancelled[used - 1] && FeedAll(START, lines[..used]).1.None?
    ensures !stop.Cancelled? ==> FeedAll(START, lines[..used]) == FeedAll(START, lines)
    ensures forall i | 0 <= i < used && cancelled[i] ::
              i == used - 1 || (lines[i] == MARK_END && !FeedAll(START, lines[..i]).0.inScan)
    ensures used > 0 && cancelled[used - 1] && FeedAll(START, lines[..used]).1.None? ==>
              stop.Cancelled? || (lines[used - 1] == MARK_END && !FeedAll(START, lines[..used - 1]).0.inScan)
  {
    var d := START;
    for i := 0 to |lines|
      invariant FeedAll(START, lines[..i]) == (d, None)
      invariant forall k | 0 <= k < i && cancelled[k] :: lines[k] == MARK_END && !FeedAll(START, lines[..k]).0.inScan
    {
      FeedAllSnoc(START, lines[..i], lines[i]);
      assert lines[..i] + [lines[i]] == lines[..i + 1];
      var line := lines[i];
      if line == MARK_END && !d.inScan {
        continue;
      }
      var (e, s) := Feed(d, line);
      if s.Some? {
        FeedAllStops(START, lines, i + 1);
        return e.readies, e.scans, s.value, i + 1;
      }
      d := e;
      if cancelled[i] {
        return d.readies, d.scans, Cancelled, i + 1;
      }
    }
    assert lines[..|lines|] == lines;
    readies, scans, used := d.readies, d.scans, |lines|;
    stop := if unreadable then Unreadable else if !d.ready then Silent else EndOfStream;
  }

  lemma {:induction false} FeedAllAppend(d: Decoder, a: seq<string>, b: seq<string>)
    ensures FeedAll(d, a + b) ==
            var (e, stop) := FeedAll(d, a); if stop.Some? then (e, stop) else FeedAll(e, b)
    decreases |a|
  {
    hide Feed;
    if a == [] {
      assert a + b == b;
    } else {
      assert (a + b)[1..] == a[1..] + b && (a + b)[0] == a[0];
      var (e, stop) := Feed(d, a[0]);
      if stop.None? {
        FeedAllAppend(e, a[1..], b);
      }
    }
  }

  lemma FeedAllSnoc(d: Decoder, a: seq<string>, line: string)
    ensures FeedAll(d, a + [line]) ==
            var (e, stop) := FeedAll(d, a); if stop.Some? then (e, stop) else Feed(e, line)
  {
    hide Feed;
    FeedAllAppend(d, a, [line]);
  }

  lemma FeedAllStops(d: Decoder, lines: seq<string>, k: nat)
    requires k <= |lines| && FeedAll(d, lines[..k]).1.Some?
    ensures FeedAll(d, lines) == FeedAll(d, lines[..k])
  {
    assert lines == lines[..k] + lines[k..];
    FeedAllAppend(d, lines[..k], lines[k..]);
  }

  // ---------------------------------------------------------------- frames

  /** A line of a listing tool's output: no marker. */
  predicate Plain(line: string) {
    && !(MARK_ERROR <= line) && !(MARK_READY <= line)
    && line != MARK_SCAN && line != MARK_SOCKMAP && line != MARK_END
  }

  /** One scan as the remote script writes it; only the proc mode adds a socket map. */
  datatype Frame = Frame(body: seq<string>, sockMap: Option<seq<string>>) {
    ghost predicate Valid() {
      && (forall l | l in body :: Plain(l))
      && (sockMap.Some? ==> forall l | l in sockMap.value :: Plain(l))
    }

    /** The lines up to the END marker. */
    function Opening(): seq<string> {
      [MARK_SCAN] + body + if sockMap.Some? then [MARK_SOCKMAP] + sockMap.value else []
    }

    function Lines(): seq<string> { Opening() + [MARK_END] }

    /** What a reader of the frame is meant to get. */
    function Content(mode: Mode): Scan {
      Scan(Some(mode), TextOf(body), if sockMap.Some? then TextOf(sockMap.value) else "")
    }
  }

  function TextOf(lines: seq<string>): string {
    if lines == [] then "" else TextOf(lines[..|lines| - 1]) + lines[|lines| - 1] + "\n"
  }

  /** The text of some lines, read up to the first line break, is the first of them. */
  lemma {:induction false} TextReads(lines: seq<string>)
    requires lines != [] && '\n' !in lines[0]
    ensures Cut(TextOf(lines), '\n') == Some((lines[0], TextOf(lines[1..])))
  {
    TextFront(lines);
    CutJoined(lines[0], '\n', TextOf(lines[1..]));
  }

  lemma {:induction false} TextFront(lines: seq<string>)
    requires lines != []
    ensures TextOf(lines) == lines[0] + ['\n'] + TextOf(lines[1..])
  {
    var rest, last := lines[..|lines| - 1], lines[|lines| - 1];
    if rest == [] {
      assert lines[1..] == [] && TextOf(rest) == "";
      assert TextOf(lines) == "" + last + "\n";
    } else {
      TextFront(rest);
      assert lines[1..][..|lines| - 2] == rest[1..];
      assert lines[1..] == rest[1..] + [last];
    }
  }

  function Concat(frames: seq<Frame>): seq<string> {
    if frames == [] then [] else Concat(frames[..|frames| - 1]) + frames[|frames| - 1].Lines()
  }

  function Contents(frames: seq<Frame>, mode: Mode): seq<Scan> {
    if frames == [] then [] else Contents(frames[..|frames| - 1], mode) + [frames[|frames| - 1].Content(mode)]
  }

  /** A plain line inside a scan adds to the body, or to the socket map once that has begun. */
  function Collected(d: Decoder, text: string): Decoder {
    if d.inSockMap then d.(sockMap := d.sockMap + text) else d.(body := d.body + text)
  }

  lemma PlainLine(d: Decoder, line: string)
    requires d.inScan && Plain(line)
    ensures Feed(d, line) == (Collected(d, line + "\n"), None)
  {
    assert d.sockMap + line + "\n" == d.sockMap + (line + "\n") && d.body + line + "\n" == d.body + (line + "\n");
  }

  lemma CollectedMore(d: Decoder, a: string, b: string)
    ensures Collected(Collected(d, a), b) == Collected(d, a + b)
  {
    assert d.sockMap + a + b == d.sockMap + (a + b) && d.body + a + b == d.body + (a + b);
  }

  lemma {:induction false} PlainLines(d: Decoder, lines: seq<string>)
    requires d.inScan && forall l | l in lines :: Plain(l)
    ensures FeedAll(d, lines) == (Collected(d, TextOf(lines)), None)
  {
    hide Feed, Plain;
    if lines == [] {
      assert d.sockMap + "" == d.sockMap && d.body + "" == d.body;
    } else {
      var rest, l := lines[..|lines| - 1], lines[|lines| - 1];
      assert lines == rest + [l] && l in lines;
      PlainLines(d, rest);
      FeedAllSnoc(d, rest, l);
      PlainLine(Collected(d, TextOf(rest)), l);
      CollectedMore(d, TextOf(rest), l + "\n");
      assert TextOf(rest) + l + "\n" == TextOf(rest) + (l + "\n");
    }
  }

  /** The state in the middle of a frame. */
  function Opened(d: Decoder, f: Frame): Decoder {
    d.(inScan := true, inSockMap := f.sockMap.Some?, body := TextOf(f.body),
       sockMap := if f.sockMap.Some? then TextOf(f.sockMap.value) else "")
  }

  lemma FrameOpens(d: Decoder, f: Frame)
    requires f.Valid()
    ensures FeedAll(d, f.Opening()) == (Opened(d, f), None)
  {
    var d1 := d.(inScan := true, inSockMap := false, body := "", sockMap := "");
    OneLine(d, MARK_SCAN);
    assert Feed(d, MARK_SCAN) == (d1, None) by { Markers(); }
    FeedAllAppend(d, [MARK_SCAN], f.body);
    PlainLines(d1, f.body);
    assert "" + TextOf(f.body) == TextOf(f.body);
    var d2 := d1.(body := TextOf(f.body));
    if f.sockMap.Some? {
      var d3 := d2.(inSockMap := true);
      OneLine(d2, MARK_SOCKMAP);
      assert Feed(d2, MARK_SOCKMAP) == (d3, None) by { Markers(); }
      FeedAllAppend(d2, [MARK_SOCKMAP], f.sockMap.value);
      PlainLines(d3, f.sockMap.value);
      assert "" + TextOf(f.sockMap.value) == TextOf(f.sockMap.value);
      FeedAllAppend(d, [MARK_SCAN] + f.body, [MARK_SOCKMAP] + f.sockMap.value);
    } else {
      assert f.Opening() == [MARK_SCAN] + f.body;
    }
  }

  lemma OneLine(d: Decoder, line: string)
    ensures FeedAll(d, [line]) == Feed(d, line)
  {
    hide Feed;
    var (e, stop) := Feed(d, line);
    assert [line][1..] == [];
  }

  /** The markers as the remote script prints them, told apart by their first letters after the common beginning. */
  lemma Markers()
    ensures MARK_READY == "@@AUTOTUN-READY" && MARK_SCAN == "@@AUTOTUN-SCAN" && MARK_SOCKMAP == "@@AUTOTUN-SOCKMAP"
    ensures MARK_END == "@@AUTOTUN-END" && MARK_ERROR == "@@AUTOTUN-ERROR"
    ensures !(MARK_ERROR <= MARK_SCAN) && !(MARK_ERROR <= MARK_SOCKMAP) && !(MARK_ERROR <= MARK_END)
    ensures !(MARK_READY <= MARK_SCAN) && !(MARK_READY <= MARK_SOCKMAP) && !(MARK_READY <= MARK_END)
    ensures MARK_SCAN != MARK_SOCKMAP && MARK_SCAN != MARK_END && MARK_SOCKMAP != MARK_END
  {
    assert MARK_SCAN[10] == 'S' && MARK_SOCKMAP[10] == 'S' && MARK_END[10] == 'E' && MARK_ERROR[10] == 'E'
           && MARK_READY[10] == 'R' && MARK_SCAN[11] == 'C' && MARK_SOCKMAP[11] == 'O';
    assert MARK_END[11] == 'N' && MARK_ERROR[11] == 'R';
  }

  /** After a frame, whatever came before, one more scan has been handed on: the frame's content. */
  lemma FrameDelivers(d: Decoder, f: Frame, mode: Mode)
    requires f.Valid() && d.mode == Some(mode)
    ensures var (e, stop) := FeedAll(d, f.Lines());
            && stop.None? && e.mode == d.mode && e.ready == d.ready && e.readies == d.readies
            && e.scans == d.scans + [f.Content(mode)]
  {
    FrameOpens(d, f);
    FeedAllSnoc(d, f.Opening(), MARK_END);
    Markers();
  }

  lemma {:induction false} FramesDeliver(d: Decoder, frames: seq<Frame>, mode: Mode)
    requires d.mode == Some(mode) && forall f | f in frames :: f.Valid()
    ensures var (e, stop) := FeedAll(d, Concat(frames));
            && stop.None? && e.mode == d.mode && e.ready == d.ready && e.readies == d.readies
            && e.scans == d.scans + Contents(frames, mode)
  {
    hide Feed, FeedAll;
    if frames == [] {
      NoLines(d);
    } else {
      var rest, f := frames[..|frames| - 1], frames[|frames| - 1];
      FramesDeliver(d, rest, mode);
      FeedAllAppend(d, Concat(rest), f.Lines());
      FrameDelivers(FeedAll(d, Concat(rest)).0, f, mode);
    }
  }

  lemma NoLines(d: Decoder)
    ensures FeedAll(d, []) == (d, None)
  {
  }

  /** The mode that a word names, if it names one. */
  lemma ModeWords(word: string)
    ensures ParseMode(word) ==
            if word == ['s', 's'] then Some(SS) else if word == ['l', 's', 'o', 'f'] then Some(Lsof)
            else if word == ['n', 'e', 't', 's', 't', 'a', 't'] then Some(Netstat)
            else if word == ['p', 'r', 'o', 'c'] then Some(Proc) else None
  {
  }

  /** The line a prober announces itself with: the marker, its version, the mode and the system. */
  function ReadyLine(words: seq<string>): string { Join([MARK_READY] + words, ' ') }

  lemma BeginsReady(words: seq<string>)
    ensures MARK_READY <= ReadyLine(words) && !(MARK_ERROR <= ReadyLine(words))
  {
    assert ([MARK_READY] + words)[0] == MARK_READY;
    assert MARK_READY[10] == 'R' && MARK_ERROR[10] == 'E';
    assert ReadyLine(words)[10] == MARK_READY[10];
  }

  lemma ReadyFields(words: seq<string>)
    requires forall w | w in words :: Solid(w, IsSpace)
    ensures Fields(ReadyLine(words), IsSpace) == [MARK_READY] + words
  {
    assert |MARK_READY| == 15 && forall i | 0 <= i < 15 :: !IsSpace(MARK_READY[i]);
    FieldsOfJoin([MARK_READY] + words, ' ', IsSpace);
  }

  /** What a READY line announces: its third word is the mode, each tool by its own name, and its fourth the system;
      any other third word ends the stream. Without a third word it is the first tool, without a fourth an unnamed system. */
  lemma ReadyAnnounces(d: Decoder, words: seq<string>)
    requires forall w | w in words :: Solid(w, IsSpace)
    ensures var (e, stop) := Feed(d, ReadyLine(words));
            var os := if |words| < 3 then [] else words[2];
            var announces := (mode: Mode) =>
              stop.None? && e == d.(mode := Some(mode), ready := true, readies := d.readies + [Info(mode, os)]);
            if |words| < 2 || words[1] == ['s', 's'] then announces(SS)
            else if words[1] == ['l', 's', 'o', 'f'] then announces(Lsof)
            else if words[1] == ['n', 'e', 't', 's', 't', 'a', 't'] then announces(Netstat)
            else if words[1] == ['p', 'r', 'o', 'c'] then announces(Proc)
            else e == d && stop == Some(UnknownMode(words[1]))
  {
    hide Join, Fields;
    var line, f := ReadyLine(words), [MARK_READY] + words;
    BeginsReady(words);
    ReadyFields(words);
    if |words| >= 2 {
      assert f[2] == words[1];
      ModeWords(words[1]);
    }
    if |words| >= 3 {
      assert f[3] == words[2];
    }
  }

  /** An ERROR line ends the stream with its text. */
  lemma ErrorStops(d: Decoder, text: string)
    ensures Feed(d, MARK_ERROR + text) == (d, Some(RemoteError(TrimSpace(text))))
  {
    assert (MARK_ERROR + text)[|MARK_ERROR|..] == text;
  }

  /** Plain lines outside of frames, and END markers without a scan, are ignored. */
  lemma NoiseIsIgnored(d: Decoder, line: string)
    requires !d.inScan && ((Plain(line) && !d.inSockMap) || line == MARK_END)
    ensures Feed(d, line) == (d, None)
  {
    Markers();
  }

  /** The framing round trip. For a READY line with the name of a tool, any frames and any unfinished last frame, the
      decoder announces that tool and the system named, hands on exactly the contents of the frames, in order, drops
      what is unfinished, and ends with the stream. */
  lemma RoundTrip(version: string, tool: string, mode: Mode, os: string, frames: seq<Frame>, tail: Option<Frame>)
    requires Solid(version, IsSpace) && Solid(os, IsSpace)
    requires tool == match mode
                     case SS => ['s', 's'] case Lsof => ['l', 's', 'o', 'f']
                     case Netstat => ['n', 'e', 't', 's', 't', 'a', 't'] case Proc => ['p', 'r', 'o', 'c']
    requires forall f | f in frames :: f.Valid()
    requires tail.Some? ==> tail.value.Valid()
    ensures var lines := [ReadyLine([version, tool, os])] + Concat(frames) + if tail.Some? then tail.value.Opening() else [];
            var (d, stop) := FeedAll(START, lines);
            stop.None? && d.ready && d.readies == [Info(mode, os)] && d.scans == Contents(frames, mode)
  {
    var ready := ReadyLine([version, tool, os]);
    ReadyAnnounces(START, [version, tool, os]);
    hide FeedAll, Feed, ReadyLine;
    var d1 := START.(mode := Some(mode), ready := true, readies := [Info(mode, os)]);
    assert [] + [Info(mode, os)] == [Info(mode, os)];
    OneLine(START, ready);
    FeedAllAppend(START, [ready], Concat(frames));
    FramesDeliver(d1, frames, mode);
    assert [] + Contents(frames, mode) == Contents(frames, mode);
    var lines := [ready] + Concat(frames);
    if tail.Some? {
      FeedAllAppend(START, lines, tail.value.Opening());
      FrameOpens(FeedAll(START, lines).0, tail.value);
    } else {
      assert lines + [] == lines;
    }
  }

  // ---------------------------------------------------------------- independence of the past

  /** Two decoders that will treat the same lines the same. */
  predicate Alike(d: Decoder, e: Decoder) {
    d.mode == e.mode && d.inScan == e.inScan && d.inSockMap == e.inSockMap && d.body == e.body && d.sockMap == e.sockMap
  }

  /** After a SCAN marker all that is left of the past is the mode. */
  lemma ScanForgets(d: Decoder, e: Decoder)
    requires d.mode == e.mode
    ensures Feed(d, MARK_SCAN).1.None? && Feed(e, MARK_SCAN).1.None?
    ensures Alike(Feed(d, MARK_SCAN).0, Feed(e, MARK_SCAN).0)
    ensures Feed(d, MARK_SCAN).0.scans == d.scans && Feed(e, MARK_SCAN).0.scans == e.scans
  {
    Markers();
  }

  lemma AlikeFeed(d: Decoder, e: Decoder, line: string)
    requires Alike(d, e)
    ensures var ((d', s), (e', t)) := (Feed(d, line), Feed(e, line));
            && s == t && Alike(d', e') && d.scans <= d'.scans && e.scans <= e'.scans
            && d'.scans[|d.scans|..] == e'.scans[|e.scans|..]
  {
    hide Announced, TrimSpace;
    if line == MARK_END && d.inScan {
      var scan := Scan(d.mode, d.body, d.sockMap);
      assert (d.scans + [scan])[|d.scans|..] == [scan] && (e.scans + [scan])[|e.scans|..] == [scan];
    } else {
      assert d.scans[|d.scans|..] == e.scans[|e.scans|..];
    }
  }

  /** So what is handed on from a SCAN marker on depends only on the mode and on the lines since:
      any two decoders in the same mode hand on the same scans for the same lines after it. */
  lemma {:induction false} OnlySinceScan(d: Decoder, e: Decoder, lines: seq<string>)
    requires Alike(d, e)
    ensures var ((d', s), (e', t)) := (FeedAll(d, lines), FeedAll(e, lines));
            && s == t && Alike(d', e') && d.scans <= d'.scans && e.scans <= e'.scans
            && d'.scans[|d.scans|..] == e'.scans[|e.scans|..]
    decreases |lines|
  {
    hide Feed, Alike;
    if lines != [] {
      var (d1, s) := Feed(d, lines[0]);
      var (e1, t) := Feed(e, lines[0]);
      AlikeFeed(d, e, lines[0]);
      if s.None? {
        OnlySinceScan(d1, e1, lines[1..]);
        var (d2, s2) := FeedAll(d1, lines[1..]);
        var (e2, t2) := FeedAll(e1, lines[1..]);
        SuffixOfSuffix(d.scans, d1.scans, d2.scans);
        SuffixOfSuffix(e.scans, e1.scans, e2.scans);
      }
    }
  }

  lemma SuffixOfSuffix(a: seq<Scan>, b: seq<Scan>, c: seq<Scan>)
    requires a <= b <= c
    ensures a <= c && c[|a|..] == b[|a|..] + c[|b|..]
  {
    assert c == b + c[|b|..];
  }

  lemma DependsOnlyOnScanAndMode(d: Decoder, e: Decoder, lines: seq<string>)
    requires d.mode == e.mode
    ensures var ((d', s), (e', t)) := (FeedAll(d, [MARK_SCAN] + lines), FeedAll(e, [MARK_SCAN] + lines));
            && s == t && d.scans <= d'.scans && e.scans <= e'.scans
            && d'.scans[|d.scans|..] == e'.scans[|e.scans|..]
  {
    hide Feed, FeedAll;
    FeedAllAppend(d, [MARK_SCAN], lines);
    FeedAllAppend(e, [MARK_SCAN], lines);
    OneLine(d, MARK_SCAN);
    OneLine(e, MARK_SCAN);
    ScanForgets(d, e);
    OnlySinceScan(Feed(d, MARK_SCAN).0, Feed(e, MARK_SCAN).0, lines);
  }
}

/**
 Reject files (tools/patch_applier.py, write_rejects): what they print, and that parsing
 them gives the hunks back. The hunks are those the parser itself yields for a unified diff.
 */
module PatchReject {
  import opened Common
  import opened PatchHunks
  import opened PatchParse
  import opened Text

  /** A line that survives normalisation and line splitting. */
  ghost predicate CleanLine(line: string) {
    BreakFree(line) && NoBreakSpace !in line
  }

  /** The hunks a unified diff yields: every line has its prefix, and the header gives the numbers. */
  ghost predicate UnifiedHunk(h: Hunk) {
    && "@@" <= h.header && CleanLine(h.header) && h.coords == ParseHeader(h.header)
    && (forall i | 0 <= i < |h.lines| :: UnifiedLine(h.lines[i]) && CleanLine(h.lines[i]))
  }

  // ---- The parser yields only such hunks --------------------------------------------

  ghost predicate UnifiedAction(a: Action) {
    a.format == Unified ==> forall i | 0 <= i < |a.hunks| :: UnifiedHunk(a.hunks[i]) && CountsValid(a.hunks[i])
  }

  ghost predicate UnifiedParser(p: Parser) {
    && (forall i | 0 <= i < |p.actions| :: UnifiedAction(p.actions[i]))
    && (p.current.Some? ==> UnifiedAction(p.current.value))
    && (p.current.Some? && p.hunk.Some? && p.current.value.format == Unified ==> UnifiedHunk(p.hunk.value))
  }

  lemma FinishHunkUnified(p: Parser)
    requires UnifiedParser(p) && FinishHunk(p).Ok?
    ensures UnifiedParser(FinishHunk(p).value)
    ensures FinishHunk(p).value.current.Some? == p.current.Some? && FinishHunk(p).value.hunk.None?
  {
    hide UnifiedHunk, CountsValid;
  }

  lemma FinishActionUnified(p: Parser)
    requires UnifiedParser(p) && FinishAction(p).Ok?
    ensures UnifiedParser(FinishAction(p).value)
    ensures FinishAction(p).value.current.None? && (p.hunk.None? ==> FinishAction(p).value.hunk.None?)
  {
    hide UnifiedHunk, CountsValid, FinishHunk;
    if p.current.Some? {
      FinishHunkUnified(p);
      var a := FinishHunk(p).value.current.value;
      assert UnifiedAction(Settled(a));
    }
  }

  lemma BodyLineUnified(p: Parser, line: string)
    requires UnifiedParser(p) && CleanLine(line) && BodyLine(p, line).Ok?
    ensures UnifiedParser(BodyLine(p, line).value)
  {
    hide ParseHeader;
  }

  lemma OpenHunkUnified(p: Parser, line: string)
    requires UnifiedParser(p) && CleanLine(line) && Classify(line) == AtSigns && OpenHunk(p, line).Ok?
    ensures UnifiedParser(OpenHunk(p, line).value)
  {
    hide FinishHunk, ParseHeader;
    FinishHunkUnified(p);
  }

  lemma LineStepUnified(p: Parser, line: string, d: PathDecoder)
    requires UnifiedParser(p) && CleanLine(line) && LineStep(p, line, d).Ok?
    ensures UnifiedParser(LineStep(p, line, d).value)
  {
    hide FinishAction, FinishHunk, BodyLine, OpenHunk, CleanLine, UnifiedHunk, Classify, Strip;
    match Classify(line) {
      case Body => BodyLineUnified(p, line);
      case OldHeader => BodyLineUnified(p, line);
      case AtSigns => if p.current.Some? { OpenHunkUnified(p, line); }
      case NewFileMode => FinishHunkUnified(p);
      case DeletedFileMode => FinishHunkUnified(p);
      case BeginPatch =>
      case _ => FinishActionUnified(p);
    }
  }

  lemma FileHeaderUnified(p: Parser, src: string, tgt: string)
    requires UnifiedParser(p) && FileHeader(p, src, tgt).Ok?
    ensures UnifiedParser(FileHeader(p, src, tgt).value)
  {
    hide FinishAction, FinishHunk, UnifiedHunk;
    FinishHunkUnified(p);
    var q := FinishHunk(p).value;
    if FinishAction(q).Ok? { FinishActionUnified(q); }
  }

  lemma {:induction false} ParseLinesUnified(p: Parser, lines: seq<string>, d: PathDecoder)
    requires UnifiedParser(p) && ParseLines(p, lines, d).Ok?
    requires forall i | 0 <= i < |lines| :: CleanLine(lines[i])
    ensures UnifiedParser(ParseLines(p, lines, d).value)
    decreases |lines|
  {
    hide FileHeader, LineStep, FinishAction, UnifiedParser, HeaderPath, CleanLine;
    if lines == [] {
      FinishActionUnified(p);
    } else if IsFileHeader(p, lines) {
      var src, tgt := HeaderPath(lines[0][4..], d), HeaderPath(lines[1][4..], d);
      FileHeaderUnified(p, src, tgt);
      ParseLinesUnified(FileHeader(p, src, tgt).value, lines[2..], d);
    } else {
      LineStepUnified(p, lines[0], d);
      ParseLinesUnified(LineStep(p, lines[0], d).value, lines[1..], d);
    }
  }

  lemma {:induction false} NormalizeClean(text: string)
    ensures NoBreakSpace !in Normalize(text)
    decreases |text|
  {
    if text != "" {
      if text[0] == '\r' && |text| >= 2 && text[1] == NL {
        NormalizeClean(text[2..]);
      } else {
        NormalizeClean(text[1..]);
      }
    }
  }

  lemma {:induction false} SplitLinesKeepsClean(text: string, c: char)
    requires c !in text
    ensures forall i | 0 <= i < |SplitLines(text)| :: c !in SplitLines(text)[i]
    decreases |text|
  {
    if text != "" {
      if IsBreak(text[0]) {
        SplitLinesKeepsClean(text[BreakLength(text)..], c);
      } else {
        SplitLinesKeepsClean(text[1..], c);
      }
    }
  }

  /** Every hunk of a unified action in a parsed patch is a unified hunk with valid counts. */
  lemma ParsedHunksAreUnified(text: string, d: PathDecoder)
    requires Parse(text, d).Ok?
    ensures forall i | 0 <= i < |Parse(text, d).value| :: UnifiedAction(Parse(text, d).value[i])
  {
    hide UnifiedAction, ParseLines, CleanLine;
    var lines := SplitLines(Normalize(text));
    NormalizeClean(text);
    SplitLinesKeepsClean(Normalize(text), NoBreakSpace);
    SplitLinesBreakFree(Normalize(text));
    forall i | 0 <= i < |lines|
      ensures CleanLine(lines[i])
    {
      LineIsClean(lines[i]);
    }
    ParseLinesUnified(Fresh, lines, d);
  }

  lemma LineIsClean(line: string)
    requires BreakFree(line) && NoBreakSpace !in line
    ensures CleanLine(line)
  {
  }

  // ---- Reject files -----------------------------------------------------------------

  function RejectOf(path: string, h: Hunk): seq<string> {
    ["--- a/" + path, "+++ b/" + path, if h.header == "" then "@@ rejected @@" else h.header] + h.lines
  }

  function RejectLines(path: string, hs: seq<Hunk>): seq<string> {
    if hs == [] then [] else RejectOf(path, hs[0]) + RejectLines(path, hs[1..])
  }

  function RejectText(path: string, hs: seq<Hunk>): string {
    Join(RejectLines(path, hs)) + [NL]
  }

  /** The writing loop. */
  method WriteRejects(path: string, hs: seq<Hunk>) returns (text: string)
    ensures text == RejectText(path, hs)
  {
    hide RejectOf;
    var out: seq<string> := [];
    assert hs[0..] == hs && [] + RejectLines(path, hs) == RejectLines(path, hs);
    for i := 0 to |hs|
      invariant RejectLines(path, hs) == out + RejectLines(path, hs[i..])
    {
      assert hs[i..][0] == hs[i] && hs[i..][1..] == hs[i + 1..];
      var entry := RejectEntry(path, hs[i]);
      ghost var rest := RejectLines(path, hs[i + 1..]);
      assert out + (entry + rest) == out + entry + rest;
      out := out + entry;
    }
    assert out + [] == out;
    text := Join(out) + [NL];
  }

  method RejectEntry(path: string, h: Hunk) returns (entry: seq<string>)
    ensures entry == RejectOf(path, h)
  {
    entry := ["--- a/" + path, "+++ b/" + path];
    var header := if h.header == "" then "@@ rejected @@" else h.header;
    entry := entry + [header] + h.lines;
  }

  /** The no-newline markers are not printed. */
  function Unmarked(h: Hunk): Hunk { h.(oldNoNewline := false, newNoNewline := false) }

  function UnmarkedAll(hs: seq<Hunk>): seq<Hunk> {
    if hs == [] then [] else [Unmarked(hs[0])] + UnmarkedAll(hs[1..])
  }

  /** A path that a file header names unambiguously. */
  ghost predicate OrdinaryPath(path: string) {
    && path != "" && path != "/dev/null" && '\t' !in path && CleanLine(path) && !IsSpace(path[|path| - 1])
  }

  /** A hunk that can be printed and read back. */
  ghost predicate Printable(h: Hunk) {
    UnifiedHunk(h) && Complete(h)
  }

  lemma {:induction false} NoTab(s: string)
    requires '\t' !in s
    ensures BeforeTab(s) == s
  {
    if s != "" {
      NoTab(s[1..]);
      assert s == [s[0]] + s[1..];
    }
  }

  lemma OrdinaryHeaderPath(path: string, side: char, d: PathDecoder)
    requires OrdinaryPath(path) && (side == 'a' || side == 'b')
    ensures HeaderPath([side, '/'] + path, d) == path
  {
    var raw := [side, '/'] + path;
    NoTab(raw);
    assert raw[|raw| - 1] == path[|path| - 1];
    assert Strip(raw) == raw;
    assert raw[2..] == path;
    assert "a/" == ['a', '/'] && "b/" == ['b', '/'];
    assert "a/" <= raw || "b/" <= raw;
  }

  /** A proper prefix of a unified hunk's lines leaves one of the counts short. */
  lemma {:induction false} PrefixShort(pre: seq<string>, rest: seq<string>)
    requires forall i | 0 <= i < |rest| :: UnifiedLine(rest[i])
    ensures |OldSide(pre + rest)| >= |OldSide(pre)| && |NewSide(pre + rest)| >= |NewSide(pre)|
    ensures |OldSide(pre + rest)| + |NewSide(pre + rest)| >= |OldSide(pre)| + |NewSide(pre)| + |rest|
    decreases |rest|
  {
    if rest == [] {
      assert pre + rest == pre;
    } else {
      hide OldSide, NewSide;
      var n := |rest| - 1;
      PrefixShort(pre, rest[..n]);
      LineCounts(rest[n]);
      assert pre + rest == (pre + rest[..n]) + [rest[n]];
      SidesSnoc(pre + rest[..n], rest[n]);
    }
  }

  lemma SidesSnoc(lines: seq<string>, line: string)
    ensures |OldSide(lines + [line])| == |OldSide(lines)| + |OldPart(line)|
    ensures |NewSide(lines + [line])| == |NewSide(lines)| + |NewPart(line)|
  {
    hide OldPart, NewPart;
    assert (lines + [line])[..|lines|] == lines;
  }

  lemma LineCounts(line: string)
    requires UnifiedLine(line)
    ensures |OldPart(line)| + |NewPart(line)| >= 1
  {
  }

  lemma BodyLineStep(p: Parser, line: string, d: PathDecoder)
    requires UnifiedLine(line) && p.current.Some? && p.hunk.Some? && p.current.value.format == Unified
    ensures LineStep(p, line, d) == Ok(p.(hunk := Some(p.hunk.value.(lines := p.hunk.value.lines + [line]))))
  {
    assert Classify(line) == Body || Classify(line) == OldHeader;
    assert NoNewlineMarker[0] == '\\';
  }

  /** While a hunk is short of lines its lines are absorbed, even those that look like file headers. */
  lemma {:induction false} BodyAbsorbed(p: Parser, h: Hunk, rest: seq<string>, tail: seq<string>, d: PathDecoder)
    requires p.current.Some? && p.current.value.format == Unified && p.hunk == Some(h)
    requires forall i | 0 <= i < |rest| :: UnifiedLine(rest[i])
    requires h.coords.Some? && CountsMatch(h.lines + rest, h.coords.value)
    ensures ParseLines(p, rest + tail, d) == ParseLines(p.(hunk := Some(h.(lines := h.lines + rest))), tail, d)
    decreases |rest|
  {
    hide LineStep, FileHeader, FinishAction, HeaderPath, OldSide, NewSide, Classify;
    if rest == [] {
      assert rest + tail == tail && h.lines + rest == h.lines;
    } else {
      PrefixShort(h.lines, rest);
      assert !Complete(h);
      assert (rest + tail)[0] == rest[0] && (rest + tail)[1..] == rest[1..] + tail;
      BodyLineStep(p, rest[0], d);
      var h' := h.(lines := h.lines + [rest[0]]);
      assert h'.lines + rest[1..] == h.lines + rest;
      BodyAbsorbed(p.(hunk := Some(h')), h', rest[1..], tail, d);
    }
  }

  lemma PrefixStart(pre: string, s: string, n: nat)
    requires |pre| >= n
    ensures (pre + s)[n..] == pre[n..] + s
  {
  }

  lemma HeaderLines(path: string)
    ensures var minus, plus := "--- a/" + path, "+++ b/" + path;
            && Classify(minus) == OldHeader && "+++ " <= plus
            && minus[4..] == "a/" + path && plus[4..] == "b/" + path
  {
    PrefixStart("--- a/", path, 4);
    PrefixStart("+++ b/", path, 4);
    assert "--- a/"[4..] == "a/" && "+++ b/"[4..] == "b/";
  }

  /** The parser between two printed hunks: `done` are already part of the one action. */
  ghost predicate Between(p: Parser, path: string, done: seq<Hunk>) {
    && p.actions == [] && p.diffOld.None? && p.diffNew.None?
    && (if p.current.None? then done == [] && p.hunk.None?
        else FinishHunk(p) == Ok(Parser([], Some(Action(Update, path, done, [], true, Unified)), None, None, None)))
    && (p.hunk.Some? ==> Complete(p.hunk.value))
  }

  lemma HeaderJoinsAction(p: Parser, path: string, done: seq<Hunk>)
    requires Between(p, path, done) && path != "" && path != "/dev/null"
    ensures FileHeader(p, path, path)
            == Ok(Parser([], Some(Action(Update, path, done, [], true, Unified)), None, None, None))
  {
  }

  /** One printed hunk is read back without its markers. */
  lemma OneHunkRead(p: Parser, path: string, done: seq<Hunk>, h: Hunk, tail: seq<string>, d: PathDecoder)
    requires Between(p, path, done) && OrdinaryPath(path) && Printable(h)
    ensures var q := Parser([], Some(Action(Update, path, done, [], true, Unified)), Some(Unmarked(h)), None, None);
            Between(q, path, done + [Unmarked(h)])
            && ParseLines(p, RejectOf(path, h) + tail, d) == ParseLines(q, tail, d)
  {
    hide FileHeader, LineStep, HeaderPath, FinishAction, OldSide, NewSide, OrdinaryPath, Classify;
    var lines := RejectOf(path, h) + tail;
    HeaderLines(path);
    OrdinaryHeaderPath(path, 'a', d);
    OrdinaryHeaderPath(path, 'b', d);
    assert "a/" + path == ['a', '/'] + path && "b/" + path == ['b', '/'] + path;
    OrdinaryNames(path);
    HeaderJoinsAction(p, path, done);
    assert IsFileHeader(p, lines);
    var q0 := Parser([], Some(Action(Update, path, done, [], true, Unified)), None, None, None);
    var rest := [h.header] + h.lines + tail;
    assert lines[2..] == rest;
    assert ParseLines(p, lines, d) == ParseLines(q0, rest, d);
    HunkHeaderRead(q0, h, d);
    var h0 := Hunk(h.header, [], h.coords, false, false);
    assert rest[1..] == h.lines + tail;
    assert ParseLines(q0, rest, d) == ParseLines(q0.(hunk := Some(h0)), h.lines + tail, d);
    assert [] + h.lines == h.lines;
    BodyAbsorbed(q0.(hunk := Some(h0)), h0, h.lines, tail, d);
  }

  lemma OrdinaryNames(path: string)
    requires OrdinaryPath(path)
    ensures path != "" && path != "/dev/null"
  {
  }

  lemma HunkHeaderRead(q: Parser, h: Hunk, d: PathDecoder)
    requires q.current.Some? && q.hunk.None? && Printable(h)
    ensures Classify(h.header) == AtSigns
    ensures LineStep(q, h.header, d) == Ok(q.(hunk := Some(Hunk(h.header, [], h.coords, false, false))))
  {
    assert h.header[0] == '@';
  }

  lemma {:induction false} RejectsRead(p: Parser, path: string, done: seq<Hunk>, hs: seq<Hunk>, d: PathDecoder)
    requires Between(p, path, done) && OrdinaryPath(path)
    requires forall i | 0 <= i < |hs| :: Printable(hs[i])
    requires done + UnmarkedAll(hs) != []
    ensures var r := ParseLines(p, RejectLines(path, hs), d);
            r.Ok? && r.value.actions == [Action(Update, path, done + UnmarkedAll(hs), [], true, Unified)]
    decreases |hs|
  {
    hide OrdinaryPath, Printable;
    if hs == [] {
      assert done + UnmarkedAll(hs) == done;
      assert ParseLines(p, [], d) == FinishAction(p);
    } else {
      var h := hs[0];
      var q := Parser([], Some(Action(Update, path, done, [], true, Unified)), Some(Unmarked(h)), None, None);
      OneHunkRead(p, path, done, h, RejectLines(path, hs[1..]), d);
      assert done + UnmarkedAll(hs) == done + [Unmarked(h)] + UnmarkedAll(hs[1..]);
      RejectsRead(q, path, done + [Unmarked(h)], hs[1..], d);
    }
  }

  // ---- From lines to text -----------------------------------------------------------

  lemma {:induction false} NormalizeIdle(text: string)
    requires '\r' !in text && NoBreakSpace !in text
    ensures Normalize(text) == text
  {
    if text != "" {
      NormalizeIdle(text[1..]);
      assert text == [text[0]] + text[1..];
    }
  }

  lemma {:induction false} JoinWithout(lines: seq<string>, c: char)
    requires c != NL && forall i | 0 <= i < |lines| :: c !in lines[i]
    ensures c !in Join(lines)
  {
    if |lines| > 1 {
      JoinWithout(lines[1..], c);
    }
  }

  lemma {:induction false} RejectLinesClean(path: string, hs: seq<Hunk>)
    requires OrdinaryPath(path) && forall i | 0 <= i < |hs| :: Printable(hs[i])
    ensures forall i | 0 <= i < |RejectLines(path, hs)| :: CleanLine(RejectLines(path, hs)[i])
    ensures hs != [] ==> RejectLines(path, hs) != []
  {
    if hs != [] {
      RejectLinesClean(path, hs[1..]);
      assert CleanLine("--- a/" + path) && CleanLine("+++ b/" + path);
      assert forall i | 0 <= i < |RejectOf(path, hs[0])| :: CleanLine(RejectOf(path, hs[0])[i]);
    }
  }

  /**
   Printing unified hunks of one ordinary path and parsing the text gives one UPDATE of
   that path with the same hunks, up to the no-newline markers, which are not printed.
   */
  lemma RejectRoundTrip(path: string, hs: seq<Hunk>, d: PathDecoder)
    requires hs != [] && OrdinaryPath(path)
    requires forall i | 0 <= i < |hs| :: Printable(hs[i])
    ensures Parse(RejectText(path, hs), d) == Ok([Action(Update, path, UnmarkedAll(hs), [], true, Unified)])
  {
    hide ParseLines, RejectLines, OrdinaryPath, Printable, Normalize;
    var lines := RejectLines(path, hs);
    RejectLinesClean(path, hs);
    JoinWithout(lines, '\r');
    JoinWithout(lines, NoBreakSpace);
    NormalizeIdle(RejectText(path, hs));
    SplitLinesJoin(lines);
    RejectsRead(Fresh, path, [], hs, d);
    assert [] + UnmarkedAll(hs) == UnmarkedAll(hs);
  }

  lemma {:induction false} UnmarkedExact(hs: seq<Hunk>)
    ensures UnmarkedAll(hs) == hs <==> forall i | 0 <= i < |hs| :: Markerless(hs[i])
    ensures |UnmarkedAll(hs)| == |hs|
  {
    if hs != [] {
      UnmarkedExact(hs[1..]);
      assert UnmarkedAll(hs)[1..] == UnmarkedAll(hs[1..]);
      assert hs == [hs[0]] + hs[1..];
    }
  }

  /** The hunks come back exactly when none carries a no-newline marker. */
  lemma RejectRoundTripExact(path: string, hs: seq<Hunk>, d: PathDecoder)
    requires hs != [] && OrdinaryPath(path)
    requires forall i | 0 <= i < |hs| :: Printable(hs[i])
    ensures Parse(RejectText(path, hs), d) == Ok([Action(Update, path, hs, [], true, Unified)])
            <==> forall i | 0 <= i < |hs| :: Markerless(hs[i])
  {
    hide *;
    RejectRoundTrip(path, hs, d);
    UnmarkedExact(hs);
  }

  // ---- A marker is lost -------------------------------------------------------------

  lemma {:induction false} DecimalClean(n: nat)
    ensures CleanLine(Decimal(n))
  {
    if n >= 10 { DecimalClean(n / 10); }
  }

  lemma HeaderClean(c: Coords)
    ensures CleanLine(HeaderText(c)) && "@@" <= HeaderText(c)
  {
    hide Decimal;
    DecimalClean(c.oldStart);
    DecimalClean(c.oldCount);
    DecimalClean(c.newStart);
    DecimalClean(c.newCount);
  }

  /** A hunk that ends a file without a newline. */
  const MarkerHunk := Hunk(HeaderText(Coords(1, 1, 1, 1)), ["-a", "+b"], Some(Coords(1, 1, 1, 1)), false, true)

  lemma MarkerHunkPrintable()
    ensures Printable(MarkerHunk) && OrdinaryPath("f")
  {
    hide ParseHeader, HeaderText;
    var c := Coords(1, 1, 1, 1);
    assert HeaderText(c) + "" == HeaderText(c);
    HeaderRead(c, "");
    HeaderClean(c);
    assert ["-a", "+b"][..1] == ["-a"] && ["-a"][..0] == [];
    assert OldSide(["-a"]) == ["a"] && NewSide(["-a"]) == [];
  }

  /** It comes back from its reject file without the marker. */
  lemma MarkerRejectExample(d: PathDecoder)
    ensures Printable(MarkerHunk) && MarkerHunk.newNoNewline
    ensures Parse(RejectText("f", [MarkerHunk]), d)
            == Ok([Action(Update, "f", [MarkerHunk.(newNoNewline := false)], [], true, Unified)])
  {
    hide ParseHeader, HeaderText, Parse, RejectText, Printable, OrdinaryPath;
    MarkerHunkPrintable();
    RejectRoundTrip("f", [MarkerHunk], d);
    assert UnmarkedAll([MarkerHunk]) == [Unmarked(MarkerHunk)];
  }
}

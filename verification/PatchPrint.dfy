/**
 Writing patches in the two formats that are read (tools/patch_applier.py, parse_patch), and that reading
 what was written gives back exactly the actions it was written from.
 */
module PatchPrint {
  import opened Common
  import opened PatchHunks
  import opened PatchParse
  import opened PatchReject
  import opened Text

  // ---- The writer -------------------------------------------------------------------

  const Marker := "\\ No newline at end of file"

  predicate OnOldSide(line: string) { line != "" && line[0] in {' ', '-'} }

  predicate OnNewSide(line: string) { line != "" && line[0] in {' ', '+'} }

  /** The lines of a hunk; a marker follows the last line of a side whose text does not end with a newline. */
  function BodyText(lines: seq<string>, oldMark: bool, newMark: bool): seq<string> {
    if lines == [] then []
    else
      var last := lines[|lines| - 1];
      var marked := (oldMark && OnOldSide(last)) || (newMark && OnNewSide(last));
      BodyText(lines[..|lines| - 1], oldMark && !OnOldSide(last), newMark && !OnNewSide(last))
      + [last] + if marked then [Marker] else []
  }

  function HunkText(h: Hunk): seq<string> { [h.header] + BodyText(h.lines, h.oldNoNewline, h.newNoNewline) }

  function HunksText(hs: seq<Hunk>): seq<string> {
    if hs == [] then [] else HunkText(hs[0]) + HunksText(hs[1..])
  }

  function AddedBody(lines: seq<string>): seq<string> {
    if lines == [] then [] else ["+" + lines[0]] + AddedBody(lines[1..])
  }

  function CustomText(a: Action): seq<string> {
    match a.kind
    case Add =>
      ["*** Add File: " + a.path] + AddedBody(a.addLines) + if a.addFinalNewline then [] else [Marker]
    case Update => ["*** Update File: " + a.path] + HunksText(a.hunks)
    case Delete => ["*** Delete File: " + a.path] + HunksText(a.hunks)
  }

  function OldName(a: Action): string { if a.kind == Add then "--- /dev/null" else "--- a/" + a.path }

  function NewName(a: Action): string { if a.kind == Delete then "+++ /dev/null" else "+++ b/" + a.path }

  function UnifiedText(a: Action): seq<string> { [OldName(a), NewName(a)] + HunksText(a.hunks) }

  function ActionText(a: Action): seq<string> {
    if a.format == Unified then UnifiedText(a)
    else ["*** Begin Patch"] + CustomText(a) + ["*** End Patch"]
  }

  function ActionsText(actions: seq<Action>): seq<string> {
    if actions == [] then [] else ActionText(actions[0]) + ActionsText(actions[1..])
  }

  function PatchText(actions: seq<Action>): string { Join(ActionsText(actions)) + [NL] }

  // ---- What can be written ----------------------------------------------------------

  /** The markers asked for have a line to follow, and a context line carries both or none. */
  predicate MarksFit(lines: seq<string>, oldMark: bool, newMark: bool, both: bool) {
    if lines == [] then !oldMark && !newMark
    else
      var last := lines[|lines| - 1];
      && (OnOldSide(last) && OnNewSide(last) && (oldMark || newMark) ==> both)
      && MarksFit(lines[..|lines| - 1], oldMark && !OnOldSide(last), newMark && !OnNewSide(last), both)
  }

  ghost predicate WritableHunk(h: Hunk) {
    && CleanLine(h.header)
    && (h.coords.Some? ==> HeaderText(h.coords.value) <= h.header && CountsMatch(h.lines, h.coords.value))
    && (h.coords.None? ==> h.header == "@@")
    && (forall i | 0 <= i < |h.lines| :: CleanLine(h.lines[i]) && (OnOldSide(h.lines[i]) || OnNewSide(h.lines[i])))
    && MarksFit(h.lines, h.oldNoNewline, h.newNoNewline, h.oldNoNewline && h.newNoNewline)
  }

  function NewLines(hs: seq<Hunk>): seq<string> {
    if hs == [] then [] else NewSide(hs[0].lines) + NewLines(hs[1..])
  }

  /**
   A custom ADD gives its lines, every other action its hunks. A unified ADD has the lines of the new sides
   as well, and ends with a newline unless a hunk says that it does not.
   */
  ghost predicate WritableAction(a: Action) {
    && OrdinaryPath(a.path) && !IsSpace(a.path[0])
    && (forall i | 0 <= i < |a.hunks| :: WritableHunk(a.hunks[i]) && (a.format == Unified ==> a.hunks[i].coords.Some?))
    && (a.kind == Update ==> a.hunks != [])
    && (a.kind != Add ==> a.addLines == [] && a.addFinalNewline)
    && (a.kind == Add && a.format == Custom ==>
          a.hunks == [] && forall i | 0 <= i < |a.addLines| :: CleanLine(a.addLines[i]))
    && (a.kind == Add && a.format == Unified ==>
          && a.addLines == NewLines(a.hunks)
          && (a.addFinalNewline <==> forall i | 0 <= i < |a.hunks| :: !a.hunks[i].newNoNewline))
  }

  /** A second unified header for the same path would continue its action. */
  predicate Separated(actions: seq<Action>) {
    forall i | 0 < i < |actions| && actions[i].format == Unified && actions[i - 1].format == Unified ::
      actions[i].path != actions[i - 1].path
  }

  // ---- Reading hunks ----------------------------------------------------------------

  /** The parser is inside an action; closing the current hunk gives `a`. */
  ghost predicate Inside(p: Parser, done: seq<Action>, a: Action) {
    p.current.Some? && FinishHunk(p) == Ok(Parser(done, Some(a), None, None, None))
  }

  lemma LineAppended(p: Parser, line: string, d: PathDecoder)
    requires p.current.Some? && p.hunk.Some? && (OnOldSide(line) || OnNewSide(line))
    ensures LineStep(p, line, d) == Ok(p.(hunk := Some(p.hunk.value.(lines := p.hunk.value.lines + [line]))))
  {
    assert Classify(line) == Body || Classify(line) == OldHeader;
    assert NoNewlineMarker[0] == '\\';
  }

  lemma MarkerSets(p: Parser, line: string, d: PathDecoder)
    requires p.current.Some? && p.hunk.Some? && p.hunk.value.lines != []
    requires line == p.hunk.value.lines[|p.hunk.value.lines| - 1] && (OnOldSide(line) || OnNewSide(line))
    ensures Classify(Marker) == Body
    ensures var h := p.hunk.value;
            LineStep(p, Marker, d) == Ok(p.(hunk := Some(h.(oldNoNewline := h.oldNoNewline || OnOldSide(line),
                                                            newNoNewline := h.newNoNewline || OnNewSide(line)))))
  {
    assert Marker[0] == '\\';
    assert Classify(Marker) == Body;
  }

  lemma MarkerRead(p: Parser, line: string, tail: seq<string>, d: PathDecoder)
    requires p.current.Some? && p.hunk.Some? && p.hunk.value.lines != []
    requires line == p.hunk.value.lines[|p.hunk.value.lines| - 1] && (OnOldSide(line) || OnNewSide(line))
    ensures var h := p.hunk.value;
            ParseLines(p, [Marker] + tail, d)
            == ParseLines(p.(hunk := Some(h.(oldNoNewline := h.oldNoNewline || OnOldSide(line),
                                             newNoNewline := h.newNoNewline || OnNewSide(line)))), tail, d)
  {
    hide LineStep, ParseLines, Classify;
    MarkerSets(p, line, d);
    var h := p.hunk.value;
    var h' := h.(oldNoNewline := h.oldNoNewline || OnOldSide(line), newNoNewline := h.newNoNewline || OnNewSide(line));
    assert ([Marker] + tail)[1..] == tail;
    PlainStep(p, [Marker] + tail, d, p.(hunk := Some(h')));
  }

  lemma PlainStep(p: Parser, lines: seq<string>, d: PathDecoder, q: Parser)
    requires lines != [] && LineStep(p, lines[0], d) == Ok(q) && !IsFileHeader(p, lines)
    ensures ParseLines(p, lines, d) == ParseLines(q, lines[1..], d)
  {
  }

  lemma IncompleteHunk(h: Hunk, rest: seq<string>)
    requires rest != [] && (forall i | 0 <= i < |rest| :: OnOldSide(rest[i]) || OnNewSide(rest[i]))
    requires h.coords.Some? ==> CountsMatch(h.lines + rest, h.coords.value)
    ensures !Complete(h)
  {
    if h.coords.Some? {
      PrefixShort(h.lines, rest);
      hide OldSide, NewSide;
    }
  }

  /** The last line of the body read so far, and its marker. */
  lemma LastLineRead(p: Parser, h: Hunk, last: string, rest: seq<string>, marked: bool, tail: seq<string>,
                     d: PathDecoder)
    requires p.current.Some? && p.hunk == Some(h) && (OnOldSide(last) || OnNewSide(last))
    requires forall i | 0 <= i < |rest| :: OnOldSide(rest[i]) || OnNewSide(rest[i])
    requires h.coords.Some? ==> CountsMatch(h.lines + [last] + rest, h.coords.value)
    ensures var h' := h.(lines := h.lines + [last], oldNoNewline := h.oldNoNewline || (marked && OnOldSide(last)),
                         newNoNewline := h.newNoNewline || (marked && OnNewSide(last)));
            ParseLines(p, [last] + (if marked then [Marker] else []) + tail, d)
            == ParseLines(p.(hunk := Some(h')), tail, d)
  {
    hide LineStep, ParseLines, OldSide, NewSide, Complete, Classify, CountsMatch;
    var lines := [last] + (if marked then [Marker] else []) + tail;
    assert h.lines + ([last] + rest) == h.lines + [last] + rest;
    IncompleteHunk(h, [last] + rest);
    LineAppended(p, last, d);
    var h1 := h.(lines := h.lines + [last]);
    var q := p.(hunk := Some(h1));
    PlainStep(p, lines, d, q);
    if marked {
      assert lines[1..] == [Marker] + tail;
      MarkerRead(q, last, tail, d);
    } else {
      assert lines[1..] == tail;
    }
  }

  lemma NoBody(oldMark: bool, newMark: bool)
    ensures BodyText([], oldMark, newMark) == []
  {
  }

  lemma BodySnoc(lines: seq<string>, oldMark: bool, newMark: bool, tail: seq<string>)
    requires lines != []
    ensures var n := |lines| - 1;
            var marked := (oldMark && OnOldSide(lines[n])) || (newMark && OnNewSide(lines[n]));
            BodyText(lines, oldMark, newMark) + tail
            == BodyText(lines[..n], oldMark && !OnOldSide(lines[n]), newMark && !OnNewSide(lines[n]))
               + ([lines[n]] + (if marked then [Marker] else []) + tail)
  {
    hide OnOldSide, OnNewSide;
  }

  /** The body of a hunk is read line by line, even lines that look like file headers. */
  lemma {:induction false} BodyRead(p: Parser, h: Hunk, lines: seq<string>, rest: seq<string>, oldMark: bool,
                                    newMark: bool, both: bool, tail: seq<string>, d: PathDecoder)
    returns (oldRead: bool, newRead: bool)
    requires p.current.Some? && p.hunk == Some(h) && h.lines == [] && Markerless(h)
    requires forall i | 0 <= i < |lines| :: OnOldSide(lines[i]) || OnNewSide(lines[i])
    requires forall i | 0 <= i < |rest| :: OnOldSide(rest[i]) || OnNewSide(rest[i])
    requires h.coords.Some? ==> CountsMatch(lines + rest, h.coords.value)
    requires MarksFit(lines, oldMark, newMark, both)
    ensures (oldMark ==> oldRead) && (newMark ==> newRead)
    ensures (oldRead ==> oldMark || both) && (newRead ==> newMark || both)
    ensures ParseLines(p, BodyText(lines, oldMark, newMark) + tail, d)
            == ParseLines(p.(hunk := Some(h.(lines := lines, oldNoNewline := oldRead, newNoNewline := newRead))),
                          tail, d)
    decreases |lines|
  {
    hide ParseLines, CountsMatch, OldSide, NewSide, OnOldSide, OnNewSide, BodyText;
    if lines == [] {
      NoBody(oldMark, newMark);
      assert BodyText(lines, oldMark, newMark) + tail == tail;
      oldRead, newRead := false, false;
      assert h == h.(lines := lines, oldNoNewline := oldRead, newNoNewline := newRead);
    } else {
      var n := |lines| - 1;
      var last := lines[n];
      var marked := (oldMark && OnOldSide(last)) || (newMark && OnNewSide(last));
      var end := [last] + (if marked then [Marker] else []);
      var o, m := oldMark && !OnOldSide(last), newMark && !OnNewSide(last);
      assert lines[..n] + ([last] + rest) == lines + rest && lines[..n] + [last] == lines;
      BodySnoc(lines, oldMark, newMark, tail);
      oldRead, newRead := BodyRead(p, h, lines[..n], [last] + rest, o, m, both, end + tail, d);
      var h' := h.(lines := lines[..n], oldNoNewline := oldRead, newNoNewline := newRead);
      LastLineRead(p.(hunk := Some(h')), h', last, rest, marked, tail, d);
      oldRead, newRead := oldRead || (marked && OnOldSide(last)), newRead || (marked && OnNewSide(last));
    }
  }

  lemma HeaderNumbers(h: Hunk)
    requires WritableHunk(h)
    ensures "@@" <= h.header && ParseHeader(h.header) == h.coords && Classify(h.header) == AtSigns
  {
    hide MarksFit, OldSide, NewSide, HeaderText, CleanLine;
    if h.coords.Some? {
      hide ParseHeader;
      var text := HeaderText(h.coords.value);
      HeaderRead(h.coords.value, h.header[|text|..]);
      HeaderClean(h.coords.value);
      assert h.header == text + h.header[|text|..];
    } else {
      assert "@@"[2..] == "";
    }
    assert h.header[0] == '@';
  }

  lemma HeaderOpens(p: Parser, done: seq<Action>, a: Action, h: Hunk, d: PathDecoder)
    requires Inside(p, done, a) && WritableHunk(h)
    ensures Classify(h.header) == AtSigns
    ensures LineStep(p, h.header, d)
            == Ok(Parser(done, Some(a), Some(Hunk(h.header, [], h.coords, false, false)), None, None))
  {
    HeaderNumbers(h);
    hide Classify, ParseHeader, WritableHunk, FinishHunk;
  }

  /** One hunk is read as it was written, markers included. */
  lemma OneHunk(p: Parser, done: seq<Action>, a: Action, h: Hunk, tail: seq<string>, d: PathDecoder)
    requires Inside(p, done, a) && WritableHunk(h)
    ensures var q := Parser(done, Some(a), Some(h), None, None);
            && Inside(q, done, a.(hunks := a.hunks + [h]))
            && ParseLines(p, HunkText(h) + tail, d) == ParseLines(q, tail, d)
  {
    HeaderOpens(p, done, a, h, d);
    var body := BodyText(h.lines, h.oldNoNewline, h.newNoNewline);
    var h0 := Hunk(h.header, [], h.coords, false, false);
    var q0 := Parser(done, Some(a), Some(h0), None, None);
    var lines := HunkText(h) + tail;
    assert lines[0] == h.header && lines[1..] == body + tail;
    assert h.lines + [] == h.lines;
    hide ParseLines, LineStep, Classify, HeaderText, BodyText, MarksFit, OldSide, NewSide;
    PlainStep(p, lines, d, q0);
    var both := h.oldNoNewline && h.newNoNewline;
    var o, n := BodyRead(q0, h0, h.lines, [], h.oldNoNewline, h.newNoNewline, both, tail, d);
    assert h == h0.(lines := h.lines, oldNoNewline := o, newNoNewline := n);
  }

  /** All hunks of an action, one after the other. */
  lemma {:induction false} HunksRead(p: Parser, done: seq<Action>, a: Action, hs: seq<Hunk>, tail: seq<string>,
                                     d: PathDecoder) returns (q: Parser)
    requires Inside(p, done, a) && forall i | 0 <= i < |hs| :: WritableHunk(hs[i])
    ensures Inside(q, done, a.(hunks := a.hunks + hs))
    ensures q.hunk == (if hs == [] then p.hunk else Some(hs[|hs| - 1]))
    ensures q.current.value.path == p.current.value.path
    ensures ParseLines(p, HunksText(hs) + tail, d) == ParseLines(q, tail, d)
    decreases |hs|
  {
    hide ParseLines, WritableHunk, HunkText;
    if hs == [] {
      assert HunksText(hs) + tail == tail && a.hunks + hs == a.hunks;
      q := p;
    } else {
      var a' := a.(hunks := a.hunks + [hs[0]]);
      assert HunksText(hs) + tail == HunkText(hs[0]) + (HunksText(hs[1..]) + tail);
      OneHunk(p, done, a, hs[0], HunksText(hs[1..]) + tail, d);
      assert a.path == p.current.value.path;
      q := HunksRead(Parser(done, Some(a), Some(hs[0]), None, None), done, a', hs[1..], tail, d);
      assert a'.hunks + hs[1..] == a.hunks + hs;
    }
  }

  // ---- Reading actions --------------------------------------------------------------

  /** Nothing is open, or only a unified action of the path, whose end completes `done`. */
  ghost predicate Boundary(p: Parser, done: seq<Action>, open: Option<string>) {
    && FinishAction(p) == Ok(Parser(done, None, None, None, None))
    && (open.None? ==> p.current.None?)
    && (open.Some? ==> p.current.Some? && p.current.value.path == open.value && FinishHunk(p).Ok?)
    && (p.hunk.Some? ==> Complete(p.hunk.value))
  }

  lemma StripPath(path: string)
    requires path != "" && !IsSpace(path[0]) && !IsSpace(path[|path| - 1])
    ensures Strip(" " + path) == path
  {
    assert (" " + path)[1..] == path;
    assert LStrip(path) == path;
  }

  lemma CustomHeader(name: string, path: string)
    requires name in {"*** Add File:", "*** Update File:", "*** Delete File:"}
    requires path != "" && !IsSpace(path[0]) && !IsSpace(path[|path| - 1])
    ensures var line := name + " " + path;
            && Strip(line[|name|..]) == path
            && Classify(line) == if name == "*** Add File:" then AddFile
                                 else if name == "*** Update File:" then UpdateFile else DeleteFile
  {
    var line := name + " " + path;
    assert line[|name|..] == " " + path;
    StripPath(path);
    hide Strip;
    assert name <= line && line[4] == name[4];
    assert "*** Add File:"[4] == 'A' && "*** Update File:"[4] == 'U' && "*** Delete File:"[4] == 'D';
    assert "*** Begin Patch"[4] == 'B' && "*** End Patch"[4] == 'E';
  }

  function CustomName(kind: ActionKind): string {
    match kind
    case Add => "*** Add File:"
    case Update => "*** Update File:"
    case Delete => "*** Delete File:"
  }

  /** The opening lines of a custom action. */
  lemma CustomOpens(p: Parser, done: seq<Action>, open: Option<string>, kind: ActionKind, path: string,
                    tail: seq<string>, d: PathDecoder)
    requires Boundary(p, done, open) && path != "" && !IsSpace(path[0]) && !IsSpace(path[|path| - 1])
    ensures ParseLines(p, ["*** Begin Patch", CustomName(kind) + " " + path] + tail, d)
            == ParseLines(Parser(done, Some(Bare(kind, path, Custom)), None, None, None), tail, d)
  {
    var line := CustomName(kind) + " " + path;
    var lines := ["*** Begin Patch", line] + tail;
    assert "*** Begin Patch"[0] == '*' && Classify("*** Begin Patch") == BeginPatch;
    CustomHeader(CustomName(kind), path);
    hide Strip, Classify, FinishAction, FinishHunk, ParseLines;
    PlainStep(p, lines, d, p);
    assert lines[1..] == [line] + tail && ([line] + tail)[1..] == tail;
    PlainStep(p, [line] + tail, d, Parser(done, Some(Bare(kind, path, Custom)), None, None, None));
  }

  lemma AddLineStep(p: Parser, a: Action, line: string, d: PathDecoder)
    requires p.current == Some(a) && p.hunk.None? && a.kind == Add && a.format == Custom
    ensures Classify("+" + line) == Body
    ensures LineStep(p, "+" + line, d) == Ok(p.(current := Some(a.(addLines := a.addLines + [line]))))
  {
    assert ("+" + line)[0] == '+' && ("+" + line)[1..] == line;
  }

  /** The lines of a new file. */
  lemma {:induction false} AddedRead(p: Parser, a: Action, lines: seq<string>, tail: seq<string>, d: PathDecoder)
    requires p.current == Some(a) && p.hunk.None? && a.kind == Add && a.format == Custom
    ensures ParseLines(p, AddedBody(lines) + tail, d)
            == ParseLines(p.(current := Some(a.(addLines := a.addLines + lines))), tail, d)
    decreases |lines|
  {
    hide ParseLines, LineStep, Classify;
    if lines == [] {
      assert AddedBody(lines) + tail == tail && a.addLines + lines == a.addLines;
      assert p == p.(current := Some(a.(addLines := a.addLines + lines)));
    } else {
      var line, rest := "+" + lines[0], AddedBody(lines[1..]) + tail;
      var a' := a.(addLines := a.addLines + [lines[0]]);
      assert AddedBody(lines) + tail == [line] + rest && ([line] + rest)[1..] == rest;
      AddLineStep(p, a, lines[0], d);
      PlainStep(p, [line] + rest, d, p.(current := Some(a')));
      AddedRead(p.(current := Some(a')), a', lines[1..], tail, d);
      assert a'.addLines + lines[1..] == a.addLines + lines;
    }
  }

  lemma AddMarkerRead(p: Parser, a: Action, tail: seq<string>, d: PathDecoder)
    requires p.current == Some(a) && p.hunk.None? && a.kind == Add && a.format == Custom
    ensures ParseLines(p, [Marker] + tail, d)
            == ParseLines(p.(current := Some(a.(addFinalNewline := false))), tail, d)
  {
    assert Marker[0] == '\\' && Classify(Marker) == Body;
    assert ([Marker] + tail)[1..] == tail;
    hide Classify, ParseLines;
    PlainStep(p, [Marker] + tail, d, p.(current := Some(a.(addFinalNewline := false))));
  }

  /** The closing line of a custom action. */
  lemma CustomCloses(p: Parser, done: seq<Action>, a: Action, tail: seq<string>, d: PathDecoder)
    requires Inside(p, done, a) && (a.kind == Update ==> a.hunks != []) && a.format == Custom
    requires a.kind == Add ==> a.hunks == []
    ensures ParseLines(p, ["*** End Patch"] + tail, d)
            == ParseLines(Parser(done + [a], None, None, None, None), tail, d)
  {
    assert "*** End Patch"[0] == '*' && "*** End Patch"[4] == 'E' && "*** Begin Patch"[4] == 'B';
    assert Classify("*** End Patch") == EndPatch;
    assert (["*** End Patch"] + tail)[1..] == tail;
    assert p.actions == done;
    hide Classify, ParseLines, FinishHunk;
    PlainStep(p, ["*** End Patch"] + tail, d, Parser(done + [a], None, None, None, None));
  }

  lemma PathParts(a: Action)
    requires WritableAction(a)
    ensures a.path != "" && !IsSpace(a.path[0]) && !IsSpace(a.path[|a.path| - 1]) && OrdinaryPath(a.path)
  {
  }

  /** What follows the opening lines of a custom action. */
  function CustomBody(a: Action): seq<string> {
    if a.kind == Add then AddedBody(a.addLines) + if a.addFinalNewline then [] else [Marker] else HunksText(a.hunks)
  }

  lemma CustomLines(a: Action, tail: seq<string>)
    requires a.format == Custom
    ensures ActionText(a) + tail
            == ["*** Begin Patch", CustomName(a.kind) + " " + a.path] + (CustomBody(a) + (["*** End Patch"] + tail))
  {
    SpacedName(a.kind, a.path);
    hide CustomName, AddedBody, HunksText;
    var begin, name, end := ["*** Begin Patch"], CustomName(a.kind) + " " + a.path, ["*** End Patch"];
    assert CustomText(a) == [name] + CustomBody(a);
    hide CustomText, CustomBody;
    assert begin + [name] == ["*** Begin Patch", name];
    assert begin + ([name] + CustomBody(a)) + end + tail == begin + [name] + (CustomBody(a) + (end + tail));
  }

  lemma CustomRead(p: Parser, done: seq<Action>, open: Option<string>, a: Action, tail: seq<string>, d: PathDecoder)
    requires Boundary(p, done, open) && WritableAction(a) && a.format == Custom
    ensures ParseLines(p, ActionText(a) + tail, d) == ParseLines(Parser(done + [a], None, None, None, None), tail, d)
  {
    CustomBodyRead(done, a, tail, d);
    hide *;
    PathParts(a);
    CustomLines(a, tail);
    CustomOpens(p, done, open, a.kind, a.path, CustomBody(a) + (["*** End Patch"] + tail), d);
  }

  lemma CustomBodyRead(done: seq<Action>, a: Action, tail: seq<string>, d: PathDecoder)
    requires WritableAction(a) && a.format == Custom
    ensures ParseLines(Parser(done, Some(Bare(a.kind, a.path, Custom)), None, None, None),
                       CustomBody(a) + (["*** End Patch"] + tail), d)
            == ParseLines(Parser(done + [a], None, None, None, None), tail, d)
  {
    hide ParseLines, HunksText, AddedBody, WritableHunk, CleanLine, IsSpace, OrdinaryPath;
    if a.kind == Add {
      var mark := if a.addFinalNewline then [] else [Marker];
      assert AddedBody(a.addLines) + mark + (["*** End Patch"] + tail)
             == AddedBody(a.addLines) + (mark + (["*** End Patch"] + tail));
      AddBodyRead(done, a, tail, d);
    } else {
      HunkBodyRead(done, a, tail, d);
    }
  }

  lemma AddBodyRead(done: seq<Action>, a: Action, tail: seq<string>, d: PathDecoder)
    requires a.kind == Add && a.format == Custom && a.hunks == []
    ensures var q := Parser(done, Some(Bare(Add, a.path, Custom)), None, None, None);
            var body := AddedBody(a.addLines)
                        + ((if a.addFinalNewline then [] else [Marker]) + (["*** End Patch"] + tail));
            ParseLines(q, body, d) == ParseLines(Parser(done + [a], None, None, None, None), tail, d)
  {
    hide ParseLines, AddedBody;
    var end := ["*** End Patch"] + tail;
    var mark := if a.addFinalNewline then [] else [Marker];
    var q := Parser(done, Some(Bare(Add, a.path, Custom)), None, None, None);
    AddedRead(q, q.current.value, a.addLines, mark + end, d);
    assert [] + a.addLines == a.addLines;
    var b := a.(addFinalNewline := true);
    if a.addFinalNewline {
      assert mark + end == end && b == a;
    } else {
      AddMarkerRead(q.(current := Some(b)), b, end, d);
    }
    CustomCloses(q.(current := Some(a)), done, a, tail, d);
  }

  lemma HunkBodyRead(done: seq<Action>, a: Action, tail: seq<string>, d: PathDecoder)
    requires a.kind != Add && a.format == Custom && a.addLines == [] && a.addFinalNewline
    requires (a.kind == Update ==> a.hunks != []) && forall i | 0 <= i < |a.hunks| :: WritableHunk(a.hunks[i])
    ensures var q := Parser(done, Some(Bare(a.kind, a.path, Custom)), None, None, None);
            ParseLines(q, HunksText(a.hunks) + (["*** End Patch"] + tail), d)
            == ParseLines(Parser(done + [a], None, None, None, None), tail, d)
  {
    hide ParseLines, HunksText, WritableHunk;
    var q := Parser(done, Some(Bare(a.kind, a.path, Custom)), None, None, None);
    var r := HunksRead(q, done, q.current.value, a.hunks, ["*** End Patch"] + tail, d);
    assert [] + a.hunks == a.hunks;
    CustomCloses(r, done, a, tail, d);
  }

  lemma SpacedName(kind: ActionKind, path: string)
    ensures CustomName(Add) + " " + path == "*** Add File: " + path
    ensures CustomName(Update) + " " + path == "*** Update File: " + path
    ensures CustomName(Delete) + " " + path == "*** Delete File: " + path
  {
    assert "*** Add File: " == "*** Add File:" + " " && "*** Update File: " == "*** Update File:" + " "
           && "*** Delete File: " == "*** Delete File:" + " ";
  }

  lemma StripIdle(s: string)
    requires s != "" && !IsSpace(s[0]) && !IsSpace(s[|s| - 1])
    ensures Strip(s) == s
  {
  }

  lemma PlainPath(raw: string, d: PathDecoder)
    requires raw != "" && !IsSpace(raw[0]) && !IsSpace(raw[|raw| - 1]) && '\t' !in raw
    requires raw[0] != '"' && raw[0] != 'a' && raw[0] != 'b'
    ensures HeaderPath(raw, d) == raw
  {
    StripIdle(raw);
    NoTab(raw);
    hide Strip, BeforeTab;
    assert "a/"[0] == 'a' && "b/"[0] == 'b';
  }

  lemma NullPath(d: PathDecoder)
    ensures HeaderPath("/dev/null", d) == "/dev/null"
  {
    hide HeaderPath;
    var s := "/dev/null";
    assert s[0] == '/' && s[8] == 'l' && |s| == 9 && '\t' !in s;
    PlainPath(s, d);
  }

  /** The two header lines of a unified action are a header pair with these names. */
  lemma UnifiedHeader(a: Action, d: PathDecoder)
    requires OrdinaryPath(a.path)
    ensures var minus, plus := OldName(a), NewName(a);
            && Classify(minus) == OldHeader && "+++ " <= plus && |minus| >= 4 && |plus| >= 4
            && HeaderPath(minus[4..], d) == (if a.kind == Add then "/dev/null" else a.path)
            && HeaderPath(plus[4..], d) == (if a.kind == Delete then "/dev/null" else a.path)
  {
    NullPath(d);
    OrdinaryHeaderPath(a.path, 'a', d);
    OrdinaryHeaderPath(a.path, 'b', d);
    hide HeaderPath, OrdinaryPath;
    HeaderLines(a.path);
    NullLines();
    assert "a/" + a.path == ['a', '/'] + a.path && "b/" + a.path == ['b', '/'] + a.path;
  }

  lemma NullLines()
    ensures Classify("--- /dev/null") == OldHeader && "+++ " <= "+++ /dev/null"
    ensures "--- /dev/null"[4..] == "/dev/null" && "+++ /dev/null"[4..] == "/dev/null"
  {
  }

  /** Which opens a new action, since the last one had another path. */
  lemma UnifiedOpens(p: Parser, done: seq<Action>, open: Option<string>, a: Action)
    requires Boundary(p, done, open) && open != Some(a.path) && a.path != "" && a.path != "/dev/null"
    ensures FileHeader(p, if a.kind == Add then "/dev/null" else a.path,
                       if a.kind == Delete then "/dev/null" else a.path)
            == Ok(Parser(done, Some(Bare(a.kind, a.path, Unified)), None, None, None))
  {
    hide CountsValid, Settled;
  }

  lemma {:induction false} AddedIsNewSide(lines: seq<string>)
    ensures AddedLines(lines) == NewSide(lines)
    decreases |lines|
  {
    if lines != [] {
      var n := |lines| - 1;
      AddedSnoc(lines[..n], lines[n]);
      assert lines[..n] + [lines[n]] == lines;
      AddedIsNewSide(lines[..n]);
    }
  }

  lemma {:induction false} AddedSnoc(lines: seq<string>, last: string)
    ensures AddedLines(lines + [last]) == AddedLines(lines) + NewPart(last)
    decreases |lines|
  {
    if lines == [] {
      assert ([] + [last])[1..] == [] && [] + [last] == [last];
    } else {
      assert (lines + [last])[1..] == lines[1..] + [last];
      AddedSnoc(lines[1..], last);
    }
  }

  lemma {:induction false} AddedTextIs(hs: seq<Hunk>)
    ensures AddedText(hs) == NewLines(hs)
  {
    if hs != [] {
      AddedIsNewSide(hs[0].lines);
      AddedTextIs(hs[1..]);
    }
  }

  /** Closed, the action is the one that was written. */
  lemma UnifiedSettles(a: Action)
    requires WritableAction(a) && a.format == Unified
    ensures Settled(Bare(a.kind, a.path, Unified).(hunks := [] + a.hunks)) == a
  {
    hide WritableHunk, AddedText, NewLines;
    AddedTextIs(a.hunks);
    assert [] + a.hunks == a.hunks;
    if a.hunks == [] { NoNewLines(); }
  }

  lemma NoNewLines()
    ensures NewLines([]) == []
  {
  }

  lemma UnifiedRead(p: Parser, done: seq<Action>, open: Option<string>, a: Action, tail: seq<string>,
                    d: PathDecoder) returns (q: Parser)
    requires Boundary(p, done, open) && WritableAction(a) && a.format == Unified && open != Some(a.path)
    ensures Boundary(q, done + [a], Some(a.path))
    ensures ParseLines(p, ActionText(a) + tail, d) == ParseLines(q, tail, d)
  {
    hide *;
    var b := Bare(a.kind, a.path, Unified);
    var q0 := Parser(done, Some(b), None, None, None);
    HunksWritable(a);
    BareInside(done, a.kind, a.path);
    PathParts(a);
    UnifiedSettles(a);
    UnifiedHeaderRead(p, done, open, a, tail, d);
    q := HunksRead(q0, done, b, a.hunks, tail, d);
    UnifiedEnds(q, done, a);
  }

  lemma BareInside(done: seq<Action>, kind: ActionKind, path: string)
    ensures var b := Bare(kind, path, Unified);
            b.path == path && b.hunks == [] && Inside(Parser(done, Some(b), None, None, None), done, b)
  {
  }

  lemma HunksWritable(a: Action)
    requires WritableAction(a)
    ensures forall i | 0 <= i < |a.hunks| :: WritableHunk(a.hunks[i])
  {
    hide WritableHunk;
  }

  lemma UnifiedHeaderRead(p: Parser, done: seq<Action>, open: Option<string>, a: Action, tail: seq<string>,
                          d: PathDecoder)
    requires Boundary(p, done, open) && OrdinaryPath(a.path) && a.format == Unified && open != Some(a.path)
    ensures ParseLines(p, ActionText(a) + tail, d)
            == ParseLines(Parser(done, Some(Bare(a.kind, a.path, Unified)), None, None, None),
                          HunksText(a.hunks) + tail, d)
  {
    hide Classify, HeaderPath, FileHeader, ParseLines, OrdinaryPath, FinishAction, FinishHunk, HunksText, Complete;
    hide OldName, NewName, Bare;
    UnifiedHeader(a, d);
    OrdinaryNames(a.path);
    UnifiedOpens(p, done, open, a);
    var lines := ActionText(a) + tail;
    assert lines[0] == OldName(a) && lines[1] == NewName(a);
    assert lines[2..] == HunksText(a.hunks) + tail;
    HeaderStep(p, lines, d, Parser(done, Some(Bare(a.kind, a.path, Unified)), None, None, None));
  }

  lemma HeaderStep(p: Parser, lines: seq<string>, d: PathDecoder, q: Parser)
    requires IsFileHeader(p, lines) && |lines[0]| >= 4
    requires FileHeader(p, HeaderPath(lines[0][4..], d), HeaderPath(lines[1][4..], d)) == Ok(q)
    ensures ParseLines(p, lines, d) == ParseLines(q, lines[2..], d)
  {
  }

  lemma UnifiedEnds(q: Parser, done: seq<Action>, a: Action)
    requires Inside(q, done, Bare(a.kind, a.path, Unified).(hunks := [] + a.hunks)) && WritableAction(a)
    requires a.format == Unified && q.hunk == (if a.hunks == [] then None else Some(a.hunks[|a.hunks| - 1]))
    requires q.current.value.path == a.path
    requires Settled(Bare(a.kind, a.path, Unified).(hunks := [] + a.hunks)) == a
    ensures Boundary(q, done + [a], Some(a.path))
  {
    hide Settled, OldSide, NewSide, HeaderText, MarksFit, OrdinaryPath, NewLines;
    if a.hunks != [] { assert WritableHunk(a.hunks[|a.hunks| - 1]); }
    assert q.actions == done;
  }

  lemma {:induction false} ActionsRead(p: Parser, done: seq<Action>, open: Option<string>, actions: seq<Action>,
                                       d: PathDecoder)
    requires Boundary(p, done, open) && Separated(actions)
    requires forall i | 0 <= i < |actions| :: WritableAction(actions[i])
    requires actions != [] && actions[0].format == Unified ==> open != Some(actions[0].path)
    ensures ParseLines(p, ActionsText(actions), d) == Ok(Parser(done + actions, None, None, None, None))
    decreases |actions|
  {
    hide WritableAction, ActionText, FinishAction, FinishHunk;
    if actions == [] {
      assert done + actions == done;
    } else {
      var a, rest := actions[0], actions[1..];
      assert done + [a] + rest == done + actions;
      assert forall i | 0 < i < |rest| :: rest[i] == actions[i + 1] && rest[i - 1] == actions[i];
      var q, next := p, None;
      if a.format == Unified {
        q := UnifiedRead(p, done, open, a, ActionsText(rest), d);
        next := Some(a.path);
      } else {
        CustomRead(p, done, open, a, ActionsText(rest), d);
        q := Parser(done + [a], None, None, None, None);
        NothingOpen(done + [a]);
      }
      ActionsRead(q, done + [a], next, rest, d);
    }
  }

  lemma NothingOpen(done: seq<Action>)
    ensures Boundary(Parser(done, None, None, None, None), done, None)
  {
  }

  // ---- From lines to text -----------------------------------------------------------

  ghost predicate AllClean(lines: seq<string>) { forall i | 0 <= i < |lines| :: CleanLine(lines[i]) }

  lemma CleanPlus(a: seq<string>, b: seq<string>)
    requires AllClean(a) && AllClean(b)
    ensures AllClean(a + b)
  {
    hide CleanLine;
  }

  lemma MarkerClean()
    ensures AllClean([Marker])
  {
  }

  lemma {:induction false} BodyClean(lines: seq<string>, oldMark: bool, newMark: bool)
    requires AllClean(lines)
    ensures AllClean(BodyText(lines, oldMark, newMark))
    decreases |lines|
  {
    if lines != [] {
      var last := lines[|lines| - 1];
      var front := BodyText(lines[..|lines| - 1], oldMark && !OnOldSide(last), newMark && !OnNewSide(last));
      BodyClean(lines[..|lines| - 1], oldMark && !OnOldSide(last), newMark && !OnNewSide(last));
      MarkerClean();
      hide CleanLine;
      CleanPlus(front, [last]);
      CleanPlus(front + [last], [Marker]);
      assert front + [last] + [] == front + [last];
    }
  }

  lemma {:induction false} HunksClean(hs: seq<Hunk>)
    requires forall i | 0 <= i < |hs| :: WritableHunk(hs[i])
    ensures AllClean(HunksText(hs))
  {
    if hs != [] {
      var h := hs[0];
      assert WritableHunk(h);
      hide CleanLine, BodyText;
      BodyClean(h.lines, h.oldNoNewline, h.newNoNewline);
      CleanPlus([h.header], BodyText(h.lines, h.oldNoNewline, h.newNoNewline));
      HunksClean(hs[1..]);
      CleanPlus(HunkText(h), HunksText(hs[1..]));
    }
  }

  lemma {:induction false} AddedClean(lines: seq<string>)
    requires AllClean(lines)
    ensures AllClean(AddedBody(lines))
  {
    if lines != [] {
      assert CleanLine("+" + lines[0]);
      AddedClean(lines[1..]);
      hide CleanLine;
      CleanPlus(["+" + lines[0]], AddedBody(lines[1..]));
    }
  }

  lemma ConstantsClean()
    ensures AllClean(["*** Begin Patch"]) && AllClean(["*** End Patch"])
    ensures AllClean(["--- /dev/null"]) && AllClean(["+++ /dev/null"])
  {
  }

  lemma CustomNameClean(kind: ActionKind, path: string)
    requires CleanLine(path)
    ensures AllClean([CustomName(kind) + " " + path])
  {
  }

  lemma UnifiedNamesClean(path: string)
    requires CleanLine(path)
    ensures AllClean(["--- a/" + path]) && AllClean(["+++ b/" + path])
  {
  }

  lemma CustomClean(a: Action)
    requires WritableAction(a) && a.format == Custom
    ensures AllClean(ActionText(a))
  {
    CustomBodyClean(a);
    CustomNameClean(a.kind, a.path);
    ConstantsClean();
    hide *;
    CustomLines(a, []);
    var begin, name, end := ["*** Begin Patch"], [CustomName(a.kind) + " " + a.path], ["*** End Patch"];
    assert ActionText(a) + [] == ActionText(a) && end + [] == end;
    assert ["*** Begin Patch", CustomName(a.kind) + " " + a.path] == begin + name;
    CleanPlus(begin, name);
    CleanPlus(CustomBody(a), end);
    CleanPlus(begin + name, CustomBody(a) + end);
  }

  lemma CustomBodyClean(a: Action)
    requires WritableAction(a) && a.format == Custom
    ensures AllClean(CustomBody(a))
  {
    MarkerClean();
    if a.kind == Add { AddedClean(a.addLines); } else { HunksClean(a.hunks); }
    hide CleanLine, AllClean, WritableHunk, HunksText, AddedBody, IsSpace;
    if a.kind == Add { CleanPlus(AddedBody(a.addLines), [Marker]); }
    assert AddedBody(a.addLines) + [] == AddedBody(a.addLines);
  }

  lemma UnifiedClean(a: Action)
    requires WritableAction(a) && a.format == Unified
    ensures AllClean(ActionText(a))
  {
    ConstantsClean();
    UnifiedNamesClean(a.path);
    HunksClean(a.hunks);
    hide CleanLine, AllClean, WritableHunk, HunksText, IsSpace;
    assert AllClean([OldName(a)]) && AllClean([NewName(a)]);
    hide OldName, NewName;
    CleanPlus([OldName(a)], [NewName(a)]);
    assert [OldName(a)] + [NewName(a)] == [OldName(a), NewName(a)];
    CleanPlus([OldName(a), NewName(a)], HunksText(a.hunks));
  }

  lemma {:induction false} ActionsClean(actions: seq<Action>)
    requires forall i | 0 <= i < |actions| :: WritableAction(actions[i])
    ensures AllClean(ActionsText(actions)) && (actions != [] ==> ActionsText(actions) != [])
  {
    hide WritableAction, ActionText, CleanLine;
    if actions != [] {
      if actions[0].format == Custom { CustomClean(actions[0]); } else { UnifiedClean(actions[0]); }
      SomeText(actions[0]);
      ActionsClean(actions[1..]);
      CleanPlus(ActionText(actions[0]), ActionsText(actions[1..]));
    }
  }

  lemma SomeText(a: Action)
    ensures ActionText(a) != []
  {
  }

  /** Clean lines survive being written and split again. */
  lemma LinesText(lines: seq<string>)
    requires AllClean(lines) && lines != []
    ensures SplitLines(Normalize(Join(lines) + [NL])) == lines
  {
    hide Normalize, SplitLines, Join;
    JoinWithout(lines, '\r');
    JoinWithout(lines, NoBreakSpace);
    NormalizeIdle(Join(lines) + [NL]);
    SplitLinesJoin(lines);
  }

  /**
   A patch of custom and unified actions, written and read, is the same list of actions: kinds, paths, hunks
   with their numbers and markers, the lines of new files and their final newlines.
   */
  lemma PrintParse(actions: seq<Action>, d: PathDecoder)
    requires actions != [] && Separated(actions)
    requires forall i | 0 <= i < |actions| :: WritableAction(actions[i])
    ensures Parse(PatchText(actions), d) == Ok(actions)
  {
    hide ParseLines, ActionsText, WritableAction, Normalize, SplitLines, Join, AllClean, Boundary, Separated;
    ActionsClean(actions);
    LinesText(ActionsText(actions));
    NothingOpen([]);
    ActionsRead(Fresh, [], None, actions, d);
    assert [] + actions == actions;
  }

  // ---- Git headers ------------------------------------------------------------------

  lemma GitHeaderStep(p: Parser, line: string, d: PathDecoder, a: string, b: string)
    requires p.current.None? && "diff --git " <= line && d.git(line) == (Some(a), Some(b)) && a != ""
    ensures LineStep(p, line, d) == Ok(p.(diffOld := Some(a), diffNew := Some(b)))
    ensures Classify(line) == DiffGit
  {
    assert line[0] == 'd';
  }

  lemma ModeStep(p: Parser, kind: ActionKind, line: string, d: PathDecoder, a: string, b: string)
    requires p.current.None? && p.hunk.None? && p.diffOld == Some(a) && p.diffNew == Some(b) && a != "" && b != ""
    requires kind != Update && (if kind == Add then "new file mode" else "deleted file mode") <= line
    ensures LineStep(p, line, d) == Ok(p.(current := Some(Bare(kind, if kind == Add then b else a, Unified))))
    ensures Classify(line) == if kind == Add then NewFileMode else DeletedFileMode
  {
    assert line[0] == (if kind == Add then 'n' else 'd') && line[1] == 'e';
    assert "diff --git "[1] == 'i';
  }

  lemma BareFinishes(p: Parser, a: Action)
    requires p.current == Some(a) && p.hunk.None? && p.actions == [] && a.hunks == [] && a.kind != Update
    ensures FinishAction(p) == Ok(Parser([a], None, None, None, None))
  {
    assert [] + [a] == [a];
  }

  /** A mode line of a git diff adds the file under its new name or deletes it under its old one. */
  lemma GitModeRead(kind: ActionKind, git: string, mode: string, d: PathDecoder, a: string, b: string)
    requires kind != Update && CleanLine(git) && CleanLine(mode) && "diff --git " <= git
    requires (if kind == Add then "new file mode" else "deleted file mode") <= mode
    requires d.git(git) == (Some(a), Some(b)) && a != "" && b != ""
    ensures Parse(Join([git, mode]) + [NL], d)
            == Ok([Action(kind, if kind == Add then b else a, [], [], true, Unified)])
  {
    LinesText([git, mode]);
    GitHeaderStep(Fresh, git, d, a, b);
    var p := Fresh.(diffOld := Some(a), diffNew := Some(b));
    ModeStep(p, kind, mode, d, a, b);
    var action := Bare(kind, if kind == Add then b else a, Unified);
    var q := p.(current := Some(action));
    BareFinishes(q, action);
    assert [git, mode][1..] == [mode] && [mode][1..] == [];
    assert ParseLines(q, [], d) == FinishAction(q);
    hide ParseLines, LineStep, Classify, SplitLines, Normalize, Join, CleanLine, FinishAction;
    PlainStep(Fresh, [git, mode], d, p);
    PlainStep(p, [mode], d, q);
  }

  /** Renames, copies, mode changes and binary patches are refused wherever the parser meets them. */
  lemma RefusedLines(p: Parser, line: string, rest: seq<string>, d: PathDecoder)
    requires || "old mode " <= line || "new mode " <= line || "rename from " <= line || "rename to " <= line
             || "copy from " <= line || "copy to " <= line || line == "GIT binary patch" || "Binary files " <= line
    ensures ParseLines(p, [line] + rest, d) == Err(Unsupported)
  {
    assert line[0] in {'o', 'n', 'r', 'c', 'G', 'B'};
    assert line[0] == 'n' ==> line[4] == 'm' && "new file mode"[4] == 'f';
    assert "diff --git "[0] == 'd' && "deleted file mode"[0] == 'd';
    assert Classify(line) == Refused;
  }

  // ---- What is never read -----------------------------------------------------------

  ghost predicate Sound(a: Action) {
    a.path != "" && forall i | 0 <= i < |a.hunks| :: CountsValid(a.hunks[i])
  }

  ghost predicate SoundParser(p: Parser) {
    && (p.current.Some? ==> Sound(p.current.value))
    && (forall i | 0 <= i < |p.actions| ::
          Sound(p.actions[i]) && (p.actions[i].kind == Update ==> p.actions[i].hunks != []))
  }

  lemma FinishHunkSound(p: Parser)
    requires SoundParser(p) && FinishHunk(p).Ok?
    ensures SoundParser(FinishHunk(p).value)
  {
    hide CountsValid;
  }

  lemma FinishActionSound(p: Parser)
    requires SoundParser(p) && FinishAction(p).Ok?
    ensures SoundParser(FinishAction(p).value)
  {
    hide FinishHunk, CountsValid, AddedText;
    if p.current.Some? {
      FinishHunkSound(p);
      SameActions(p);
      var a := FinishHunk(p).value.current.value;
      assert Sound(Settled(a)) && Settled(a).kind == a.kind && Settled(a).hunks == a.hunks;
    }
  }

  lemma SameActions(p: Parser)
    requires FinishHunk(p).Ok?
    ensures FinishHunk(p).value.actions == p.actions && FinishHunk(p).value.current.Some? == p.current.Some?
  {
  }

  lemma LineStepSound(p: Parser, line: string, d: PathDecoder)
    requires SoundParser(p) && LineStep(p, line, d).Ok?
    ensures SoundParser(LineStep(p, line, d).value)
  {
    hide FinishAction, FinishHunk, Classify, Strip, CountsValid, ParseHeader;
    match Classify(line) {
      case BeginPatch =>
      case Body =>
      case OldHeader =>
      case AtSigns => if p.current.Some? { FinishHunkSound(p); }
      case NewFileMode => FinishHunkSound(p);
      case DeletedFileMode => FinishHunkSound(p);
      case _ => FinishActionSound(p);
    }
  }

  lemma FileHeaderSound(p: Parser, src: string, tgt: string)
    requires SoundParser(p) && FileHeader(p, src, tgt).Ok?
    ensures SoundParser(FileHeader(p, src, tgt).value)
  {
    hide FinishAction, FinishHunk, CountsValid;
    FinishHunkSound(p);
    var q := FinishHunk(p).value;
    if FinishAction(q).Ok? { FinishActionSound(q); }
  }

  lemma {:induction false} ParseLinesSound(p: Parser, lines: seq<string>, d: PathDecoder)
    requires SoundParser(p) && ParseLines(p, lines, d).Ok?
    ensures SoundParser(ParseLines(p, lines, d).value)
    decreases |lines|
  {
    hide FileHeader, LineStep, FinishAction, SoundParser, HeaderPath;
    if lines == [] {
      FinishActionSound(p);
    } else if IsFileHeader(p, lines) {
      var src, tgt := HeaderPath(lines[0][4..], d), HeaderPath(lines[1][4..], d);
      FileHeaderSound(p, src, tgt);
      ParseLinesSound(FileHeader(p, src, tgt).value, lines[2..], d);
    } else {
      LineStepSound(p, lines[0], d);
      ParseLinesSound(LineStep(p, lines[0], d).value, lines[1..], d);
    }
  }

  /** Whatever the text, no patch is read that is empty, updates nothing, names no file or miscounts a hunk. */
  lemma ParsedIsSound(text: string, d: PathDecoder)
    requires Parse(text, d).Ok?
    ensures var actions := Parse(text, d).value;
            && actions != []
            && forall i | 0 <= i < |actions| ::
                 && actions[i].path != "" && (actions[i].kind == Update ==> actions[i].hunks != [])
                 && forall j | 0 <= j < |actions[i].hunks| :: CountsValid(actions[i].hunks[j])
  {
    hide ParseLines, CountsValid, SplitLines, Normalize;
    ParseLinesSound(Fresh, SplitLines(Normalize(text)), d);
  }
}

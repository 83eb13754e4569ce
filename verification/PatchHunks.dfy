/**
 Patches as values: hunks, actions, the two sides of a hunk, and reversal
 (tools/patch_applier.py). A hunk with a coordinate header carries all four numbers.
 */
module PatchHunks {
  import opened Common

  datatype Coords = Coords(oldStart: nat, oldCount: nat, newStart: nat, newCount: nat)

  datatype Hunk = Hunk(
    header: string,
    lines: seq<string>,
    coords: Option<Coords>,
    oldNoNewline: bool,
    newNoNewline: bool)

  datatype ActionKind = Add | Update | Delete

  datatype Format = Custom | Unified

  datatype Action = Action(
    kind: ActionKind,
    path: string,
    hunks: seq<Hunk>,
    addLines: seq<string>,
    addFinalNewline: bool,
    format: Format)

  /** What one hunk line contributes to the text before the change. */
  function OldPart(line: string): seq<string> {
    if line == "" then [line]
    else if line[0] == '-' || line[0] == ' ' then [line[1..]]
    else if line[0] == '+' || line[0] == '\\' then []
    else [line]
  }

  /** What one hunk line contributes to the text after the change. */
  function NewPart(line: string): seq<string> {
    if line == "" then [line]
    else if line[0] == '+' || line[0] == ' ' then [line[1..]]
    else if line[0] == '-' || line[0] == '\\' then []
    else [line]
  }

  function OldSide(lines: seq<string>): seq<string> {
    if lines == [] then []
    else OldSide(lines[..|lines| - 1]) + OldPart(lines[|lines| - 1])
  }

  function NewSide(lines: seq<string>): seq<string> {
    if lines == [] then []
    else NewSide(lines[..|lines| - 1]) + NewPart(lines[|lines| - 1])
  }

  /** A removed line is of the old text, an added one of the new, and context and blank lines are of both. */
  lemma LineMeaning(lines: seq<string>, x: string)
    ensures OldSide(lines + ["-" + x]) == OldSide(lines) + [x] && NewSide(lines + ["-" + x]) == NewSide(lines)
    ensures OldSide(lines + ["+" + x]) == OldSide(lines) && NewSide(lines + ["+" + x]) == NewSide(lines) + [x]
    ensures OldSide(lines + [" " + x]) == OldSide(lines) + [x] && NewSide(lines + [" " + x]) == NewSide(lines) + [x]
    ensures OldSide(lines + [""]) == OldSide(lines) + [""] && NewSide(lines + [""]) == NewSide(lines) + [""]
  {
    var n := |lines|;
    assert ("-" + x)[1..] == x && ("+" + x)[1..] == x && (" " + x)[1..] == x;
    assert (lines + ["-" + x])[..n] == lines && (lines + ["+" + x])[..n] == lines;
    assert (lines + [" " + x])[..n] == lines && (lines + [""])[..n] == lines;
  }

  predicate CountsMatch(lines: seq<string>, c: Coords) {
    |OldSide(lines)| == c.oldCount && |NewSide(lines)| == c.newCount
  }

  predicate CountsValid(h: Hunk) {
    h.coords.Some? ==> CountsMatch(h.lines, h.coords.value)
  }

  predicate Complete(h: Hunk) {
    h.coords.Some? && CountsMatch(h.lines, h.coords.value)
  }

  predicate Markerless(h: Hunk) {
    !h.oldNoNewline && !h.newNoNewline
  }

  /** The counting loop of the header check and of the completeness test counts the two sides. */
  method HunkSeenCounts(lines: seq<string>) returns (oldSeen: nat, newSeen: nat)
    ensures oldSeen == |OldSide(lines)|
    ensures newSeen == |NewSide(lines)|
  {
    oldSeen, newSeen := 0, 0;
    for i := 0 to |lines|
      invariant oldSeen == |OldSide(lines[..i])|
      invariant newSeen == |NewSide(lines[..i])|
    {
      var line := lines[i];
      assert lines[..i + 1][..i] == lines[..i];
      if line == "" || line[0] == ' ' {
        oldSeen, newSeen := oldSeen + 1, newSeen + 1;
      } else if line[0] == '-' {
        oldSeen := oldSeen + 1;
      } else if line[0] == '+' {
        newSeen := newSeen + 1;
      } else if line[0] != '\\' {
        oldSeen, newSeen := oldSeen + 1, newSeen + 1;
      }
    }
    assert lines[..|lines|] == lines;
  }

  method ValidateHunkCounts(h: Hunk) returns (ok: bool)
    ensures ok <==> CountsValid(h)
  {
    if h.coords.None? {
      return true;
    }
    var oldSeen, newSeen := HunkSeenCounts(h.lines);
    ok := oldSeen == h.coords.value.oldCount && newSeen == h.coords.value.newCount;
  }

  function ReverseLine(line: string): string {
    if line == "" then line
    else if line[0] == '+' then "-" + line[1..]
    else if line[0] == '-' then "+" + line[1..]
    else line
  }

  function ReverseLines(lines: seq<string>): (r: seq<string>)
    ensures |r| == |lines|
  {
    seq(|lines|, i requires 0 <= i < |lines| => ReverseLine(lines[i]))
  }

  function ReverseCoords(c: Coords): Coords {
    Coords(c.newStart, c.newCount, c.oldStart, c.oldCount)
  }

  /** The reversed hunk; the header text is kept as it was. */
  function ReverseHunk(h: Hunk): Hunk {
    Hunk(h.header, ReverseLines(h.lines),
         if h.coords.Some? then Some(ReverseCoords(h.coords.value)) else None,
         h.newNoNewline, h.oldNoNewline)
  }

  function ReverseHunks(hs: seq<Hunk>): seq<Hunk> {
    if hs == [] then [] else [ReverseHunk(hs[0])] + ReverseHunks(hs[1..])
  }

  /** Reversal exchanges the two sides of a hunk, so it keeps the header counts valid. */
  lemma {:induction false} ReverseSwapsSides(lines: seq<string>)
    ensures OldSide(ReverseLines(lines)) == NewSide(lines)
    ensures NewSide(ReverseLines(lines)) == OldSide(lines)
  {
    hide OldPart, NewPart, ReverseLine;
    if lines != [] {
      var n := |lines| - 1;
      ReverseSwapsSides(lines[..n]);
      ReverseSwapsParts(lines[n]);
      assert ReverseLines(lines)[..n] == ReverseLines(lines[..n]);
    }
  }

  lemma ReverseSwapsParts(line: string)
    ensures OldPart(ReverseLine(line)) == NewPart(line)
    ensures NewPart(ReverseLine(line)) == OldPart(line)
  {
  }

  lemma ReverseLineTwice(line: string)
    ensures ReverseLine(ReverseLine(line)) == line
  {
    if line != "" {
      assert line == [line[0]] + line[1..];
    }
  }

  lemma ReverseHunkKeepsCounts(h: Hunk)
    ensures CountsValid(ReverseHunk(h)) <==> CountsValid(h)
    ensures ReverseHunk(ReverseHunk(h)) == h
  {
    ReverseSwapsSides(h.lines);
    forall i | 0 <= i < |h.lines|
      ensures ReverseLine(ReverseLine(h.lines[i])) == h.lines[i]
    {
      ReverseLineTwice(h.lines[i]);
    }
    assert ReverseLines(ReverseLines(h.lines)) == h.lines;
  }
}

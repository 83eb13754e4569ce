/**
 The string operations of the Python library that the tools lean on: split and
 join on a newline, and splitlines with its wider set of line boundaries.
 */
module Text {
  const NL := '\n'

  ghost predicate NewlineFree(lines: seq<string>) {
    forall i | 0 <= i < |lines| :: NL !in lines[i]
  }

  /** str.split("\n"): never empty. */
  function Split(text: string): (lines: seq<string>)
    ensures |lines| > 0
  {
    if text == "" then [""]
    else
      var rest := Split(text[1..]);
      if text[0] == NL then [""] + rest else [[text[0]] + rest[0]] + rest[1..]
  }

  /** "\n".join(lines). */
  function Join(lines: seq<string>): string {
    if |lines| == 0 then ""
    else if |lines| == 1 then lines[0]
    else lines[0] + [NL] + Join(lines[1..])
  }

  lemma {:induction false} JoinSplit(text: string)
    ensures Join(Split(text)) == text
    ensures NewlineFree(Split(text))
  {
    if text != "" {
      JoinSplit(text[1..]);
      var rest := Split(text[1..]);
      if text[0] == NL {
        assert ([""] + rest)[1..] == rest;
      } else {
        var ls := [[text[0]] + rest[0]] + rest[1..];
        assert ls[1..] == rest[1..];
        if |rest| == 1 {
          assert Join(ls) == ls[0];
        } else {
          assert Join(ls) == [text[0]] + (rest[0] + [NL] + Join(rest[1..]));
        }
      }
    }
  }

  lemma {:induction false} SplitPrefix(line: string, text: string)
    requires NL !in line
    ensures Split(line + text) == [line + Split(text)[0]] + Split(text)[1..]
    decreases |line|
  {
    if line == "" {
      assert line + text == text;
      assert line + Split(text)[0] == Split(text)[0];
    } else {
      assert (line + text)[1..] == line[1..] + text;
      SplitPrefix(line[1..], text);
      assert line == [line[0]] + line[1..];
      assert [line[0]] + (line[1..] + Split(text)[0]) == line + Split(text)[0];
    }
  }

  /** A non-empty list of newline-free lines survives being joined and split. */
  lemma {:induction false} SplitJoin(lines: seq<string>)
    requires |lines| > 0 && NewlineFree(lines)
    ensures Split(Join(lines)) == lines
  {
    if |lines| == 1 {
      SplitPrefix(lines[0], "");
      assert lines[0] + "" == lines[0];
      assert lines == [lines[0]];
    } else {
      var rest := Join(lines[1..]);
      SplitJoin(lines[1..]);
      SplitPrefix(lines[0], [NL] + rest);
      assert lines[0] + ([NL] + rest) == lines[0] + [NL] + rest;
      assert ([NL] + rest)[1..] == rest;
      assert lines[0] + "" == lines[0];
      assert lines == [lines[0]] + lines[1..];
    }
  }

  lemma {:induction false} JoinAppend(lines: seq<string>, last: string)
    requires |lines| > 0
    ensures Join(lines + [last]) == Join(lines) + [NL] + last
  {
    if |lines| == 1 {
      assert (lines + [last])[1..] == [last];
    } else {
      assert (lines + [last])[1..] == lines[1..] + [last];
      JoinAppend(lines[1..], last);
    }
  }

  /** The characters str.splitlines treats as line boundaries. */
  predicate IsBreak(c: char) {
    c in {'\n', '\r', '\U{0B}', '\U{0C}', '\U{1C}', '\U{1D}', '\U{1E}', '\U{85}', '\U{2028}', '\U{2029}'}
  }

  ghost predicate BreakFree(line: string) {
    forall i | 0 <= i < |line| :: !IsBreak(line[i])
  }

  /** Length of the line boundary at the head of the text; "\r\n" is one boundary. */
  function BreakLength(text: string): (n: nat)
    requires text != "" && IsBreak(text[0])
    ensures 1 <= n <= |text|
  {
    if |text| >= 2 && text[0] == '\r' && text[1] == '\n' then 2 else 1
  }

  /** str.splitlines(). */
  function SplitLines(text: string): seq<string>
    decreases |text|
  {
    if text == "" then []
    else if IsBreak(text[0]) then [""] + SplitLines(text[BreakLength(text)..])
    else
      var rest := SplitLines(text[1..]);
      if rest == [] then [[text[0]]] else [[text[0]] + rest[0]] + rest[1..]
  }

  /** str.splitlines(keepends=True). */
  function LinesKeepEnds(text: string): seq<string>
    decreases |text|
  {
    if text == "" then []
    else if IsBreak(text[0]) then
      [text[..BreakLength(text)]] + LinesKeepEnds(text[BreakLength(text)..])
    else
      var rest := LinesKeepEnds(text[1..]);
      if rest == [] then [[text[0]]] else [[text[0]] + rest[0]] + rest[1..]
  }

  function Concat(pieces: seq<string>): string {
    if pieces == [] then "" else pieces[0] + Concat(pieces[1..])
  }

  lemma ConcatOne(piece: string)
    ensures Concat([piece]) == piece
  {
    assert [piece][1..] == [];
    assert Concat([]) == "";
  }

  lemma ConcatFirst(piece: string, rest: seq<string>)
    ensures Concat([piece] + rest) == piece + Concat(rest)
  {
    assert ([piece] + rest)[1..] == rest;
  }

  lemma {:induction false} ConcatAppend(a: seq<string>, b: seq<string>)
    ensures Concat(a + b) == Concat(a) + Concat(b)
  {
    if a == [] {
      assert a + b == b;
    } else {
      hide Concat;
      ConcatAppend(a[1..], b);
      assert a == [a[0]] + a[1..] && a + b == [a[0]] + (a[1..] + b);
      ConcatFirst(a[0], a[1..]);
      ConcatFirst(a[0], a[1..] + b);
      assert a[0] + (Concat(a[1..]) + Concat(b)) == a[0] + Concat(a[1..]) + Concat(b);
    }
  }

  /** Splitting with the line ends kept loses nothing, and yields no empty line. */
  lemma {:induction false} KeepEndsLossless(text: string)
    ensures Concat(LinesKeepEnds(text)) == text
    ensures forall i | 0 <= i < |LinesKeepEnds(text)| :: LinesKeepEnds(text)[i] != ""
    decreases |text|
  {
    if text != "" {
      if IsBreak(text[0]) {
        var n := BreakLength(text);
        KeepEndsLossless(text[n..]);
        assert ([text[..n]] + LinesKeepEnds(text[n..]))[1..] == LinesKeepEnds(text[n..]);
      } else {
        KeepEndsLossless(text[1..]);
        var rest := LinesKeepEnds(text[1..]);
        if rest != [] {
          assert ([[text[0]] + rest[0]] + rest[1..])[1..] == rest[1..];
        } else {
          assert [[text[0]]][1..] == [];
        }
      }
    }
  }

  lemma {:induction false} SplitLinesPrefix(line: string, text: string)
    requires BreakFree(line) && text != "" && text[0] == NL
    ensures SplitLines(line + text) == [line] + SplitLines(text[1..])
    decreases |line|
  {
    if line == "" {
      assert line + text == text;
    } else {
      assert (line + text)[1..] == line[1..] + text;
      SplitLinesPrefix(line[1..], text);
      assert line == [line[0]] + line[1..];
      var rest := SplitLines(line[1..] + text);
      assert rest[0] == line[1..] && rest[1..] == SplitLines(text[1..]);
    }
  }

  /** Every piece splitlines yields is free of line boundaries. */
  lemma {:induction false} SplitLinesBreakFree(text: string)
    ensures forall i | 0 <= i < |SplitLines(text)| :: BreakFree(SplitLines(text)[i])
    decreases |text|
  {
    if text != "" {
      if IsBreak(text[0]) {
        SplitLinesBreakFree(text[BreakLength(text)..]);
      } else {
        SplitLinesBreakFree(text[1..]);
      }
    }
  }

  /** Text written one line at a time with a final newline is read back line by line. */
  lemma {:induction false} SplitLinesJoin(lines: seq<string>)
    requires |lines| > 0
    requires forall i | 0 <= i < |lines| :: BreakFree(lines[i])
    ensures SplitLines(Join(lines) + [NL]) == lines
  {
    if |lines| == 1 {
      SplitLinesPrefix(lines[0], [NL]);
      assert [NL][1..] == "";
      assert lines == [lines[0]] + [];
    } else {
      var rest := Join(lines[1..]) + [NL];
      SplitLinesJoin(lines[1..]);
      SplitLinesPrefix(lines[0], [NL] + rest);
      assert lines[0] + ([NL] + rest) == Join(lines) + [NL];
      assert ([NL] + rest)[1..] == rest;
      assert lines == [lines[0]] + lines[1..];
    }
  }
}

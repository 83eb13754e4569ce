/**
 Reading a patch (tools/patch_applier.py, parse_patch): one pass over the lines with a
 current action and a current hunk, and one line of lookahead for file headers. Decoding a
 quoted path and splitting a "diff --git" line are parameters.
 */
module PatchParse {
  import opened Common
  import opened PatchHunks
  import opened Text

  datatype PathDecoder = PathDecoder(unquote: string -> string, git: string -> (Option<string>, Option<string>))

  datatype ParseError = BadCounts | EmptyUpdate | EmptyPath | NoPath | Unsupported | BadLine | NoAction

  datatype Parser = Parser(
    actions: seq<Action>,
    current: Option<Action>,
    hunk: Option<Hunk>,
    diffOld: Option<string>,
    diffNew: Option<string>)

  // ---- Characters and words ---------------------------------------------------------

  const NoBreakSpace := '\U{A0}'

  predicate IsSpace(c: char) {
    || IsBreak(c) || c in {' ', '\t', '\U{1F}', NoBreakSpace, '\U{1680}', '\U{202F}', '\U{205F}', '\U{3000}'}
    || '\U{2000}' <= c <= '\U{200A}'
  }

  function LStrip(s: string): string {
    if s != "" && IsSpace(s[0]) then LStrip(s[1..]) else s
  }

  function RStripSpace(s: string): string {
    if s != "" && IsSpace(s[|s| - 1]) then RStripSpace(s[..|s| - 1]) else s
  }

  function Strip(s: string): string { RStripSpace(LStrip(s)) }

  function BeforeTab(s: string): string {
    if s == "" || s[0] == '\t' then "" else [s[0]] + BeforeTab(s[1..])
  }

  function StripGitPrefix(raw: string, d: PathDecoder): string {
    var s := Strip(raw);
    var path := if s != "" && s[0] == '"' && s[|s| - 1] == '"' then d.unquote(s) else s;
    if "a/" <= path || "b/" <= path then path[2..] else path
  }

  function HeaderPath(raw: string, d: PathDecoder): string {
    StripGitPrefix(Strip(BeforeTab(raw)), d)
  }

  // ---- Hunk headers -----------------------------------------------------------------

  predicate IsDigit(c: char) { '0' <= c <= '9' }

  /** Skips one or more blanks. */
  function Blanks(s: string): Option<string> {
    if s != "" && IsSpace(s[0]) then Some(LStrip(s)) else None
  }

  function Expect(s: string, c: char): Option<string> {
    if s != "" && s[0] == c then Some(s[1..]) else None
  }

  function Digits(s: string, acc: nat): (nat, string) {
    if s != "" && IsDigit(s[0]) then Digits(s[1..], 10 * acc + (s[0] as int - '0' as int)) else (acc, s)
  }

  function Number(s: string): Option<(nat, string)> {
    if s != "" && IsDigit(s[0]) then Some(Digits(s, 0)) else None
  }

  /** A start and an optional count, which is 1 when absent. */
  function Range(s: string): Option<(nat, nat, string)> {
    match Number(s)
    case None => None
    case Some((start, rest)) =>
      if rest != "" && rest[0] == ',' && Number(rest[1..]).Some? then
        var (count, rest') := Number(rest[1..]).value;
        Some((start, count, rest'))
      else Some((start, 1, rest))
  }

  /** The four numbers of a coordinate header; None for a bare header. */
  function ParseHeader(line: string): Option<Coords> {
    if !("@@" <= line) then None
    else
      match Blanks(line[2..])
      case None => None
      case Some(s1) =>
        match Expect(s1, '-')
        case None => None
        case Some(s2) =>
          match Range(s2)
          case None => None
          case Some((oldStart, oldCount, s3)) =>
            match Blanks(s3)
            case None => None
            case Some(s4) =>
              match Expect(s4, '+')
              case None => None
              case Some(s5) =>
                match Range(s5)
                case None => None
                case Some((newStart, newCount, s6)) =>
                  match Blanks(s6)
                  case None => None
                  case Some(s7) =>
                    if "@@" <= s7 then Some(Coords(oldStart, oldCount, newStart, newCount)) else None
  }

  // ---- Line classes -----------------------------------------------------------------

  datatype LineClass =
    | BeginPatch | EndPatch | AddFile | UpdateFile | DeleteFile | DiffGit | NewFileMode | DeletedFileMode
    | OldHeader | Refused | AtSigns | Body

  function Classify(line: string): LineClass {
    if line == "" then Body
    else if line[0] == '*' then
      if line == "*** Begin Patch" then BeginPatch
      else if line == "*** End Patch" then EndPatch
      else if "*** Add File:" <= line then AddFile
      else if "*** Update File:" <= line then UpdateFile
      else if "*** Delete File:" <= line then DeleteFile
      else Body
    else if line[0] == '-' then
      if "--- " <= line then OldHeader else Body
    else if line[0] == '@' then
      if "@@" <= line then AtSigns else Body
    else if "diff --git " <= line then DiffGit
    else if "new file mode" <= line then NewFileMode
    else if "deleted file mode" <= line then DeletedFileMode
    else if || "old mode " <= line || "new mode " <= line || "rename from " <= line || "rename to " <= line
            || "copy from " <= line || "copy to " <= line || line == "GIT binary patch" || "Binary files " <= line
    then Refused
    else Body
  }

  const NoNewlineMarker := "\\ No newline at end of file"

  // ---- The parser -------------------------------------------------------------------

  function Bare(kind: ActionKind, path: string, format: Format): Action {
    Action(kind, path, [], [], true, format)
  }

  function FinishHunk(p: Parser): Result<Parser, ParseError> {
    if p.current.None? || p.hunk.None? then Ok(p.(hunk := None))
    else if !CountsValid(p.hunk.value) then Err(BadCounts)
    else Ok(p.(current := Some(p.current.value.(hunks := p.current.value.hunks + [p.hunk.value])), hunk := None))
  }

  function AddedPart(line: string): seq<string> {
    if line == "" then [""]
    else if line[0] == '+' || line[0] == ' ' then [line[1..]]
    else if line[0] == '\\' || line[0] == '-' then []
    else [line]
  }

  function AddedLines(lines: seq<string>): seq<string> {
    if lines == [] then [] else AddedPart(lines[0]) + AddedLines(lines[1..])
  }

  function AddedText(hs: seq<Hunk>): seq<string> {
    if hs == [] then [] else AddedLines(hs[0].lines) + AddedText(hs[1..])
  }

  /** A unified ADD carries its content in hunks; it becomes the lines of the new file. */
  function Settled(a: Action): Action {
    if a.kind == Add && a.hunks != [] && a.addLines == [] then
      a.(addLines := AddedText(a.hunks), addFinalNewline := forall i | 0 <= i < |a.hunks| :: !a.hunks[i].newNoNewline)
    else a
  }

  function FinishAction(p: Parser): Result<Parser, ParseError> {
    if p.current.None? then Ok(p)
    else match FinishHunk(p)
      case Err(e) => Err(e)
      case Ok(q) =>
        var a := q.current.value;
        if a.kind == Update && a.hunks == [] then Err(EmptyUpdate)
        else Ok(Parser(p.actions + [Settled(a)], None, None, None, None))
  }

  function OpenFile(p: Parser, kind: ActionKind, path: string): Result<Parser, ParseError> {
    match FinishAction(p)
    case Err(e) => Err(e)
    case Ok(q) => if path == "" then Err(EmptyPath) else Ok(q.(current := Some(Bare(kind, path, Custom))))
  }

  function FirstPath(a: Option<string>, b: Option<string>): string {
    if a.Some? && a.value != "" then a.value else if b.Some? then b.value else ""
  }

  function ModeLine(p: Parser, kind: ActionKind, path: string): Result<Parser, ParseError> {
    match FinishHunk(p)
    case Err(e) => Err(e)
    case Ok(q) =>
      if path == "" then Err(NoPath)
      else if q.current.None? then Ok(q.(current := Some(Bare(kind, path, Unified))))
      else Ok(q.(current := Some(q.current.value.(kind := kind))))
  }

  /** A pair of --- and +++ lines names the file the following hunks belong to. */
  function FileHeader(p: Parser, src: string, tgt: string): Result<Parser, ParseError> {
    var kind := if src == "/dev/null" then Add else if tgt == "/dev/null" then Delete else Update;
    var target := if src == "/dev/null" then tgt else if tgt == "/dev/null" then src else tgt;
    match FinishHunk(p)
    case Err(e) => Err(e)
    case Ok(q) =>
      if target == "" || target == "/dev/null" then Err(EmptyPath)
      else if q.current.Some? && q.current.value.path == target then
        Ok(q.(current := Some(q.current.value.(kind := kind))))
      else match FinishAction(q)
        case Err(e) => Err(e)
        case Ok(r) => Ok(r.(current := Some(Bare(kind, target, Unified))))
  }

  predicate IsFileHeader(p: Parser, lines: seq<string>) {
    && |lines| >= 2 && Classify(lines[0]) == OldHeader && "+++ " <= lines[1]
    && (p.hunk.None? || Complete(p.hunk.value))
  }

  function MarkNoNewline(h: Hunk): Hunk {
    var prev := if h.lines == [] then "" else h.lines[|h.lines| - 1];
    if prev == "" || prev[0] == ' ' then h.(oldNoNewline := true, newNoNewline := true)
    else if prev[0] == '-' then h.(oldNoNewline := true)
    else if prev[0] == '+' then h.(newNoNewline := true)
    else h
  }

  predicate UnifiedLine(line: string) { line != "" && line[0] in {' ', '+', '-'} }

  function CustomAddLine(p: Parser, a: Action, line: string): Result<Parser, ParseError> {
    if line != "" && line[0] == '+' then Ok(p.(current := Some(a.(addLines := a.addLines + [line[1..]]))))
    else if NoNewlineMarker <= line then Ok(p.(current := Some(a.(addFinalNewline := false))))
    else if "*** " <= line then Err(BadLine)
    else Ok(p.(current := Some(a.(addLines := a.addLines + [line]))))
  }

  /** Any other line: content of a custom ADD, part of the current hunk, or skipped. */
  function BodyLine(p: Parser, line: string): Result<Parser, ParseError> {
    if p.current.None? then Ok(p)
    else
      var a := p.current.value;
      if a.kind == Add && a.format == Custom && p.hunk.None? then CustomAddLine(p, a, line)
      else if p.hunk.None? then Ok(p)
      else if NoNewlineMarker <= line then Ok(p.(hunk := Some(MarkNoNewline(p.hunk.value))))
      else if a.format == Unified && !UnifiedLine(line) then Err(BadLine)
      else Ok(p.(hunk := Some(p.hunk.value.(lines := p.hunk.value.lines + [line]))))
  }

  function OpenHunk(p: Parser, line: string): Result<Parser, ParseError> {
    match FinishHunk(p)
    case Err(e) => Err(e)
    case Ok(q) => Ok(q.(hunk := Some(Hunk(line, [], ParseHeader(line), false, false))))
  }

  function DiffGitLine(p: Parser, line: string, d: PathDecoder): Result<Parser, ParseError> {
    match FinishAction(p)
    case Err(e) => Err(e)
    case Ok(q) =>
      var (a, b) := d.git(line);
      if FirstPath(a, b) == "" then Err(NoPath) else Ok(q.(diffOld := a, diffNew := b))
  }

  /** One line other than a file header pair. */
  function LineStep(p: Parser, line: string, d: PathDecoder): Result<Parser, ParseError> {
    match Classify(line)
    case BeginPatch => Ok(p)
    case EndPatch => FinishAction(p)
    case AddFile => OpenFile(p, Add, Strip(line[|"*** Add File:"|..]))
    case UpdateFile => OpenFile(p, Update, Strip(line[|"*** Update File:"|..]))
    case DeleteFile => OpenFile(p, Delete, Strip(line[|"*** Delete File:"|..]))
    case DiffGit => DiffGitLine(p, line, d)
    case NewFileMode => ModeLine(p, Add, FirstPath(p.diffNew, p.diffOld))
    case DeletedFileMode => ModeLine(p, Delete, FirstPath(p.diffOld, p.diffNew))
    case Refused => Err(Unsupported)
    case AtSigns => if p.current.Some? then OpenHunk(p, line) else Ok(p)
    case OldHeader => BodyLine(p, line)
    case Body => BodyLine(p, line)
  }

  const Fresh := Parser([], None, None, None, None)

  function ParseLines(p: Parser, lines: seq<string>, d: PathDecoder): Result<Parser, ParseError>
    decreases |lines|
  {
    if lines == [] then FinishAction(p)
    else if IsFileHeader(p, lines) then
      match FileHeader(p, HeaderPath(lines[0][4..], d), HeaderPath(lines[1][4..], d))
      case Err(e) => Err(e)
      case Ok(q) => ParseLines(q, lines[2..], d)
    else
      match LineStep(p, lines[0], d)
      case Err(e) => Err(e)
      case Ok(q) => ParseLines(q, lines[1..], d)
  }

  /** Line ends become newlines and no-break spaces become spaces. */
  function Normalize(text: string): string {
    if text == "" then ""
    else if text[0] == '\r' then
      [NL] + (if |text| >= 2 && text[1] == NL then Normalize(text[2..]) else Normalize(text[1..]))
    else [if text[0] == NoBreakSpace then ' ' else text[0]] + Normalize(text[1..])
  }

  function Parse(text: string, d: PathDecoder): Result<seq<Action>, ParseError> {
    match ParseLines(Fresh, SplitLines(Normalize(text)), d)
    case Err(e) => Err(e)
    case Ok(p) => if p.actions == [] then Err(NoAction) else Ok(p.actions)
  }

  /** The parsing loop: the current action and hunk are updated line by line. */
  method ParsePatch(text: string, d: PathDecoder) returns (r: Result<seq<Action>, ParseError>)
    ensures r == Parse(text, d)
  {
    hide LineStep, FileHeader, Normalize, FinishAction, HeaderPath;
    var lines := SplitLines(Normalize(text));
    var p := Fresh;
    var i := 0;
    assert lines[0..] == lines;
    while i < |lines|
      invariant 0 <= i <= |lines|
      invariant ParseLines(Fresh, lines, d) == ParseLines(p, lines[i..], d)
    {
      var step;
      if IsFileHeader(p, lines[i..]) {
        assert lines[i..][0] == lines[i] && lines[i..][1] == lines[i + 1];
        step := FileHeader(p, HeaderPath(lines[i][4..], d), HeaderPath(lines[i + 1][4..], d));
        assert lines[i..][2..] == lines[i + 2..];
        i := i + 2;
      } else {
        step := LineStep(p, lines[i], d);
        assert lines[i..][1..] == lines[i + 1..];
        i := i + 1;
      }
      if step.Err? {
        return Err(step.error);
      }
      p := step.value;
    }
    var last := FinishAction(p);
    if last.Err? {
      return Err(last.error);
    }
    r := if last.value.actions == [] then Err(NoAction) else Ok(last.value.actions);
  }

  // ---- Headers written by diff ------------------------------------------------------

  function DigitOf(n: nat): char
    requires n < 10
  {
    '0' + n as char
  }

  function Decimal(n: nat): string {
    if n < 10 then [DigitOf(n)] else Decimal(n / 10) + [DigitOf(n % 10)]
  }

  lemma {:induction false} DecimalRead(n: nat, rest: string)
    ensures Digits(Decimal(n) + rest, 0) == Digits(rest, n)
    ensures Decimal(n) != "" && IsDigit(Decimal(n)[0])
  {
    if n < 10 {
      assert ([DigitOf(n)] + rest)[1..] == rest;
    } else {
      var tail := [DigitOf(n % 10)] + rest;
      DecimalRead(n / 10, tail);
      assert Decimal(n) + rest == Decimal(n / 10) + tail;
      assert tail[1..] == rest;
    }
  }

  function RangeText(start: nat, count: nat): string { Decimal(start) + "," + Decimal(count) }

  lemma RangeRead(start: nat, count: nat, rest: string)
    requires rest != "" && !IsDigit(rest[0])
    ensures Range(RangeText(start, count) + rest) == Some((start, count, rest))
  {
    hide Decimal;
    var tail := Decimal(count) + rest;
    DecimalRead(start, [','] + tail);
    assert RangeText(start, count) + rest == Decimal(start) + ([','] + tail);
    DecimalRead(count, rest);
    assert ([','] + tail)[1..] == tail;
  }

  function HeaderText(c: Coords): string {
    "@@ -" + RangeText(c.oldStart, c.oldCount) + " +" + RangeText(c.newStart, c.newCount) + " @@"
  }

  lemma RangeStartsWithDigit(start: nat, count: nat)
    ensures var t := RangeText(start, count); t != "" && IsDigit(t[0])
  {
    DecimalRead(start, "");
  }

  /** A header as diff prints it is read as the four numbers it was printed from. */
  lemma HeaderRead(c: Coords, suffix: string)
    ensures ParseHeader(HeaderText(c) + suffix) == Some(c)
  {
    hide Range, RangeText, Blanks;
    var first, second := RangeText(c.oldStart, c.oldCount), RangeText(c.newStart, c.newCount);
    var afterSecond := " @@" + suffix;
    var afterFirst := " +" + (second + afterSecond);
    var line := HeaderText(c) + suffix;
    assert line == "@@" + (" " + ("-" + (first + afterFirst)));
    RangeRead(c.oldStart, c.oldCount, afterFirst);
    RangeRead(c.newStart, c.newCount, afterSecond);
    RangeStartsWithDigit(c.oldStart, c.oldCount);
    var s1 := "-" + (first + afterFirst);
    BlankThen(s1);
    assert line[2..] == " " + s1;
    assert s1[1..] == first + afterFirst;
    var s4 := "+" + (second + afterSecond);
    assert afterFirst == " " + s4;
    BlankThen(s4);
    assert s4[1..] == second + afterSecond;
    assert afterSecond == " " + ("@@" + suffix);
    BlankThen("@@" + suffix);
    assert "@@" <= line && "@@" <= "@@" + suffix;
    assert Expect(s1, '-') == Some(first + afterFirst) && Expect(s4, '+') == Some(second + afterSecond);
    assert Blanks(line[2..]) == Some(s1) && Blanks(afterFirst) == Some(s4)
           && Blanks(afterSecond) == Some("@@" + suffix);
  }

  lemma BlankThen(s: string)
    requires s != "" && !IsSpace(s[0])
    ensures Blanks(" " + s) == Some(s)
  {
    assert (" " + s)[1..] == s && LStrip(s) == s;
  }
}

/**
 Placing hunks in a list of lines (tools/patch_applier.py): candidate positions,
 the choice between them, one hunk, and a list of hunks with or without rejects.
 */
module PatchApply {
  import opened Common
  import opened PatchHunks
  import opened Text

  datatype Options = Options(maxOffset: int, fuzzy: bool)

  datatype Refusal = NoPosition | TooFar | Ambiguous | NotFound

  datatype Match = Match(index: nat, usedFuzzy: bool)

  /** The lines being edited, the search cursor and the running line delta. */
  datatype Buffer = Buffer(lines: seq<string>, cursor: nat, delta: int)

  function RStrip(s: string): string {
    if s != "" && s[|s| - 1] in {' ', '\t'} then RStrip(s[..|s| - 1]) else s
  }

  predicate SameLine(a: string, b: string, fuzzy: bool) {
    if fuzzy then RStrip(a) == RStrip(b) else a == b
  }

  /** The pattern occurs in the target at i, up to trailing blanks when fuzzy. */
  predicate OccursAt(target: seq<string>, pattern: seq<string>, i: int, fuzzy: bool) {
    0 <= i && i + |pattern| <= |target| &&
    forall k | 0 <= k < |pattern| :: SameLine(target[i + k], pattern[k], fuzzy)
  }

  /** All positions below `bound` where a non-empty pattern occurs, in increasing order. */
  function CandidatesBelow(target: seq<string>, pattern: seq<string>, fuzzy: bool, bound: nat): seq<nat> {
    if bound == 0 || pattern == [] then []
    else
      var before := CandidatesBelow(target, pattern, fuzzy, bound - 1);
      if OccursAt(target, pattern, bound - 1, fuzzy) then before + [bound - 1] else before
  }

  function Candidates(target: seq<string>, pattern: seq<string>, fuzzy: bool): seq<nat> {
    CandidatesBelow(target, pattern, fuzzy, |target| + 1)
  }

  function BestDistance(cands: seq<nat>, e: nat): nat
    requires cands != []
  {
    if |cands| == 1 then Dist(cands[0], e)
    else Min(Dist(cands[0], e), BestDistance(cands[1..], e))
  }

  /** The candidates at distance d from e, in order. */
  function AtDistance(cands: seq<nat>, e: nat, d: nat): seq<nat> {
    if cands == [] then []
    else
      var rest := AtDistance(cands[1..], e, d);
      if Dist(cands[0], e) == d then [cands[0]] + rest else rest
  }

  function AtOrAfter(cands: seq<nat>, cursor: nat): seq<nat> {
    if cands == [] then []
    else
      var rest := AtOrAfter(cands[1..], cursor);
      if cands[0] >= cursor then [cands[0]] + rest else rest
  }

  /** 0-based line where the old range starts; an empty range counts from the line before it. */
  function OldBase(c: Coords): int { if c.oldCount == 0 then c.oldStart else c.oldStart - 1 }

  function NewBase(c: Coords): int { OldBase(ReverseCoords(c)) }

  function Expected(c: Coords, delta: int): nat { Max(0, OldBase(c) + delta) }

  /** The nearest candidate to e, when there is just one and it is within the offset limit. */
  function SelectNearest(cands: seq<nat>, e: nat, maxOffset: int): Result<nat, Refusal>
    requires cands != []
  {
    var d := BestDistance(cands, e);
    var best := AtDistance(cands, e, d);
    if |best| == 1 && (maxOffset < 0 || d <= maxOffset) then Ok(best[0])
    else if 0 <= maxOffset < d then Err(TooFar)
    else Err(Ambiguous)
  }

  function SelectFuzzy(lines: seq<string>, oldLines: seq<string>, coords: Option<Coords>,
                       cursor: nat, delta: int, opts: Options): Result<Match, Refusal>
  {
    var fuzzy := Candidates(lines, oldLines, true);
    match coords
    case Some(c) =>
      var e := Expected(c, delta);
      if e in fuzzy then Ok(Match(e, true))
      else if fuzzy != [] then
        match SelectNearest(fuzzy, e, opts.maxOffset)
        case Ok(i) => Ok(Match(i, true))
        case Err(_) => Err(Ambiguous)
      else Err(NotFound)
    case None =>
      var after := AtOrAfter(fuzzy, cursor);
      if |after| == 1 then Ok(Match(after[0], true))
      else if |after| > 1 then Err(Ambiguous)
      else Err(NotFound)
  }

  /** Chooses the position of a hunk; it never picks between equally good matches. */
  function SelectMatch(lines: seq<string>, oldLines: seq<string>, coords: Option<Coords>,
                       cursor: nat, delta: int, opts: Options): Result<Match, Refusal>
  {
    if oldLines == [] then
      match coords
      case None => Err(NoPosition)
      case Some(c) => Ok(Match(Min(|lines|, Expected(c, delta)), false))
    else
      var exact := Candidates(lines, oldLines, false);
      if coords.Some? then
        var e := Expected(coords.value, delta);
        if e in exact then Ok(Match(e, false))
        else if exact != [] then
          match SelectNearest(exact, e, opts.maxOffset)
          case Ok(i) => Ok(Match(i, false))
          case Err(r) => Err(r)
        else if !opts.fuzzy then Err(NotFound)
        else SelectFuzzy(lines, oldLines, coords, cursor, delta, opts)
      else
        var after := AtOrAfter(exact, cursor);
        if |after| == 1 then Ok(Match(after[0], false))
        else if |after| > 1 then Err(Ambiguous)
        else if |exact| == 1 then Ok(Match(exact[0], false))
        else if |exact| > 1 then Err(Ambiguous)
        else if !opts.fuzzy then Err(NotFound)
        else SelectFuzzy(lines, oldLines, coords, cursor, delta, opts)
  }

  // ---- What a selected match means -------------------------------------------------

  /** i is an occurrence strictly nearer to e than every other one, and near enough. */
  ghost predicate UniquelyNearest(lines: seq<string>, oldLines: seq<string>, fuzzy: bool, i: nat, e: nat,
                                  maxOffset: int) {
    && OccursAt(lines, oldLines, i, fuzzy)
    && (forall j: nat | j != i && OccursAt(lines, oldLines, j, fuzzy) :: Dist(i, e) < Dist(j, e))
    && (maxOffset < 0 || Dist(i, e) <= maxOffset)
  }

  /** i is the one occurrence at or after the cursor. */
  ghost predicate OnlyOneFrom(lines: seq<string>, oldLines: seq<string>, fuzzy: bool, i: nat, cursor: nat) {
    && OccursAt(lines, oldLines, i, fuzzy) && cursor <= i
    && (forall j: nat | cursor <= j && OccursAt(lines, oldLines, j, fuzzy) :: j == i)
  }

  ghost predicate NoOccurrence(lines: seq<string>, oldLines: seq<string>, fuzzy: bool, from: nat) {
    forall j: nat | from <= j :: !OccursAt(lines, oldLines, j, fuzzy)
  }

  /** Exactly which exact match is chosen. */
  ghost predicate ExactChoice(lines: seq<string>, oldLines: seq<string>, coords: Option<Coords>,
                              cursor: nat, delta: int, maxOffset: int, i: nat)
  {
    match coords
    case Some(c) => UniquelyNearest(lines, oldLines, false, i, Expected(c, delta), maxOffset)
    case None =>
      || OnlyOneFrom(lines, oldLines, false, i, cursor)
      || (NoOccurrence(lines, oldLines, false, cursor) && OnlyOneFrom(lines, oldLines, false, i, 0))
  }

  /** Exactly which fuzzy match is chosen once no exact match exists. */
  ghost predicate FuzzyChoice(lines: seq<string>, oldLines: seq<string>, coords: Option<Coords>,
                              cursor: nat, delta: int, maxOffset: int, i: nat)
  {
    match coords
    case Some(c) => UniquelyNearest(lines, oldLines, true, i, Expected(c, delta), maxOffset)
    case None => OnlyOneFrom(lines, oldLines, true, i, cursor)
  }

  ghost predicate Increasing(s: seq<nat>) {
    forall a, b | 0 <= a < b < |s| :: s[a] < s[b]
  }

  lemma {:induction false} CandidatesBelowSpec(target: seq<string>, pattern: seq<string>, fuzzy: bool, bound: nat)
    requires pattern != []
    ensures var r := CandidatesBelow(target, pattern, fuzzy, bound);
            && (forall i: nat :: i in r <==> i < bound && OccursAt(target, pattern, i, fuzzy))
            && Increasing(r)
  {
    hide OccursAt;
    if bound != 0 {
      CandidatesBelowSpec(target, pattern, fuzzy, bound - 1);
      var before := CandidatesBelow(target, pattern, fuzzy, bound - 1);
      assert forall a | 0 <= a < |before| :: before[a] in before;
    }
  }

  /** The candidate list holds exactly the occurrences, in order. */
  lemma CandidatesSpec(lines: seq<string>, pattern: seq<string>, fuzzy: bool)
    requires pattern != []
    ensures forall i: nat :: i in Candidates(lines, pattern, fuzzy) <==> OccursAt(lines, pattern, i, fuzzy)
    ensures Increasing(Candidates(lines, pattern, fuzzy))
  {
    CandidatesBelowSpec(lines, pattern, fuzzy, |lines| + 1);
  }

  lemma {:induction false} BestDistanceSpec(cands: seq<nat>, e: nat)
    requires cands != []
    ensures forall i | i in cands :: BestDistance(cands, e) <= Dist(i, e)
    ensures exists i | i in cands :: BestDistance(cands, e) == Dist(i, e)
  {
    assert cands[0] in cands;
    if |cands| > 1 {
      BestDistanceSpec(cands[1..], e);
      var w :| w in cands[1..] && BestDistance(cands[1..], e) == Dist(w, e);
      assert w in cands;
    }
  }

  lemma {:induction false} AtDistanceSpec(cands: seq<nat>, e: nat, d: nat)
    requires Increasing(cands)
    ensures forall i: nat :: i in AtDistance(cands, e, d) <==> i in cands && Dist(i, e) == d
    ensures Increasing(AtDistance(cands, e, d))
  {
    hide Dist;
    if cands != [] {
      assert cands == [cands[0]] + cands[1..];
      AtDistanceSpec(cands[1..], e, d);
      var rest := AtDistance(cands[1..], e, d);
      assert forall k | 0 <= k < |rest| :: rest[k] in rest && rest[k] in cands[1..];
    }
  }

  lemma {:induction false} AtOrAfterSpec(cands: seq<nat>, cursor: nat)
    requires Increasing(cands)
    ensures forall i: nat :: i in AtOrAfter(cands, cursor) <==> i in cands && i >= cursor
    ensures Increasing(AtOrAfter(cands, cursor))
  {
    if cands != [] {
      assert cands == [cands[0]] + cands[1..];
      AtOrAfterSpec(cands[1..], cursor);
      var rest := AtOrAfter(cands[1..], cursor);
      assert forall k | 0 <= k < |rest| :: rest[k] in rest && rest[k] in cands[1..];
    }
  }

  lemma OneElement(s: seq<nat>, i: nat)
    requires Increasing(s)
    ensures |s| == 1 && s[0] == i <==> i in s && forall j | j in s :: j == i
  {
    assert forall k | 0 <= k < |s| :: s[k] in s;
    assert |s| > 1 ==> s[0] != s[1];
  }

  lemma SelectNearestSpec(cands: seq<nat>, e: nat, maxOffset: int, i: nat)
    requires cands != [] && Increasing(cands)
    ensures SelectNearest(cands, e, maxOffset) == Ok(i) <==>
            && i in cands && (forall j | j in cands && j != i :: Dist(i, e) < Dist(j, e))
            && (maxOffset < 0 || Dist(i, e) <= maxOffset)
  {
    hide AtDistance, BestDistance;
    var d := BestDistance(cands, e);
    BestDistanceSpec(cands, e);
    AtDistanceSpec(cands, e, d);
    OneElement(AtDistance(cands, e, d), i);
    var w :| w in cands && d == Dist(w, e);
  }

  lemma AfterSpec(cands: seq<nat>, cursor: nat, i: nat)
    requires Increasing(cands)
    ensures |AtOrAfter(cands, cursor)| == 1 && AtOrAfter(cands, cursor)[0] == i <==>
            && i in cands && cursor <= i && forall j | j in cands && cursor <= j :: j == i
    ensures |AtOrAfter(cands, cursor)| == 0 <==> forall j | j in cands :: j < cursor
  {
    hide AtOrAfter;
    AtOrAfterSpec(cands, cursor);
    var after := AtOrAfter(cands, cursor);
    OneElement(after, i);
    if |after| > 0 { assert after[0] in after; }
  }

  lemma SelectFuzzySpec(lines: seq<string>, oldLines: seq<string>, coords: Option<Coords>,
                        cursor: nat, delta: int, opts: Options, i: nat)
    requires oldLines != []
    ensures SelectFuzzy(lines, oldLines, coords, cursor, delta, opts) == Ok(Match(i, true)) <==>
            FuzzyChoice(lines, oldLines, coords, cursor, delta, opts.maxOffset, i)
  {
    hide Candidates, SelectNearest, OccursAt, AtOrAfter, Expected;
    CandidatesSpec(lines, oldLines, true);
    var fuzzy := Candidates(lines, oldLines, true);
    match coords {
      case Some(c) =>
        var e := Expected(c, delta);
        if e in fuzzy {
          assert Dist(e, e) == 0;
        } else if fuzzy != [] {
          SelectNearestSpec(fuzzy, e, opts.maxOffset, i);
        }
      case None => AfterSpec(fuzzy, cursor, i);
    }
  }

  /**
   The chosen match is the uniquely nearest exact one (or, without coordinates, the only
   one); a fuzzy match is chosen only when no exact match exists. Nothing else is accepted.
   */
  lemma SelectMatchSpec(lines: seq<string>, oldLines: seq<string>, coords: Option<Coords>,
                        cursor: nat, delta: int, opts: Options, i: nat)
    requires oldLines != []
    ensures SelectMatch(lines, oldLines, coords, cursor, delta, opts) == Ok(Match(i, false)) <==>
            ExactChoice(lines, oldLines, coords, cursor, delta, opts.maxOffset, i)
    ensures SelectMatch(lines, oldLines, coords, cursor, delta, opts) == Ok(Match(i, true)) <==>
            && opts.fuzzy && NoOccurrence(lines, oldLines, false, 0)
            && FuzzyChoice(lines, oldLines, coords, cursor, delta, opts.maxOffset, i)
  {
    hide SelectMatch, SelectFuzzy, OccursAt;
    SelectFuzzySpec(lines, oldLines, coords, cursor, delta, opts, i);
    match coords {
      case Some(c) => SelectByHeader(lines, oldLines, c, cursor, delta, opts, i);
      case None => SelectByCursor(lines, oldLines, cursor, delta, opts, i);
    }
  }

  lemma SelectByHeader(lines: seq<string>, oldLines: seq<string>, c: Coords,
                       cursor: nat, delta: int, opts: Options, i: nat)
    requires oldLines != []
    ensures var r := SelectMatch(lines, oldLines, Some(c), cursor, delta, opts);
            && (r == Ok(Match(i, false)) <==>
                UniquelyNearest(lines, oldLines, false, i, Expected(c, delta), opts.maxOffset))
            && (NoOccurrence(lines, oldLines, false, 0) && opts.fuzzy ==>
                  r == SelectFuzzy(lines, oldLines, Some(c), cursor, delta, opts))
            && (!(NoOccurrence(lines, oldLines, false, 0) && opts.fuzzy) ==> r != Ok(Match(i, true)))
  {
    hide SelectFuzzy, SelectNearest, Candidates, Expected, OccursAt;
    CandidatesSpec(lines, oldLines, false);
    FuzzyMatchIsMarked(lines, oldLines, Some(c), cursor, delta, opts);
    var exact := Candidates(lines, oldLines, false);
    assert exact != [] ==> exact[0] in exact;
    var e := Expected(c, delta);
    if e in exact {
      assert Dist(e, e) == 0;
    } else if exact != [] {
      SelectNearestSpec(exact, e, opts.maxOffset, i);
    }
  }

  lemma SelectByCursor(lines: seq<string>, oldLines: seq<string>, cursor: nat, delta: int, opts: Options, i: nat)
    requires oldLines != []
    ensures var r := SelectMatch(lines, oldLines, None, cursor, delta, opts);
            && (r == Ok(Match(i, false)) <==> ExactChoice(lines, oldLines, None, cursor, delta, opts.maxOffset, i))
            && (NoOccurrence(lines, oldLines, false, 0) && opts.fuzzy ==>
                  r == SelectFuzzy(lines, oldLines, None, cursor, delta, opts))
            && (!(NoOccurrence(lines, oldLines, false, 0) && opts.fuzzy) ==> r != Ok(Match(i, true)))
  {
    hide SelectFuzzy, AtOrAfter, Candidates, OccursAt;
    CandidatesSpec(lines, oldLines, false);
    FuzzyMatchIsMarked(lines, oldLines, None, cursor, delta, opts);
    var exact := Candidates(lines, oldLines, false);
    assert exact != [] ==> exact[0] in exact;
    AfterSpec(exact, cursor, i);
    OneElement(exact, i);
  }

  lemma FuzzyMatchIsMarked(lines: seq<string>, oldLines: seq<string>, coords: Option<Coords>,
                           cursor: nat, delta: int, opts: Options)
    ensures var r := SelectFuzzy(lines, oldLines, coords, cursor, delta, opts);
            r.Ok? ==> r.value.usedFuzzy
  {
  }

  lemma SelectMatchInRange(lines: seq<string>, oldLines: seq<string>, coords: Option<Coords>,
                           cursor: nat, delta: int, opts: Options)
    ensures var r := SelectMatch(lines, oldLines, coords, cursor, delta, opts);
            r.Ok? ==> OccursAt(lines, oldLines, r.value.index, r.value.usedFuzzy)
    ensures var r := SelectMatch(lines, oldLines, coords, cursor, delta, opts);
            r.Ok? && r.value.usedFuzzy ==> opts.fuzzy
  {
    var r := SelectMatch(lines, oldLines, coords, cursor, delta, opts);
    if r.Ok? && oldLines != [] {
      SelectMatchSpec(lines, oldLines, coords, cursor, delta, opts, r.value.index);
    }
  }

  // ---- One hunk ---------------------------------------------------------------------

  function Splice(lines: seq<string>, at: nat, removed: nat, inserted: seq<string>): seq<string>
    requires at + removed <= |lines|
  {
    lines[..at] + inserted + lines[at + removed..]
  }

  predicate EndsBlank(lines: seq<string>) { lines != [] && lines[|lines| - 1] == "" }

  /** A no-newline marker at the end of the file settles whether the last line is closed. */
  function SettleFinalNewline(lines: seq<string>, wanted: bool): seq<string> {
    if wanted && !EndsBlank(lines) then lines + [""]
    else if !wanted && EndsBlank(lines) then lines[..|lines| - 1]
    else lines
  }

  /** The buffer after the hunk has been put at a position where it fits. */
  function ApplyAt(b: Buffer, h: Hunk, at: nat): Buffer
    requires at + |OldSide(h.lines)| <= |b.lines|
  {
    var oldLines, newLines := OldSide(h.lines), NewSide(h.lines);
    var logicalEof := if EndsBlank(b.lines) then |b.lines| - 1 else |b.lines|;
    var touchesEof := at + |oldLines| == logicalEof;
    var spliced := Splice(b.lines, at, |oldLines|, newLines);
    var lines := if touchesEof && !Markerless(h) then SettleFinalNewline(spliced, !h.newNoNewline) else spliced;
    Buffer(lines, at + |newLines|, b.delta + |newLines| - |oldLines|)
  }

  function ApplyHunk(b: Buffer, h: Hunk, opts: Options): Result<Buffer, Refusal> {
    SelectMatchInRange(b.lines, OldSide(h.lines), h.coords, b.cursor, b.delta, opts);
    match SelectMatch(b.lines, OldSide(h.lines), h.coords, b.cursor, b.delta, opts)
    case Err(r) => Err(r)
    case Ok(m) => Ok(ApplyAt(b, h, m.index))
  }

  /** Without rejects: the first hunk that does not apply stops everything. */
  function ApplyStrict(b: Buffer, hs: seq<Hunk>, opts: Options): Result<Buffer, Refusal>
    decreases |hs|
  {
    if hs == [] then Ok(b)
    else match ApplyHunk(b, hs[0], opts)
      case Err(r) => Err(r)
      case Ok(b') => ApplyStrict(b', hs[1..], opts)
  }

  /** With rejects: a hunk that does not apply is set aside. */
  function ApplyLenient(b: Buffer, hs: seq<Hunk>, opts: Options): (Buffer, seq<Hunk>)
    decreases |hs|
  {
    if hs == [] then (b, [])
    else match ApplyHunk(b, hs[0], opts)
      case Err(_) => var (b', failed) := ApplyLenient(b, hs[1..], opts); (b', [hs[0]] + failed)
      case Ok(b') => ApplyLenient(b', hs[1..], opts)
  }

  function Start(text: string): Buffer { Buffer(Split(text), 0, 0) }

  datatype Applied = Applied(text: string, failed: seq<Hunk>)

  function ApplyText(text: string, hs: seq<Hunk>, allowRejects: bool, opts: Options): Result<Applied, Refusal> {
    if allowRejects then
      var (b, failed) := ApplyLenient(Start(text), hs, opts);
      Ok(Applied(Join(b.lines), failed))
    else match ApplyStrict(Start(text), hs, opts)
      case Err(r) => Err(r)
      case Ok(b) => Ok(Applied(Join(b.lines), []))
  }

  /** Splices the hunk in place and settles the final newline. */
  method EditAt(b: Buffer, hunk: Hunk, at: nat) returns (r: Buffer)
    requires at + |OldSide(hunk.lines)| <= |b.lines|
    ensures r == ApplyAt(b, hunk, at)
  {
    hide OldSide, NewSide;
    var lines := b.lines;
    var oldLines, newLines := OldSide(hunk.lines), NewSide(hunk.lines);
    var logicalEof := if EndsBlank(lines) then |lines| - 1 else |lines|;
    var touchesEof := at + |oldLines| == logicalEof;
    lines := lines[..at] + newLines + lines[at + |oldLines|..];
    if touchesEof && (hunk.oldNoNewline || hunk.newNoNewline) {
      var wantFinalNewline := !hunk.newNoNewline;
      var hasFinalNewline := EndsBlank(lines);
      if wantFinalNewline && !hasFinalNewline {
        lines := lines + [""];
      } else if !wantFinalNewline && hasFinalNewline {
        lines := lines[..|lines| - 1];
      }
    }
    r := Buffer(lines, at + |newLines|, b.delta + |newLines| - |oldLines|);
  }

  method PlaceHunk(b: Buffer, hunk: Hunk, opts: Options) returns (r: Result<Buffer, Refusal>)
    ensures r == ApplyHunk(b, hunk, opts)
  {
    var m := SelectMatch(b.lines, OldSide(hunk.lines), hunk.coords, b.cursor, b.delta, opts);
    SelectMatchInRange(b.lines, OldSide(hunk.lines), hunk.coords, b.cursor, b.delta, opts);
    if m.Err? {
      return Err(m.error);
    }
    var edited := EditAt(b, hunk, m.value.index);
    r := Ok(edited);
  }

  /** The editing loop: it updates the line list, the cursor and the delta hunk by hunk. */
  method ApplyHunksToText(text: string, hs: seq<Hunk>, allowRejects: bool, opts: Options)
    returns (r: Result<Applied, Refusal>)
    ensures r == ApplyText(text, hs, allowRejects, opts)
  {
    var b := Start(text);
    var failed: seq<Hunk> := [];
    assert hs[0..] == hs && failed + ApplyLenient(b, hs, opts).1 == ApplyLenient(b, hs, opts).1;
    for idx := 0 to |hs|
      invariant !allowRejects ==> failed == []
      invariant !allowRejects ==> ApplyStrict(Start(text), hs, opts) == ApplyStrict(b, hs[idx..], opts)
      invariant ApplyLenient(Start(text), hs, opts).0 == ApplyLenient(b, hs[idx..], opts).0
      invariant ApplyLenient(Start(text), hs, opts).1 == failed + ApplyLenient(b, hs[idx..], opts).1
    {
      assert hs[idx..][0] == hs[idx] && hs[idx..][1..] == hs[idx + 1..];
      var placed := PlaceHunk(b, hs[idx], opts);
      if placed.Ok? {
        b := placed.value;
      } else if allowRejects {
        failed := failed + [hs[idx]];
      } else {
        return Err(placed.error);
      }
    }
    assert failed + [] == failed;
    r := Ok(Applied(Join(b.lines), failed));
  }

  // ---- Rejects and strict application -----------------------------------------------

  /** The hunks a lenient run does apply, in order. */
  function AcceptedHunks(b: Buffer, hs: seq<Hunk>, opts: Options): seq<Hunk>
    decreases |hs|
  {
    if hs == [] then []
    else match ApplyHunk(b, hs[0], opts)
      case Err(_) => AcceptedHunks(b, hs[1..], opts)
      case Ok(b') => [hs[0]] + AcceptedHunks(b', hs[1..], opts)
  }

  /**
   Allowing rejects is the same as strictly applying only the accepted hunks, and every
   hunk is either accepted or returned as failed.
   */
  lemma {:induction false} LenientIsStrictOnAccepted(b: Buffer, hs: seq<Hunk>, opts: Options)
    ensures ApplyStrict(b, AcceptedHunks(b, hs, opts), opts) == Ok(ApplyLenient(b, hs, opts).0)
    ensures multiset(hs) == multiset(AcceptedHunks(b, hs, opts)) + multiset(ApplyLenient(b, hs, opts).1)
    ensures ApplyLenient(b, hs, opts).1 == [] <==> ApplyStrict(b, hs, opts).Ok?
    decreases |hs|
  {
    if hs != [] {
      assert hs == [hs[0]] + hs[1..];
      match ApplyHunk(b, hs[0], opts) {
        case Err(_) =>
          LenientIsStrictOnAccepted(b, hs[1..], opts);
        case Ok(b') =>
          LenientIsStrictOnAccepted(b', hs[1..], opts);
          var rest := AcceptedHunks(b', hs[1..], opts);
          assert ([hs[0]] + rest)[1..] == rest;
      }
    }
  }

  /** With rejects allowed, each hunk is put into what the earlier ones left, and set aside exactly if it cannot be. */
  lemma {:induction false} LenientSnoc(b: Buffer, hs: seq<Hunk>, h: Hunk, opts: Options)
    ensures var (before, failed) := ApplyLenient(b, hs, opts);
            ApplyLenient(b, hs + [h], opts)
            == match ApplyHunk(before, h, opts)
               case Err(_) => (before, failed + [h])
               case Ok(after) => (after, failed)
    decreases |hs|
  {
    hide ApplyHunk;
    if hs == [] {
      assert hs + [h] == [h] && [h] + [] == [h];
    } else {
      assert (hs + [h])[1..] == hs[1..] + [h];
      match ApplyHunk(b, hs[0], opts)
      case Err(_) =>
        LenientSnoc(b, hs[1..], h, opts);
        var (before, failed) := ApplyLenient(b, hs[1..], opts);
        assert [hs[0]] + (failed + [h]) == [hs[0]] + failed + [h];
      case Ok(b') => LenientSnoc(b', hs[1..], h, opts);
    }
  }

  /** An accepted markerless hunk without fuzzy matching replaces its old side, and only that. */
  lemma ExactSplice(b: Buffer, h: Hunk, opts: Options)
    requires !opts.fuzzy && Markerless(h) && ApplyHunk(b, h, opts).Ok?
    ensures var b' := ApplyHunk(b, h, opts).value;
            exists at: nat | at + |OldSide(h.lines)| <= |b.lines| ::
              && b.lines[at..at + |OldSide(h.lines)|] == OldSide(h.lines)
              && b'.lines == b.lines[..at] + NewSide(h.lines) + b.lines[at + |OldSide(h.lines)|..]
              && b'.cursor == at + |NewSide(h.lines)|
              && (OldSide(h.lines) != [] ==>
                    ExactChoice(b.lines, OldSide(h.lines), h.coords, b.cursor, b.delta, opts.maxOffset, at))
    ensures var b' := ApplyHunk(b, h, opts).value;
            b'.delta - b.delta == |b'.lines| - |b.lines|
  {
    var oldLines := OldSide(h.lines);
    SelectMatchInRange(b.lines, oldLines, h.coords, b.cursor, b.delta, opts);
    var m := SelectMatch(b.lines, oldLines, h.coords, b.cursor, b.delta, opts).value;
    if oldLines != [] {
      SelectMatchSpec(b.lines, oldLines, h.coords, b.cursor, b.delta, opts, m.index);
    }
    var at := m.index;
    assert b.lines[at..at + |oldLines|] == oldLines;
    assert at + |OldSide(h.lines)| <= |b.lines|;
  }

  /** Over a whole run the running delta is the change in the number of lines. */
  lemma {:induction false} DeltaIsLineChange(b: Buffer, hs: seq<Hunk>, opts: Options)
    requires !opts.fuzzy && forall h | h in hs :: Markerless(h)
    ensures var b' := ApplyLenient(b, hs, opts).0;
            b'.delta - b.delta == |b'.lines| - |b.lines|
    decreases |hs|
  {
    if hs != [] {
      assert hs[0] in hs;
      match ApplyHunk(b, hs[0], opts) {
        case Err(_) => DeltaIsLineChange(b, hs[1..], opts);
        case Ok(b') =>
          ExactSplice(b, hs[0], opts);
          DeltaIsLineChange(b', hs[1..], opts);
      }
    }
  }

  // ---- The end of the file ----------------------------------------------------------

  predicate EndsWithNewline(text: string) { text != "" && text[|text| - 1] == NL }

  /** The lines of a text without the empty piece that a final newline leaves. */
  function Content(lines: seq<string>): seq<string> { if EndsBlank(lines) then lines[..|lines| - 1] else lines }

  /** Whole lines, each ended by a newline. */
  function Closed(lines: seq<string>): string { if lines == [] then "" else Join(lines) + [NL] }

  /** Where the hunk is put, once it is accepted. */
  function Place(b: Buffer, h: Hunk, opts: Options): nat
    requires ApplyHunk(b, h, opts).Ok?
  {
    SelectMatch(b.lines, OldSide(h.lines), h.coords, b.cursor, b.delta, opts).value.index
  }

  lemma {:induction false} JoinEnds(lines: seq<string>)
    requires lines != []
    ensures EndsWithNewline(Join(lines)) <==>
              EndsWithNewline(lines[|lines| - 1]) || (|lines| > 1 && lines[|lines| - 1] == "")
    ensures Closed(lines) == Join(lines + [""])
  {
    var n := |lines| - 1;
    JoinAppend(lines, "");
    assert Join(lines) + [NL] + "" == Join(lines) + [NL];
    if n > 0 {
      JoinAppend(lines[..n], lines[n]);
      assert lines[..n] + [lines[n]] == lines;
    }
  }

  /** The lines the hunk leaves between the start of the file and its own end. */
  function Edited(b: Buffer, h: Hunk, opts: Options): seq<string>
    requires ApplyHunk(b, h, opts).Ok?
  {
    SelectMatchInRange(b.lines, OldSide(h.lines), h.coords, b.cursor, b.delta, opts);
    b.lines[..Place(b, h, opts)] + NewSide(h.lines)
  }

  /**
   A hunk with a no-newline marker whose old side ends the file: the text is the content before the hunk
   and the new side, and it is closed by a newline exactly when the new side is not marked. A text that
   had no final newline first gives up one empty last line of the result.
   */
  lemma MarkedEnd(b: Buffer, h: Hunk, opts: Options)
    requires !Markerless(h) && ApplyHunk(b, h, opts).Ok?
    requires Place(b, h, opts) + |OldSide(h.lines)| == |Content(b.lines)|
    ensures var edited := Edited(b, h, opts);
            var kept := if EndsBlank(b.lines) then edited else Content(edited);
            Join(ApplyHunk(b, h, opts).value.lines) == if h.newNoNewline then Join(kept) else Closed(kept)
  {
    hide OldSide, NewSide, SelectMatch, Join, SettleFinalNewline;
    SelectMatchInRange(b.lines, OldSide(h.lines), h.coords, b.cursor, b.delta, opts);
    var end, edited := Place(b, h, opts) + |OldSide(h.lines)|, Edited(b, h, opts);
    assert b.lines[end..] == if EndsBlank(b.lines) then [""] else [];
    assert edited + [] == edited;
    SettledEnd(edited, EndsBlank(b.lines), !h.newNoNewline);
  }

  lemma SettledEnd(edited: seq<string>, blank: bool, wanted: bool)
    ensures var kept := if blank then edited else Content(edited);
            Join(SettleFinalNewline(if blank then edited + [""] else edited, wanted))
            == if wanted then Closed(kept) else Join(kept)
  {
    var kept := if blank then edited else Content(edited);
    ClosedIs(kept);
    hide Join, Closed;
    assert (kept + [""])[..|kept|] == kept;
    if !blank && EndsBlank(edited) { assert edited == kept + [""]; }
  }

  lemma ClosedIs(lines: seq<string>)
    ensures Closed(lines) == Join(lines + [""])
  {
    if lines != [] { JoinEnds(lines); } else { assert lines + [""] == [""]; }
  }

  /** So, when the last line left is not empty, there is a final newline exactly if the new side is not marked. */
  lemma MarkedEndNewline(b: Buffer, h: Hunk, opts: Options)
    requires !Markerless(h) && ApplyHunk(b, h, opts).Ok?
    requires Place(b, h, opts) + |OldSide(h.lines)| == |Content(b.lines)|
    requires var edited := Edited(b, h, opts);
             edited != [] && edited[|edited| - 1] != "" && NL !in edited[|edited| - 1]
    ensures EndsWithNewline(Join(ApplyHunk(b, h, opts).value.lines)) <==> !h.newNoNewline
  {
    hide ApplyHunk, Edited, Place;
    MarkedEnd(b, h, opts);
    JoinEnds(Edited(b, h, opts));
  }

  /**
   Any other accepted hunk, fuzzy or not, is a plain splice. Every accepted hunk moves the cursor behind
   its new side and the delta by what it gained.
   */
  lemma PlainSplice(b: Buffer, h: Hunk, opts: Options)
    requires ApplyHunk(b, h, opts).Ok?
    ensures var after, end := ApplyHunk(b, h, opts).value, Place(b, h, opts) + |OldSide(h.lines)|;
            && end <= |b.lines| && after.cursor == |Edited(b, h, opts)|
            && after.delta == b.delta + |NewSide(h.lines)| - |OldSide(h.lines)|
            && (Markerless(h) || end != |Content(b.lines)| ==> after.lines == Edited(b, h, opts) + b.lines[end..])
  {
    hide OldSide, NewSide, SelectMatch;
    SelectMatchInRange(b.lines, OldSide(h.lines), h.coords, b.cursor, b.delta, opts);
  }

  lemma SameEnd(lines: seq<string>, after: seq<string>, front: seq<string>, end: nat)
    requires end < |Content(lines)| && after == front + lines[end..]
    ensures EndsWithNewline(Join(after)) <==> EndsWithNewline(Join(lines))
  {
    JoinEnds(after);
    JoinEnds(lines);
    hide Join;
    assert after[|after| - 1] == lines[|lines| - 1];
  }

  /** A hunk that stops short of the last line, marked or not, leaves the end of the text as it was. */
  lemma EarlierHunkKeepsEnd(b: Buffer, h: Hunk, opts: Options)
    requires ApplyHunk(b, h, opts).Ok? && Place(b, h, opts) + |OldSide(h.lines)| < |Content(b.lines)|
    ensures EndsWithNewline(Join(ApplyHunk(b, h, opts).value.lines)) <==> EndsWithNewline(Join(b.lines))
  {
    hide OldSide, NewSide, SelectMatch, ApplyHunk, Place, Edited, EndsWithNewline, Join;
    PlainSplice(b, h, opts);
    var after, end := ApplyHunk(b, h, opts).value.lines, Place(b, h, opts) + |OldSide(h.lines)|;
    SameEnd(b.lines, after, Edited(b, h, opts), end);
  }

  /** Replaces the only line of a text by one marked as not ended by a newline. */
  const UnclosingHunk := Hunk("@@ -1 +1 @@", ["-a", "+b"], Some(Coords(1, 1, 1, 1)), false, true)

  lemma UnclosingHunkApplies(opts: Options)
    ensures OldSide(UnclosingHunk.lines) == ["a"] && NewSide(UnclosingHunk.lines) == ["b"]
    ensures var r := ApplyHunk(Buffer(["a", ""], 0, 0), UnclosingHunk, opts);
            r.Ok? && Place(Buffer(["a", ""], 0, 0), UnclosingHunk, opts) == 0
  {
    var lines := ["a", ""];
    assert ["-a", "+b"][..1] == ["-a"] && ["-a"][..0] == [];
    assert OldSide(["-a"]) == ["a"] && NewSide(["-a"]) == [];
    hide SelectMatch, OldSide, NewSide;
    assert OccursAt(lines, ["a"], 0, false);
    SelectMatchSpec(lines, ["a"], UnclosingHunk.coords, 0, 0, opts, 0);
  }

  /** On a text that ends with a newline the newline goes. */
  lemma MarkerExample(opts: Options)
    ensures ApplyText("a" + [NL], [UnclosingHunk], false, opts) == Ok(Applied("b", []))
  {
    var b := Buffer(["a", ""], 0, 0);
    assert Split("a" + [NL]) == b.lines by {
      assert Join(["a", ""]) == "a" + [NL];
      SplitJoin(["a", ""]);
    }
    UnclosingHunkApplies(opts);
    MarkedEnd(b, UnclosingHunk, opts);
    hide ApplyHunk, Place, Split;
    assert Edited(b, UnclosingHunk, opts) == ["b"];
    assert [UnclosingHunk][1..] == [];
    assert ApplyStrict(b, [UnclosingHunk], opts) == ApplyHunk(b, UnclosingHunk, opts);
  }

  // ---- Where a hunk goes ------------------------------------------------------------

  /** A hunk found at the lines its header numbers, counted from one and moved by what changed above, goes there. */
  lemma HeaderPlaces(b: Buffer, h: Hunk, opts: Options, at: nat)
    requires h.coords.Some? && h.coords.value.oldCount > 0 && at == h.coords.value.oldStart - 1 + b.delta
    requires OldSide(h.lines) != [] && at + |OldSide(h.lines)| <= |b.lines|
    requires b.lines[at..at + |OldSide(h.lines)|] == OldSide(h.lines)
    ensures ApplyHunk(b, h, opts).Ok? && Place(b, h, opts) == at
  {
    hide SelectMatch, OldSide, NewSide;
    var old' := OldSide(h.lines);
    forall k | 0 <= k < |old'|
      ensures SameLine(b.lines[at + k], old'[k], false)
    {
      assert old'[k] == b.lines[at..at + |old'|][k];
    }
    assert OccursAt(b.lines, old', at, false);
    SelectMatchSpec(b.lines, old', h.coords, b.cursor, b.delta, opts, at);
  }

  /** A hunk that only adds goes behind the line its header numbers, or to the end of a shorter text. */
  lemma InsertionPlaces(b: Buffer, h: Hunk, opts: Options)
    requires h.coords.Some? && h.coords.value.oldCount == 0 && OldSide(h.lines) == []
    requires 0 <= h.coords.value.oldStart + b.delta
    ensures ApplyHunk(b, h, opts).Ok?
    ensures Place(b, h, opts)
            == if h.coords.value.oldStart + b.delta <= |b.lines| then h.coords.value.oldStart + b.delta else |b.lines|
  {
    hide OldSide, NewSide;
  }

  predicate Blank(s: string) { forall i | 0 <= i < |s| :: s[i] == ' ' || s[i] == '\t' }

  lemma {:induction false} RStripBlank(s: string, blank: string)
    requires Blank(blank)
    ensures RStrip(s + blank) == RStrip(s)
    decreases |blank|
  {
    if blank == "" {
      assert s + blank == s;
    } else {
      var n := |blank| - 1;
      assert (s + blank)[..|s + blank| - 1] == s + blank[..n] && (s + blank)[|s + blank| - 1] == blank[n];
      RStripBlank(s, blank[..n]);
    }
  }

  lemma {:induction false} RStripCore(s: string)
    ensures |RStrip(s)| <= |s| && s[..|RStrip(s)|] == RStrip(s) && Blank(s[|RStrip(s)|..])
    decreases |s|
  {
    if s != "" && s[|s| - 1] in {' ', '\t'} {
      var n := |s| - 1;
      RStripCore(s[..n]);
      var m := |RStrip(s)|;
      assert s[..m] == s[..n][..m];
      assert s[m..] == s[..n][m..] + [s[n]];
    }
  }

  /** Fuzzy matching forgives exactly spaces and tabs at the ends of lines. */
  lemma FuzzyMeans(a: string, b: string)
    ensures SameLine(a, b, true) <==>
            exists n: nat, m: nat | n <= |a| && m <= |b| :: a[..n] == b[..m] && Blank(a[n..]) && Blank(b[m..])
  {
    hide RStrip, Blank;
    RStripCore(a);
    RStripCore(b);
    if SameLine(a, b, true) {
      var k := |RStrip(a)|;
      assert a[..k] == b[..k] && Blank(a[k..]) && Blank(b[k..]);
    }
    if n: nat, m: nat :| n <= |a| && m <= |b| && a[..n] == b[..m] && Blank(a[n..]) && Blank(b[m..]) {
      assert a == a[..n] + a[n..] && b == b[..m] + b[m..];
      RStripBlank(a[..n], a[n..]);
      RStripBlank(b[..m], b[m..]);
    }
  }
}

/**
 Undoing a patch (tools/patch_applier.py, reverse_patch_actions): running the reversed
 action list on the result of a clean plan, and exactly when that restores every file.
 */
module PatchReverse {
  import opened Common
  import opened PatchHunks
  import opened PatchApply
  import opened PatchPlan
  import opened Text

  // ---- Reversal of actions ----------------------------------------------------------

  function RestoredLines(hs: seq<Hunk>): seq<string> {
    if hs == [] then [] else OldSide(hs[0].lines) + RestoredLines(hs[1..])
  }

  predicate RestoredFinalNewline(hs: seq<Hunk>) {
    forall i | 0 <= i < |hs| :: !hs[i].oldNoNewline
  }

  /** None when a DELETE carries nothing to restore from. */
  function ReverseAction(a: Action): Option<Action> {
    match a.kind
    case Add => Some(Action(Delete, a.path, [], a.addLines, a.addFinalNewline, a.format))
    case Update => Some(Action(Update, a.path, ReverseHunks(a.hunks), [], true, a.format))
    case Delete =>
      if a.hunks != [] then
        Some(Action(Add, a.path, [], RestoredLines(a.hunks), RestoredFinalNewline(a.hunks), a.format))
      else if a.addLines != [] then
        Some(Action(Add, a.path, [], a.addLines, a.addFinalNewline, a.format))
      else None
  }

  /** The reversed actions in reverse order. */
  function ReverseActions(actions: seq<Action>): Option<seq<Action>> {
    if actions == [] then Some([])
    else
      var rest, first := ReverseActions(actions[1..]), ReverseAction(actions[0]);
      if rest.Some? && first.Some? then Some(rest.value + [first.value]) else None
  }

  // ---- Hunks that sit where their headers say ---------------------------------------

  /**
   The hunks are markerless, in order and disjoint, each one's old side stands in the
   lines at the position its header gives, and each new start agrees with the lines
   gained or lost so far. `from` is where the unclaimed lines begin.
   */
  predicate Fits(lines: seq<string>, hs: seq<Hunk>, from: nat, delta: int)
    decreases |hs|
  {
    if hs == [] then from <= |lines|
    else HunkFits(lines, hs[0], from, delta) && Fits(lines, hs[1..], EndOf(hs[0]), delta + Gain(hs[0]))
  }

  predicate HunkFits(lines: seq<string>, h: Hunk, from: nat, delta: int) {
    && h.coords.Some? && Markerless(h)
    && from <= OldBase(h.coords.value) && EndOf(h) <= |lines|
    && lines[OldBase(h.coords.value)..EndOf(h)] == OldSide(h.lines)
    && NewBase(h.coords.value) == OldBase(h.coords.value) + delta
  }

  /** Where the old side of a hunk with a header ends. */
  function EndOf(h: Hunk): nat {
    if h.coords.Some? then Max(0, OldBase(h.coords.value)) + |OldSide(h.lines)| else 0
  }

  function Gain(h: Hunk): int { |NewSide(h.lines)| - |OldSide(h.lines)| }

  /** The lines from `from` on with each old side replaced by its new side. */
  function Patched(lines: seq<string>, hs: seq<Hunk>, from: nat, delta: int): seq<string>
    requires Fits(lines, hs, from, delta)
    decreases |hs|
  {
    if hs == [] then lines[from..]
    else
      lines[from..OldBase(hs[0].coords.value)] + NewSide(hs[0].lines) +
      Patched(lines, hs[1..], EndOf(hs[0]), delta + Gain(hs[0]))
  }

  /** A hunk whose old side stands at its expected position is put exactly there. */
  lemma PlacedWhereExpected(b: Buffer, h: Hunk, opts: Options, at: nat)
    requires h.coords.Some? && Markerless(h)
    requires OldBase(h.coords.value) + b.delta == at
    requires at + |OldSide(h.lines)| <= |b.lines|
    requires b.lines[at..at + |OldSide(h.lines)|] == OldSide(h.lines)
    ensures ApplyHunk(b, h, opts) == Ok(ApplyAt(b, h, at))
    ensures ApplyAt(b, h, at).lines == b.lines[..at] + NewSide(h.lines) + b.lines[at + |OldSide(h.lines)|..]
  {
    var oldLines := OldSide(h.lines);
    if oldLines != [] {
      forall k | 0 <= k < |oldLines|
        ensures b.lines[at + k] == oldLines[k]
      {
        assert b.lines[at..at + |oldLines|][k] == oldLines[k];
      }
      assert OccursAt(b.lines, oldLines, at, false);
      CandidatesSpec(b.lines, oldLines, false);
    }
  }

  /** Replacing lines[p..e] in pre + lines[from..] extends the finished part `pre`. */
  lemma SpliceAfterPrefix(lines: seq<string>, from: nat, p: nat, e: nat, pre: seq<string>, newLines: seq<string>)
    requires from <= p <= e <= |lines|
    ensures var b, at := pre + lines[from..], |pre| + p - from;
            && b[at..at + e - p] == lines[p..e]
            && b[..at] + newLines + b[at + e - p..] == pre + lines[from..p] + newLines + lines[e..]
  {
    var b, at := pre + lines[from..], |pre| + p - from;
    assert b[..at] == pre + lines[from..p];
    assert b[at + e - p..] == lines[e..];
  }

  /** The finished part of the lines after one more hunk. */
  function Grown(lines: seq<string>, h: Hunk, from: nat, delta: int, pre: seq<string>): seq<string>
    requires HunkFits(lines, h, from, delta)
  {
    pre + lines[from..OldBase(h.coords.value)] + NewSide(h.lines)
  }

  lemma GrownLength(lines: seq<string>, h: Hunk, from: nat, pre: seq<string>)
    requires HunkFits(lines, h, from, |pre| - from)
    ensures |Grown(lines, h, from, |pre| - from, pre)| - EndOf(h) == |pre| - from + Gain(h)
    ensures EndOf(h) <= |lines|
  {
  }

  lemma FittingHunkApplies(lines: seq<string>, h: Hunk, from: nat, pre: seq<string>, cursor: nat, opts: Options)
    requires HunkFits(lines, h, from, |pre| - from)
    ensures var r := ApplyHunk(Buffer(pre + lines[from..], cursor, |pre| - from), h, opts);
            && r.Ok? && r.value.delta == |pre| - from + Gain(h)
            && r.value.lines == Grown(lines, h, from, |pre| - from, pre) + lines[EndOf(h)..]
  {
    hide OldSide, NewSide, ApplyHunk, OldBase;
    var p := OldBase(h.coords.value);
    var b := Buffer(pre + lines[from..], cursor, |pre| - from);
    SpliceAfterPrefix(lines, from, p, EndOf(h), pre, NewSide(h.lines));
    PlacedWhereExpected(b, h, opts, |pre| + p - from);
  }

  /** Strict application of fitting hunks yields the patched lines. */
  lemma {:induction false} FittingHunksApply(lines: seq<string>, hs: seq<Hunk>, from: nat, pre: seq<string>,
                                             cursor: nat, opts: Options)
    requires Fits(lines, hs, from, |pre| - from) && from <= |lines|
    ensures var r := ApplyStrict(Buffer(pre + lines[from..], cursor, |pre| - from), hs, opts);
            r.Ok? && r.value.lines == pre + Patched(lines, hs, from, |pre| - from)
    decreases |hs|
  {
    hide ApplyHunk, HunkFits, OldSide, NewSide, EndOf, Gain;
    if hs != [] {
      var h := hs[0];
      GrownLength(lines, h, from, pre);
      FittingHunkApplies(lines, h, from, pre, cursor, opts);
      var b := Buffer(pre + lines[from..], cursor, |pre| - from);
      var pre', b' := Grown(lines, h, from, |pre| - from, pre), ApplyHunk(b, h, opts).value;
      FittingHunksApply(lines, hs[1..], EndOf(h), pre', b'.cursor, opts);
      assert b' == Buffer(pre' + lines[EndOf(h)..], b'.cursor, |pre'| - EndOf(h));
      PatchedStep(lines, hs, from, pre);
    }
  }

  lemma PatchedStep(lines: seq<string>, hs: seq<Hunk>, from: nat, pre: seq<string>)
    requires hs != [] && Fits(lines, hs, from, |pre| - from)
    ensures var h := hs[0];
            pre + Patched(lines, hs, from, |pre| - from) ==
            Grown(lines, h, from, |pre| - from, pre) + Patched(lines, hs[1..], EndOf(h), |pre| - from + Gain(h))
  {
    hide OldSide, NewSide, HunkFits, EndOf, Gain;
  }

  /** The same text seen from both sides of one hunk. */
  lemma AroundHunk(lines: seq<string>, from: nat, p: nat, e: nat, pre: seq<string>,
                   newLines: seq<string>, rest: seq<string>, tail: seq<string>)
    requires from <= p <= e <= |lines|
    ensures var after, q := pre + lines[from..p] + newLines + rest + tail, |pre| + p - from;
            && q + |newLines| <= |after|
            && after[q..q + |newLines|] == newLines
            && after[|pre|..q] == lines[from..p]
    ensures lines[from..p] + lines[p..e] + (lines[e..] + tail) == lines[from..] + tail
  {
    assert lines[from..] == lines[from..p] + lines[p..e] + lines[e..];
  }

  /** A hunk that fits leaves text in which its reverse fits at the same place. */
  lemma ReversedHunkFits(lines: seq<string>, h: Hunk, from: nat, pre: seq<string>, rest: seq<string>, tail: seq<string>)
    requires HunkFits(lines, h, from, |pre| - from)
    ensures var after := Grown(lines, h, from, |pre| - from, pre) + rest + tail;
            var r := ReverseHunk(h);
            && HunkFits(after, r, |pre|, from - |pre|)
            && EndOf(r) == |Grown(lines, h, from, |pre| - from, pre)|
            && Gain(r) == -Gain(h)
            && after[|pre|..OldBase(r.coords.value)] + NewSide(r.lines) + (lines[EndOf(h)..] + tail)
                == lines[from..] + tail
  {
    hide OldSide, NewSide;
    ReverseSwapsSides(h.lines);
    AroundHunk(lines, from, OldBase(h.coords.value), EndOf(h), pre, NewSide(h.lines), rest, tail);
  }

  /**
   Fitting is symmetric: in the patched lines (with anything after them) the reversed
   hunks fit, and patching with them gives the original lines back.
   */
  lemma {:induction false} ReversedHunksFit(lines: seq<string>, hs: seq<Hunk>, from: nat, pre: seq<string>,
                                            after: seq<string>, tail: seq<string>)
    requires Fits(lines, hs, from, |pre| - from) && from <= |lines|
    requires after == pre + Patched(lines, hs, from, |pre| - from) + tail
    ensures Fits(after, ReverseHunks(hs), |pre|, from - |pre|)
    ensures Patched(after, ReverseHunks(hs), |pre|, from - |pre|) == lines[from..] + tail
    decreases |hs|
  {
    hide OldSide, NewSide, HunkFits, EndOf, Gain, ReverseHunk, OldBase, NewBase;
    if hs == [] {
      assert after[|pre|..] == lines[from..] + tail;
    } else {
      var h := hs[0];
      var pre' := Grown(lines, h, from, |pre| - from, pre);
      GrownLength(lines, h, from, pre);
      PatchedStep(lines, hs, from, pre);
      var rest := Patched(lines, hs[1..], EndOf(h), |pre'| - EndOf(h));
      ReversedHunkFits(lines, h, from, pre, rest, tail);
      ReversedHunksFit(lines, hs[1..], EndOf(h), pre', after, tail);
      var rh := ReverseHunks(hs);
      assert rh[0] == ReverseHunk(h) && rh[1..] == ReverseHunks(hs[1..]);
    }
  }

  ghost predicate HunksNewlineFree(hs: seq<Hunk>) {
    forall i | 0 <= i < |hs| :: NewlineFree(hs[i].lines)
  }

  lemma {:induction false} NewSideNewlineFree(lines: seq<string>)
    requires NewlineFree(lines)
    ensures NewlineFree(NewSide(lines))
  {
    if lines != [] {
      NewSideNewlineFree(lines[..|lines| - 1]);
    }
  }

  lemma {:induction false} PatchedNewlineFree(lines: seq<string>, hs: seq<Hunk>, from: nat, delta: int)
    requires Fits(lines, hs, from, delta) && NewlineFree(lines) && HunksNewlineFree(hs)
    ensures NewlineFree(Patched(lines, hs, from, delta))
    decreases |hs|
  {
    hide OldSide, NewSide;
    if hs != [] {
      NewSideNewlineFree(hs[0].lines);
      PatchedNewlineFree(lines, hs[1..], EndOf(hs[0]), delta + Gain(hs[0]));
    }
  }

  predicate TextFits(text: string, hs: seq<Hunk>) { Fits(Split(text), hs, 0, 0) }

  /** The update removes every line of the list, not even leaving an empty last line. */
  predicate EmptiesLines(text: string, hs: seq<Hunk>)
    requires TextFits(text, hs)
  {
    Patched(Split(text), hs, 0, 0) == []
  }

  /**
   Updating and then applying the reversed hunks succeeds, and restores the text exactly
   when the update did not empty the line list; when it did, a final newline is gained.
   */
  lemma UpdateRoundTrip(text: string, hs: seq<Hunk>, opts: Options)
    requires TextFits(text, hs) && HunksNewlineFree(hs)
    ensures var r := ApplyText(text, hs, false, opts);
            && r.Ok? && r.value == Applied(Join(Patched(Split(text), hs, 0, 0)), [])
            && var back := ApplyText(r.value.text, ReverseHunks(hs), false, opts);
            && back == Ok(Applied(if EmptiesLines(text, hs) then text + [NL] else text, []))
  {
    hide ApplyStrict, Fits, Patched, ReverseHunks, Split, Join, NewlineFree, HunksNewlineFree;
    EmptyText();
    var lines := Split(text);
    JoinSplit(text);
    FitFromStart(lines, hs, opts);
    var after := Patched(lines, hs, 0, 0);
    PatchedNewlineFree(lines, hs, 0, 0);
    var tail := if after == [] then [""] else [];
    if after != [] { SplitJoin(after); }
    assert [] + after + tail == Split(Join(after));
    ReversedHunksFit(lines, hs, 0, [], Split(Join(after)), tail);
    FitFromStart(Split(Join(after)), ReverseHunks(hs), opts);
    assert lines[0..] == lines;
    if after == [] {
      JoinAppend(lines, "");
      assert text + [NL] + "" == text + [NL];
    } else {
      assert lines + tail == lines;
    }
  }

  lemma EmptyText()
    ensures Join([]) == "" && Split("") == [""]
  {
  }

  lemma FitFromStart(lines: seq<string>, hs: seq<Hunk>, opts: Options)
    requires Fits(lines, hs, 0, 0)
    ensures var r := ApplyStrict(Buffer(lines, 0, 0), hs, opts);
            r.Ok? && r.value.lines == Patched(lines, hs, 0, 0)
  {
    hide *;
    FittingHunksApply(lines, hs, 0, [], 0, opts);
    assert [] + lines[0..] == lines;
    assert [] + Patched(lines, hs, 0, 0) == Patched(lines, hs, 0, 0);
  }

  // ---- Actions and whole patches ----------------------------------------------------

  /** UPDATE hunks come from a parsed patch and sit where their headers say. */
  ghost predicate WellPlaced(a: Action, current: Option<string>) {
    a.kind == Update && current.Some? ==> TextFits(current.value, a.hunks) && HunksNewlineFree(a.hunks)
  }

  /** A check on the action and the text it will change that tells whether it can be undone. */
  ghost predicate Invertible(a: Action, current: Option<string>)
    requires WellPlaced(a, current)
  {
    match a.kind
    case Add => a.addLines != []
    case Update => current.Some? && !EmptiesLines(current.value, a.hunks)
    case Delete => a.hunks != [] ==> current == Some(OldText(a.hunks))
  }

  /** The old sides of the hunks, one after the other, as a text of whole lines; a marker takes the last newline. */
  function OldText(hs: seq<Hunk>): string {
    var lines := RestoredLines(hs);
    if lines == [] then "" else Join(lines) + if RestoredFinalNewline(hs) then [NL] else ""
  }

  /** A cleanly applied action is undone by its reverse if and only if it is invertible. */
  lemma ReverseActionExact(current: Option<string>, a: Action, opts: Options)
    requires WellPlaced(a, current)
    requires ActionStep(current, a, false, opts).1 == Clean
    ensures var after := ActionStep(current, a, false, opts).0;
            (&& ReverseAction(a).Some?
             && ActionStep(after, ReverseAction(a).value, false, opts) == (current, Clean))
            <==> Invertible(a, current)
  {
    match a.kind {
      case Add =>
      case Update => UpdateRoundTrip(current.value, a.hunks, opts);
      case Delete =>
    }
  }

  /** Deletes the only line of a one-line text. */
  const EmptyingHunk := Hunk("@@ -1 +0,0 @@", ["-x"], Some(Coords(1, 1, 0, 0)), false, false)

  const EmptyingUpdate := Action(Update, "f", [EmptyingHunk], [], true, Unified)

  lemma EmptyingHunkFits()
    ensures CountsValid(EmptyingHunk) && TextFits("x", [EmptyingHunk]) && HunksNewlineFree([EmptyingHunk])
    ensures Patched(Split("x"), [EmptyingHunk], 0, 0) == []
  {
    hide Split;
    var h := EmptyingHunk;
    assert ["-x"][..0] == [] && "-x"[1..] == "x";
    assert OldSide(["-x"]) == ["x"] && NewSide(["-x"]) == [];
    assert Join(["x"]) == "x";
    SplitJoin(["x"]);
    assert HunkFits(["x"], h, 0, 0);
    assert [h][1..] == [] && Fits(["x"], [h][1..], 1, -1);
  }

  /**
   On a text without a final newline this update empties the list of lines; its reverse then applies
   cleanly and leaves the line with a newline it did not have.
   */
  lemma EmptyingUpdateExample(opts: Options)
    ensures WellPlaced(EmptyingUpdate, Some("x")) && !Invertible(EmptyingUpdate, Some("x"))
    ensures ActionStep(Some("x"), EmptyingUpdate, false, opts) == (Some(""), Clean)
    ensures ReverseAction(EmptyingUpdate).Some?
    ensures ActionStep(Some(""), ReverseAction(EmptyingUpdate).value, false, opts) == (Some("x" + [NL]), Clean)
  {
    hide TextFits, Split, Patched, HunksNewlineFree, ApplyText, ReverseHunks;
    EmptyingHunkFits();
    UpdateRoundTrip("x", [EmptyingHunk], opts);
  }

  /** Every action is well placed and invertible on the text it meets. */
  ghost predicate AllInvertible(disk: Disk, actions: seq<Action>, opts: Options)
    decreases |actions|
  {
    actions != [] ==>
      var a, current := actions[0], Lookup(disk, actions[0].path);
      && WellPlaced(a, current) && Invertible(a, current)
      && AllInvertible(Store(disk, a.path, ActionStep(current, a, false, opts).0), actions[1..], opts)
  }

  predicate AllClean(outcomes: seq<Outcome>) { forall i | 0 <= i < |outcomes| :: outcomes[i] == Clean }

  lemma {:induction false} ExecuteAppend(disk: Disk, first: seq<Action>, last: Action, force: bool, opts: Options)
    ensures var r, s := Execute(disk, first, force, opts), Execute(disk, first + [last], force, opts);
            var step := ActionStep(Lookup(r.disk, last.path), last, force, opts);
            s == Executed(Store(r.disk, last.path, step.0), r.outcomes + [step.1])
    decreases |first|
  {
    if first == [] {
      assert [] + [last] == [last];
      assert [last][1..] == [];
    } else {
      assert (first + [last])[1..] == first[1..] + [last];
      var content := ActionStep(Lookup(disk, first[0].path), first[0], force, opts).0;
      ExecuteAppend(Store(disk, first[0].path, content), first[1..], last, force, opts);
    }
  }

  lemma {:induction false} ReversePathKept(a: Action)
    ensures ReverseAction(a).Some? ==> ReverseAction(a).value.path == a.path
  {
  }

  /** The reversed list takes the disk after a clean run back to the disk before it. */
  lemma {:induction false} ReversedRunRestores(disk: Disk, actions: seq<Action>, opts: Options)
    requires AllClean(Execute(disk, actions, false, opts).outcomes)
    requires AllInvertible(disk, actions, opts)
    ensures ReverseActions(actions).Some?
    ensures var r := Execute(Execute(disk, actions, false, opts).disk, ReverseActions(actions).value, false, opts);
            r.disk == disk && AllClean(r.outcomes)
    decreases |actions|
  {
    hide ActionStep, ReverseAction, WellPlaced, Invertible;
    if actions != [] {
      var a, current := actions[0], Lookup(disk, actions[0].path);
      var step := ActionStep(current, a, false, opts);
      var disk1 := Store(disk, a.path, step.0);
      var run, rest := Execute(disk, actions, false, opts), Execute(disk1, actions[1..], false, opts);
      assert run.outcomes[0] == step.1;
      assert rest.outcomes == run.outcomes[1..];
      ReversedRunRestores(disk1, actions[1..], opts);
      ReverseActionExact(current, a, opts);
      ReversePathKept(a);
      ExecuteAppend(rest.disk, ReverseActions(actions[1..]).value, ReverseAction(a).value, false, opts);
      assert Lookup(disk1, a.path) == step.0;
      assert Store(disk1, a.path, current) == disk;
    }
  }

  /**
   The planner round trip: plan a patch cleanly, write the plan, plan the reversed action
   list on the result: that plan is clean too, and writing it restores every file.
   */
  lemma PlanReverseRestores(disk: Disk, actions: seq<Action>, opts: Options)
    requires AllClean(PlanFrom(map[], disk, actions, false, opts).outcomes)
    requires AllInvertible(disk, actions, opts)
    ensures var after := Committed(PlanFrom(map[], disk, actions, false, opts).files, disk);
            && ReverseActions(actions).Some?
            && var undo := PlanFrom(map[], after, ReverseActions(actions).value, false, opts);
            && AllClean(undo.outcomes) && Committed(undo.files, after) == disk
  {
    PlanCommits(disk, actions, false, opts);
    ReversedRunRestores(disk, actions, opts);
    var after := Committed(PlanFrom(map[], disk, actions, false, opts).files, disk);
    PlanCommits(after, ReverseActions(actions).value, false, opts);
  }
}

/**
 Planning a patch over a virtual file map (tools/patch_applier.py): the map is loaded from
 disk on first use, each action sees the result of the earlier ones, and nothing is written.
 */
module PatchPlan {
  import opened Common
  import opened PatchHunks
  import opened PatchApply
  import opened Text

  type Disk = map<string, string>

  /** A path's text before the plan and in the plan so far; None is absence. */
  datatype VirtualFile = VirtualFile(initial: Option<string>, current: Option<string>)

  type Files = map<string, VirtualFile>

  datatype Status = Done | Noop | Partial | Error

  datatype Outcome = Outcome(status: Status, failed: seq<Hunk>)

  const Clean := Outcome(Done, [])

  datatype Plan = Plan(files: Files, outcomes: seq<Outcome>)

  function Lookup(disk: Disk, path: string): Option<string> {
    if path in disk then Some(disk[path]) else None
  }

  function Store(disk: Disk, path: string, content: Option<string>): Disk {
    match content
    case Some(t) => disk[path := t]
    case None => disk - {path}
  }

  function DesiredAddText(a: Action): string {
    Join(a.addLines) + (if a.addFinalNewline && a.addLines != [] then [NL] else "")
  }

  function AddStep(current: Option<string>, a: Action, force: bool): (Option<string>, Outcome) {
    var desired := DesiredAddText(a);
    match current
    case None => (Some(desired), Clean)
    case Some(t) =>
      if t == desired && force then (current, Outcome(Noop, []))
      else if !force then (current, Outcome(Error, []))
      else (Some(desired), Outcome(Partial, []))
  }

  function UpdateStep(current: Option<string>, a: Action, force: bool, opts: Options): (Option<string>, Outcome) {
    if current.None? then (current, Outcome(Error, []))
    else match ApplyText(current.value, a.hunks, force, opts)
      case Err(_) => (current, Outcome(Error, []))
      case Ok(r) => (Some(r.text), Outcome(if r.failed != [] then Partial else Done, r.failed))
  }

  function DeleteStep(current: Option<string>, a: Action, force: bool, opts: Options): (Option<string>, Outcome) {
    if current.None? then (current, Outcome(Error, []))
    else if a.hunks == [] && a.addLines == [] then
      if force then (None, Outcome(Partial, [])) else (current, Outcome(Error, []))
    else if a.addLines != [] && current.value != DesiredAddText(a) then (current, Outcome(Error, []))
    else if a.hunks == [] then (None, Clean)
    else match ApplyText(current.value, a.hunks, force, opts)
      case Err(_) => (current, Outcome(Error, []))
      case Ok(r) =>
        if r.failed != [] then (current, Outcome(Partial, r.failed))
        else if r.text != "" then (current, Outcome(Error, []))
        else (None, Clean)
  }

  /** One action on the current content of its path. */
  function ActionStep(current: Option<string>, a: Action, force: bool, opts: Options): (Option<string>, Outcome) {
    match a.kind
    case Add => AddStep(current, a, force)
    case Update => UpdateStep(current, a, force, opts)
    case Delete => DeleteStep(current, a, force, opts)
  }

  /** The planning loop: files are loaded on first use and their current content is replaced. */
  method BuildPlan(actions: seq<Action>, disk: Disk, force: bool, opts: Options) returns (plan: Plan)
    ensures plan == PlanFrom(map[], disk, actions, force, opts)
  {
    hide ActionStep;
    var files: Files := map[];
    var outcomes: seq<Outcome> := [];
    ghost var whole := PlanFrom(files, disk, actions, force, opts);
    assert actions[0..] == actions && [] + whole.outcomes == whole.outcomes;
    for i := 0 to |actions|
      invariant whole.files == PlanFrom(files, disk, actions[i..], force, opts).files
      invariant whole.outcomes == outcomes + PlanFrom(files, disk, actions[i..], force, opts).outcomes
    {
      var a := actions[i];
      assert actions[i..][0] == a && actions[i..][1..] == actions[i + 1..];
      var vf;
      if a.path in files {
        vf := files[a.path];
      } else {
        vf := VirtualFile(Lookup(disk, a.path), Lookup(disk, a.path));
      }
      var (current, outcome) := ActionStep(vf.current, a, force, opts);
      files := files[a.path := VirtualFile(vf.initial, current)];
      ghost var rest := PlanFrom(files, disk, actions[i + 1..], force, opts).outcomes;
      assert outcomes + ([outcome] + rest) == (outcomes + [outcome]) + rest;
      outcomes := outcomes + [outcome];
    }
    assert outcomes + [] == outcomes;
    plan := Plan(files, outcomes);
  }

  function Loaded(files: Files, disk: Disk, path: string): VirtualFile {
    if path in files then files[path] else VirtualFile(Lookup(disk, path), Lookup(disk, path))
  }

  function PlanFrom(files: Files, disk: Disk, actions: seq<Action>, force: bool, opts: Options): Plan
    decreases |actions|
  {
    if actions == [] then Plan(files, [])
    else
      var vf := Loaded(files, disk, actions[0].path);
      var (current, outcome) := ActionStep(vf.current, actions[0], force, opts);
      var rest := PlanFrom(files[actions[0].path := VirtualFile(vf.initial, current)], disk, actions[1..], force, opts);
      Plan(rest.files, [outcome] + rest.outcomes)
  }

  // ---- The plan against plain sequential application --------------------------------

  datatype Executed = Executed(disk: Disk, outcomes: seq<Outcome>)

  /** The reference: each action is carried out on the disk before the next one is read. */
  function Execute(disk: Disk, actions: seq<Action>, force: bool, opts: Options): Executed
    decreases |actions|
  {
    if actions == [] then Executed(disk, [])
    else
      var (content, outcome) := ActionStep(Lookup(disk, actions[0].path), actions[0], force, opts);
      var rest := Execute(Store(disk, actions[0].path, content), actions[1..], force, opts);
      Executed(rest.disk, [outcome] + rest.outcomes)
  }

  /** What a path holds once the plan is written. */
  function View(files: Files, disk: Disk, path: string): Option<string> {
    Loaded(files, disk, path).current
  }

  /** The disk once the plan is written. */
  function Committed(files: Files, disk: Disk): Disk {
    map p | p in disk.Keys + files.Keys && View(files, disk, p).Some? :: View(files, disk, p).value
  }

  lemma CommittedView(files: Files, disk: Disk)
    ensures forall p :: Lookup(Committed(files, disk), p) == View(files, disk, p)
  {
  }

  /** Planning over the virtual map has the effect and the outcomes of sequential application. */
  lemma {:induction false} PlanIsSequential(files: Files, disk: Disk, staged: Disk, actions: seq<Action>, force: bool,
                                            opts: Options)
    requires forall p :: Lookup(staged, p) == View(files, disk, p)
    requires forall p | p in files :: files[p].initial == Lookup(disk, p)
    ensures var plan, run := PlanFrom(files, disk, actions, force, opts), Execute(staged, actions, force, opts);
            && plan.outcomes == run.outcomes
            && (forall p :: Lookup(run.disk, p) == View(plan.files, disk, p))
            && (forall p | p in plan.files :: plan.files[p].initial == Lookup(disk, p))
    decreases |actions|
  {
    if actions != [] {
      var a := actions[0];
      var vf := Loaded(files, disk, a.path);
      assert Lookup(staged, a.path) == vf.current;
      var content := ActionStep(vf.current, a, force, opts).0;
      var files' := files[a.path := VirtualFile(vf.initial, content)];
      var staged' := Store(staged, a.path, content);
      forall p
        ensures Lookup(staged', p) == View(files', disk, p)
      {
        if p != a.path {
          assert Lookup(staged, p) == View(files, disk, p);
        }
      }
      PlanIsSequential(files', disk, staged', actions[1..], force, opts);
    }
  }

  lemma DiskExtensional(a: Disk, b: Disk)
    requires forall p :: Lookup(a, p) == Lookup(b, p)
    ensures a == b
  {
    forall p
      ensures p in a <==> p in b
      ensures p in a ==> a[p] == b[p]
    {
      assert Lookup(a, p) == Lookup(b, p);
    }
  }

  lemma PlanCommits(disk: Disk, actions: seq<Action>, force: bool, opts: Options)
    ensures var plan, run := PlanFrom(map[], disk, actions, force, opts), Execute(disk, actions, force, opts);
            plan.outcomes == run.outcomes && Committed(plan.files, disk) == run.disk
  {
    PlanIsSequential(map[], disk, disk, actions, force, opts);
    var plan, run := PlanFrom(map[], disk, actions, force, opts), Execute(disk, actions, force, opts);
    CommittedView(plan.files, disk);
    forall p
      ensures Lookup(Committed(plan.files, disk), p) == Lookup(run.disk, p)
    {
      assert Lookup(run.disk, p) == View(plan.files, disk, p);
    }
    DiskExtensional(Committed(plan.files, disk), run.disk);
  }

  // ---- What each action leaves ------------------------------------------------------

  /** The text an ADD asks for: its lines, the last one closed if the patch says so. */
  function Added(a: Action): string { if a.addFinalNewline then Closed(a.addLines) else Join(a.addLines) }

  /**
   ADD: a new file gets the added text. An existing one is an error without force and is left alone; with
   force it ends with the added text, as a no-op if it had it already and as a partial result otherwise.
   */
  lemma AddLeaves(current: Option<string>, a: Action, force: bool, opts: Options)
    requires a.kind == Add
    ensures var (after, outcome) := ActionStep(current, a, force, opts);
            && outcome.failed == []
            && after == (if current.None? || force then Some(Added(a)) else current)
            && outcome.status == (if current.None? then Done
                                  else if !force then Error
                                  else if current.value == Added(a) then Noop else Partial)
  {
    AddedIsDesired(a);
    hide Join, Added, DesiredAddText;
  }

  lemma AddedIsDesired(a: Action)
    ensures Added(a) == DesiredAddText(a)
  {
    if a.addLines == [] { assert Join([]) == ""; }
    hide Join;
  }

  /**
   UPDATE: a missing file is an error. Without force all hunks apply, in order, or nothing changes and it is
   an error. With force the accepted hunks alone are applied and the others are reported.
   */
  lemma UpdateLeaves(current: Option<string>, a: Action, force: bool, opts: Options)
    requires a.kind == Update
    ensures var (after, outcome) := ActionStep(current, a, force, opts);
            if current.None? then after == None && outcome == Outcome(Error, [])
            else
              var b := Buffer(Split(current.value), 0, 0);
              var strict, accepted := ApplyStrict(b, a.hunks, opts), AcceptedHunks(b, a.hunks, opts);
              if strict.Ok? then after == Some(Join(strict.value.lines)) && outcome == Outcome(Done, [])
              else if !force then after == current && outcome == Outcome(Error, [])
              else
                && ApplyStrict(b, accepted, opts).Ok?
                && after == Some(Join(ApplyStrict(b, accepted, opts).value.lines))
                && outcome.status == Partial && outcome.failed != []
                && multiset(a.hunks) == multiset(accepted) + multiset(outcome.failed)
  {
    hide ApplyStrict, ApplyLenient, AcceptedHunks, Split, Join;
    if current.Some? {
      var b := Buffer(Split(current.value), 0, 0);
      LenientIsStrictOnAccepted(b, a.hunks, opts);
      if ApplyStrict(b, a.hunks, opts).Ok? { LenientIfStrict(b, a.hunks, opts); }
    }
  }

  lemma {:induction false} LenientIfStrict(b: Buffer, hs: seq<Hunk>, opts: Options)
    requires ApplyStrict(b, hs, opts).Ok?
    ensures ApplyLenient(b, hs, opts) == (ApplyStrict(b, hs, opts).value, [])
    decreases |hs|
  {
    hide ApplyHunk;
    if hs != [] { LenientIfStrict(ApplyHunk(b, hs[0], opts).value, hs[1..], opts); }
  }

  /**
   DELETE: a missing file is an error. With nothing to check against, the file goes only with force, as a
   partial result. Otherwise it goes, cleanly, exactly when it holds the expected text, if one is given, and
   the hunks, if there are any, apply and leave nothing; if not it stays, and only rejected hunks under
   force are a partial result instead of an error.
   */
  lemma DeleteLeaves(current: Option<string>, a: Action, force: bool, opts: Options)
    requires a.kind == Delete
    ensures var (after, outcome) := ActionStep(current, a, force, opts);
            if current.None? then after == None && outcome == Outcome(Error, [])
            else if a.hunks == [] && a.addLines == [] then
              if force then after == None && outcome == Outcome(Partial, [])
              else after == current && outcome == Outcome(Error, [])
            else
              var b := Buffer(Split(current.value), 0, 0);
              var strict, expected := ApplyStrict(b, a.hunks, opts), a.addLines == [] || current.value == Added(a);
              var verified := expected && (a.hunks != [] ==> strict.Ok? && Join(strict.value.lines) == "");
              && after == (if verified then None else current)
              && (verified ==> outcome == Outcome(Done, []))
              && (!verified && expected && force && strict.Err? ==>
                    && outcome.status == Partial && outcome.failed != []
                    && outcome.failed == ApplyLenient(b, a.hunks, opts).1)
              && (!verified && !(expected && force && strict.Err?) ==> outcome == Outcome(Error, []))
  {
    hide ApplyStrict, ApplyLenient, Split;
    AddedIsDesired(a);
    hide Join;
    if current.Some? && a.hunks != [] {
      var b := Buffer(Split(current.value), 0, 0);
      LenientIsStrictOnAccepted(b, a.hunks, opts);
      if ApplyStrict(b, a.hunks, opts).Ok? { LenientIfStrict(b, a.hunks, opts); }
    }
    if a.hunks == [] { NoHunks(Buffer(Split(if current.Some? then current.value else ""), 0, 0), opts); }
  }

  lemma NoHunks(b: Buffer, opts: Options)
    ensures ApplyStrict(b, [], opts) == Ok(b)
  {
  }

  /** An error leaves the content as it was, whatever the action. */
  lemma ErrorLeaves(current: Option<string>, a: Action, force: bool, opts: Options)
    ensures ActionStep(current, a, force, opts).1.status == Error ==> ActionStep(current, a, force, opts).0 == current
  {
    hide ApplyText;
  }
}

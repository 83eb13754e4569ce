/**
 One run of the patch tool (tools/patch_applier.py, apply_custom_patch): parse, reverse, plan,
 commit, and write the reject files of a forced run.
 */
module PatchRun {
  import opened Common
  import opened PatchHunks
  import opened PatchApply
  import opened PatchParse
  import opened PatchReject
  import opened PatchReverse
  import Plans = PatchPlan
  import opened PatchCommit

  /** The files without the temporary ones. */
  function RealDisk(files: Files): Plans.Disk {
    map p | p in files && p.Real? :: p.name := files[p]
  }

  lemma RealLookup(files: Files, n: string)
    ensures Plans.Lookup(RealDisk(files), n) == At(files, Real(n))
  {
  }

  lemma RealDiskIs(files: Files, disk: Plans.Disk)
    requires forall n :: At(files, Real(n)) == Plans.Lookup(disk, n)
    ensures RealDisk(files) == disk
  {
    forall n ensures Plans.Lookup(RealDisk(files), n) == Plans.Lookup(disk, n) { RealLookup(files, n); }
    Plans.DiskExtensional(RealDisk(files), disk);
  }

  /** The actions of the patch, or of its reverse. */
  function Requested(text: string, d: PathDecoder, reverse: bool): Option<seq<Action>> {
    match Parse(text, d)
    case Err(_) => None
    case Ok(actions) => if reverse then ReverseActions(actions) else Some(actions)
  }

  predicate HasErrors(outcomes: seq<Plans.Outcome>) { exists o | o in outcomes :: o.status == Plans.Error }

  predicate HasPartials(outcomes: seq<Plans.Outcome>) { exists o | o in outcomes :: o.status == Plans.Partial }

  predicate IsClean(outcomes: seq<Plans.Outcome>) { !HasErrors(outcomes) && !HasPartials(outcomes) }

  // ---- The plan as a list of entries ------------------------------------------------

  /** One entry for each file the plan touches, in the order of first use. */
  function Entries(files: Plans.Files, actions: seq<Action>): seq<Entry> {
    if actions == [] then []
    else
      var es := Entries(files, actions[..|actions| - 1]);
      var path := actions[|actions| - 1].path;
      if path in files && !Listed(es, path) then es + [Entry(path, files[path].initial, files[path].current)] else es
  }

  predicate Listed(es: seq<Entry>, path: string) { exists i | 0 <= i < |es| :: es[i].name == path }

  predicate EntryOf(files: Plans.Files, e: Entry) {
    e.name in files && e.initial == files[e.name].initial && e.planned == files[e.name].current
  }

  lemma {:induction false} EntriesMean(files: Plans.Files, actions: seq<Action>)
    ensures DistinctNames(Entries(files, actions))
    ensures forall i | 0 <= i < |Entries(files, actions)| :: EntryOf(files, Entries(files, actions)[i])
    ensures forall a | a in actions && a.path in files :: Listed(Entries(files, actions), a.path)
  {
    if actions != [] {
      var front := actions[..|actions| - 1];
      var es, all := Entries(files, front), Entries(files, actions);
      EntriesMean(files, front);
      assert actions == front + [actions[|actions| - 1]];
      assert es <= all;
      forall path | Listed(es, path)
        ensures Listed(all, path)
      {
        var i :| 0 <= i < |es| && es[i].name == path;
        assert all[i].name == path;
      }
      if |all| > |es| { assert all[|es|].name == actions[|actions| - 1].path; }
    }
  }

  method ListEntries(files: Plans.Files, actions: seq<Action>) returns (es: seq<Entry>)
    ensures es == Entries(files, actions)
  {
    hide Listed;
    es := [];
    for i := 0 to |actions|
      invariant es == Entries(files, actions[..i])
    {
      var path := actions[i].path;
      assert actions[..i + 1][..i] == actions[..i] && actions[..i + 1][i] == actions[i];
      var listed := IsListed(es, path);
      if path in files && !listed { es := es + [Entry(path, files[path].initial, files[path].current)]; }
    }
    assert actions[..|actions|] == actions;
  }

  method IsListed(es: seq<Entry>, path: string) returns (listed: bool)
    ensures listed <==> Listed(es, path)
  {
    for i := 0 to |es|
      invariant forall j | 0 <= j < i :: es[j].name != path
    {
      if es[i].name == path { return true; }
    }
    listed := false;
  }

  /** The plan touches exactly the files its actions name. */
  lemma {:induction false} PlannedPaths(files: Plans.Files, disk: Plans.Disk, actions: seq<Action>, force: bool,
                                        opts: Options, n: string)
    ensures n in Plans.PlanFrom(files, disk, actions, force, opts).files <==>
              n in files || exists a | a in actions :: a.path == n
    ensures |Plans.PlanFrom(files, disk, actions, force, opts).outcomes| == |actions|
    decreases |actions|
  {
    if actions != [] {
      var vf := Plans.Loaded(files, disk, actions[0].path);
      var current := Plans.ActionStep(vf.current, actions[0], force, opts).0;
      var files' := files[actions[0].path := Plans.VirtualFile(vf.initial, current)];
      PlannedPaths(files', disk, actions[1..], force, opts, n);
      assert actions == [actions[0]] + actions[1..];
    }
  }

  /** The entries a run commits. */
  ghost function RunEntries(disk: Plans.Disk, actions: seq<Action>, force: bool, opts: Options): seq<Entry> {
    Entries(Plans.PlanFrom(map[], disk, actions, force, opts).files, actions)
  }

  /** Once its entries are in place and nothing else has moved, the disk is the planned one. */
  lemma PlannedDisk(was: Files, now: Files, actions: seq<Action>, force: bool, opts: Options)
    requires var es := RunEntries(RealDisk(was), actions, force, opts);
             InPlace(now, es) && forall n | n !in Names(es) :: At(now, Real(n)) == At(was, Real(n))
    ensures RealDisk(now) == Plans.Execute(RealDisk(was), actions, force, opts).disk
  {
    hide Plans.PlanFrom, Plans.Execute, RealDisk, Entries;
    var disk := RealDisk(was);
    var files := Plans.PlanFrom(map[], disk, actions, force, opts).files;
    var es := Entries(files, actions);
    EntriesMean(files, actions);
    Plans.PlanCommits(disk, actions, force, opts);
    Plans.CommittedView(files, disk);
    forall n
      ensures At(now, Real(n)) == Plans.Lookup(Plans.Committed(files, disk), n)
    {
      assert Plans.Lookup(Plans.Committed(files, disk), n) == Plans.View(files, disk, n);
      PlannedPaths(map[], disk, actions, force, opts, n);
      if n in files {
        assert Listed(es, n);
        var i :| 0 <= i < |es| && es[i].name == n;
        assert EntryOf(files, es[i]);
      } else {
        RealLookup(was, n);
        NotNamed(files, es, n);
      }
    }
    RealDiskIs(now, Plans.Committed(files, disk));
  }

  lemma NotNamed(files: Plans.Files, es: seq<Entry>, n: string)
    requires n !in files && forall i | 0 <= i < |es| :: EntryOf(files, es[i])
    ensures n !in Names(es)
  {
  }

  lemma PlanHolds(was: Files, actions: seq<Action>, force: bool, opts: Options)
    ensures SnapshotsHold(was, RunEntries(RealDisk(was), actions, force, opts))
    ensures DistinctNames(RunEntries(RealDisk(was), actions, force, opts))
  {
    hide Plans.PlanFrom, Plans.Execute, Entries;
    var disk := RealDisk(was);
    var files := Plans.PlanFrom(map[], disk, actions, force, opts).files;
    var es := Entries(files, actions);
    Plans.PlanIsSequential(map[], disk, disk, actions, force, opts);
    EntriesMean(files, actions);
    forall i | 0 <= i < |es|
      ensures At(was, Real(es[i].name)) == es[i].initial
    {
      RealLookup(was, es[i].name);
      assert EntryOf(files, es[i]);
    }
  }

  // ---- Commit -----------------------------------------------------------------------

  /**
   What a failed commit leaves: with a complete undo the disk it found, less the lost files; an
   undo error needs a second failing operation; and nothing but the lost files is gone for good.
   */
  ghost predicate FailedFrom(was: Files, from: nat, now: Files, to: nat, faults: set<nat>, es: seq<Entry>,
                             undoErrors: nat) {
    && !GoesThrough(was, from, faults, es)
    && (undoErrors == 0 ==> RealDisk(now) == RealDisk(was) - Lost(was, from, faults, es))
    && (undoErrors > 0 ==> UndoneBadly(was, from, to, faults, es))
    && (forall n | n !in Lost(was, from, faults, es) :: Kept(now, was, 0, n))
    && (forall n | n !in Names(Changed(es)) :: At(now, Real(n)) == At(was, Real(n)))
  }

  lemma DiskLess(was: Files, now: Files, lost: set<string>)
    requires forall n :: At(now, Real(n)) == if n in lost then None else At(was, Real(n))
    ensures RealDisk(now) == RealDisk(was) - lost
  {
    forall n
      ensures At(now, Real(n)) == Plans.Lookup(RealDisk(was) - lost, n)
    {
      RealLookup(was, n);
    }
    RealDiskIs(now, RealDisk(was) - lost);
  }

  lemma UnchangedUnnamed(es: seq<Entry>)
    requires DistinctNames(es)
    ensures forall n | n !in Names(es) :: n !in Names(Changed(es))
  {
    ChangedNames(es);
  }

  /**
   Writing a plan made from this disk goes through exactly when no operation up to the last
   deletion of a backup fails, and then leaves the disk of executing the actions one by one.
   */
  method CommitPlan(fs: FileSystem, actions: seq<Action>, plan: Plans.Plan, ghost force: bool, ghost opts: Options)
    returns (verdict: Verdict)
    requires fs.Valid() && plan == Plans.PlanFrom(map[], RealDisk(fs.files), actions, force, opts)
    modifies fs
    ensures fs.Valid() && fs.ops >= old(fs.ops)
    ensures var es := RunEntries(RealDisk(old(fs.files)), actions, force, opts);
            match verdict
            case Committed =>
              && GoesThrough(old(fs.files), old(fs.ops), fs.faults, es)
              && RealDisk(fs.files) == Plans.Execute(RealDisk(old(fs.files)), actions, force, opts).disk
            case Failed(undoErrors) =>
              FailedFrom(old(fs.files), old(fs.ops), fs.files, fs.ops, fs.faults, es, undoErrors)
  {
    hide *;
    ghost var was := fs.files;
    var es := ListEntries(plan.files, actions);
    RunEntriesAre(RealDisk(was), actions, force, opts);
    PlanHolds(was, actions, force, opts);
    verdict := fs.Commit(es);
    UnchangedUnnamed(es);
    if verdict.Committed? {
      PlannedDisk(was, fs.files, actions, force, opts);
    } else {
      ghost var lost := Lost(was, old(fs.ops), fs.faults, es);
      if verdict.undoErrors == 0 { DiskLess(was, fs.files, lost); }
      FailedFromIs(was, old(fs.ops), fs.files, fs.ops, fs.faults, es, verdict.undoErrors);
    }
  }

  lemma RunEntriesAre(disk: Plans.Disk, actions: seq<Action>, force: bool, opts: Options)
    ensures RunEntries(disk, actions, force, opts)
            == Entries(Plans.PlanFrom(map[], disk, actions, force, opts).files, actions)
  {
  }

  lemma FailedFromIs(was: Files, from: nat, now: Files, to: nat, faults: set<nat>, es: seq<Entry>, undoErrors: nat)
    requires !GoesThrough(was, from, faults, es)
    requires undoErrors == 0 ==> RealDisk(now) == RealDisk(was) - Lost(was, from, faults, es)
    requires undoErrors > 0 ==> UndoneBadly(was, from, to, faults, es)
    requires forall n | n !in Lost(was, from, faults, es) :: Kept(now, was, 0, n)
    requires forall n | n !in Names(Changed(es)) :: At(now, Real(n)) == At(was, Real(n))
    ensures FailedFrom(was, from, now, to, faults, es, undoErrors)
  {
  }

  // ---- Reject files -----------------------------------------------------------------

  /** The rejected hunks of a path, over all results, in order. */
  function RejectedOf(actions: seq<Action>, outcomes: seq<Plans.Outcome>, path: string): seq<Hunk> {
    if actions == [] || outcomes == [] then []
    else (if actions[0].path == path then outcomes[0].failed else []) + RejectedOf(actions[1..], outcomes[1..], path)
  }

  /** The paths with rejected hunks, each once, in the order of their first rejection. */
  function RejectPaths(actions: seq<Action>, outcomes: seq<Plans.Outcome>, seen: set<string>): seq<string> {
    if actions == [] || outcomes == [] then []
    else if outcomes[0].failed == [] || actions[0].path in seen then RejectPaths(actions[1..], outcomes[1..], seen)
    else [actions[0].path] + RejectPaths(actions[1..], outcomes[1..], seen + {actions[0].path})
  }

  /** The disk with the reject files of these paths written, one after the other. */
  function WithRejects(disk: Plans.Disk, actions: seq<Action>, outcomes: seq<Plans.Outcome>,
                       paths: seq<string>): Plans.Disk {
    if paths == [] then disk
    else
      var last := paths[|paths| - 1];
      var text := RejectText(last, RejectedOf(actions, outcomes, last));
      WithRejects(disk, actions, outcomes, paths[..|paths| - 1])[last + ".rej" := text]
  }

  /** Exactly the paths with a rejected hunk get a reject file, and each path only once. */
  lemma {:induction false} RejectPathsMean(actions: seq<Action>, outcomes: seq<Plans.Outcome>, seen: set<string>,
                                           path: string)
    ensures path in RejectPaths(actions, outcomes, seen) <==> path !in seen && RejectedOf(actions, outcomes, path) != []
    ensures forall i, j | 0 <= i < j < |RejectPaths(actions, outcomes, seen)| ::
              RejectPaths(actions, outcomes, seen)[i] != RejectPaths(actions, outcomes, seen)[j]
  {
    if actions != [] && outcomes != [] {
      var next := if outcomes[0].failed == [] || actions[0].path in seen then seen else seen + {actions[0].path};
      RejectPathsMean(actions[1..], outcomes[1..], next, path);
      RejectPathsMean(actions[1..], outcomes[1..], next, actions[0].path);
    }
  }

  /** What a file holds after the reject files are written. */
  lemma {:induction false} RejectFilesMean(disk: Plans.Disk, actions: seq<Action>, outcomes: seq<Plans.Outcome>,
                                           paths: seq<string>, path: string)
    requires forall i, j | 0 <= i < j < |paths| :: paths[i] != paths[j]
    ensures path in paths ==>
              Plans.Lookup(WithRejects(disk, actions, outcomes, paths), path + ".rej")
              == Some(RejectText(path, RejectedOf(actions, outcomes, path)))
    ensures forall n | (forall i | 0 <= i < |paths| :: paths[i] + ".rej" != n) ::
              Plans.Lookup(WithRejects(disk, actions, outcomes, paths), n) == Plans.Lookup(disk, n)
  {
    if paths != [] {
      var front, last := paths[..|paths| - 1], paths[|paths| - 1];
      RejectFilesMean(disk, actions, outcomes, front, path);
      assert paths == front + [last];
      if path != last { SuffixTells(path, last); }
      assert paths[|paths| - 1] + ".rej" == last + ".rej";
    }
  }

  lemma SuffixTells(a: string, b: string)
    requires a != b
    ensures a + ".rej" != b + ".rej"
  {
    assert (a + ".rej")[..|a|] == a && (b + ".rej")[..|b|] == b;
  }

  method GroupRejects(actions: seq<Action>, outcomes: seq<Plans.Outcome>, path: string) returns (hunks: seq<Hunk>)
    requires |actions| == |outcomes|
    ensures hunks == RejectedOf(actions, outcomes, path)
  {
    hide RejectedOf;
    hunks := [];
    assert actions[0..] == actions && outcomes[0..] == outcomes;
    for i := 0 to |actions|
      invariant RejectedOf(actions, outcomes, path) == hunks + RejectedOf(actions[i..], outcomes[i..], path)
    {
      RejectedNext(actions, outcomes, path, i);
      if actions[i].path == path { hunks := hunks + outcomes[i].failed; }
    }
    NothingRejected(actions[|actions|..], outcomes[|actions|..], path);
  }

  lemma RejectedNext(actions: seq<Action>, outcomes: seq<Plans.Outcome>, path: string, i: nat)
    requires |actions| == |outcomes| && i < |actions|
    ensures RejectedOf(actions[i..], outcomes[i..], path)
            == (if actions[i].path == path then outcomes[i].failed else [])
               + RejectedOf(actions[i + 1..], outcomes[i + 1..], path)
  {
    assert actions[i..][1..] == actions[i + 1..] && outcomes[i..][1..] == outcomes[i + 1..];
  }

  lemma NothingRejected(actions: seq<Action>, outcomes: seq<Plans.Outcome>, path: string)
    requires actions == []
    ensures RejectedOf(actions, outcomes, path) == []
  {
  }

  /** Writes the reject files until one cannot be written. */
  method WriteRejectFiles(fs: FileSystem, actions: seq<Action>, outcomes: seq<Plans.Outcome>)
    returns (ok: bool, written: nat)
    requires fs.Valid() && |actions| == |outcomes|
    modifies fs`files, fs`ops
    ensures fs.Valid() && fs.ops >= old(fs.ops)
    ensures !ok ==> old(fs.ops) + written < fs.ops && old(fs.ops) + written in fs.faults
    ensures var paths := RejectPaths(actions, outcomes, {});
            && written <= |paths| && written == FirstFault(fs.faults, old(fs.ops), |paths|)
            && (ok <==> written == |paths|)
            && RealDisk(fs.files) == WithRejects(RealDisk(old(fs.files)), actions, outcomes, paths[..written])
  {
    hide *;
    var paths := RejectPaths(actions, outcomes, {});
    written := 0;
    NoOps(fs.faults, fs.ops);
    NoRejects(RealDisk(fs.files), actions, outcomes, paths);
    while written < |paths|
      invariant 0 <= written <= |paths| && fs.Valid()
      invariant fs.ops == old(fs.ops) + written && NoFault(fs.faults, old(fs.ops), written)
      invariant RealDisk(fs.files) == WithRejects(RealDisk(old(fs.files)), actions, outcomes, paths[..written])
    {
      ok := WriteReject(fs, actions, outcomes, paths[written]);
      OneMore(fs.faults, old(fs.ops), written);
      if !ok {
        FirstFaultIs(fs.faults, old(fs.ops), |paths|, written);
        return;
      }
      OneReject(RealDisk(old(fs.files)), actions, outcomes, paths, written);
      written := written + 1;
    }
    FirstFaultIs(fs.faults, old(fs.ops), |paths|, written);
    ok := true;
  }

  method WriteReject(fs: FileSystem, actions: seq<Action>, outcomes: seq<Plans.Outcome>, path: string)
    returns (ok: bool)
    requires fs.Valid() && |actions| == |outcomes|
    modifies fs`files, fs`ops
    ensures fs.Valid() && fs.ops == old(fs.ops) + 1 && (ok <==> old(fs.ops) !in fs.faults)
    ensures var was, text := RealDisk(old(fs.files)), RejectText(path, RejectedOf(actions, outcomes, path));
            RealDisk(fs.files) == if ok then was[path + ".rej" := text] else was
  {
    hide RealDisk, RejectText, RejectedOf;
    var hunks := GroupRejects(actions, outcomes, path);
    var text := WriteRejects(path, hunks);
    ok := fs.Tick();
    if ok {
      RealWrite(fs.files, path + ".rej", text);
      fs.files := fs.files[Real(path + ".rej") := text];
    }
  }

  lemma NoRejects(disk: Plans.Disk, actions: seq<Action>, outcomes: seq<Plans.Outcome>, paths: seq<string>)
    ensures WithRejects(disk, actions, outcomes, paths[..0]) == disk
  {
  }

  lemma OneReject(disk: Plans.Disk, actions: seq<Action>, outcomes: seq<Plans.Outcome>, paths: seq<string>, i: nat)
    requires i < |paths|
    ensures WithRejects(disk, actions, outcomes, paths[..i + 1])
            == WithRejects(disk, actions, outcomes, paths[..i])
                 [paths[i] + ".rej" := RejectText(paths[i], RejectedOf(actions, outcomes, paths[i]))]
  {
    hide RejectText, RejectedOf;
    assert paths[..i + 1][..i] == paths[..i] && paths[..i + 1][i] == paths[i];
  }

  lemma OneMore(faults: set<nat>, from: nat, n: nat)
    ensures NoFault(faults, from, n) && from + n !in faults ==> NoFault(faults, from, n + 1)
  {
  }

  lemma RealWrite(files: Files, n: string, text: string)
    ensures RealDisk(files[Real(n) := text]) == RealDisk(files)[n := text]
  {
  }

  // ---- The run ----------------------------------------------------------------------

  datatype RunReport =
    | NothingDone
    | Checked(clean: bool)
    | Written(clean: bool)
    | RejectsFailed(written: nat)
    | CommitFailed(undoErrors: nat)

  /** The disk of a run whose commit went through: a forced run with partial results adds reject files. */
  ghost function Finished(disk: Plans.Disk, actions: seq<Action>, force: bool, opts: Options,
                          written: nat): Plans.Disk {
    var run := Plans.Execute(disk, actions, force, opts);
    var paths := RejectPaths(actions, run.outcomes, {});
    if force && HasPartials(run.outcomes) && written <= |paths|
    then WithRejects(run.disk, actions, run.outcomes, paths[..written]) else run.disk
  }

  ghost function AllRejects(disk: Plans.Disk, actions: seq<Action>, force: bool, opts: Options): nat {
    |RejectPaths(actions, Plans.Execute(disk, actions, force, opts).outcomes, {})|
  }

  /** Commits a plan and, when forced over partial results, writes the reject files. */
  method Finish(fs: FileSystem, actions: seq<Action>, plan: Plans.Plan, force: bool, ghost opts: Options)
    returns (report: RunReport)
    requires fs.Valid() && plan == Plans.PlanFrom(map[], RealDisk(fs.files), actions, force, opts)
    modifies fs
    ensures fs.Valid() && fs.ops >= old(fs.ops)
    ensures var disk, now := RealDisk(old(fs.files)), RealDisk(fs.files);
            var es := RunEntries(disk, actions, force, opts);
            match report
            case Written(clean) =>
              && GoesThrough(old(fs.files), old(fs.ops), fs.faults, es)
              && now == Finished(disk, actions, force, opts, AllRejects(disk, actions, force, opts))
              && (clean <==> IsClean(Plans.Execute(disk, actions, force, opts).outcomes))
            case RejectsFailed(written) =>
              && GoesThrough(old(fs.files), old(fs.ops), fs.faults, es)
              && force && HasPartials(Plans.Execute(disk, actions, force, opts).outcomes)
              && written < AllRejects(disk, actions, force, opts)
              && now == Finished(disk, actions, force, opts, written)
              && exists k | old(fs.ops) <= k < fs.ops :: k in fs.faults
            case CommitFailed(undoErrors) =>
              FailedFrom(old(fs.files), old(fs.ops), fs.files, fs.ops, fs.faults, es, undoErrors)
            case _ => false
  {
    hide Plans.PlanFrom, Plans.Execute, RealDisk, GoesThrough, FailedFrom;
    hide RunEntries, RejectPaths, WithRejects, HasPartials, HasErrors;
    ghost var disk := RealDisk(fs.files);
    Plans.PlanCommits(disk, actions, force, opts);
    PlannedPaths(map[], disk, actions, force, opts, "");
    var verdict := CommitPlan(fs, actions, plan, force, opts);
    if verdict.Failed? { return CommitFailed(verdict.undoErrors); }
    if force && HasPartials(plan.outcomes) {
      var ok, written := WriteRejectFiles(fs, actions, plan.outcomes);
      if !ok { return RejectsFailed(written); }
    }
    report := Written(IsClean(plan.outcomes));
  }

  /**
   A refused or checked patch changes nothing. An applied one leaves exactly the disk that carrying
   out its actions one after the other would leave, with reject files when it was forced over
   partial results. A failed commit is undone as FailedFrom says.
   */
  method ApplyCustomPatch(fs: FileSystem, text: string, d: PathDecoder, checkOnly: bool, force: bool, reverse: bool,
                          opts: Options)
    returns (report: RunReport)
    requires fs.Valid()
    modifies fs
    ensures fs.Valid() && fs.ops >= old(fs.ops)
    ensures var disk, now := RealDisk(old(fs.files)), RealDisk(fs.files);
            var requested := Requested(text, d, reverse);
            if requested.None? then report == NothingDone && now == disk
            else
              var run := Plans.Execute(disk, requested.value, force, opts);
              var es := RunEntries(disk, requested.value, force, opts);
              if checkOnly then report == Checked(IsClean(run.outcomes)) && now == disk
              else if HasErrors(run.outcomes) && !force then report == NothingDone && now == disk
              else match report
                case Written(clean) =>
                  && GoesThrough(old(fs.files), old(fs.ops), fs.faults, es) && (clean <==> IsClean(run.outcomes))
                  && now == Finished(disk, requested.value, force, opts, AllRejects(disk, requested.value, force, opts))
                case RejectsFailed(written) =>
                  && GoesThrough(old(fs.files), old(fs.ops), fs.faults, es) && force && HasPartials(run.outcomes)
                  && written < AllRejects(disk, requested.value, force, opts)
                  && now == Finished(disk, requested.value, force, opts, written)
                  && exists k | old(fs.ops) <= k < fs.ops :: k in fs.faults
                case CommitFailed(undoErrors) =>
                  FailedFrom(old(fs.files), old(fs.ops), fs.files, fs.ops, fs.faults, es, undoErrors)
                case _ => false
  {
    hide Parse, ReverseActions, Plans.PlanFrom, Plans.Execute, RealDisk;
    hide GoesThrough, FailedFrom, RunEntries, Finished, AllRejects;
    hide HasErrors, HasPartials;
    var parsed := ParsePatch(text, d);
    if parsed.Err? { return NothingDone; }
    var actions := parsed.value;
    if reverse {
      var reversed := ReverseActions(actions);
      if reversed.None? { return NothingDone; }
      actions := reversed.value;
    }
    var plan := Plans.BuildPlan(actions, RealDisk(fs.files), force, opts);
    Plans.PlanCommits(RealDisk(fs.files), actions, force, opts);
    if checkOnly { return Checked(IsClean(plan.outcomes)); }
    if HasErrors(plan.outcomes) && !force { return NothingDone; }
    report := Finish(fs, actions, plan, force, opts);
  }

  // ---- Applying and reversing -------------------------------------------------------

  /** Without force an action is clean or an error; there is nothing in between. */
  lemma UnforcedOutcome(current: Option<string>, a: Action, opts: Options)
    ensures var o := Plans.ActionStep(current, a, false, opts).1;
            o == Plans.Clean || o.status == Plans.Error
  {
  }

  lemma {:induction false} UnforcedClean(disk: Plans.Disk, actions: seq<Action>, opts: Options)
    requires !HasErrors(Plans.Execute(disk, actions, false, opts).outcomes)
    ensures AllClean(Plans.Execute(disk, actions, false, opts).outcomes)
    decreases |actions|
  {
    hide Plans.ActionStep;
    if actions != [] {
      var (content, outcome) := Plans.ActionStep(Plans.Lookup(disk, actions[0].path), actions[0], false, opts);
      UnforcedOutcome(Plans.Lookup(disk, actions[0].path), actions[0], opts);
      var next := Plans.Store(disk, actions[0].path, content);
      var run, rest := Plans.Execute(disk, actions, false, opts), Plans.Execute(next, actions[1..], false, opts);
      assert run.outcomes == [outcome] + rest.outcomes;
      assert outcome in run.outcomes;
      forall o | o in rest.outcomes ensures o in run.outcomes {}
      UnforcedClean(next, actions[1..], opts);
    }
  }

  /** The reverse of what a patch asks for. */
  lemma RequestedReverse(text: string, d: PathDecoder, disk: Plans.Disk, opts: Options)
    requires Requested(text, d, false).Some?
    requires var actions := Requested(text, d, false).value;
             AllInvertible(disk, actions, opts) && !HasErrors(Plans.Execute(disk, actions, false, opts).outcomes)
    ensures Requested(text, d, true).Some?
    ensures var there := Plans.Execute(disk, Requested(text, d, false).value, false, opts).disk;
            var back := Plans.Execute(there, Requested(text, d, true).value, false, opts);
            back.disk == disk && IsClean(back.outcomes)
  {
    hide Parse, ReverseActions, Plans.Execute, AllInvertible;
    var actions := Requested(text, d, false).value;
    UnforcedClean(disk, actions, opts);
    ReversedRunRestores(disk, actions, opts);
    var there := Plans.Execute(disk, actions, false, opts).disk;
    CleanIsClean(Plans.Execute(there, ReverseActions(actions).value, false, opts).outcomes);
  }

  lemma CleanIsClean(outcomes: seq<Plans.Outcome>)
    requires AllClean(outcomes)
    ensures IsClean(outcomes)
  {
  }

  /**
   Applying a patch and then applying the same patch in reverse. If its actions are invertible where they
   meet the disk and both runs write, every file is back as it was; and once the first has written, the
   second is kept from it only by a file operation that fails.
   */
  method ApplyAndReverse(fs: FileSystem, text: string, d: PathDecoder, opts: Options)
    returns (first: RunReport, second: RunReport)
    requires fs.Valid()
    modifies fs
    ensures fs.Valid()
    ensures var disk, requested := RealDisk(old(fs.files)), Requested(text, d, false);
            requested.Some? && AllInvertible(disk, requested.value, opts) && first.Written? ==>
              && (second.Written? ==> RealDisk(fs.files) == disk && second.clean)
              && (!second.Written? ==> second.CommitFailed? && exists k | k >= old(fs.ops) :: k in fs.faults)
  {
    hide Parse, ReverseActions, Plans.Execute, RealDisk, RunEntries, AllInvertible, GoesThrough, AllRejects, Lost;
    ghost var disk := RealDisk(fs.files);
    first := ApplyCustomPatch(fs, text, d, false, false, false, opts);
    ghost var requested := Requested(text, d, false);
    if requested.Some? && AllInvertible(disk, requested.value, opts) && first.Written? {
      RequestedReverse(text, d, disk, opts);
    }
    ghost var between, from := fs.files, fs.ops;
    second := ApplyCustomPatch(fs, text, d, false, false, true, opts);
    if Requested(text, d, true).Some? && second.CommitFailed? {
      FailureNeedsFault(between, from, fs.faults, Requested(text, d, true).value, false, opts);
    }
  }

  /** A plan made from the disk it is committed to fails only for a failing operation. */
  lemma FailureNeedsFault(was: Files, from: nat, faults: set<nat>, actions: seq<Action>, force: bool, opts: Options)
    ensures GoesThrough(was, from, faults, RunEntries(RealDisk(was), actions, force, opts))
            || exists k | k >= from :: k in faults
  {
    hide RunEntries, Changed, AllStageOps, AllSwapOps, Originals, FirstFault;
    var es := RunEntries(RealDisk(was), actions, force, opts);
    PlanHolds(was, actions, force, opts);
    if forall k | k >= from :: k !in faults {
      ChangedHold(was, es);
      var changed := Changed(es);
      var deletion := from + AllStageOps(changed) + AllSwapOps(changed);
      FirstFaultIs(faults, deletion, |Originals(changed)|, |Originals(changed)|);
    }
  }

  lemma ChangedHold(was: Files, es: seq<Entry>)
    requires DistinctNames(es) && SnapshotsHold(was, es)
    ensures SnapshotsHold(was, Changed(es))
  {
    ChangedOf(es);
    forall i | 0 <= i < |Changed(es)|
      ensures At(was, Real(Changed(es)[i].name)) == Changed(es)[i].initial
    {
      assert Changed(es)[i] in Changed(es);
    }
  }
}

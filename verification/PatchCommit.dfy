/**
 Writing a plan to disk (tools/patch_applier.py, commit_plan): stage every new content in a
 temporary file, move originals to backups, move the staged files in place, delete the
 backups; on a failure, undo. Any primitive file operation may be the one that raises.
 */
module PatchCommit {
  import opened Common

  /** Planned paths and the temporary names beside them; temporary names are fresh. */
  datatype Path = Real(name: string) | Temp(id: nat)

  type Content = string

  type Files = map<Path, Content>

  /** A planned path with its content before planning and in the plan; None is absence. */
  datatype Entry = Entry(name: string, initial: Option<Content>, planned: Option<Content>)

  datatype Verdict = Committed | Failed(undoErrors: nat)

  function At(files: Files, p: Path): Option<Content> {
    if p in files then Some(files[p]) else None
  }

  predicate DistinctNames(es: seq<Entry>) {
    forall i, j | 0 <= i < j < |es| :: es[i].name != es[j].name
  }

  predicate Distinct(names: seq<string>) {
    forall i, j | 0 <= i < j < |names| :: names[i] != names[j]
  }

  ghost predicate Injective(m: map<string, nat>) {
    forall a, b | a in m && b in m && m[a] == m[b] :: a == b
  }

  /** What undoing leaves at a committed path: its backup if that is still there, else nothing. */
  function Restored(files: Files, backups: map<string, nat>, name: string): Option<Content> {
    if name in backups then At(files, Temp(backups[name])) else None
  }

  /** Nothing has happened to the path or its backup since `was`. */
  ghost predicate Untouched(files: Files, was: Files, backups: map<string, nat>, n: string) {
    && At(files, Real(n)) == At(was, Real(n))
    && (n in backups ==> At(files, Temp(backups[n])) == At(was, Temp(backups[n])))
  }

  /** The path holds what its backup held at `was`. */
  ghost predicate Undone(files: Files, was: Files, backups: map<string, nat>, n: string) {
    At(files, Real(n)) == Restored(was, backups, n)
  }

  /** The content of the backup at `was` is still at the path or in the backup. */
  ghost predicate Safe(files: Files, was: Files, backups: map<string, nat>, n: string) {
    n in backups ==>
      && (Restored(was, backups, n).Some? ==>
            Undone(files, was, backups, n) || At(files, Temp(backups[n])) == Restored(was, backups, n))
      && At(files, Temp(backups[n])) in {None, Restored(was, backups, n)}
  }

  /** Undoing now would put every path back to what it was: the invariant of the moving phase. */
  ghost predicate Recoverable(files: Files, was: Files, committed: seq<string>, backups: map<string, nat>) {
    && (forall n | n in committed :: Restored(files, backups, n) == At(was, Real(n)))
    && (forall n | n !in committed :: At(files, Real(n)) == At(was, Real(n)))
  }

  lemma SetAsideRecoverable(files: Files, was: Files, committed: seq<string>, backups: map<string, nat>, name: string,
                            id: nat)
    requires Recoverable(files, was, committed, backups) && Real(name) in files
    requires name !in committed && name !in backups && IdsBelow(backups, id)
    ensures var files' := (files - {Real(name)})[Temp(id) := files[Real(name)]];
            Recoverable(files', was, committed + [name], backups[name := id])
  {
    var files' := (files - {Real(name)})[Temp(id) := files[Real(name)]];
    var backups' := backups[name := id];
    forall n | n in committed + [name]
      ensures Restored(files', backups', n) == At(was, Real(n))
    {
      if n != name {
        assert n in committed;
        assert Restored(files', backups', n) == Restored(files, backups, n);
      }
    }
  }

  /** A stray temporary name beyond the known backups changes nothing. */
  lemma SameBelow(files: Files, files': Files, was: Files, committed: seq<string>, backups: map<string, nat>, id: nat)
    requires Recoverable(files, was, committed, backups) && IdsBelow(backups, id)
    requires forall p | p != Temp(id) :: At(files', p) == At(files, p)
    ensures Recoverable(files', was, committed, backups)
  {
    forall n | n in committed
      ensures Restored(files', backups, n) == At(was, Real(n))
    {
      assert Restored(files', backups, n) == Restored(files, backups, n);
    }
  }

  lemma AbsentRecoverable(files: Files, was: Files, committed: seq<string>, backups: map<string, nat>, name: string)
    requires Recoverable(files, was, committed, backups) && Real(name) !in files
    requires name !in committed && name !in backups
    ensures Recoverable(files, was, committed + [name], backups)
  {
    assert At(files, Real(name)) == At(was, Real(name));
    forall n | n in committed + [name]
      ensures Restored(files, backups, n) == At(was, Real(n))
    {
    }
  }

  lemma MoveInRecoverable(files: Files, was: Files, committed: seq<string>, backups: map<string, nat>, name: string,
                          id: nat)
    requires Recoverable(files, was, committed, backups) && Temp(id) in files
    requires name in committed && forall n | n in backups :: backups[n] != id
    ensures Recoverable((files - {Temp(id)})[Real(name) := files[Temp(id)]], was, committed, backups)
  {
    var files' := (files - {Temp(id)})[Real(name) := files[Temp(id)]];
    forall n | n in committed
      ensures Restored(files', backups, n) == At(was, Real(n))
    {
      assert Restored(files', backups, n) == Restored(files, backups, n);
    }
  }

  /** The entries the plan changes, in order. */
  function Changed(plan: seq<Entry>): seq<Entry> {
    if plan == [] then []
    else if plan[0].planned != plan[0].initial then [plan[0]] + Changed(plan[1..])
    else Changed(plan[1..])
  }

  lemma {:induction false} ChangedOf(plan: seq<Entry>)
    requires DistinctNames(plan)
    ensures DistinctNames(Changed(plan))
    ensures forall e :: e in Changed(plan) <==> e in plan && e.planned != e.initial
  {
    if plan != [] {
      assert plan == [plan[0]] + plan[1..];
      ChangedOf(plan[1..]);
      var rest := Changed(plan[1..]);
      forall j | 0 <= j < |rest|
        ensures rest[j].name != plan[0].name
      {
        assert rest[j] in rest;
        var k :| 0 <= k < |plan[1..]| && plan[1..][k] == rest[j];
        assert plan[0].name != plan[k + 1].name;
      }
    }
  }

  lemma NameTellsEntry(plan: seq<Entry>, i: nat, e: Entry)
    requires DistinctNames(plan) && i < |plan| && e in plan
    ensures plan[i].name == e.name ==> plan[i] == e
  {
  }

  /** A plan whose snapshots hold and whose changed entries are in place is in place as a whole. */
  lemma UnchangedInPlace(was: Files, files: Files, plan: seq<Entry>)
    requires DistinctNames(plan) && SnapshotsHold(was, plan) && InPlace(files, Changed(plan))
    requires forall n | n !in Names(Changed(plan)) :: At(files, Real(n)) == At(was, Real(n))
    ensures InPlace(files, plan)
  {
    ChangedOf(plan);
    var changed := Changed(plan);
    forall i | 0 <= i < |plan|
      ensures At(files, Real(plan[i].name)) == plan[i].planned
    {
      if plan[i].planned != plan[i].initial {
        assert plan[i] in changed;
      } else {
        forall k | 0 <= k < |changed|
          ensures changed[k].name != plan[i].name
        {
          assert changed[k] in changed;
          NameTellsEntry(plan, i, changed[k]);
        }
      }
    }
  }

  lemma ChangedNames(plan: seq<Entry>)
    requires DistinctNames(plan)
    ensures forall n | n in Names(Changed(plan)) :: n in Names(plan)
  {
    ChangedOf(plan);
    forall n | n in Names(Changed(plan))
      ensures n in Names(plan)
    {
      var i :| 0 <= i < |Changed(plan)| && Changed(plan)[i].name == n;
      assert Changed(plan)[i] in plan;
      var j :| 0 <= j < |plan| && plan[j] == Changed(plan)[i];
      assert Names(plan)[j] == n;
    }
  }

  lemma RecoverableFrom(files: Files, mid: Files, was: Files, committed: seq<string>, backups: map<string, nat>)
    requires Recoverable(files, mid, committed, backups)
    requires forall n :: At(mid, Real(n)) == At(was, Real(n))
    ensures Recoverable(files, was, committed, backups)
  {
  }

  /** Undoing after some backups were deleted: those paths end empty, the others as they were. */
  lemma RolledBack(was: Files, moved: Files, failed: Files, files: Files,
                   committed: seq<string>, backups: map<string, nat>, lost: set<string>)
    requires Recoverable(moved, was, committed, backups)
    requires lost <= backups.Keys && forall n | n in backups :: n in committed
    requires OnlyBackupsGone(moved, failed, backups, lost)
    requires forall n | n in committed :: Undone(files, failed, backups, n)
    requires forall n | n !in committed :: Untouched(files, failed, backups, n)
    ensures forall n :: At(files, Real(n)) == if n in lost then None else At(was, Real(n))
  {
    forall n
      ensures At(files, Real(n)) == if n in lost then None else At(was, Real(n))
    {
      if n in committed {
        assert Undone(files, failed, backups, n);
        assert Restored(moved, backups, n) == At(was, Real(n));
      } else {
        assert Untouched(files, failed, backups, n);
      }
    }
  }

  lemma SnapshotsSame(a: Files, b: Files, es: seq<Entry>)
    requires forall n :: At(a, Real(n)) == At(b, Real(n))
    ensures SnapshotsHold(a, es) == SnapshotsHold(b, es)
  {
  }

  lemma InPlaceKept(a: Files, b: Files, es: seq<Entry>)
    requires forall n :: At(a, Real(n)) == At(b, Real(n))
    ensures InPlace(a, es) == InPlace(b, es)
  {
  }

  lemma CommittedOthers(files: Files, was: Files, es: seq<Entry>, committed: seq<string>, backups: map<string, nat>)
    requires Recoverable(files, was, committed, backups) && committed == Names(es)
    ensures forall n | n !in Names(es) :: At(files, Real(n)) == At(was, Real(n))
  {
  }

  lemma NothingGone(files: Files, backups: map<string, nat>)
    ensures OnlyBackupsGone(files, files, backups, {})
  {
  }

  lemma GoneReals(was: Files, files: Files, backups: map<string, nat>, gone: set<string>)
    requires OnlyBackupsGone(was, files, backups, gone)
    ensures forall n :: At(files, Real(n)) == At(was, Real(n))
  {
  }

  lemma SecondFault(was: Files, from: nat, failure: nat, to: nat, faults: set<nat>, plan: seq<Entry>)
    requires from <= failure <= to && exists k | failure <= k < to :: k in faults
    requires SnapshotsHold(was, Changed(plan)) ==> exists k | from <= k < failure :: k in faults
    ensures UndoneBadly(was, from, to, faults, plan)
  {
  }

  lemma UndoneBadlyLater(was: Files, from: nat, to: nat, end: nat, faults: set<nat>, plan: seq<Entry>)
    requires to <= end
    ensures UndoneBadly(was, from, to, faults, plan) ==> UndoneBadly(was, from, end, faults, plan)
  {
  }

  /** Undoing loses nothing that was not lost before, whether or not it goes through. */
  lemma OriginalKept(was: Files, moved: Files, stopped: Files, files: Files,
                     committed: seq<string>, backups: map<string, nat>, lost: set<string>, bound: nat, n: string)
    requires Recoverable(moved, was, committed, backups) && OnlyBackupsGone(moved, stopped, backups, lost) && n !in lost
    requires n in committed ==> Safe(files, stopped, backups, n)
    requires n !in committed ==> Untouched(files, stopped, backups, n)
    requires n in backups ==> backups[n] >= bound
    ensures Kept(files, was, bound, n)
  {
    if n in committed && n in backups { assert Restored(moved, backups, n) == At(was, Real(n)); }
  }

  lemma OthersUntouched(was: Files, moved: Files, failed: Files, files: Files, committed: seq<string>,
                        backups: map<string, nat>)
    requires Recoverable(moved, was, committed, backups)
    requires forall n :: At(failed, Real(n)) == At(moved, Real(n))
    requires forall n | n !in committed :: Untouched(files, failed, backups, n)
    ensures forall n | n !in committed :: At(files, Real(n)) == At(was, Real(n))
  {
    forall n | n !in committed
      ensures At(files, Real(n)) == At(was, Real(n))
    {
      assert Untouched(files, failed, backups, n);
    }
  }

  lemma SnapshotBroken(files: Files, es: seq<Entry>, i: nat)
    requires i < |es| && At(files, Real(es[i].name)) != es[i].initial
    ensures !SnapshotsHold(files, es)
  {
  }

  /** The entries below i are in place; the others are untouched and, where they have content, staged. */
  ghost predicate SwappedBelow(files: Files, was: Files, es: seq<Entry>, i: nat, staged: map<string, nat>) {
    && (forall j | 0 <= j < i && j < |es| :: At(files, Real(es[j].name)) == es[j].planned)
    && (forall j | i <= j < |es| :: At(files, Real(es[j].name)) == At(was, Real(es[j].name)))
    && (forall j | i <= j < |es| && es[j].planned.Some? ::
          es[j].name in staged && At(files, Temp(staged[es[j].name])) == es[j].planned)
  }

  lemma SwapNext(files: Files, was: Files, es: seq<Entry>, i: nat, staged: map<string, nat>)
    requires SwappedBelow(files, was, es, i, staged) && i < |es|
    ensures At(files, Real(es[i].name)) == At(was, Real(es[i].name))
    ensures es[i].planned.Some? ==> es[i].name in staged && At(files, Temp(staged[es[i].name])) == es[i].planned
  {
  }

  lemma SwappedMore(before: Files, files: Files, was: Files, es: seq<Entry>, i: nat, staged: map<string, nat>)
    requires DistinctNames(es) && i < |es| && SwappedBelow(before, was, es, i, staged)
    requires At(files, Real(es[i].name)) == es[i].planned
    requires forall n | n != es[i].name :: At(files, Real(n)) == At(before, Real(n))
    requires forall n | n in staged && n != es[i].name :: At(files, Temp(staged[n])) == At(before, Temp(staged[n]))
    ensures SwappedBelow(files, was, es, i + 1, staged)
  {
  }

  lemma AllSwapped(files: Files, was: Files, es: seq<Entry>, staged: map<string, nat>)
    requires SwappedBelow(files, was, es, |es|, staged)
    ensures InPlace(files, es)
  {
  }

  lemma NothingSwapped(files: Files, faults: set<nat>, from: nat, es: seq<Entry>, staged: map<string, nat>)
    requires AllStaged(files, es, staged)
    ensures SwappedBelow(files, files, es, 0, staged)
    ensures AllSwapOps(es[..0]) == 0 && NoFault(faults, from, 0) && SnapshotsHold(files, es[..0])
    ensures BackupsOf(es[..0], map[]) && Injective(map[]) && forall bound :: IdsBelow(map[], bound)
  {
  }

  lemma NoOps(faults: set<nat>, from: nat)
    ensures AllStageOps([]) == 0 && AllSwapOps([]) == 0 && NoFault(faults, from, 0)
  {
  }

  lemma StagedMore(before: Files, files: Files, es: seq<Entry>, i: nat, staged: map<string, nat>, id: nat, first: nat)
    requires DistinctNames(es) && i < |es| && AllStaged(before, es[..i], staged) && Injective(staged)
             && IdsBelow(staged, first)
    requires id == first && At(files, Temp(id)) == es[i].planned
    requires forall p | p != Temp(id) :: At(files, p) == At(before, p)
    ensures var staged' := if es[i].planned.Some? then staged[es[i].name := id] else staged;
            AllStaged(files, es[..i + 1], staged') && Injective(staged')
  {
    var staged' := if es[i].planned.Some? then staged[es[i].name := id] else staged;
    forall j | 0 <= j < i && es[j].planned.Some?
      ensures es[j].name in staged' && At(files, Temp(staged'[es[j].name])) == es[j].planned
    {
      assert es[..i][j] == es[j];
    }
  }

  lemma BackupsMore(es: seq<Entry>, i: nat, backups: map<string, nat>, backups': map<string, nat>)
    requires DistinctNames(es) && i < |es| && BackupsOf(es[..i], backups)
    requires es[i].name in backups' <==> es[i].initial.Some?
    requires forall n | n != es[i].name :: n in backups' <==> n in backups
    ensures BackupsOf(es[..i + 1], backups')
  {
    forall j | 0 <= j < i ensures es[j].name in backups' <==> es[j].initial.Some? { assert es[..i][j] == es[j]; }
    forall n | n in backups'
      ensures n in Names(es[..i + 1])
    {
      if n == es[i].name {
        assert Names(es[..i + 1])[i] == n;
      } else {
        var j :| 0 <= j < i && Names(es[..i])[j] == n;
        assert Names(es[..i + 1])[j] == n;
      }
    }
  }

  lemma HoldMore(files: Files, es: seq<Entry>, i: nat)
    requires i < |es| && SnapshotsHold(files, es[..i]) && At(files, Real(es[i].name)) == es[i].initial
    ensures SnapshotsHold(files, es[..i + 1])
  {
    forall j | 0 <= j < i ensures At(files, Real(es[j].name)) == es[j].initial { assert es[..i][j] == es[j]; }
  }

  /** There is a backup for exactly the entries that had content. */
  ghost predicate BackupsOf(es: seq<Entry>, backups: map<string, nat>) {
    && (forall i | 0 <= i < |es| :: es[i].name in backups <==> es[i].initial.Some?)
    && (forall n | n in backups :: n in Names(es))
  }

  lemma NothingCommitted(files: Files)
    ensures Recoverable(files, files, [], map[]) && Distinct([]) && Injective(map[])
  {
  }

  ghost predicate AllStaged(files: Files, es: seq<Entry>, staged: map<string, nat>) {
    forall i | 0 <= i < |es| && es[i].planned.Some? ::
      es[i].name in staged && At(files, Temp(staged[es[i].name])) == es[i].planned
  }

  ghost predicate IdsBelow(m: map<string, nat>, bound: nat) {
    forall n | n in m :: m[n] < bound
  }

  ghost predicate Disjoint(a: map<string, nat>, b: map<string, nat>) {
    forall m, n | m in a && n in b :: a[m] != b[n]
  }

  ghost predicate InPlace(files: Files, es: seq<Entry>) {
    forall i | 0 <= i < |es| :: At(files, Real(es[i].name)) == es[i].planned
  }

  /** The plan still describes the disk. */
  ghost predicate SnapshotsHold(files: Files, es: seq<Entry>) {
    forall i | 0 <= i < |es| :: At(files, Real(es[i].name)) == es[i].initial
  }

  function Names(es: seq<Entry>): (r: seq<string>)
    ensures |r| == |es| && forall i | 0 <= i < |es| :: r[i] == es[i].name
  {
    seq(|es|, i requires 0 <= i < |es| => es[i].name)
  }

  // ---- How many operations a commit needs -------------------------------------------

  /** The operations that stage an entry: two looks at the snapshot and a temporary file, or one look. */
  function StageOps(e: Entry): nat { if e.planned.Some? then 3 else 1 }

  /** The operations that swap an entry: a look, three to set an original aside, one to move in. */
  function SwapOps(e: Entry): nat { SetAsideOps(e) + if e.planned.Some? then 1 else 0 }

  function SetAsideOps(e: Entry): nat { if e.initial.Some? then 4 else 1 }

  function AllStageOps(es: seq<Entry>): nat {
    if es == [] then 0 else AllStageOps(es[..|es| - 1]) + StageOps(es[|es| - 1])
  }

  function AllSwapOps(es: seq<Entry>): nat {
    if es == [] then 0 else AllSwapOps(es[..|es| - 1]) + SwapOps(es[|es| - 1])
  }

  /** The paths that had content, in the order their backups are made and deleted. */
  function Originals(es: seq<Entry>): seq<string> {
    if es == [] then []
    else Originals(es[..|es| - 1]) + if es[|es| - 1].initial.Some? then [es[|es| - 1].name] else []
  }

  lemma {:induction false} OpsOfPrefix(es: seq<Entry>, i: nat)
    requires i < |es|
    ensures AllStageOps(es[..i + 1]) == AllStageOps(es[..i]) + StageOps(es[i]) <= AllStageOps(es)
    ensures AllSwapOps(es[..i + 1]) == AllSwapOps(es[..i]) + SwapOps(es[i]) <= AllSwapOps(es)
    ensures Originals(es[..i + 1]) == Originals(es[..i]) + (if es[i].initial.Some? then [es[i].name] else [])
    ensures Originals(es[..i + 1]) <= Originals(es)
    decreases |es|
  {
    assert es[..i + 1][..i] == es[..i] && es[..i + 1][i] == es[i];
    if i + 1 < |es| {
      var front := es[..|es| - 1];
      OpsOfPrefix(front, i);
      assert front[..i + 1] == es[..i + 1] && front[..i] == es[..i];
    } else {
      assert es[..i + 1] == es;
    }
  }

  /** None of the next n operations fails. */
  ghost predicate NoFault(faults: set<nat>, from: nat, n: nat) {
    forall k | from <= k < from + n :: k !in faults
  }

  lemma NoFaultJoin(faults: set<nat>, from: nat, n: nat, m: nat)
    requires NoFault(faults, from, n) && NoFault(faults, from + n, m)
    ensures NoFault(faults, from, n + m)
  {
  }

  /** How many of the next n operations go through before the first that fails. */
  function FirstFault(faults: set<nat>, from: nat, n: nat): nat
    decreases n
  {
    if n == 0 || from in faults then 0 else 1 + FirstFault(faults, from + 1, n - 1)
  }

  /** The first n names, or all of them if there are fewer. */
  function Upto(names: seq<string>, n: nat): seq<string> { if n <= |names| then names[..n] else names }

  lemma {:induction false} FirstFaultIs(faults: set<nat>, from: nat, n: nat, f: nat)
    requires f <= n && NoFault(faults, from, f) && (f == n || from + f in faults)
    ensures FirstFault(faults, from, n) == f
    decreases f
  {
    if f > 0 { FirstFaultIs(faults, from + 1, n - 1, f - 1); }
  }

  /** The commit gets as far as deleting backups: the changed paths are as planned and nothing fails before. */
  ghost predicate ReachesDeletion(files: Files, ops: nat, faults: set<nat>, plan: seq<Entry>) {
    var es := Changed(plan);
    SnapshotsHold(files, es) && NoFault(faults, ops, AllStageOps(es) + AllSwapOps(es))
  }

  /** How many backups are deleted before the first deletion that fails. */
  ghost function Deletions(ops: nat, faults: set<nat>, plan: seq<Entry>): nat {
    var es := Changed(plan);
    FirstFault(faults, ops + AllStageOps(es) + AllSwapOps(es), |Originals(es)|)
  }

  /** The commit goes through. */
  ghost predicate GoesThrough(files: Files, ops: nat, faults: set<nat>, plan: seq<Entry>) {
    ReachesDeletion(files, ops, faults, plan) && Deletions(ops, faults, plan) == |Originals(Changed(plan))|
  }

  /** The paths whose original is gone for good: backups deleted before one that could not be. */
  ghost function Lost(files: Files, ops: nat, faults: set<nat>, plan: seq<Entry>): set<string> {
    if ReachesDeletion(files, ops, faults, plan) && !GoesThrough(files, ops, faults, plan)
    then set n | n in Upto(Originals(Changed(plan)), Deletions(ops, faults, plan)) else {}
  }

  /** What the path held is still on the disk, at the path or in a temporary file from a number on. */
  ghost predicate Kept(files: Files, was: Files, bound: nat, n: string) {
    At(was, Real(n)).Some? ==>
      At(files, Real(n)) == At(was, Real(n)) || exists id | id >= bound :: At(files, Temp(id)) == At(was, Real(n))
  }

  lemma KeptLater(before: Files, files: Files, was: Files, bound: nat, n: string)
    requires Kept(before, was, bound, n) && forall m :: At(files, Real(m)) == At(before, Real(m))
    requires forall id | id >= bound :: At(files, Temp(id)) == At(before, Temp(id))
    ensures Kept(files, was, 0, n)
  {
  }

  /** An operation failed after the one that stopped the commit. */
  ghost predicate UndoneBadly(files: Files, from: nat, to: nat, faults: set<nat>, plan: seq<Entry>) {
    exists k | from <= k < to ::
      k in faults && (SnapshotsHold(files, Changed(plan)) ==> exists j | from <= j < k :: j in faults)
  }

  /** No path has moved, and of the backups just these are gone. */
  ghost predicate OnlyBackupsGone(was: Files, files: Files, backups: map<string, nat>, gone: set<string>) {
    && (forall n :: At(files, Real(n)) == At(was, Real(n)))
    && (forall n | n in backups :: At(files, Temp(backups[n])) == if n in gone then None else At(was, Temp(backups[n])))
  }

  lemma HasBackup(es: seq<Entry>, i: nat, backups: map<string, nat>)
    requires i < |es| && BackupsOf(es, backups)
    ensures es[i].name in backups <==> es[i].initial.Some?
  {
  }

  lemma Reached(files: Files, from: nat, faults: set<nat>, plan: seq<Entry>)
    requires var es := Changed(plan);
             SnapshotsHold(files, es) && NoFault(faults, from, AllStageOps(es))
               && NoFault(faults, from + AllStageOps(es), AllSwapOps(es))
    ensures var es := Changed(plan);
            var f := FirstFault(faults, from + AllStageOps(es) + AllSwapOps(es), |Originals(es)|);
            && (GoesThrough(files, from, faults, plan) <==> f == |Originals(es)|)
            && (f != |Originals(es)| ==> Lost(files, from, faults, plan) == set n | n in Upto(Originals(es), f))
  {
    NoFaultJoin(faults, from, AllStageOps(Changed(plan)), AllSwapOps(Changed(plan)));
  }

  lemma NotReached(files: Files, from: nat, to: nat, faults: set<nat>, plan: seq<Entry>)
    requires to <= from + AllStageOps(Changed(plan)) + AllSwapOps(Changed(plan))
    requires !SnapshotsHold(files, Changed(plan)) || exists k | from <= k < to :: k in faults
    ensures !GoesThrough(files, from, faults, plan) && Lost(files, from, faults, plan) == {}
  {
  }

  lemma LostHaveBackups(es: seq<Entry>, backups: map<string, nat>, f: nat)
    requires BackupsOf(es, backups)
    ensures forall n | n in Upto(Originals(es), f) :: n in backups
  {
    forall n | n in Upto(Originals(es), f)
      ensures n in backups
    {
      assert n in Originals(es);
      OriginalNames(es, n);
    }
  }

  lemma NoneDeleted(es: seq<Entry>, faults: set<nat>, from: nat)
    ensures Originals(es[..0]) == [] && NoFault(faults, from, 0)
  {
  }

  lemma DeletedMore(es: seq<Entry>, i: nat, faults: set<nat>, from: nat)
    requires i < |es| && DistinctNames(es) && NoFault(faults, from, |Originals(es[..i])|)
    ensures from + |Originals(es[..i])| !in faults ==> NoFault(faults, from, |Originals(es[..i])| + 1)
    ensures Originals(es[..i]) <= Originals(es) && es[i].name !in Originals(es[..i])
    ensures es[i].initial.Some? ==> |Originals(es[..i])| < |Originals(es)|
  {
    OpsOfPrefix(es, i);
    OriginalNames(es[..i], es[i].name);
  }

  lemma {:induction false} OriginalNames(es: seq<Entry>, n: string)
    ensures n in Originals(es) <==> exists i | 0 <= i < |es| :: es[i].name == n && es[i].initial.Some?
  {
    if es != [] { OriginalNames(es[..|es| - 1], n); }
  }

  /** Only one path and its backup differ between the two states. */
  ghost predicate OnlyAbout(name: string, backups: map<string, nat>, files: Files, files': Files) {
    forall p | p != Real(name) && !(name in backups && p == Temp(backups[name])) :: At(files, p) == At(files', p)
  }

  lemma OthersKept(name: string, backups: map<string, nat>, files: Files, files': Files, was: Files)
    requires OnlyAbout(name, backups, files, files') && Injective(backups)
    ensures forall n | n != name :: Untouched(files, was, backups, n) == Untouched(files', was, backups, n)
    ensures forall n | n != name :: Undone(files, was, backups, n) == Undone(files', was, backups, n)
    ensures forall n | n != name :: Safe(files, was, backups, n) == Safe(files', was, backups, n)
  {
    forall n | n != name
      ensures At(files, Real(n)) == At(files', Real(n))
      ensures n in backups ==> At(files, Temp(backups[n])) == At(files', Temp(backups[n]))
    {
    }
  }

  class FileSystem {
    var files: Files
    var nextTemp: nat
    /** Primitive operations carried out so far; those whose number is in `faults` raise. */
    var ops: nat
    const faults: set<nat>

    constructor (files: Files, nextTemp: nat, faults: set<nat>)
      requires forall n: nat | Temp(n) in files :: n < nextTemp
      ensures Valid() && this.files == files && ops == 0 && this.faults == faults
    {
      this.files, this.nextTemp, this.ops, this.faults := files, nextTemp, 0, faults;
    }

    ghost predicate Valid()
      reads this
    {
      forall n: nat | Temp(n) in files :: n < nextTemp
    }

    /** Counts one primitive operation and tells whether it goes through. */
    method Tick() returns (ok: bool)
      modifies this`ops
      ensures ops == old(ops) + 1
      ensures ok <==> old(ops) !in faults
    {
      ok := ops !in faults;
      ops := ops + 1;
    }

    /** The path still holds what the plan was made from. */
    method VerifySnapshot(e: Entry) returns (ok: bool)
      modifies this`ops
      ensures ops == old(ops) + 1
      ensures ok ==> At(files, Real(e.name)) == e.initial && old(ops) !in faults
      ensures !ok ==> At(files, Real(e.name)) != e.initial || exists k | old(ops) <= k < ops :: k in faults
    {
      var through := Tick();
      ok := through && At(files, Real(e.name)) == e.initial;
      assert !through ==> old(ops) in faults;
    }

    method WriteTemp(data: Content) returns (ok: bool, id: nat)
      requires Valid()
      modifies this
      ensures Valid() && ops == old(ops) + 1 && id == old(nextTemp)
      ensures ok ==> files == old(files)[Temp(id) := data] && nextTemp == id + 1 && old(ops) !in faults
      ensures !ok ==> files == old(files) && nextTemp == old(nextTemp)
      ensures !ok ==> exists k | old(ops) <= k < ops :: k in faults
    {
      id := nextTemp;
      ok := Tick();
      if ok {
        files := files[Temp(id) := data];
        nextTemp := id + 1;
      } else {
        assert old(ops) in faults;
      }
    }

    method Replace(src: Path, dst: Path) returns (ok: bool)
      requires Valid() && src in files && src != dst && dst.Real?
      modifies this`files, this`ops
      ensures Valid() && ops == old(ops) + 1
      ensures ok ==> files == (old(files) - {src})[dst := old(files)[src]] && old(ops) !in faults
      ensures !ok ==> files == old(files)
      ensures !ok ==> exists k | old(ops) <= k < ops :: k in faults
    {
      ok := Tick();
      if ok {
        files := (files - {src})[dst := files[src]];
      } else {
        assert old(ops) in faults;
      }
    }

    method Unlink(p: Path) returns (ok: bool)
      requires Valid()
      modifies this`files, this`ops
      ensures Valid() && ops == old(ops) + 1
      ensures ok ==> files == old(files) - {p}
      ensures !ok ==> files == old(files)
      ensures ok <==> old(ops) !in faults
    {
      ok := Tick();
      if ok {
        files := files - {p};
      } else {
        assert old(ops) in faults;
      }
    }

    /** Moves an original aside under a fresh backup name. */
    method MoveToBackup(name: string) returns (ok: bool, id: nat)
      requires Valid() && Real(name) in files
      modifies this
      ensures Valid() && old(ops) < ops <= old(ops) + 3 && id == old(nextTemp) && nextTemp >= id
      ensures ok ==> ops == old(ops) + 3 && NoFault(faults, old(ops), 3)
      ensures ok ==> files == (old(files) - {Real(name)})[Temp(id) := old(files)[Real(name)]] && nextTemp == id + 1
      ensures !ok ==> forall p | p != Temp(id) :: At(files, p) == At(old(files), p)
      ensures !ok ==> exists k | old(ops) <= k < ops :: k in faults
    {
      ok, id := WriteTemp("");
      if !ok { return; }
      ok := Unlink(Temp(id));
      if !ok { return; }
      ok := Tick();
      if ok {
        var content := files[Real(name)];
        files := (files - {Real(name)})[Temp(id) := content];
      } else {
        assert ops - 1 in faults;
      }
    }

    // ---- Undo -----------------------------------------------------------------------

    method UndoOne(name: string, backups: map<string, nat>, ghost was: Files) returns (ok: bool)
      requires Valid() && Untouched(files, was, backups, name)
      modifies this`files, this`ops
      ensures Valid() && ops >= old(ops)
      ensures OnlyAbout(name, backups, old(files), files)
      ensures ok ==> Undone(files, was, backups, name)
      ensures Safe(files, was, backups, name)
      ensures !ok ==> exists k | old(ops) <= k < ops :: k in faults
    {
      ok := true;
      if Real(name) in files {
        ok := Unlink(Real(name));
        if !ok { return; }
      }
      if name in backups && Temp(backups[name]) in files {
        ok := Replace(Temp(backups[name]), Real(name));
      }
    }

    /**
     Undoes the committed paths in reverse order. Without undo errors every one of them
     holds its backup; whatever fails, the content of a backup is never lost.
     */
    method Rollback(committed: seq<string>, backups: map<string, nat>) returns (errors: nat)
      requires Valid() && Distinct(committed) && Injective(backups)
      modifies this`files, this`ops
      ensures Valid() && ops >= old(ops)
      ensures errors == 0 ==> forall n | n in committed :: Undone(files, old(files), backups, n)
      ensures forall n | n in committed :: Safe(files, old(files), backups, n)
      ensures forall n | n !in committed :: Untouched(files, old(files), backups, n)
      ensures errors > 0 ==> exists k | old(ops) <= k < ops :: k in faults
    {
      hide Untouched, Undone, Safe, OnlyAbout;
      errors := UndoCommitted(committed, backups);
      label undone:
      for i := 0 to |committed|
        invariant Valid() && ops >= old(ops)
        invariant errors == 0 ==> forall n | n in committed :: Undone(files, old(files), backups, n)
        invariant forall n | n in committed :: Safe(files, old(files), backups, n)
        invariant forall n | n !in committed :: Untouched(files, old(files), backups, n)
        invariant errors > 0 ==> exists k | old(ops) <= k < ops :: k in faults
      {
        var name := committed[i];
        label before:
        var ok := RestoreStraggler(name, backups, old(files));
        OthersKept(name, backups, old@before(files), files, old(files));
        if !ok {
          errors := errors + 1;
        }
      }
    }

    method UndoCommitted(committed: seq<string>, backups: map<string, nat>) returns (errors: nat)
      requires Valid() && Distinct(committed) && Injective(backups)
      modifies this`files, this`ops
      ensures Valid() && ops >= old(ops)
      ensures errors == 0 ==> forall n | n in committed :: Undone(files, old(files), backups, n)
      ensures forall n | n in committed :: Safe(files, old(files), backups, n)
      ensures forall n | n !in committed :: Untouched(files, old(files), backups, n)
      ensures errors > 0 ==> exists k | old(ops) <= k < ops :: k in faults
    {
      hide Undone, Safe, OnlyAbout;
      errors := 0;
      var i := |committed|;
      assert forall n :: Untouched(files, old(files), backups, n);
      while i > 0
        invariant 0 <= i <= |committed| && Valid() && ops >= old(ops)
        invariant errors == 0 ==> forall n | n in committed[i..] :: Undone(files, old(files), backups, n)
        invariant forall n | n in committed[i..] :: Safe(files, old(files), backups, n)
        invariant forall n | n !in committed[i..] :: Untouched(files, old(files), backups, n)
        invariant errors > 0 ==> exists k | old(ops) <= k < ops :: k in faults
      {
        i := i - 1;
        var name := committed[i];
        assert committed[i..] == [name] + committed[i + 1..];
        label before:
        var ok := UndoOne(name, backups, old(files));
        OthersKept(name, backups, old@before(files), files, old(files));
        if !ok {
          errors := errors + 1;
        }
      }
      assert committed[0..] == committed;
    }

    /** The second undo pass: a backup whose path is still missing is moved home. */
    method RestoreStraggler(name: string, backups: map<string, nat>, ghost was: Files) returns (ok: bool)
      requires Valid() && Safe(files, was, backups, name)
      modifies this`files, this`ops
      ensures Valid() && ops >= old(ops)
      ensures OnlyAbout(name, backups, old(files), files)
      ensures Safe(files, was, backups, name)
      ensures Undone(old(files), was, backups, name) ==> Undone(files, was, backups, name)
      ensures !ok ==> exists k | old(ops) <= k < ops :: k in faults
    {
      ok := true;
      if name in backups && Temp(backups[name]) in files && Real(name) !in files {
        ok := Replace(Temp(backups[name]), Real(name));
      }
    }

    // ---- Commit ---------------------------------------------------------------------

    /** Writes every new content to a temporary file; no planned path is touched. */
    method Stage(changed: seq<Entry>) returns (ok: bool, staged: map<string, nat>)
      requires Valid() && DistinctNames(changed)
      modifies this
      ensures Valid() && old(ops) <= ops <= old(ops) + AllStageOps(changed)
      ensures forall n :: At(files, Real(n)) == At(old(files), Real(n))
      ensures IdsBelow(staged, nextTemp)
      ensures ok ==> AllStaged(files, changed, staged) && Injective(staged)
      ensures ok ==> ops == old(ops) + AllStageOps(changed) && NoFault(faults, old(ops), AllStageOps(changed))
      ensures !ok ==> !SnapshotsHold(old(files), changed) || exists k | old(ops) <= k < ops :: k in faults
    {
      hide AllStageOps, NoFault;
      staged := map[];
      NoOps(faults, ops);
      for i := 0 to |changed|
        invariant Valid() && ops == old(ops) + AllStageOps(changed[..i])
        invariant NoFault(faults, old(ops), AllStageOps(changed[..i]))
        invariant forall n :: At(files, Real(n)) == At(old(files), Real(n))
        invariant AllStaged(files, changed[..i], staged) && Injective(staged) && IdsBelow(staged, nextTemp)
      {
        OpsOfPrefix(changed, i);
        ghost var before, first := files, nextTemp;
        var id;
        ok, id := StageOne(changed[i]);
        if !ok {
          if At(old(files), Real(changed[i].name)) != changed[i].initial { SnapshotBroken(old(files), changed, i); }
          return;
        }
        NoFaultJoin(faults, old(ops), AllStageOps(changed[..i]), StageOps(changed[i]));
        StagedMore(before, files, changed, i, staged, id, first);
        if changed[i].planned.Some? { staged := staged[changed[i].name := id]; }
      }
      assert changed[..|changed|] == changed;
      ok := true;
    }

    /** Checks one entry and writes its new content, if it has one, to a fresh temporary file. */
    method StageOne(e: Entry) returns (ok: bool, id: nat)
      requires Valid()
      modifies this
      ensures Valid() && old(ops) < ops <= old(ops) + StageOps(e) && id == old(nextTemp) <= nextTemp
      ensures ok ==> ops == old(ops) + StageOps(e) && NoFault(faults, old(ops), StageOps(e))
      ensures ok ==> At(files, Temp(id)) == e.planned && (e.planned.Some? ==> nextTemp == id + 1)
      ensures forall p | p != Temp(id) :: At(files, p) == At(old(files), p)
      ensures !ok ==> At(old(files), Real(e.name)) != e.initial || exists k | old(ops) <= k < ops :: k in faults
    {
      id := nextTemp;
      ok := VerifySnapshot(e);
      if !ok || e.planned.None? { return; }
      ok := VerifySnapshot(e);
      if !ok { return; }
      ok, id := WriteTemp(e.planned.value);
    }

    /** Moves an original, if there is one, to a backup; from then on the path counts as committed. */
    method SetAside(e: Entry, committed: seq<string>, backups: map<string, nat>, ghost was: Files)
      returns (ok: bool, backups': map<string, nat>)
      requires Valid() && Recoverable(files, was, committed, backups)
      requires e.name !in committed && e.name !in backups
      requires Injective(backups) && IdsBelow(backups, nextTemp)
      modifies this
      ensures Valid() && old(ops) <= ops <= old(ops) + SwapOps(e) && nextTemp >= old(nextTemp)
      ensures ok ==> ops == old(ops) + SetAsideOps(e) && NoFault(faults, old(ops), SetAsideOps(e))
      ensures ok ==> (e.name in backups' <==> e.initial.Some?)
      ensures forall n | n != e.name :: n in backups' <==> n in backups
      ensures Recoverable(files, was, if ok then committed + [e.name] else committed, backups')
      ensures Injective(backups') && IdsBelow(backups', nextTemp)
      ensures forall n | n in backups' ::
              (n in backups && backups'[n] == backups[n]) || (n == e.name && backups'[n] >= old(nextTemp))
      ensures forall n | n != e.name :: At(files, Real(n)) == At(old(files), Real(n))
      ensures ok ==> Real(e.name) !in files
      ensures !ok ==> backups' == backups
      ensures forall id: nat | id < old(nextTemp) :: At(files, Temp(id)) == At(old(files), Temp(id))
      ensures !ok ==> At(old(files), Real(e.name)) != e.initial || exists k | old(ops) <= k < ops :: k in faults
      ensures ok ==> At(old(files), Real(e.name)) == e.initial
    {
      hide Recoverable;
      backups' := backups;
      ok := VerifySnapshot(e);
      if !ok { return; }
      label verified:
      if e.initial.Some? {
        var id;
        ok, id := MoveToBackup(e.name);
        if ok {
          SetAsideRecoverable(old(files), was, committed, backups, e.name, id);
          backups' := backups[e.name := id];
        } else {
          SameBelow(old(files), files, was, committed, backups, old(nextTemp));
        }
      } else {
        AbsentRecoverable(files, was, committed, backups, e.name);
      }
    }

    /** Moves the staged content, if there is one, to its path. */
    method MoveIn(e: Entry, staged: map<string, nat>, committed: seq<string>, backups: map<string, nat>,
                  ghost was: Files)
      returns (ok: bool)
      requires Valid() && Recoverable(files, was, committed, backups) && e.name in committed && Real(e.name) !in files
      requires e.planned.Some? ==> e.name in staged && At(files, Temp(staged[e.name])) == e.planned
      requires Disjoint(staged, backups)
      modifies this`files, this`ops
      ensures Valid() && old(ops) <= ops <= old(ops) + (if e.planned.Some? then 1 else 0)
      ensures ok ==> e.planned.Some? ==> ops == old(ops) + 1 && old(ops) !in faults
      ensures Recoverable(files, was, committed, backups)
      ensures ok ==> At(files, Real(e.name)) == e.planned
      ensures forall n | n != e.name :: At(files, Real(n)) == At(old(files), Real(n))
      ensures forall id: nat | !(e.name in staged && id == staged[e.name]) ::
              At(files, Temp(id)) == At(old(files), Temp(id))
      ensures !ok ==> exists k | old(ops) <= k < ops :: k in faults
    {
      hide Recoverable;
      ok := true;
      if e.planned.Some? {
        MoveInRecoverable(files, was, committed, backups, e.name, staged[e.name]);
        ok := Replace(Temp(staged[e.name]), Real(e.name));
      }
    }

    /**
     The moving loop. Whether it finishes or stops half way, undoing the committed paths
     would restore everything.
     */
    method Swap(changed: seq<Entry>, staged: map<string, nat>)
      returns (ok: bool, committed: seq<string>, backups: map<string, nat>)
      requires Valid() && DistinctNames(changed)
      requires AllStaged(files, changed, staged) && Injective(staged) && IdsBelow(staged, nextTemp)
      modifies this
      ensures Valid() && old(ops) <= ops <= old(ops) + AllSwapOps(changed)
      ensures Recoverable(files, old(files), committed, backups)
      ensures Distinct(committed) && Injective(backups) && forall n | n in backups :: n in committed
      ensures forall n | n in backups :: backups[n] >= old(nextTemp)
      ensures forall n | n in committed :: n in Names(changed)
      ensures ok ==> committed == Names(changed) && InPlace(files, changed) && SnapshotsHold(old(files), changed)
      ensures ok ==> ops == old(ops) + AllSwapOps(changed) && NoFault(faults, old(ops), AllSwapOps(changed))
      ensures ok ==> BackupsOf(changed, backups)
      ensures !ok ==> !SnapshotsHold(old(files), changed) || exists k | old(ops) <= k < ops :: k in faults
    {
      hide Recoverable, InPlace, SnapshotsHold, AllSwapOps, NoFault, BackupsOf, SwappedBelow, AllStaged;
      committed, backups := [], map[];
      NothingCommitted(files);
      NothingSwapped(files, faults, ops, changed, staged);
      ghost var from, first, was := ops, nextTemp, files;
      assert Swapping(changed, 0, staged, committed, backups, was, from, first);
      hide *;
      for i := 0 to |changed|
        invariant Swapping(changed, i, staged, committed, backups, was, from, first)
      {
        ok, committed, backups := SwapStep(changed, i, staged, committed, backups, was, from, first);
        if !ok { return; }
      }
      ok := true;
      SwappingEnds(this, changed, staged, committed, backups, was, from, first);
    }

    /** The state of the moving loop after i entries. */
    ghost predicate Swapping(changed: seq<Entry>, i: nat, staged: map<string, nat>, committed: seq<string>,
                             backups: map<string, nat>,
                             was: Files, from: nat, first: nat)
      reads this
    {
      && Valid() && i <= |changed| && first <= nextTemp
      && ops == from + AllSwapOps(changed[..i]) && NoFault(faults, from, AllSwapOps(changed[..i]))
      && SnapshotsHold(was, changed[..i]) && SwappedBelow(files, was, changed, i, staged)
      && committed == Names(changed)[..i] && Recoverable(files, was, committed, backups)
      && BackupsOf(changed[..i], backups) && Injective(backups) && IdsBelow(backups, nextTemp)
      && forall n | n in backups :: n in committed && backups[n] >= first
    }

    method SwapStep(changed: seq<Entry>, i: nat, staged: map<string, nat>, committed: seq<string>, backups: map<string,
                    nat>,
                    ghost was: Files, ghost from: nat, ghost first: nat)
      returns (ok: bool, committed': seq<string>, backups': map<string, nat>)
      requires DistinctNames(changed) && i < |changed|
               && Swapping(changed, i, staged, committed, backups, was, from, first)
      requires Injective(staged) && IdsBelow(staged, first)
      modifies this
      ensures Valid() && from <= ops <= from + AllSwapOps(changed)
      ensures ok ==> Swapping(changed, i + 1, staged, committed', backups', was, from, first)
      ensures !ok ==> Recoverable(files, was, committed', backups') && Distinct(committed') && Injective(backups')
      ensures !ok ==> forall n | n in backups' :: n in committed' && backups'[n] >= first
      ensures !ok ==> forall n | n in committed' :: n in Names(changed)
      ensures !ok ==> !SnapshotsHold(was, changed) || exists k | from <= k < ops :: k in faults
    {
      hide Recoverable, InPlace, SnapshotsHold, AllSwapOps, NoFault;
      hide BackupsOf, SwapOps, SwappedBelow, AllStaged, Injective;
      OpsOfPrefix(changed, i);
      SwapNext(files, was, changed, i, staged);
      ghost var files0 := files;
      ok, committed', backups' := SwapOne(changed, i, staged, committed, backups, was, first);
      if !ok {
        if At(was, Real(changed[i].name)) != changed[i].initial { SnapshotBroken(was, changed, i); }
        return;
      }
      NoFaultJoin(faults, from, AllSwapOps(changed[..i]), SwapOps(changed[i]));
      BackupsMore(changed, i, backups, backups');
      SwappedMore(files0, files, was, changed, i, staged);
      HoldMore(was, changed, i);
    }

    /** One round: set the original aside, then move the new content in. */
    method SwapOne(changed: seq<Entry>, i: nat, staged: map<string, nat>, committed: seq<string>, backups: map<string,
                   nat>,
                   ghost was: Files, ghost firstBackup: nat)
      returns (ok: bool, committed': seq<string>, backups': map<string, nat>)
      requires Valid() && DistinctNames(changed) && i < |changed| && committed == Names(changed)[..i]
      requires Recoverable(files, was, committed, backups)
      requires Injective(backups) && IdsBelow(backups, nextTemp) && forall n | n in backups :: n in committed
      requires forall n | n in backups :: backups[n] >= firstBackup
      requires Injective(staged) && IdsBelow(staged, firstBackup) && firstBackup <= nextTemp
      requires changed[i].planned.Some? ==>
                 changed[i].name in staged && At(files, Temp(staged[changed[i].name])) == changed[i].planned
      modifies this
      ensures Valid() && old(ops) <= ops <= old(ops) + SwapOps(changed[i]) && nextTemp >= old(nextTemp)
      ensures ok ==> ops == old(ops) + SwapOps(changed[i]) && NoFault(faults, old(ops), SwapOps(changed[i]))
      ensures ok ==> At(old(files), Real(changed[i].name)) == changed[i].initial
      ensures ok ==> (changed[i].name in backups' <==> changed[i].initial.Some?)
      ensures forall n | n != changed[i].name :: n in backups' <==> n in backups
      ensures Recoverable(files, was, committed', backups')
      ensures committed' == Names(changed)[..i + 1] || (!ok && committed' == committed)
      ensures Injective(backups') && IdsBelow(backups', nextTemp)
      ensures forall n | n in backups' :: n in committed' && backups'[n] >= firstBackup
      ensures ok ==> committed' == Names(changed)[..i + 1] && At(files, Real(changed[i].name)) == changed[i].planned
      ensures forall n | n != changed[i].name :: At(files, Real(n)) == At(old(files), Real(n))
      ensures forall n | n in staged && n != changed[i].name ::
              At(files, Temp(staged[n])) == At(old(files), Temp(staged[n]))
      ensures !ok ==>
                || At(old(files), Real(changed[i].name)) != changed[i].initial
                || exists k | old(ops) <= k < ops :: k in faults
    {
      hide Recoverable;
      var e := changed[i];
      assert Names(changed)[..i + 1] == committed + [e.name];
      assert e.name !in committed;
      committed' := committed;
      ok, backups' := SetAside(e, committed, backups, was);
      if !ok { return; }
      committed' := committed + [e.name];
      ok := MoveIn(e, staged, committed', backups', was);
    }

    /** Deletes the backups in the order they were made, up to the first that cannot be deleted. */
    method DeleteBackups(changed: seq<Entry>, backups: map<string, nat>) returns (ok: bool, ghost deleted: set<string>)
      requires Valid() && DistinctNames(changed) && Injective(backups) && BackupsOf(changed, backups)
      modifies this`files, this`ops
      ensures Valid() && ops >= old(ops)
      ensures OnlyBackupsGone(old(files), files, backups, deleted)
      ensures var f := FirstFault(faults, old(ops), |Originals(changed)|);
              deleted == (set n | n in Upto(Originals(changed), f)) && (ok <==> f == |Originals(changed)|)
      ensures !ok ==> exists k | old(ops) <= k < ops :: k in faults
    {
      deleted := {};
      NoneDeleted(changed, faults, ops);
      ghost var was, from := files, ops;
      assert Deleting(changed, 0, backups, deleted, was, from);
      hide *;
      for i := 0 to |changed|
        invariant Deleting(changed, i, backups, deleted, was, from)
      {
        ok, deleted := DeleteStep(changed, i, backups, deleted, was, from);
        if !ok { return; }
      }
      ok := true;
      DeletingEnds(this, changed, backups, deleted, was, from);
    }

    /** The state of the deletion loop after i entries. */
    ghost predicate Deleting(changed: seq<Entry>, i: nat, backups: map<string, nat>, deleted: set<string>, was: Files,
                             from: nat)
      reads this
    {
      && Valid() && i <= |changed| && OnlyBackupsGone(was, files, backups, deleted)
      && ops == from + |Originals(changed[..i])| && NoFault(faults, from, |Originals(changed[..i])|)
      && deleted == set n | n in Originals(changed[..i])
    }

    method DeleteStep(changed: seq<Entry>, i: nat, backups: map<string, nat>, ghost deleted: set<string>,
                      ghost was: Files, ghost from: nat)
      returns (ok: bool, ghost deleted': set<string>)
      requires DistinctNames(changed) && i < |changed| && Injective(backups) && BackupsOf(changed, backups)
      requires Deleting(changed, i, backups, deleted, was, from)
      modifies this`files, this`ops
      ensures ok ==> Deleting(changed, i + 1, backups, deleted', was, from)
      ensures !ok ==> Valid() && from < ops && ops - 1 in faults && OnlyBackupsGone(was, files, backups, deleted')
      ensures !ok ==>
                var f := FirstFault(faults, from, |Originals(changed)|);
                deleted' == (set n | n in Upto(Originals(changed), f)) && f < |Originals(changed)|
    {
      hide NoFault, FirstFault, Originals, OnlyBackupsGone, BackupsOf;
      OpsOfPrefix(changed, i);
      DeletedMore(changed, i, faults, from);
      HasBackup(changed, i, backups);
      ok, deleted' := true, deleted;
      if changed[i].name in backups {
        ok := DeleteOne(changed[i].name, backups, was, deleted);
        if ok {
          deleted' := deleted + {changed[i].name};
        } else {
          FirstFaultIs(faults, from, |Originals(changed)|, |Originals(changed[..i])|);
        }
      }
    }

    method DeleteOne(name: string, backups: map<string, nat>, ghost was: Files, ghost deleted: set<string>)
      returns (ok: bool)
      requires Valid() && Injective(backups) && name in backups && OnlyBackupsGone(was, files, backups, deleted)
      modifies this`files, this`ops
      ensures Valid() && ops == old(ops) + 1 && (ok <==> old(ops) !in faults)
      ensures OnlyBackupsGone(was, files, backups, if ok then deleted + {name} else deleted)
    {
      ok := Unlink(Temp(backups[name]));
    }

    /** The final clean-up of staged files that were not moved in; its own failures are ignored here. */
    method RemoveStaged(changed: seq<Entry>, staged: map<string, nat>, ghost bound: nat)
      requires Valid() && IdsBelow(staged, bound)
      modifies this`files, this`ops
      ensures Valid() && ops >= old(ops)
      ensures forall n :: At(files, Real(n)) == At(old(files), Real(n))
      ensures forall id | id >= bound :: At(files, Temp(id)) == At(old(files), Temp(id))
    {
      for i := 0 to |changed|
        invariant Valid() && ops >= old(ops)
        invariant forall n :: At(files, Real(n)) == At(old(files), Real(n))
        invariant forall id | id >= bound :: At(files, Temp(id)) == At(old(files), Temp(id))
      {
        if changed[i].name in staged {
          var _ := Unlink(Temp(staged[changed[i].name]));
        }
      }
    }

    /** Stages, swaps and deletes backups; says what has happened to the files when it stops. */
    method Attempt(plan: seq<Entry>)
      returns (ok: bool, staged: map<string, nat>, committed: seq<string>, backups: map<string, nat>,
               ghost moved: Files, ghost bound: nat)
      requires Valid() && DistinctNames(Changed(plan))
      modifies this
      ensures Valid() && ops >= old(ops)
      ensures ok <==> GoesThrough(old(files), old(ops), faults, plan)
      ensures ok ==> InPlace(moved, Changed(plan)) && committed == Names(Changed(plan))
      ensures Recoverable(moved, old(files), committed, backups) && Distinct(committed) && Injective(backups)
      ensures forall n | n in backups :: n in committed && backups[n] >= bound
      ensures forall n | n in committed :: n in Names(Changed(plan))
      ensures IdsBelow(staged, bound)
      ensures forall n :: At(files, Real(n)) == At(moved, Real(n))
      ensures !ok ==> OnlyBackupsGone(moved, files, backups, Lost(old(files), old(ops), faults, plan))
      ensures !ok ==> Lost(old(files), old(ops), faults, plan) <= backups.Keys
      ensures !ok ==> SnapshotsHold(old(files), Changed(plan)) ==> exists k | old(ops) <= k < ops :: k in faults
    {
      hide *;
      var changed := Changed(plan);
      ghost var was, start := files, ops;
      ok, staged := Stage(changed);
      bound := nextTemp;
      NothingCommitted(files);
      committed, backups, moved := [], map[], files;
      RecoverableFrom(files, files, was, committed, backups);
      NothingGone(files, backups);
      SnapshotsSame(was, files, changed);
      if !ok {
        NotReached(was, start, ops, faults, plan);
        return;
      }
      ghost var stagedFiles := files;
      ok, committed, backups := Swap(changed, staged);
      moved := files;
      RecoverableFrom(files, stagedFiles, was, committed, backups);
      NothingGone(files, backups);
      if !ok {
        NotReached(was, start, ops, faults, plan);
        return;
      }
      Reached(was, start, faults, plan);
      ghost var gone;
      ghost var deletion := ops;
      ok, gone := DeleteBackups(changed, backups);
      LostHaveBackups(changed, backups, FirstFault(faults, deletion, |Originals(changed)|));
      GoneReals(moved, files, backups, gone);
    }

    /**
     Commit is all or nothing, exactly up to the deletion of backups. It goes through if and only
     if the changed paths still hold what was planned from and no operation up to the last deletion
     fails; then every changed path is in its planned state and no other path has moved. When it
     does not and the undo goes through, every path is back to what it was, except the lost ones:
     those whose backup had been deleted before one that could not be. An undo fails only if
     another operation fails after the one that stopped the commit, and even then whatever is not
     lost is still at its path or in a backup.
     */
    method Commit(plan: seq<Entry>) returns (verdict: Verdict)
      requires Valid() && DistinctNames(plan)
      modifies this
      ensures Valid() && ops >= old(ops)
      ensures verdict.Committed? <==> GoesThrough(old(files), old(ops), faults, plan)
      ensures verdict.Committed? ==> InPlace(files, Changed(plan))
      ensures verdict.Committed? ==>
                forall n | n !in Names(Changed(plan)) :: At(files, Real(n)) == At(old(files), Real(n))
      ensures verdict.Committed? && SnapshotsHold(old(files), plan) ==> InPlace(files, plan)
      ensures verdict == Failed(0) ==>
                forall n :: At(files, Real(n))
                            == if n in Lost(old(files), old(ops), faults, plan) then None else At(old(files), Real(n))
      ensures verdict.Failed? && verdict.undoErrors > 0 ==> UndoneBadly(old(files), old(ops), ops, faults, plan)
      ensures verdict.Failed? ==>
                forall n | n !in Lost(old(files), old(ops), faults, plan) :: Kept(files, old(files), 0, n)
      ensures verdict.Failed? ==> forall n | n !in Names(Changed(plan)) :: At(files, Real(n)) == At(old(files), Real(n))
    {
      hide *;
      ghost var was, start := files, ops;
      ChangedOf(plan);
      var ok, staged, committed, backups;
      ghost var moved, bound;
      ok, staged, committed, backups, moved, bound := Attempt(plan);
      ghost var stopped, lost := files, Lost(was, start, faults, plan);
      if ok {
        verdict := Committed;
        CommittedOthers(moved, was, Changed(plan), committed, backups);
        InPlaceKept(moved, files, Changed(plan));
      } else {
        ghost var failure := ops;
        var errors := Rollback(committed, backups);
        verdict := Failed(errors);
        if errors == 0 { RolledBack(was, moved, stopped, files, committed, backups, lost); }
        if errors > 0 { SecondFault(was, start, failure, ops, faults, plan); }
        OthersUntouched(was, moved, stopped, files, committed, backups);
        forall n | n !in lost
          ensures Kept(files, was, bound, n)
        {
          OriginalKept(was, moved, stopped, files, committed, backups, lost, bound, n);
        }
      }
      ghost var before, undone := files, ops;
      RemoveStaged(Changed(plan), staged, bound);
      InPlaceKept(before, files, Changed(plan));
      if !ok {
        forall n | n !in lost ensures Kept(files, was, 0, n) { KeptLater(before, files, was, bound, n); }
        UndoneBadlyLater(was, start, undone, ops, faults, plan);
      } else if SnapshotsHold(was, plan) {
        UnchangedInPlace(was, files, plan);
      }
    }
  }

  lemma SwappingEnds(fs: FileSystem, changed: seq<Entry>, staged: map<string, nat>, committed: seq<string>,
                     backups: map<string, nat>, was: Files, from: nat, first: nat)
    requires DistinctNames(changed) && fs.Swapping(changed, |changed|, staged, committed, backups, was, from, first)
    ensures fs.Valid() && fs.ops == from + AllSwapOps(changed) && NoFault(fs.faults, from, AllSwapOps(changed))
    ensures committed == Names(changed) && Distinct(committed) && Recoverable(fs.files, was, committed, backups)
    ensures SnapshotsHold(was, changed) && InPlace(fs.files, changed)
    ensures BackupsOf(changed, backups) && Injective(backups)
    ensures forall n | n in backups :: n in committed && backups[n] >= first
  {
    hide Recoverable, InPlace, SnapshotsHold, AllSwapOps, NoFault, BackupsOf, SwappedBelow, Injective;
    assert changed[..|changed|] == changed && Names(changed)[..|changed|] == Names(changed);
    AllSwapped(fs.files, was, changed, staged);
  }

  lemma DeletingEnds(fs: FileSystem, changed: seq<Entry>, backups: map<string, nat>, deleted: set<string>,
                     was: Files, from: nat)
    requires fs.Deleting(changed, |changed|, backups, deleted, was, from)
    ensures fs.Valid() && fs.ops >= from && OnlyBackupsGone(was, fs.files, backups, deleted)
    ensures FirstFault(fs.faults, from, |Originals(changed)|) == |Originals(changed)|
    ensures deleted == set n | n in Upto(Originals(changed), |Originals(changed)|)
  {
    hide NoFault, FirstFault, Originals, OnlyBackupsGone;
    assert changed[..|changed|] == changed && Originals(changed)[..|Originals(changed)|] == Originals(changed);
    FirstFaultIs(fs.faults, from, |Originals(changed)|, |Originals(changed)|);
  }

  // ---- A commit that loses a file ---------------------------------------------------

  const TwoUpdates := [Entry("a", Some("old a"), Some("new a")), Entry("b", Some("old b"), Some("new b"))]

  const TwoFiles: Files := map[Real("a") := "old a", Real("b") := "old b"]

  lemma TwoUpdatesCounted()
    ensures DistinctNames(TwoUpdates) && Changed(TwoUpdates) == TwoUpdates && Originals(TwoUpdates) == ["a", "b"]
    ensures AllStageOps(TwoUpdates) == 6 && AllSwapOps(TwoUpdates) == 10 && SnapshotsHold(TwoFiles, TwoUpdates)
  {
    assert TwoUpdates[1..] == [TwoUpdates[1]] && TwoUpdates[1..][1..] == [];
    assert TwoUpdates[..1] == [TwoUpdates[0]] && TwoUpdates[..1][..0] == [];
    assert Originals(TwoUpdates[..1]) == ["a"];
    assert AllStageOps(TwoUpdates[..1]) == 3 && AllSwapOps(TwoUpdates[..1]) == 5;
  }

  lemma SecondDeletionFails()
    ensures Deletions(0, {17}, TwoUpdates) == 1 && Lost(TwoFiles, 0, {17}, TwoUpdates) == {"a"}
    ensures ReachesDeletion(TwoFiles, 0, {17}, TwoUpdates)
  {
    TwoUpdatesCounted();
    assert FirstFault({17}, 16, 2) == 1 by { FirstFaultIs({17}, 16, 2, 1); }
    assert ["a", "b"][..1] == ["a"];
  }

  /**
   Two clean updates whose only failing operation is the deletion of the second backup: the undo
   reports no error, the second file is back, and the first one is gone.
   */
  method LossExample() returns (fs: FileSystem, verdict: Verdict)
    ensures fresh(fs) && verdict == Failed(0)
    ensures At(fs.files, Real("a")) == None && At(fs.files, Real("b")) == Some("old b")
  {
    fs := new FileSystem(TwoFiles, 0, {17});
    TwoUpdatesCounted();
    SecondDeletionFails();
    verdict := fs.Commit(TwoUpdates);
    OneFaultUndone(fs.ops);
  }

  lemma OneFaultUndone(to: nat)
    ensures !UndoneBadly(TwoFiles, 0, to, {17}, TwoUpdates)
  {
    TwoUpdatesCounted();
  }
}

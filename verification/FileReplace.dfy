/**
 Literal replacement in one line and the commit of a multi-file replacement
 (tools/v1/file_tool.py: _bounded_substitute, _replace_bytes, _rollback_committed_plan and the
 commit loop of replace). Other programs may write any file between two of its operations, and
 any of its operations may fail.
 */
module FileReplace {
  import opened Common

  // ---- Substitution -----------------------------------------------------------------

  const MAX_LINE_CHARS := 1_000_000

  datatype Span = Span(start: nat, end: nat)

  /** The matches of a pattern in a text: in order and disjoint, from a position on. */
  predicate Spans(text: string, from: nat, spans: seq<Span>)
    decreases |spans|
  {
    if spans == [] then from <= |text|
    else from <= spans[0].start <= spans[0].end <= |text| && Spans(text, spans[0].end, spans[1..])
  }

  /** The text from a position on, with each match replaced. */
  function Replaced(text: string, from: nat, spans: seq<Span>, replacement: string): string
    requires Spans(text, from, spans)
    decreases |spans|
  {
    if spans == [] then text[from..]
    else text[from..spans[0].start] + replacement + Replaced(text, spans[0].end, spans[1..], replacement)
  }

  /**
   The bounded substitution succeeds exactly when the matches fit the occurrence budget and the
   replaced line fits the line limit, and then it is the replaced line.
   */
  method BoundedSubstitute(text: string, spans: seq<Span>, replacement: string, budget: nat)
    returns (r: Option<(string, nat)>)
    requires Spans(text, 0, spans)
    ensures r == (if |spans| <= budget && |Replaced(text, 0, spans, replacement)| <= MAX_LINE_CHARS
                  then Some((Replaced(text, 0, spans, replacement), |spans|)) else None)
  {
    var output: string, last: nat, i: nat := "", 0, 0;
    assert spans[0..] == spans;
    while i < |spans|
      invariant 0 <= i <= |spans| && i <= budget && last <= |text|
      invariant Spans(text, last, spans[i..])
      invariant |output| <= MAX_LINE_CHARS
      invariant output + Replaced(text, last, spans[i..], replacement) == Replaced(text, 0, spans, replacement)
    {
      assert spans[i..][0] == spans[i] && spans[i..][1..] == spans[i + 1..];
      if i >= budget { return None; }
      var kept := text[last..spans[i].start];
      if |output| + |kept| > MAX_LINE_CHARS { return None; }
      if |output| + |kept| + |replacement| > MAX_LINE_CHARS { return None; }
      Regroup(output, kept, replacement, Replaced(text, spans[i].end, spans[i + 1..], replacement));
      output := output + kept + replacement;
      last := spans[i].end;
      i := i + 1;
    }
    if |output| + |text[last..]| > MAX_LINE_CHARS { return None; }
    r := Some((output + text[last..], i));
  }

  lemma Regroup(a: string, b: string, c: string, d: string)
    ensures a + (b + c + d) == (a + b + c) + d
  {
  }

  /** The length of the result accounts for every character kept, matched and written. */
  lemma {:induction false} ReplacedLength(text: string, from: nat, spans: seq<Span>, replacement: string)
    requires Spans(text, from, spans)
    ensures |Replaced(text, from, spans, replacement)| + Matched(spans) == |text| - from + |spans| * |replacement|
    decreases |spans|
  {
    if spans != [] { ReplacedLength(text, spans[0].end, spans[1..], replacement); }
  }

  function Matched(spans: seq<Span>): int {
    if spans == [] then 0 else spans[0].end - spans[0].start + Matched(spans[1..])
  }

  /** Replacing every match by itself changes nothing. */
  lemma {:induction false} ReplaceBySame(text: string, from: nat, spans: seq<Span>, word: string)
    requires Spans(text, from, spans)
    requires forall s | s in spans :: s.start <= s.end <= |text| && text[s.start..s.end] == word
    ensures Replaced(text, from, spans, word) == text[from..]
    decreases |spans|
  {
    if spans != [] {
      ReplaceBySame(text, spans[0].end, spans[1..], word);
      assert text[spans[0].start..spans[0].end] == word;
      assert text[from..] == text[from..spans[0].start] + text[spans[0].start..spans[0].end] + text[spans[0].end..];
    }
  }

  // ---- Commit and rollback ----------------------------------------------------------

  type Bytes = string

  /** A planned file; the original is None when the file did not exist. */
  datatype Plan = Plan(path: string, original: Option<Bytes>, final: Bytes)

  predicate Changed(p: Plan) { p.original != Some(p.final) }

  predicate DistinctPaths(plans: seq<Plan>) {
    forall i, j | 0 <= i < j < |plans| :: plans[i].path != plans[j].path
  }

  datatype RollbackStatus = RolledBack | RollbackConflict | RollbackFailure

  /** What became of a planned file, and since when. */
  datatype Fate =
    | Untouched
    | Written(since: nat)
    | Restored(since: nat)
    | InConflict(since: nat, found: nat)
    | NotRestored(since: nat)

  /** What other programs do at each moment: the files they write or remove. */
  type Others = nat -> map<string, Option<Bytes>>

  /** The content of a path after the others' writes of the moments from t to u. */
  function Later(others: Others, path: string, t: nat, u: nat, v: Option<Bytes>): Option<Bytes>
    decreases u - t
  {
    if t >= u then v else Later(others, path, t + 1, u, if path in others(t) then others(t)[path] else v)
  }

  lemma {:induction false} LaterSnoc(others: Others, path: string, t: nat, u: nat, v: Option<Bytes>)
    requires t <= u
    ensures Later(others, path, t, u + 1, v)
            == if path in others(u) then others(u)[path] else Later(others, path, t, u, v)
    decreases u - t
  {
    if t < u { LaterSnoc(others, path, t + 1, u, if path in others(t) then others(t)[path] else v); }
  }

  lemma {:induction false} LaterCompose(others: Others, path: string, t: nat, u: nat, w: nat, v: Option<Bytes>)
    requires t <= u <= w
    ensures Later(others, path, u, w, Later(others, path, t, u, v)) == Later(others, path, t, w, v)
    decreases u - t
  {
    if t < u { LaterCompose(others, path, t + 1, u, w, if path in others(t) then others(t)[path] else v); }
  }

  ghost predicate Quiet(others: Others, path: string) { forall t :: path !in others(t) }

  /** A file nobody else writes stays as it was left. */
  lemma {:induction false} QuietLater(others: Others, path: string, t: nat, u: nat, v: Option<Bytes>)
    requires Quiet(others, path)
    ensures Later(others, path, t, u, v) == v
    decreases u - t
  {
    if t < u { QuietLater(others, path, t + 1, u, v); }
  }

  datatype Report =
    | Committed
    | Failed(committed: seq<string>, rolledBack: seq<string>, conflicts: seq<string>, failures: seq<string>)

  function LookIn(files: map<string, Bytes>, path: string): Option<Bytes> {
    if path in files then Some(files[path]) else None
  }

  function Status(f: Fate): Option<RollbackStatus> {
    match f
    case Restored(_) => Some(RolledBack)
    case InConflict(_, _) => Some(RollbackConflict)
    case NotRestored(_) => Some(RollbackFailure)
    case _ => None
  }

  /** Changed files below n are written or, from i on, undone; all others are untouched. */
  ghost predicate Progress(plans: seq<Plan>, fates: seq<Fate>, i: nat, n: nat) {
    && |fates| == |plans|
    && forall j | 0 <= j < |plans| ::
         if j >= n || !Changed(plans[j]) then fates[j].Untouched?
         else if j < i then fates[j].Written?
         else Status(fates[j]).Some?
  }

  /** The paths of the changed plans below n, in order. */
  function CommittedPaths(plans: seq<Plan>, n: nat): seq<string>
    requires n <= |plans|
  {
    if n == 0 then [] else CommittedPaths(plans, n - 1) + if Changed(plans[n - 1]) then [plans[n - 1].path] else []
  }

  /** The paths from i on whose rollback ended this way, last first. */
  ghost function Listed(plans: seq<Plan>, fates: seq<Fate>, i: nat, status: RollbackStatus): seq<string>
    requires |fates| == |plans|
    decreases |plans| - i
  {
    if i >= |plans| then []
    else Listed(plans, fates, i + 1, status) + if Status(fates[i]) == Some(status) then [plans[i].path] else []
  }

  lemma {:induction false} ListedFrame(plans: seq<Plan>, fates: seq<Fate>, i: nat, j: nat, f: Fate,
                                       status: RollbackStatus)
    requires |fates| == |plans| && i < j <= |plans|
    ensures Listed(plans, fates[i := f], j, status) == Listed(plans, fates, j, status)
    decreases |plans| - j
  {
    if j < |plans| { ListedFrame(plans, fates, i, j + 1, f, status); }
  }

  lemma {:induction false} NoneListed(plans: seq<Plan>, fates: seq<Fate>, i: nat, status: RollbackStatus)
    requires |fates| == |plans| && forall j | i <= j < |plans| :: Status(fates[j]).None?
    ensures Listed(plans, fates, i, status) == []
    decreases |plans| - i
  {
    if i < |plans| { NoneListed(plans, fates, i + 1, status); }
  }

  lemma {:induction false} ListedMeans(plans: seq<Plan>, fates: seq<Fate>, i: nat, status: RollbackStatus, path: string)
    requires |fates| == |plans|
    ensures path in Listed(plans, fates, i, status) <==>
              exists j | i <= j < |plans| :: Status(fates[j]) == Some(status) && plans[j].path == path
    decreases |plans| - i
  {
    if i < |plans| { ListedMeans(plans, fates, i + 1, status, path); }
  }

  lemma {:induction false} CommittedMeans(plans: seq<Plan>, n: nat, path: string)
    requires n <= |plans|
    ensures path in CommittedPaths(plans, n) <==> exists j | 0 <= j < n :: Changed(plans[j]) && plans[j].path == path
  {
    if n > 0 { CommittedMeans(plans, n - 1, path); }
  }

  lemma {:induction false} ListedCount(plans: seq<Plan>, fates: seq<Fate>, i: nat, n: nat)
    requires i <= n <= |plans| && Progress(plans, fates, 0, n)
    ensures |Listed(plans, fates, i, RolledBack)| + |Listed(plans, fates, i, RollbackConflict)|
            + |Listed(plans, fates, i, RollbackFailure)|
            == |CommittedPaths(plans, n)| - |CommittedPaths(plans, i)|
    decreases n - i
  {
    if i == n {
      NoneListed(plans, fates, n, RolledBack);
      NoneListed(plans, fates, n, RollbackConflict);
      NoneListed(plans, fates, n, RollbackFailure);
    } else {
      ListedCount(plans, fates, i + 1, n);
    }
  }

  /** The three lists of a failed commit partition the committed paths. */
  lemma ListsPartition(plans: seq<Plan>, fates: seq<Fate>, n: nat, path: string)
    requires DistinctPaths(plans) && n <= |plans| && Progress(plans, fates, 0, n)
    ensures var r := path in Listed(plans, fates, 0, RolledBack);
            var c := path in Listed(plans, fates, 0, RollbackConflict);
            var f := path in Listed(plans, fates, 0, RollbackFailure);
            && (path in CommittedPaths(plans, n) <==> r || c || f)
            && !(r && c) && !(r && f) && !(c && f)
    ensures |Listed(plans, fates, 0, RolledBack)| + |Listed(plans, fates, 0, RollbackConflict)|
            + |Listed(plans, fates, 0, RollbackFailure)|
            == |CommittedPaths(plans, n)|
  {
    hide Listed, CommittedPaths;
    ListedCount(plans, fates, 0, n);
    NoneCommitted(plans);
    CommittedMeans(plans, n, path);
    ListedMeans(plans, fates, 0, RolledBack, path);
    ListedMeans(plans, fates, 0, RollbackConflict, path);
    ListedMeans(plans, fates, 0, RollbackFailure, path);
  }

  lemma NoneCommitted(plans: seq<Plan>)
    ensures CommittedPaths(plans, 0) == []
  {
  }

  /** The files at a moment. */
  datatype View = View(files: map<string, Bytes>, clock: nat)

  /** Since moment t, when it had content x, the path has only been written by others. */
  predicate Since(others: Others, now: View, path: string, t: nat, x: Option<Bytes>) {
    t <= now.clock && LookIn(now.files, path) == Later(others, path, t, now.clock, x)
  }

  /** Between two views the path has only been written by others. */
  predicate OnlyOthers(others: Others, was: View, now: View, path: string) {
    Since(others, now, path, was.clock, LookIn(was.files, path))
  }

  lemma SinceLater(others: Others, was: View, now: View, path: string, t: nat, x: Option<Bytes>)
    requires Since(others, was, path, t, x) && OnlyOthers(others, was, now, path)
    ensures Since(others, now, path, t, x)
  {
    LaterCompose(others, path, t, was.clock, now.clock, x);
  }

  /** What a fate says of its file, started from the view was. */
  predicate Fated(others: Others, was: View, now: View, plan: Plan, fate: Fate) {
    match fate
    case Untouched => OnlyOthers(others, was, now, plan.path)
    case Written(t) => was.clock <= t && Since(others, now, plan.path, t, Some(plan.final))
    case Restored(t) => was.clock <= t && Since(others, now, plan.path, t, plan.original)
    case InConflict(t, u) =>
      && was.clock <= t <= u <= now.clock && Since(others, now, plan.path, t, Some(plan.final))
      && Later(others, plan.path, t, u, Some(plan.final)) != Some(plan.final)
    case NotRestored(t) => was.clock <= t && Since(others, now, plan.path, t, Some(plan.final))
  }

  lemma FatedLater(others: Others, start: View, was: View, now: View, plan: Plan, fate: Fate)
    requires Fated(others, start, was, plan, fate) && OnlyOthers(others, was, now, plan.path)
    ensures Fated(others, start, now, plan, fate)
  {
    hide Later, LookIn;
    match fate
    case Untouched => SinceLater(others, was, now, plan.path, start.clock, LookIn(start.files, plan.path));
    case Written(t) => SinceLater(others, was, now, plan.path, t, Some(plan.final));
    case Restored(t) => SinceLater(others, was, now, plan.path, t, plan.original);
    case InConflict(t, _) => SinceLater(others, was, now, plan.path, t, Some(plan.final));
    case NotRestored(t) => SinceLater(others, was, now, plan.path, t, Some(plan.final));
  }

  /** Every planned file has its fate; every other file was only written by others. */
  ghost predicate AllFated(others: Others, was: View, now: View, plans: seq<Plan>, fates: seq<Fate>) {
    && |fates| == |plans| && was.clock <= now.clock
    && (forall i | 0 <= i < |plans| :: Fated(others, was, now, plans[i], fates[i]))
    && (forall p | (forall i | 0 <= i < |plans| :: plans[i].path != p) :: OnlyOthers(others, was, now, p))
  }

  lemma AllFatedLater(others: Others, start: View, was: View, now: View, plans: seq<Plan>, fates: seq<Fate>, i: nat,
                      fate: Fate)
    requires DistinctPaths(plans) && i < |plans| && AllFated(others, start, was, plans, fates) && was.clock <= now.clock
    requires forall p | p != plans[i].path :: OnlyOthers(others, was, now, p)
    requires Fated(others, start, now, plans[i], fate)
    ensures AllFated(others, start, now, plans, fates[i := fate])
  {
    hide Fated, OnlyOthers;
    forall j | 0 <= j < |plans| && j != i
      ensures Fated(others, start, now, plans[j], fates[j])
    {
      assert plans[j].path != plans[i].path;
      FatedLater(others, start, was, now, plans[j], fates[j]);
    }
    forall p | (forall j | 0 <= j < |plans| :: plans[j].path != p)
      ensures OnlyOthers(others, start, now, p)
    {
      OnlyOthersTrans(others, start, was, now, p);
    }
  }

  lemma OnlyOthersTrans(others: Others, start: View, was: View, now: View, path: string)
    requires OnlyOthers(others, start, was, path) && OnlyOthers(others, was, now, path)
    ensures OnlyOthers(others, start, now, path)
  {
    SinceLater(others, was, now, path, start.clock, LookIn(start.files, path));
  }

  /** What the path holds at the next moment, after the others' turn. */
  function Next(others: Others, now: View, path: string): Option<Bytes> {
    Later(others, path, now.clock, now.clock + 1, LookIn(now.files, path))
  }

  lemma NextIs(others: Others, was: View, now: View, path: string)
    requires OnlyOthers(others, was, now, path) && now.clock == was.clock + 1
    ensures LookIn(now.files, path) == Next(others, was, path)
  {
  }

  /** Some moment of the run found the path without its planned original. */
  ghost predicate FoundDifferent(others: Others, was: View, to: nat, plan: Plan) {
    exists t | was.clock <= t <= to ::
      Later(others, plan.path, was.clock, t, LookIn(was.files, plan.path)) != plan.original
  }

  lemma FoundDifferentAt(others: Others, was: View, before: View, to: nat, plan: Plan)
    requires OnlyOthers(others, was, before, plan.path) && before.clock < to
             && Next(others, before, plan.path) != plan.original
    ensures FoundDifferent(others, was, to, plan)
  {
    LaterCompose(others, plan.path, was.clock, before.clock, before.clock + 1, LookIn(was.files, plan.path));
  }

  lemma FoundDifferentLater(others: Others, was: View, from: nat, to: nat, plan: Plan)
    requires from <= to
    ensures FoundDifferent(others, was, from, plan) ==> FoundDifferent(others, was, to, plan)
  {
  }

  lemma UntouchedYet(others: Others, was: View, now: View, plans: seq<Plan>, fates: seq<Fate>, i: nat)
    requires AllFated(others, was, now, plans, fates) && i < |plans| && Progress(plans, fates, i, i)
    ensures OnlyOthers(others, was, now, plans[i].path)
  {
  }

  /** A file that nobody else writes and that holds its planned original is never found different. */
  lemma QuietNotDifferent(others: Others, was: View, to: nat, plan: Plan)
    requires Quiet(others, plan.path) && LookIn(was.files, plan.path) == plan.original
    ensures !FoundDifferent(others, was, to, plan)
  {
    forall t | was.clock <= t <= to
      ensures Later(others, plan.path, was.clock, t, LookIn(was.files, plan.path)) == plan.original
    {
      QuietLater(others, plan.path, was.clock, t, LookIn(was.files, plan.path));
    }
  }

  /** From now on no operation fails, and nobody else writes a changed file, each of which holds its original. */
  ghost predicate Undisturbed(others: Others, faults: set<nat>, was: View, plans: seq<Plan>) {
    && (forall k | k > was.clock :: k !in faults)
    && forall i | 0 <= i < |plans| && Changed(plans[i]) ::
         Quiet(others, plans[i].path) && LookIn(was.files, plans[i].path) == plans[i].original
  }

  lemma UndisturbedCommits(others: Others, faults: set<nat>, was: View, to: nat, plans: seq<Plan>, i: nat)
    requires i < |plans| && Changed(plans[i])
    requires (exists k | was.clock < k <= to :: k in faults) || FoundDifferent(others, was, to, plans[i])
    ensures !Undisturbed(others, faults, was, plans)
  {
    if Quiet(others, plans[i].path) && LookIn(was.files, plans[i].path) == plans[i].original {
      QuietNotDifferent(others, was, to, plans[i]);
    }
  }

  lemma SameContent(others: Others, start: View, was: View, now: View, path: string)
    requires OnlyOthers(others, start, was, path) && now.clock == was.clock
             && LookIn(was.files, path) == LookIn(now.files, path)
    ensures OnlyOthers(others, start, now, path)
  {
  }

  class Disk {
    const others: Others
    const faults: set<nat>
    var files: map<string, Bytes>
    var clock: nat

    constructor (others: Others, faults: set<nat>, files: map<string, Bytes>)
      ensures this.others == others && this.faults == faults && Now() == View(files, 0)
    {
      this.others, this.faults, this.files, clock := others, faults, files, 0;
    }

    function Now(): View
      reads this
    {
      View(files, clock)
    }

    /** The others' turn. */
    method Tick()
      modifies this
      ensures clock == old(clock) + 1
      ensures forall path :: OnlyOthers(others, old(Now()), Now(), path)
    {
      var writes := others(clock);
      ghost var start := Now();
      files := map p | p in files.Keys + writes.Keys && (p in writes ==> writes[p].Some?) ::
                 if p in writes then writes[p].value else files[p];
      clock := clock + 1;
      forall path
        ensures OnlyOthers(others, start, Now(), path)
      {
        LaterSnoc(others, path, start.clock, start.clock, LookIn(start.files, path));
      }
    }

    /** Replaces the file in one step, exactly if nothing fails and it is found with the expected content. */
    method ReplaceBytes(path: string, expected: Option<Bytes>, final: Bytes) returns (ok: bool)
      modifies this
      ensures old(clock) < clock <= old(clock) + 2
      ensures ok <==>
                && old(clock) + 1 !in faults && old(clock) + 2 !in faults
                && Next(others, old(Now()), path) == expected
      ensures !ok ==> (exists k | old(clock) < k <= clock :: k in faults) || Next(others, old(Now()), path) != expected
      ensures forall p | p != path || !ok :: OnlyOthers(others, old(Now()), Now(), p)
      ensures ok ==> LookIn(files, path) == Some(final)
    {
      ghost var start := Now();
      Tick();
      NextIs(others, start, Now(), path);
      if clock in faults || LookIn(files, path) != expected { return false; }
      ghost var checked := Now();
      Tick();
      forall p ensures OnlyOthers(others, start, Now(), p) { OnlyOthersTrans(others, start, checked, Now(), p); }
      if clock in faults { return false; }
      ghost var before := Now();
      files := files[path := final];
      forall p | p != path ensures OnlyOthers(others, start, Now(), p) { SameContent(others, start, before, Now(), p); }
      ok := true;
    }

    /** Undoes a commit unless the file no longer has the committed content. */
    method RollBack(plan: Plan) returns (status: RollbackStatus)
      modifies this
      ensures old(clock) < clock
      ensures status == RolledBack ==> Next(others, old(Now()), plan.path) == Some(plan.final)
      ensures status == RollbackConflict <==>
                || Next(others, old(Now()), plan.path) == None
                || (old(clock) + 1 !in faults && Next(others, old(Now()), plan.path) != Some(plan.final))
      ensures status == RollbackFailure ==>
                || (exists k | old(clock) < k <= clock :: k in faults)
                || exists t | old(clock) < t <= clock ::
                     Later(others, plan.path, old(clock), t, LookIn(old(files), plan.path)) != Some(plan.final)
      ensures forall p | p != plan.path || status != RolledBack :: OnlyOthers(others, old(Now()), Now(), p)
      ensures status == RolledBack ==> LookIn(files, plan.path) == plan.original
      ensures status == RollbackConflict ==> LookIn(files, plan.path) != Some(plan.final)
    {
      ghost var start := Now();
      Tick();
      NextIs(others, start, Now(), plan.path);
      if LookIn(files, plan.path).None? { return RollbackConflict; }
      if clock in faults { return RollbackFailure; }
      if LookIn(files, plan.path) != Some(plan.final) { return RollbackConflict; }
      ghost var read := Now();
      if plan.original.Some? {
        var ok := ReplaceBytes(plan.path, Some(plan.final), plan.original.value);
        forall p | p != plan.path || !ok
          ensures OnlyOthers(others, start, Now(), p)
        {
          OnlyOthersTrans(others, start, read, Now(), p);
        }
        LaterCompose(others, plan.path, start.clock, read.clock, read.clock + 1, LookIn(start.files, plan.path));
        return if ok then RolledBack else RollbackFailure;
      }
      Tick();
      forall p ensures OnlyOthers(others, start, Now(), p) { OnlyOthersTrans(others, start, read, Now(), p); }
      if clock in faults { return RollbackFailure; }
      if LookIn(files, plan.path).None? {
        assert OnlyOthers(others, start, Now(), plan.path);
        assert Later(others, plan.path, start.clock, clock, LookIn(start.files, plan.path)) != Some(plan.final);
        return RollbackFailure;
      }
      ghost var before := Now();
      files := files - {plan.path};
      forall p | p != plan.path
        ensures OnlyOthers(others, start, Now(), p)
      {
        SameContent(others, start, before, Now(), p);
      }
      status := RolledBack;
    }

    method CommitOne(plans: seq<Plan>, i: nat, ghost fates: seq<Fate>, ghost was: View)
      returns (ok: bool, ghost next: seq<Fate>)
      requires DistinctPaths(plans) && i < |plans| && AllFated(others, was, Now(), plans, fates)
      modifies this
      ensures AllFated(others, was, Now(), plans, next) && old(clock) < clock
      ensures next == if ok then fates[i := Written(clock)] else fates
      ensures !ok ==>
                || (exists k | old(clock) < k <= clock :: k in faults)
                || Next(others, old(Now()), plans[i].path) != plans[i].original
    {
      ghost var before := Now();
      ok := ReplaceBytes(plans[i].path, plans[i].original, plans[i].final);
      ghost var fate := if ok then Written(clock) else fates[i];
      if !ok { FatedLater(others, was, before, Now(), plans[i], fate); }
      AllFatedLater(others, was, before, Now(), plans, fates, i, fate);
      next := fates[i := fate];
    }

    method RollBackOne(plans: seq<Plan>, i: nat, ghost fates: seq<Fate>, ghost was: View)
      returns (status: RollbackStatus, ghost next: seq<Fate>, ghost fate: Fate)
      requires DistinctPaths(plans) && i < |plans| && AllFated(others, was, Now(), plans, fates) && fates[i].Written?
      modifies this
      ensures AllFated(others, was, Now(), plans, next) && old(clock) < clock
      ensures next == fates[i := fate] && Status(fate) == Some(status)
    {
      ghost var before := Now();
      status := RollBack(plans[i]);
      if status != RolledBack { FatedLater(others, was, before, Now(), plans[i], fates[i]); }
      fate := match status
        case RolledBack => Restored(clock)
        case RollbackConflict => InConflict(fates[i].since, clock)
        case RollbackFailure => NotRestored(fates[i].since);
      AllFatedLater(others, was, before, Now(), plans, fates, i, fate);
      next := fates[i := fate];
    }

    method RollBackAll(plans: seq<Plan>, n: nat, ghost fates: seq<Fate>, ghost was: View)
      returns (rolledBack: seq<string>, conflicts: seq<string>, failures: seq<string>, ghost done: seq<Fate>)
      requires DistinctPaths(plans) && n <= |plans| && AllFated(others, was, Now(), plans, fates)
               && Progress(plans, fates, n, n)
      modifies this
      ensures AllFated(others, was, Now(), plans, done) && Progress(plans, done, 0, n) && old(clock) <= clock
      ensures rolledBack == Listed(plans, done, 0, RolledBack)
      ensures conflicts == Listed(plans, done, 0, RollbackConflict)
      ensures failures == Listed(plans, done, 0, RollbackFailure)
    {
      hide AllFated;
      rolledBack, conflicts, failures, done := [], [], [], fates;
      NoneListed(plans, done, n, RolledBack);
      NoneListed(plans, done, n, RollbackConflict);
      NoneListed(plans, done, n, RollbackFailure);
      var i := n;
      while i > 0
        invariant 0 <= i <= n && old(clock) <= clock
        invariant Progress(plans, done, i, n) && AllFated(others, was, Now(), plans, done)
        invariant rolledBack == Listed(plans, done, i, RolledBack)
        invariant conflicts == Listed(plans, done, i, RollbackConflict)
        invariant failures == Listed(plans, done, i, RollbackFailure)
      {
        i := i - 1;
        if Changed(plans[i]) {
          var status;
          ghost var next, fate;
          status, next, fate := RollBackOne(plans, i, done, was);
          ListedFrame(plans, done, i, i + 1, fate, RolledBack);
          ListedFrame(plans, done, i, i + 1, fate, RollbackConflict);
          ListedFrame(plans, done, i, i + 1, fate, RollbackFailure);
          done := next;
          match status
          case RolledBack => rolledBack := rolledBack + [plans[i].path];
          case RollbackConflict => conflicts := conflicts + [plans[i].path];
          case RollbackFailure => failures := failures + [plans[i].path];
        }
      }
    }

    /**
     Writes the changed files in order; on the first failure undoes those already written. It fails
     only if an operation failed or the failing file was found without its planned original. The
     failing file, the later ones and the unchanged ones are never touched.
     */
    method CommitPlans(plans: seq<Plan>) returns (report: Report, ghost fates: seq<Fate>, ghost n: nat)
      requires DistinctPaths(plans)
      modifies this
      ensures n <= |plans| && AllFated(others, old(Now()), Now(), plans, fates)
      ensures report.Committed? ==> n == |plans| && Progress(plans, fates, n, n)
      ensures Undisturbed(others, faults, old(Now()), plans) ==> report.Committed?
      ensures report.Failed? ==>
                && ((exists k | old(clock) < k <= clock :: k in faults)
                    || (n < |plans| && FoundDifferent(others, old(Now()), clock, plans[n])))
                && n < |plans| && Changed(plans[n]) && Progress(plans, fates, 0, n)
                && report.committed == CommittedPaths(plans, n)
                && report.rolledBack == Listed(plans, fates, 0, RolledBack)
                && report.conflicts == Listed(plans, fates, 0, RollbackConflict)
                && report.failures == Listed(plans, fates, 0, RollbackFailure)
    {
      ghost var was := Now();
      fates := seq(|plans|, _ => Untouched);
      assert AllFated(others, was, was, plans, fates);
      hide AllFated, Next, FoundDifferent, OnlyOthers, Undisturbed;
      var committed: seq<string> := [];
      var i := 0;
      while i < |plans|
        invariant 0 <= i <= |plans| && was.clock <= clock
        invariant AllFated(others, was, Now(), plans, fates) && Progress(plans, fates, i, i)
        invariant committed == CommittedPaths(plans, i)
      {
        if Changed(plans[i]) {
          var ok;
          ghost var before := Now();
          UntouchedYet(others, was, before, plans, fates, i);
          ok, fates := CommitOne(plans, i, fates, was);
          if !ok {
            n := i;
            if Next(others, before, plans[i].path) != plans[i].original {
              FoundDifferentAt(others, was, before, clock, plans[i]);
            }
            ghost var stopped := clock;
            var rolledBack, conflicts, failures;
            rolledBack, conflicts, failures, fates := RollBackAll(plans, i, fates, was);
            FoundDifferentLater(others, was, stopped, clock, plans[i]);
            UndisturbedCommits(others, faults, was, clock, plans, i);
            return Failed(committed, rolledBack, conflicts, failures), fates, n;
          }
          committed := committed + [plans[i].path];
        }
        i := i + 1;
      }
      n := |plans|;
      report := Committed;
    }
  }

  /**
   Of files nobody else writes: untouched files keep their bytes, rolled back files hold their
   original bytes or are absent again, written ones hold the planned bytes, and none is in conflict.
   */
  lemma QuietFates(others: Others, was: View, now: View, plan: Plan, fate: Fate)
    requires Quiet(others, plan.path) && Fated(others, was, now, plan, fate)
    ensures !fate.InConflict?
    ensures LookIn(now.files, plan.path) == (match fate
                                             case Untouched => LookIn(was.files, plan.path)
                                             case Restored(_) => plan.original
                                             case _ => Some(plan.final))
  {
    match fate
    case Untouched => QuietLater(others, plan.path, was.clock, now.clock, LookIn(was.files, plan.path));
    case Restored(t) => QuietLater(others, plan.path, t, now.clock, plan.original);
    case InConflict(t, u) => QuietLater(others, plan.path, t, u, Some(plan.final));
    case Written(t) => QuietLater(others, plan.path, t, now.clock, Some(plan.final));
    case NotRestored(t) => QuietLater(others, plan.path, t, now.clock, Some(plan.final));
  }
}

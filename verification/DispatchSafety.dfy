/** At most one target call per ledgered invocation, over every run (cl/src/core/capability_dispatcher.py). */
module DispatchSafety {
  import opened Common
  import opened InvocationLedger
  import opened DispatchProtocol

  // ---- The tables agree -------------------------------------------------------------

  /** Until it is popped a worker is the one registered for its invocation. */
  ghost predicate WorkerInv(s: State, w: nat) {
    w in s.workers ==>
      var worker := s.workers[w];
      && w < s.nextWorker
      && (!worker.phase.Recording? ==> worker.invocation in s.invocations && s.invocations[worker.invocation] == w)
      && (worker.key.Some? ==> worker.key.value.invocation == worker.invocation)
  }

  ghost predicate TableInv(s: State, id: string) {
    id in s.invocations ==>
      && s.invocations[id] in s.workers && s.workers[s.invocations[id]].invocation == id
      && !s.workers[s.invocations[id]].phase.Recording?
  }

  ghost predicate TablesAgree(s: State) {
    (forall w :: WorkerInv(s, w)) && (forall id :: TableInv(s, id))
  }

  lemma InvOf(s: State, w: nat)
    requires TablesAgree(s) && w in s.workers
    ensures WorkerInv(s, w) && TableInv(s, s.workers[w].invocation)
  {
  }

  /** One worker changes without leaving the table. */
  lemma PhaseChangeAgrees(s: State, t: State, w: nat)
    requires TablesAgree(s) && w in s.workers && w in t.workers
    requires t.workers == s.workers[w := t.workers[w]] && t.invocations == s.invocations && t.nextWorker == s.nextWorker
    requires t.workers[w].invocation == s.workers[w].invocation && t.workers[w].key == s.workers[w].key
    requires !s.workers[w].phase.Recording? && !t.workers[w].phase.Recording?
    ensures TablesAgree(t)
  {
    forall x ensures WorkerInv(t, x) { assert WorkerInv(s, x); }
    forall id ensures TableInv(t, id) { assert TableInv(s, id); }
  }

  lemma SpawnAgrees(s: State, rq: Request, key: Option<LedgerKey>, replay: bool, rows: Rows)
    requires TablesAgree(s) && rq.invocation !in s.invocations
    requires key.Some? ==> key.value.invocation == rq.invocation
    ensures TablesAgree(Spawn(s, rq, key, replay, rows))
  {
    var t := Spawn(s, rq, key, replay, rows);
    forall x ensures WorkerInv(t, x) { assert WorkerInv(s, x) && WorkerInv(s, s.nextWorker); }
    forall id
      ensures TableInv(t, id)
    {
      assert TableInv(s, id);
      if id in s.invocations { assert WorkerInv(s, s.invocations[id]); }
    }
  }

  /** Only a row that was there before can be found past PREPARED, and then nothing is written. */
  lemma PrepareFinds(rows: Rows, k: LedgerKey, sem: Semantics, idempotency: string, expiresAt: int)
    requires Prepare(rows, k, sem, idempotency, expiresAt).Ok?
    ensures var prepared := Prepare(rows, k, sem, idempotency, expiresAt).value;
            k in prepared && (prepared[k].state != Prepared ==> prepared == rows)
  {
  }

  lemma ScreenedShape(s: State, rq: Request)
    requires Screened(s, rq).Some?
    ensures var t := Screened(s, rq).value.0; t == s.(cache := t.cache)
  {
  }

  lemma DispatchAgrees(s: State, rq: Request, expiresAt: int)
    requires TablesAgree(s)
    ensures TablesAgree(DispatchRequest(s, rq, expiresAt).0)
  {
    if Screened(s, rq).Some? {
      ScreenedShape(s, rq);
      hide Screened;
      SameTables(s, Screened(s, rq).value.0);
    } else {
      NotInProgress(s, rq.invocation);
      hide Screened;
      AdmitAgrees(s, rq, expiresAt);
    }
  }

  lemma AdmitAgrees(s: State, rq: Request, expiresAt: int)
    requires TablesAgree(s) && rq.invocation !in s.invocations
    ensures TablesAgree(Admit(s, rq, expiresAt).0)
  {
    hide Spawn, Prepare, TablesAgree;
    var key := KeyOf(s, rq.invocation);
    SpawnAgrees(s, rq, None, false, s.rows);
    if key.Some? && Prepare(s.rows, key.value, rq.semantics, rq.idempotency, expiresAt).Ok? {
      PrepareFinds(s.rows, key.value, rq.semantics, rq.idempotency, expiresAt);
      var rows := Prepare(s.rows, key.value, rq.semantics, rq.idempotency, expiresAt).value;
      SpawnAgrees(s, rq, key, rows[key.value].state == Running, rows);
      if Admit(s, rq, expiresAt).1 != Accepted { SameTables(s, Admit(s, rq, expiresAt).0); }
    }
  }

  lemma NotInProgress(s: State, id: string)
    requires TablesAgree(s) && !(id in s.invocations && s.invocations[id] in s.workers)
    ensures id !in s.invocations
  {
    assert TableInv(s, id);
  }

  lemma SameTables(s: State, t: State)
    requires TablesAgree(s) && t.workers == s.workers && t.invocations == s.invocations && t.nextWorker == s.nextWorker
    ensures TablesAgree(t)
  {
    forall x ensures WorkerInv(t, x) { assert WorkerInv(s, x); }
    forall id ensures TableInv(t, id) { assert TableInv(s, id); }
  }

  lemma PopAgrees(s: State, w: nat)
    requires TablesAgree(s) && w in s.workers && s.workers[w].phase.Finished?
    ensures TablesAgree(PopWorker(s, w))
  {
    var t := PopWorker(s, w);
    InvOf(s, w);
    forall x
      ensures WorkerInv(t, x)
    {
      assert WorkerInv(s, x);
    }
    forall id ensures TableInv(t, id) { assert TableInv(s, id); }
  }

  lemma RemoveAgrees(s: State, t: State, w: nat)
    requires TablesAgree(s) && w in s.workers && s.workers[w].phase.Recording?
    requires t.workers == s.workers - {w} && t.invocations == s.invocations && t.nextWorker == s.nextWorker
    ensures TablesAgree(t)
  {
    forall x ensures WorkerInv(t, x) { assert WorkerInv(s, x); }
    forall id ensures TableInv(t, id) { assert TableInv(s, id); }
  }

  lemma ResetAgrees(s: State)
    requires TablesAgree(s)
    ensures TablesAgree(After(s, Reset))
  {
    var t := After(s, Reset);
    forall x ensures WorkerInv(t, x) { assert WorkerInv(s, x); }
    forall id ensures TableInv(t, id) { assert TableInv(s, id); }
  }

  lemma CrashAgrees(s: State, capacity: nat)
    ensures TablesAgree(After(s, Crash(capacity)))
  {
  }

  lemma RecordShape(s: State, w: nat, encodes: bool, expiresAt: int)
    requires w in s.workers && s.workers[w].phase.Recording?
    ensures var t := RecordWorker(s, w, encodes, expiresAt);
            && t.workers == s.workers - {w} && t.invocations == s.invocations
            && t.nextWorker == s.nextWorker && t.calls == s.calls
            && (t.rows == s.rows ||
                (s.workers[w].key.Some?
                  && CommitTerminal(s.rows, s.workers[w].key.value, s.workers[w].phase.final, expiresAt) == Ok(t.rows)))
  {
  }

  lemma MarkShape(s: State, w: nat, failure: Outcome)
    requires w in s.workers
    ensures var t := MarkWorker(s, w, failure);
            && w in t.workers && t.workers == s.workers[w := t.workers[w]] && t.invocations == s.invocations
            && t.nextWorker == s.nextWorker && t.calls == s.calls
            && t.workers[w] == s.workers[w].(phase := t.workers[w].phase)
            && (t.workers[w].phase == Marked || t.workers[w].phase == Finished(failure))
  {
  }

  /** Every step keeps the tables in agreement. */
  lemma StepAgrees(s: State, st: Step)
    requires TablesAgree(s)
    ensures TablesAgree(After(s, st))
  {
    hide TablesAgree, DispatchRequest, MarkWorker, RecordWorker, PopWorker;
    match st {
      case Dispatch(rq, expiresAt) => DispatchAgrees(s, rq, expiresAt);
      case Mark(w, failure) =>
        if InPhase(s, w, Checking) { MarkShape(s, w, failure); PhaseChangeAgrees(s, After(s, st), w); }
      case Pop(w) => if w in s.workers && s.workers[w].phase.Finished? { PopAgrees(s, w); }
      case Record(w, encodes, expiresAt) =>
        if w in s.workers && s.workers[w].phase.Recording? {
          RecordShape(s, w, encodes, expiresAt);
          RemoveAgrees(s, After(s, st), w);
        }
      case Reset => ResetAgrees(s);
      case Crash(capacity) => CrashAgrees(s, capacity);
      case Cancel(id) =>
        if id in s.invocations && s.invocations[id] in s.workers {
          CancelAgrees(s, id);
        }
      case CancelQueued(w) => if After(s, st) != s { PhaseChangeAgrees(s, After(s, st), w); }
      case Begin(w) => if InPhase(s, w, Queued) { PhaseChangeAgrees(s, After(s, st), w); }
      case FailBefore(w, _) => if InPhase(s, w, Checking) { PhaseChangeAgrees(s, After(s, st), w); }
      case Call(w) => if InPhase(s, w, Marked) { PhaseChangeAgrees(s, After(s, st), w); }
      case Return(w, _) => if InPhase(s, w, Called) { PhaseChangeAgrees(s, After(s, st), w); }
      case _ => SameTables(s, After(s, st));
    }
  }

  lemma CancelAgrees(s: State, id: string)
    requires TablesAgree(s) && id in s.invocations && s.invocations[id] in s.workers
    ensures TablesAgree(After(s, Cancel(id)))
  {
    assert TableInv(s, id);
    PhaseChangeAgrees(s, After(s, Cancel(id)), s.invocations[id]);
  }

  // ---- One ledger key ---------------------------------------------------------------

  predicate WorksFor(s: State, w: nat, k: LedgerKey) {
    w in s.workers && s.workers[w].key == Some(k)
  }

  /** What a worker of the key may be doing, given the row and the calls made. */
  ghost predicate WorkerFits(s: State, w: nat, k: LedgerKey) {
    WorksFor(s, w, k) ==>
      && k in s.rows
      && var worker, row := s.workers[w], s.rows[k];
      && (row.state == Prepared ==> !worker.replay && worker.phase != Marked && worker.phase != Called)
      && (worker.replay ==> ReplaySafe(row.idempotency))
      && (!ReplaySafe(row.idempotency) ==>
            && (row.state == Running ==> worker.phase != Queued && worker.phase != Checking)
            && (worker.phase == Marked ==> s.calls[k] == 0))
  }

  ghost predicate CallsFit(s: State, k: LedgerKey) {
    && (k !in s.rows || s.rows[k].state == Prepared ==> s.calls[k] == 0)
    && (k in s.rows && !ReplaySafe(s.rows[k].idempotency) ==> s.calls[k] <= 1)
  }

  ghost predicate KeyInv(s: State, k: LedgerKey) {
    (forall w :: WorkerFits(s, w, k)) && CallsFit(s, k)
  }

  /** Nothing about the key changed except that one worker moved to a harmless phase. */
  lemma HarmlessMove(s: State, t: State, w: nat, k: LedgerKey)
    requires KeyInv(s, k) && t.rows == s.rows && t.calls == s.calls && w in s.workers && w in t.workers
    requires t.workers == s.workers[w := t.workers[w]]
    requires t.workers[w].key == s.workers[w].key && t.workers[w].replay == s.workers[w].replay
    requires t.workers[w].phase == s.workers[w].phase || t.workers[w].phase.Finished? || t.workers[w].phase.Recording?
             || (s.workers[w].phase == Queued && t.workers[w].phase == Checking)
    ensures KeyInv(t, k)
  {
    forall x ensures WorkerFits(t, x, k) { assert WorkerFits(s, x, k); }
  }

  lemma FewerWorkers(s: State, t: State, k: LedgerKey)
    requires KeyInv(s, k) && t.rows == s.rows && t.calls == s.calls
    requires forall x | x in t.workers ::
             x in s.workers && t.workers[x] == s.workers[x].(cancelled := t.workers[x].cancelled)
    ensures KeyInv(t, k)
  {
    forall x ensures WorkerFits(t, x, k) { assert WorkerFits(s, x, k); }
  }

  /** The only worker of the key that has not been popped is w. */
  lemma OnlyWorker(s: State, w: nat, x: nat, k: LedgerKey)
    requires TablesAgree(s) && WorksFor(s, w, k) && WorksFor(s, x, k)
    requires !s.workers[w].phase.Recording? && !s.workers[x].phase.Recording?
    ensures x == w
  {
    InvOf(s, w);
    InvOf(s, x);
  }

  lemma MarkKeyInv(s: State, w: nat, failure: Outcome, k: LedgerKey)
    requires TablesAgree(s) && KeyInv(s, k) && InPhase(s, w, Checking)
    ensures KeyInv(MarkWorker(s, w, failure), k)
  {
    var t := MarkWorker(s, w, failure);
    assert WorkerFits(s, w, k);
    forall x
      ensures WorkerFits(t, x, k)
    {
      assert WorkerFits(s, x, k);
      if x != w && WorksFor(s, x, k) && WorksFor(s, w, k) && !s.workers[x].phase.Recording? {
        OnlyWorker(s, w, x, k);
      }
    }
  }

  lemma CallKeyInv(s: State, w: nat, k: LedgerKey)
    requires TablesAgree(s) && KeyInv(s, k) && InPhase(s, w, Marked)
    ensures KeyInv(CallTarget(s, w), k)
  {
    var t := CallTarget(s, w);
    assert WorkerFits(s, w, k);
    forall x
      ensures WorkerFits(t, x, k)
    {
      assert WorkerFits(s, x, k);
      if x != w && WorksFor(s, x, k) && WorksFor(s, w, k) && !s.workers[x].phase.Recording? {
        OnlyWorker(s, w, x, k);
      }
    }
  }

  lemma RecordKeyInv(s: State, w: nat, encodes: bool, expiresAt: int, k: LedgerKey)
    requires KeyInv(s, k) && w in s.workers && s.workers[w].phase.Recording?
    ensures KeyInv(RecordWorker(s, w, encodes, expiresAt), k)
  {
    hide RecordWorker;
    RecordShape(s, w, encodes, expiresAt);
    var t := RecordWorker(s, w, encodes, expiresAt);
    forall x ensures WorkerFits(t, x, k) { assert WorkerFits(s, x, k); }
  }

  lemma SpawnKeyInv(s: State, rq: Request, key: LedgerKey, expiresAt: int, k: LedgerKey)
    requires TablesAgree(s) && KeyInv(s, k) && rq.invocation !in s.invocations && key.invocation == rq.invocation
    requires Prepare(s.rows, key, rq.semantics, rq.idempotency, expiresAt).Ok?
    requires key in s.rows && s.rows[key].state == Running ==> ReplaySafe(rq.idempotency)
    requires key in s.rows ==> s.rows[key].state != Terminal
    ensures var rows := Prepare(s.rows, key, rq.semantics, rq.idempotency, expiresAt).value;
            key in rows && KeyInv(Spawn(s, rq, Some(key), rows[key].state == Running, rows), k)
  {
    var rows := Prepare(s.rows, key, rq.semantics, rq.idempotency, expiresAt).value;
    var t := Spawn(s, rq, Some(key), rows[key].state == Running, rows);
    forall x
      ensures WorkerFits(t, x, k)
    {
      assert WorkerFits(s, x, k);
    }
  }

  lemma DispatchKeyInv(s: State, rq: Request, expiresAt: int, k: LedgerKey)
    requires TablesAgree(s) && KeyInv(s, k)
    ensures KeyInv(DispatchRequest(s, rq, expiresAt).0, k)
  {
    if Screened(s, rq).Some? {
      ScreenedShape(s, rq);
      hide Screened;
      SameKey(s, Screened(s, rq).value.0, k);
    } else {
      NotInProgress(s, rq.invocation);
      hide Screened;
      AdmitKeyInv(s, rq, expiresAt, k);
    }
  }

  lemma AdmitKeyInv(s: State, rq: Request, expiresAt: int, k: LedgerKey)
    requires TablesAgree(s) && KeyInv(s, k) && rq.invocation !in s.invocations
    ensures KeyInv(Admit(s, rq, expiresAt).0, k)
  {
    hide Spawn, Prepare, KeyInv, TablesAgree;
    var key := KeyOf(s, rq.invocation);
    UnledgeredSpawn(s, rq, k);
    if key.Some? && Prepare(s.rows, key.value, rq.semantics, rq.idempotency, expiresAt).Ok? {
      PrepareFinds(s.rows, key.value, rq.semantics, rq.idempotency, expiresAt);
      if key.value in s.rows { PrepareKeeps(s.rows, key.value, rq.semantics, rq.idempotency, expiresAt); }
      if Admit(s, rq, expiresAt).1 == Accepted {
        SpawnKeyInv(s, rq, key.value, expiresAt, k);
      } else {
        SameKey(s, Admit(s, rq, expiresAt).0, k);
      }
    }
  }

  lemma PrepareKeeps(rows: Rows, k: LedgerKey, sem: Semantics, idempotency: string, expiresAt: int)
    requires Prepare(rows, k, sem, idempotency, expiresAt).Ok? && k in rows
    ensures Prepare(rows, k, sem, idempotency, expiresAt).value == rows
  {
  }

  lemma SameKey(s: State, t: State, k: LedgerKey)
    requires KeyInv(s, k) && t.rows == s.rows && t.calls == s.calls && t.workers == s.workers
    ensures KeyInv(t, k)
  {
    forall x ensures WorkerFits(t, x, k) { assert WorkerFits(s, x, k); }
  }

  lemma UnledgeredSpawn(s: State, rq: Request, k: LedgerKey)
    requires KeyInv(s, k)
    ensures KeyInv(Spawn(s, rq, None, false, s.rows), k)
  {
    var t := Spawn(s, rq, None, false, s.rows);
    forall x ensures WorkerFits(t, x, k) { assert WorkerFits(s, x, k); }
  }

  lemma PurgeKeyInv(s: State, now: int, k: LedgerKey)
    requires KeyInv(s, k) && !PurgesKey(s, Purge(now), k)
    ensures KeyInv(After(s, Purge(now)), k)
  {
    var t := After(s, Purge(now));
    forall x ensures WorkerFits(t, x, k) { assert WorkerFits(s, x, k); }
  }

  /** Every step that does not delete the key's row keeps the key's invariant. */
  lemma StepKeyInv(s: State, st: Step, k: LedgerKey)
    requires TablesAgree(s) && KeyInv(s, k) && !PurgesKey(s, st, k)
    ensures KeyInv(After(s, st), k)
  {
    hide TablesAgree, KeyInv, DispatchRequest, MarkWorker, CallTarget, RecordWorker;
    match st {
      case Dispatch(rq, expiresAt) => DispatchKeyInv(s, rq, expiresAt, k);
      case Mark(w, failure) => if InPhase(s, w, Checking) { MarkKeyInv(s, w, failure, k); }
      case Call(w) => if InPhase(s, w, Marked) { CallKeyInv(s, w, k); }
      case Record(w, encodes, expiresAt) =>
        if w in s.workers && s.workers[w].phase.Recording? { RecordKeyInv(s, w, encodes, expiresAt, k); }
      case Purge(now) => PurgeKeyInv(s, now, k);
      case Reset => FewerWorkers(s, After(s, st), k);
      case Crash(_) => FewerWorkers(s, After(s, st), k);
      case Pop(w) =>
        if w in s.workers && s.workers[w].phase.Finished? {
          if s.workers[w].epoch != s.epoch {
            FewerWorkers(s, After(s, st), k);
          } else {
            HarmlessMove(s, After(s, st), w, k);
          }
        }
      case Cancel(id) =>
        if id in s.invocations && s.invocations[id] in s.workers {
          HarmlessMove(s, After(s, st), s.invocations[id], k);
        }
      case CancelQueued(w) => if After(s, st) != s { HarmlessMove(s, After(s, st), w, k); }
      case Begin(w) => if InPhase(s, w, Queued) { HarmlessMove(s, After(s, st), w, k); }
      case FailBefore(w, _) => if InPhase(s, w, Checking) { HarmlessMove(s, After(s, st), w, k); }
      case Return(w, _) => if InPhase(s, w, Called) { HarmlessMove(s, After(s, st), w, k); }
      case _ => SameKey(s, After(s, st), k);
    }
  }

  lemma {:induction false} RunKeyInv(s: State, steps: seq<Step>, k: LedgerKey)
    requires TablesAgree(s) && KeyInv(s, k) && Unpurged(s, steps, k)
    ensures TablesAgree(Run(s, steps)) && KeyInv(Run(s, steps), k)
    decreases |steps|
  {
    hide TablesAgree, KeyInv, After, PurgesKey;
    if steps != [] {
      StepAgrees(s, steps[0]);
      StepKeyInv(s, steps[0], k);
      RunKeyInv(After(s, steps[0]), steps[1..], k);
    }
  }

  // ---- The theorems -----------------------------------------------------------------

  /** A client process that has just come up over some ledger rows, with no calls on record. */
  ghost predicate Initial(s: State) {
    s.workers == map[] && s.invocations == map[] && s.calls == multiset{}
  }

  lemma InitialInv(s: State, k: LedgerKey)
    requires Initial(s)
    ensures TablesAgree(s) && KeyInv(s, k)
  {
  }

  /**
   Over every run with redeliveries, cancellations, resets and crashes in which the row is
   not purged, the target of an invocation that is neither idempotent nor deduplicated is
   called at most once.
   */
  lemma CalledAtMostOnce(s: State, steps: seq<Step>, k: LedgerKey)
    requires Initial(s) && Unpurged(s, steps, k)
    ensures var t := Run(s, steps);
            k in t.rows && t.rows[k].idempotency !in {"IDEMPOTENT", "DEDUPLICATED"} ==> t.calls[k] <= 1
  {
    hide TablesAgree, Run;
    InitialInv(s, k);
    RunKeyInv(s, steps, k);
  }

  /**
   Once the target has been entered the row exists and is never PREPARED again; through any
   further run it keeps its semantics and a committed outcome stays as it is; and a reconcile
   under the same identity never answers NOT_FOUND.
   */
  lemma EnteredIsRemembered(s: State, steps: seq<Step>, more: seq<Step>, k: LedgerKey, sem: Semantics)
    requires Initial(s) && Unpurged(s, steps, k) && Run(s, steps).calls[k] > 0
    requires Unpurged(Run(s, steps), more, k)
    ensures var t, u := Run(s, steps), Run(Run(s, steps), more);
            && k in t.rows && t.rows[k].state != Prepared
            && k in u.rows && u.rows[k].state != Prepared && RowAdvances(t.rows[k], u.rows[k])
            && (KeyOf(u, k.invocation) == Some(k) ==> Reconcile(u, k.invocation, sem) != NotFound)
  {
    hide TablesAgree, Run;
    InitialInv(s, k);
    RunKeyInv(s, steps, k);
    var t := Run(s, steps);
    RunAdvances(t, more, k);
    assert CallsFit(t, k);
  }

  /** Write-ahead: the target of a ledgered invocation is only entered over a row that is past PREPARED. */
  lemma CallIsWrittenAhead(s: State, steps: seq<Step>, w: nat, k: LedgerKey)
    requires Initial(s) && Unpurged(s, steps, k)
    requires InPhase(Run(s, steps), w, Marked) && WorksFor(Run(s, steps), w, k)
    ensures var t := Run(s, steps);
            && k in t.rows && t.rows[k].state != Prepared
            && (!ReplaySafe(t.rows[k].idempotency) ==> t.calls[k] == 0)
  {
    hide TablesAgree, Run;
    InitialInv(s, k);
    RunKeyInv(s, steps, k);
    assert WorkerFits(Run(s, steps), w, k);
  }

  /** Redelivering an invocation whose outcome is committed starts nothing. */
  lemma RedeliveryOfTerminal(s: State, rq: Request, expiresAt: int, k: LedgerKey)
    requires KeyOf(s, rq.invocation) == Some(k) && rq.invocation != ""
    requires k in s.rows && s.rows[k].state == Terminal && s.rows[k].outcome.Some?
    ensures var (t, r) := DispatchRequest(s, rq, expiresAt);
            && t.rows == s.rows && t.workers == s.workers && t.capacity == s.capacity && t.nextWorker == s.nextWorker
            && (rq.invocation !in s.invocations && rq.invocation !in s.cache ==>
                  r == if s.rows[k].semantics == rq.semantics && s.rows[k].idempotency == rq.idempotency
                       then Emit(s.rows[k].outcome.value) else ConflictReply)
  {
  }

  // ---- Capacity ---------------------------------------------------------------------

  lemma InsertSize(m: map<string, nat>, id: string, w: nat)
    requires id !in m
    ensures |m[id := w]| == |m| + 1
  {
    assert m[id := w].Keys == m.Keys + {id};
  }

  lemma RemoveSize(m: map<string, nat>, id: string)
    requires id in m
    ensures |m - {id}| == |m| - 1
  {
    assert (m - {id}).Keys == m.Keys - {id};
  }

  lemma DispatchCapacity(s: State, rq: Request, expiresAt: int)
    requires TablesAgree(s)
    ensures var t := DispatchRequest(s, rq, expiresAt).0;
            t.capacity + |t.invocations| == s.capacity + |s.invocations|
  {
    hide TablesAgree, Prepare, Spawn;
    if Screened(s, rq).Some? {
      ScreenedShape(s, rq);
    } else {
      NotInProgress(s, rq.invocation);
      SpawnCapacity(s, rq);
    }
    hide Screened;
  }

  lemma SpawnCapacity(s: State, rq: Request)
    requires rq.invocation !in s.invocations
    ensures forall key, replay, rows | s.capacity > 0 ::
              var t := Spawn(s, rq, key, replay, rows);
              t.capacity + |t.invocations| == s.capacity + |s.invocations|
  {
    InsertSize(s.invocations, rq.invocation, s.nextWorker);
  }

  lemma PopCapacity(s: State, w: nat)
    requires TablesAgree(s) && w in s.workers && s.workers[w].phase.Finished?
    ensures var t := PopWorker(s, w);
            t.capacity + |t.invocations| == s.capacity + |s.invocations|
  {
    hide TablesAgree;
    InvOf(s, w);
    RemoveSize(s.invocations, s.workers[w].invocation);
  }

  lemma WorkerStepsKeepCapacity(s: State, w: nat, failure: Outcome, encodes: bool, expiresAt: int)
    requires w in s.workers
    ensures var t := MarkWorker(s, w, failure); t.capacity == s.capacity && t.invocations == s.invocations
    ensures s.workers[w].phase.Recording? ==>
              var t := RecordWorker(s, w, encodes, expiresAt);
              t.capacity == s.capacity && t.invocations == s.invocations
  {
    hide MarkRunning, CommitTerminal;
  }

  lemma StepCapacity(s: State, st: Step)
    requires TablesAgree(s) && !st.Crash?
    ensures After(s, st).capacity + |After(s, st).invocations| + (if Leaks(s, st) then 1 else 0)
            == s.capacity + |s.invocations|
  {
    hide TablesAgree, DispatchRequest, MarkWorker, PopWorker, RecordWorker;
    match st {
      case Dispatch(rq, expiresAt) => DispatchCapacity(s, rq, expiresAt);
      case Pop(w) => if w in s.workers && s.workers[w].phase.Finished? { PopCapacity(s, w); }
      case Mark(w, failure) => if w in s.workers { WorkerStepsKeepCapacity(s, w, failure, false, 0); }
      case Record(w, encodes, expiresAt) =>
        if w in s.workers { WorkerStepsKeepCapacity(s, w, CancelledOutcome, encodes, expiresAt); }
      case _ =>
    }
  }

  /** A ledger that raises anything but a conflict while a row is prepared keeps the slot for good. */
  predicate Leaks(s: State, st: Step) { st.PrepareRaises? && ReachesPrepare(s, st.request) }

  function LeakedSlots(s: State, steps: seq<Step>): nat
    decreases |steps|
  {
    if steps == [] then 0 else (if Leaks(s, steps[0]) then 1 else 0) + LeakedSlots(After(s, steps[0]), steps[1..])
  }

  /** Free slots, invocations in progress and leaked slots always add up to the same number, until the process dies. */
  lemma {:induction false} CapacityConserved(s: State, steps: seq<Step>)
    requires TablesAgree(s) && forall st | st in steps :: !st.Crash?
    ensures Run(s, steps).capacity + |Run(s, steps).invocations| + LeakedSlots(s, steps) == s.capacity + |s.invocations|
    decreases |steps|
  {
    hide TablesAgree, After, Leaks;
    if steps != [] {
      StepCapacity(s, steps[0]);
      StepAgrees(s, steps[0]);
      CapacityConserved(After(s, steps[0]), steps[1..]);
    }
  }
}

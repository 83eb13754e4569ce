/**
 What the client answers about an invocation (cl/src/core/capability_dispatcher.py), in terms of the workers,
 cached outcomes and ledger rows of the states it can reach.
 */
module DispatchAnswers {
  import opened Common
  import opened InvocationLedger
  import opened DispatchProtocol
  import opened DispatchSafety

  /** A worker of the invocation has not handed in its outcome yet. */
  ghost predicate InProgress(s: State, w: nat, id: string) {
    w in s.workers && s.workers[w].invocation == id && !s.workers[w].phase.Recording?
  }

  ghost predicate Idle(s: State, id: string) { forall w :: !InProgress(s, w, id) }

  /** The ledger row of the invocation under the bound identity. */
  ghost predicate Ledgered(s: State, id: string, row: Row) {
    && s.identity.Some? && s.identity.value.client != "" && s.identity.value.principal != ""
    && var k := LedgerKey(s.identity.value.client, s.identity.value.principal, id);
       k in s.rows && s.rows[k] == row
  }

  ghost predicate Unledgered(s: State, id: string) { forall row :: !Ledgered(s, id, row) }

  lemma DurableIs(s: State, id: string)
    ensures Durable(s, id).Some? ==> Ledgered(s, id, Durable(s, id).value) && !Unledgered(s, id)
    ensures Durable(s, id).None? ==> Unledgered(s, id)
    ensures forall row :: Ledgered(s, id, row) ==> Durable(s, id) == Some(row)
  {
    if Durable(s, id).Some? { assert Ledgered(s, id, Durable(s, id).value); }
  }

  /** The table finds a worker exactly when one is in progress, and then it is the only one. */
  lemma TableFinds(s: State, id: string)
    requires TablesAgree(s)
    ensures id in s.invocations && s.invocations[id] in s.workers <==> !Idle(s, id)
    ensures forall w | InProgress(s, w, id) :: id in s.invocations && s.invocations[id] == w
  {
    assert TableInv(s, id);
    if id in s.invocations && s.invocations[id] in s.workers { assert InProgress(s, s.invocations[id], id); }
    forall w | InProgress(s, w, id)
      ensures id in s.invocations && s.invocations[id] == w
    {
      InvOf(s, w);
    }
  }

  // ---- Reconciliation ---------------------------------------------------------------

  /** RUNNING exactly when a worker of the invocation with these semantics is in progress. */
  lemma RunningExactly(s: State, id: string, sem: Semantics)
    requires TablesAgree(s)
    ensures Reconcile(s, id, sem) == StatusRunning <==>
            exists w | InProgress(s, w, id) :: s.workers[w].semantics == sem
  {
    TableFinds(s, id);
    hide TablesAgree;
    if !Idle(s, id) {
      var w :| InProgress(s, w, id);
      assert s.invocations[id] == w;
    }
  }

  /** CONFLICT exactly when what is held about it has other semantics: a worker, else an outcome, else a row. */
  lemma ConflictExactly(s: State, id: string, sem: Semantics)
    requires TablesAgree(s)
    ensures Reconcile(s, id, sem) == StatusConflict <==>
            || (exists w | InProgress(s, w, id) :: s.workers[w].semantics != sem)
            || (Idle(s, id) && id in s.cache && s.cache[id].semantics != Some(sem))
            || (Idle(s, id) && id !in s.cache && exists row | Ledgered(s, id, row) :: row.semantics != sem)
  {
    TableFinds(s, id);
    DurableIs(s, id);
    hide TablesAgree, Durable, Ledgered;
    if !Idle(s, id) {
      var w :| InProgress(s, w, id);
      assert s.invocations[id] == w;
    }
  }

  /** TERMINAL exactly with an outcome cached or committed for these semantics, and nothing in progress. */
  lemma TerminalExactly(s: State, id: string, sem: Semantics, o: Outcome)
    requires TablesAgree(s)
    ensures Reconcile(s, id, sem) == StatusTerminal(o) <==>
            && Idle(s, id)
            && (|| (id in s.cache && s.cache[id] == Cached(Some(sem), o))
                || (id !in s.cache && exists row | Ledgered(s, id, row) ::
                      row.semantics == sem && row.state == Terminal && row.outcome == Some(o)))
  {
    TableFinds(s, id);
    DurableIs(s, id);
    hide TablesAgree, Durable, Ledgered, Idle;
  }

  /** NOT_FOUND exactly when nothing is held under the bound identity. */
  lemma NotFoundExactly(s: State, id: string, sem: Semantics)
    requires TablesAgree(s)
    ensures Reconcile(s, id, sem) == NotFound <==> Idle(s, id) && id !in s.cache && Unledgered(s, id)
  {
    TableFinds(s, id);
    DurableIs(s, id);
    hide TablesAgree, Durable, Ledgered, Idle, Unledgered;
  }

  // ---- Dispatch ---------------------------------------------------------------------

  /** The row, if there is one, is the same request and has not finished, and running it again is safe if it started. */
  ghost predicate MayStart(s: State, rq: Request) {
    forall row | Ledgered(s, rq.invocation, row) ::
      && row.semantics == rq.semantics && row.idempotency == rq.idempotency && row.state != Terminal
      && (row.state == Running ==> rq.idempotency in {"IDEMPOTENT", "DEDUPLICATED"})
  }

  /** A request starts a worker exactly when it is idle, unanswered, startable and a slot is free. */
  lemma StartsExactly(s: State, rq: Request, expiresAt: int)
    requires TablesAgree(s)
    ensures var (t, r) := DispatchRequest(s, rq, expiresAt);
            && (r == Accepted <==>
                  && rq.invocation != "" && Idle(s, rq.invocation) && rq.invocation !in s.cache
                  && MayStart(s, rq) && s.capacity > 0)
            && (r != Accepted ==> t.workers == s.workers && t.capacity == s.capacity)
            && (r == Accepted ==>
                  && t.capacity == s.capacity - 1 && s.nextWorker in t.workers
                  && t.workers == s.workers[s.nextWorker := t.workers[s.nextWorker]]
                  && var w := t.workers[s.nextWorker];
                     && w.invocation == rq.invocation && w.semantics == rq.semantics && w.epoch == s.epoch
                     && w.phase == Queued && !w.cancelled && w.key == KeyOf(s, rq.invocation)
                     && (w.replay <==> exists row | Ledgered(s, rq.invocation, row) :: row.state == Running))
  {
    hide TablesAgree, Ledgered, Idle;
    TableFinds(s, rq.invocation);
    DurableIs(s, rq.invocation);
    DurableStarts(s, rq);
    if Screened(s, rq).None? { AdmitStarts(s, rq, expiresAt); }
  }

  lemma DurableStarts(s: State, rq: Request)
    ensures MayStart(s, rq) <==>
            var durable := Durable(s, rq.invocation);
            durable.Some? ==>
              && durable.value.semantics == rq.semantics && durable.value.idempotency == rq.idempotency
              && durable.value.state != Terminal && (durable.value.state == Running ==> ReplaySafe(rq.idempotency))
  {
    DurableIs(s, rq.invocation);
    hide Ledgered, Durable;
  }

  lemma AdmitStarts(s: State, rq: Request, expiresAt: int)
    requires Screened(s, rq).None?
    ensures var (t, r) := Admit(s, rq, expiresAt);
            && r == Accepted && t.capacity == s.capacity - 1 && s.nextWorker in t.workers
            && t.workers == s.workers[s.nextWorker := t.workers[s.nextWorker]]
            && t.workers[s.nextWorker]
               == Worker(rq.invocation, rq.semantics, KeyOf(s, rq.invocation),
                         Durable(s, rq.invocation).Some? && Durable(s, rq.invocation).value.state == Running,
                         s.epoch, false, Queued)
  {
  }

  /** Silence: no id, already in progress as asked, or started by a process that is gone and not safe to repeat. */
  lemma SilentExactly(s: State, rq: Request, expiresAt: int)
    requires TablesAgree(s)
    ensures DispatchRequest(s, rq, expiresAt).1 == Silent <==>
            || rq.invocation == ""
            || (exists w | InProgress(s, w, rq.invocation) :: s.workers[w].semantics == rq.semantics)
            || (&& Idle(s, rq.invocation) && rq.invocation !in s.cache
                && exists row | Ledgered(s, rq.invocation, row) ::
                     && row.semantics == rq.semantics && row.idempotency == rq.idempotency
                     && row.state == Running && rq.idempotency !in {"IDEMPOTENT", "DEDUPLICATED"})
  {
    hide TablesAgree, Ledgered, Durable;
    TableFinds(s, rq.invocation);
    DurableIs(s, rq.invocation);
    StartsExactly(s, rq, expiresAt);
    if !Idle(s, rq.invocation) {
      var w :| InProgress(s, w, rq.invocation);
      assert s.invocations[rq.invocation] == w;
    }
    hide Admit;
  }

  /** A repeated outcome: the cached one, the committed one, or that no slot was free. */
  lemma EmitExactly(s: State, rq: Request, expiresAt: int, o: Outcome)
    requires TablesAgree(s) && (forall row | Ledgered(s, rq.invocation, row) :: RowValid(row))
    ensures DispatchRequest(s, rq, expiresAt).1 == Emit(o) <==>
            && rq.invocation != "" && Idle(s, rq.invocation)
            && (|| (rq.invocation in s.cache && s.cache[rq.invocation] == Cached(Some(rq.semantics), o))
                || (rq.invocation !in s.cache && exists row | Ledgered(s, rq.invocation, row) ::
                      && row.semantics == rq.semantics && row.idempotency == rq.idempotency
                      && row.state == Terminal && row.outcome == Some(o))
                || (rq.invocation !in s.cache && MayStart(s, rq) && s.capacity == 0 && o == Busy))
  {
    hide TablesAgree, Ledgered, Durable, Idle;
    TableFinds(s, rq.invocation);
    DurableIs(s, rq.invocation);
    DurableStarts(s, rq);
    StartsExactly(s, rq, expiresAt);
    hide Admit, MayStart;
  }

  /** What is emitted is remembered for the semantics it was asked with, and nothing else is. */
  lemma EmittedIsRemembered(s: State, rq: Request, expiresAt: int)
    ensures var (t, r) := DispatchRequest(s, rq, expiresAt);
            t.cache == if r.Emit? then s.cache[rq.invocation := Cached(Some(rq.semantics), r.outcome)] else s.cache
  {
    var (t, r) := DispatchRequest(s, rq, expiresAt);
    if Screened(s, rq).Some? {
      if r.Emit? && rq.invocation in s.cache { assert s.cache[rq.invocation := s.cache[rq.invocation]] == s.cache; }
    } else {
      AdmitStarts(s, rq, expiresAt);
    }
  }

  // ---- Workers, rows and semantics ---------------------------------------------------

  /** A worker of the key works on the request its row is bound to. */
  ghost predicate SemanticsFit(s: State, k: LedgerKey) {
    forall w | WorksFor(s, w, k) :: k in s.rows && s.rows[k].semantics == s.workers[w].semantics
  }

  /** Where a worker comes from: it was there, or this dispatch started it over a row of its own semantics. */
  lemma WorkerOrigin(s: State, st: Step, w: nat)
    requires w in After(s, st).workers
    ensures var t, now := After(s, st), After(s, st).workers[w];
            || (w in s.workers && now.semantics == s.workers[w].semantics && now.key == s.workers[w].key)
            || (now.key.Some? ==> now.key.value in t.rows && t.rows[now.key.value].semantics == now.semantics)
  {
    hide DispatchRequest, MarkWorker, RecordWorker, PopWorker, CallTarget, ReachesPrepare, PurgeExpired;
    match st {
      case Dispatch(rq, expiresAt) => StartedOver(s, rq, expiresAt, w);
      case Pop(x) => if x in s.workers && s.workers[x].phase.Finished? { PopOrigin(s, x, w); }
      case Call(x) => if InPhase(s, x, Marked) { CallOrigin(s, x, w); }
      case Mark(x, failure) => if InPhase(s, x, Checking) { MarkShape(s, x, failure); }
      case Record(x, encodes, expiresAt) =>
        if x in s.workers && s.workers[x].phase.Recording? { RecordShape(s, x, encodes, expiresAt); }
      case _ =>
    }
  }

  lemma PopOrigin(s: State, x: nat, w: nat)
    requires x in s.workers && s.workers[x].phase.Finished? && w in PopWorker(s, x).workers
    ensures var now := PopWorker(s, x).workers[w];
            w in s.workers && now.semantics == s.workers[w].semantics && now.key == s.workers[w].key
  {
  }

  lemma CallOrigin(s: State, x: nat, w: nat)
    requires x in s.workers && w in CallTarget(s, x).workers
    ensures var now := CallTarget(s, x).workers[w];
            w in s.workers && now.semantics == s.workers[w].semantics && now.key == s.workers[w].key
  {
  }

  lemma StartedOver(s: State, rq: Request, expiresAt: int, w: nat)
    requires w in DispatchRequest(s, rq, expiresAt).0.workers
    ensures var t := DispatchRequest(s, rq, expiresAt).0;
            || (w in s.workers && t.workers[w] == s.workers[w])
            || (var now := t.workers[w];
                now.key.Some? ==> now.key.value in t.rows && t.rows[now.key.value].semantics == now.semantics)
  {
    if Screened(s, rq).Some? { ScreenedShape(s, rq); }
    hide Screened;
  }

  lemma StepSemantics(s: State, st: Step, k: LedgerKey)
    requires SemanticsFit(s, k) && !PurgesKey(s, st, k)
    ensures SemanticsFit(After(s, st), k)
  {
    hide After, PurgesKey;
    StepAdvances(s, st, k);
    forall w | WorksFor(After(s, st), w, k)
      ensures k in After(s, st).rows && After(s, st).rows[k].semantics == After(s, st).workers[w].semantics
    {
      WorkerOrigin(s, st, w);
      if w in s.workers && s.workers[w].key == Some(k) { assert WorksFor(s, w, k); }
    }
  }

  lemma {:induction false} RunSemantics(s: State, steps: seq<Step>, k: LedgerKey)
    requires SemanticsFit(s, k) && Unpurged(s, steps, k)
    ensures SemanticsFit(Run(s, steps), k)
    decreases |steps|
  {
    hide After, SemanticsFit, PurgesKey;
    if steps != [] {
      StepSemantics(s, steps[0], k);
      RunSemantics(After(s, steps[0]), steps[1..], k);
    }
  }

  // ---- Recording an outcome ----------------------------------------------------------

  /** What recording writes: nothing for a former principal, else the worker's own outcome, once. */
  lemma RecordWrites(s: State, w: nat, encodes: bool, expiresAt: int)
    requires w in s.workers && s.workers[w].phase.Recording?
    requires s.workers[w].key.Some? ==> s.workers[w].key.value in s.rows
    ensures var t, worker := After(s, Record(w, encodes, expiresAt)), s.workers[w];
            var o := worker.phase.final;
            var row := if worker.key.Some? then Some(s.rows[worker.key.value]) else None;
            var commits := row.Some? && encodes && (row.value.state == Terminal ==> row.value.outcome == Some(o));
            && t.workers == s.workers - {w} && t.invocations == s.invocations
            && t.rows == (if worker.epoch == s.epoch && commits && row.value.state != Terminal
                          then s.rows[worker.key.value :=
                                 row.value.(state := Terminal, outcome := Some(o), expiresAt := expiresAt)]
                          else s.rows)
            && t.cache == (if worker.epoch == s.epoch && (row.None? || commits) && worker.invocation !in s.cache
                           then s.cache[worker.invocation := Cached(Some(worker.semantics), o)]
                           else s.cache)
  {
  }

  /** The worker's outcome is about to be committed under its key in the state it has reached. */
  ghost predicate Committing(s: State, w: nat, k: LedgerKey, o: Outcome) {
    && WorksFor(s, w, k) && s.workers[w].phase == Recording(o) && s.workers[w].epoch == s.epoch
    && k in s.rows && (s.rows[k].state == Terminal ==> s.rows[k].outcome == Some(o))
  }

  /**
   Once an outcome is committed it is the answer. At once, if the invocation was neither in progress again nor
   answered otherwise; and through every further run, crashes included, whenever its identity is bound and
   nothing newer is held in memory. Asked with other semantics the answer is a conflict.
   */
  lemma CommittedIsAnswered(s: State, steps: seq<Step>, w: nat, k: LedgerKey, o: Outcome, expiresAt: int,
                            more: seq<Step>, sem: Semantics)
    requires Initial(s) && Unpurged(s, steps, k) && Committing(Run(s, steps), w, k, o)
    requires Unpurged(After(Run(s, steps), Record(w, true, expiresAt)), more, k)
    ensures var before := Run(s, steps);
            var t, mine := After(before, Record(w, true, expiresAt)), before.workers[w].semantics;
            var u := Run(t, more);
            && (Idle(before, k.invocation) && k.invocation !in before.cache ==>
                  Reconcile(t, k.invocation, sem) == if sem == mine then StatusTerminal(o) else StatusConflict)
            && (KeyOf(u, k.invocation) == Some(k) && Idle(u, k.invocation) && k.invocation !in u.cache ==>
                  Reconcile(u, k.invocation, sem) == if sem == mine then StatusTerminal(o) else StatusConflict)
  {
    hide Run, TablesAgree, After, Reconcile, KeyInv;
    InitialInv(s, k);
    RunKeyInv(s, steps, k);
    RunSemantics(s, steps, k);
    var before := Run(s, steps);
    var t := After(before, Record(w, true, expiresAt));
    RowCommitted(before, w, k, o, expiresAt);
    StepAgrees(before, Record(w, true, expiresAt));
    RunAdvances(t, more, k);
    RunAgrees(t, more);
    if Idle(before, k.invocation) && k.invocation !in before.cache {
      AnsweredNow(before, w, k, o, expiresAt, sem);
    }
    if KeyOf(Run(t, more), k.invocation) == Some(k) { AnsweredFromRow(Run(t, more), k, o, sem); }
  }

  lemma {:induction false} RunAgrees(s: State, steps: seq<Step>)
    requires TablesAgree(s)
    ensures TablesAgree(Run(s, steps))
    decreases |steps|
  {
    hide After, TablesAgree;
    if steps != [] {
      StepAgrees(s, steps[0]);
      RunAgrees(After(s, steps[0]), steps[1..]);
    }
  }

  lemma RowCommitted(s: State, w: nat, k: LedgerKey, o: Outcome, expiresAt: int)
    requires Committing(s, w, k, o) && SemanticsFit(s, k)
    ensures var t := After(s, Record(w, true, expiresAt));
            && k in t.rows && t.rows[k].state == Terminal && t.rows[k].outcome == Some(o)
            && t.rows[k].semantics == s.workers[w].semantics
            && t.invocations == s.invocations
  {
    hide After;
    RecordWrites(s, w, true, expiresAt);
  }

  lemma AnsweredNow(s: State, w: nat, k: LedgerKey, o: Outcome, expiresAt: int, sem: Semantics)
    requires TablesAgree(s) && Committing(s, w, k, o) && Idle(s, k.invocation) && k.invocation !in s.cache
    ensures Reconcile(After(s, Record(w, true, expiresAt)), k.invocation, sem)
            == if sem == s.workers[w].semantics then StatusTerminal(o) else StatusConflict
  {
    InvOf(s, w);
    TableFinds(s, k.invocation);
    RecordWrites(s, w, true, expiresAt);
    hide TablesAgree, After, Idle;
  }

  lemma AnsweredFromRow(s: State, k: LedgerKey, o: Outcome, sem: Semantics)
    requires TablesAgree(s) && KeyOf(s, k.invocation) == Some(k) && k in s.rows
    requires s.rows[k].state == Terminal && s.rows[k].outcome == Some(o)
    ensures Idle(s, k.invocation) && k.invocation !in s.cache ==>
              Reconcile(s, k.invocation, sem)
              == if sem == s.rows[k].semantics then StatusTerminal(o) else StatusConflict
  {
    TableFinds(s, k.invocation);
  }
}

/**
 The dispatcher object (cl/src/core/capability_dispatcher.py): its methods update the tables
 and the ledger in place, and each carries out one step of the dispatch machine.
 */
module CapabilityDispatcher {
  import opened Common
  import opened InvocationLedger
  import opened DispatchProtocol

  lemma SpawnRows(s: State, rows: Rows, rq: Request, key: Option<LedgerKey>, replay: bool)
    ensures Spawn(s.(rows := rows), rq, key, replay, rows) == Spawn(s, rq, key, replay, rows)
  {
  }

  class Dispatcher {
    const ledger: ClientInvocationLedger
    var workers: map<nat, Worker>
    var invocations: map<string, nat>
    var terminal: map<string, Cached>
    var epoch: nat
    var capacity: nat
    var identity: Option<Identity>
    var nextWorker: nat
    ghost var calls: multiset<LedgerKey>

    constructor (ledger: ClientInvocationLedger, maxPending: nat)
      ensures this.ledger == ledger
      ensures Snapshot() == State(ledger.rows, map[], map[], map[], 0, maxPending, None, 0, multiset{})
    {
      this.ledger := ledger;
      workers, invocations, terminal, epoch := map[], map[], map[], 0;
      capacity, identity, nextWorker := maxPending, None, 0;
      calls := multiset{};
    }

    ghost function Snapshot(): State
      reads this, ledger
    {
      State(ledger.rows, workers, invocations, terminal, epoch, capacity, identity, nextWorker, calls)
    }

    function LedgerIdentity(invocation: string): (k: Option<LedgerKey>)
      reads this
    {
      if identity.Some? && identity.value.client != "" && identity.value.principal != ""
      then Some(LedgerKey(identity.value.client, identity.value.principal, invocation))
      else None
    }

    method LedgerGet(invocation: string) returns (row: Option<Row>)
      requires ledger.Valid()
      ensures row == Durable(Snapshot(), invocation)
    {
      var key := LedgerIdentity(invocation);
      if key.None? {
        return None;
      }
      row := ledger.Get(key.value);
    }

    /** One invocation frame; `raises` says whether the ledger fails, not for a conflict, if it is asked to prepare. */
    method DispatchInvocation(rq: Request, now: int, raises: bool) returns (r: Response)
      requires ledger.Valid()
      modifies this, ledger
      ensures ledger.Valid()
      ensures if raises && ReachesPrepare(old(Snapshot()), rq)
              then Snapshot() == After(old(Snapshot()), PrepareRaises(rq)) && r == Raised
              else (Snapshot(), r) == DispatchRequest(old(Snapshot()), rq, now + ledger.terminalTtl)
    {
      hide Admit;
      if rq.invocation == "" {
        return Silent;
      }
      if rq.invocation in invocations && invocations[rq.invocation] in workers {
        var existing := workers[invocations[rq.invocation]];
        return if existing.semantics == rq.semantics then Silent else ConflictReply;
      }
      if rq.invocation in terminal {
        var previous := terminal[rq.invocation];
        return if previous.semantics == Some(rq.semantics) then Emit(previous.outcome) else ConflictReply;
      }
      var durable := LedgerGet(rq.invocation);
      if durable.Some? {
        if durable.value.semantics != rq.semantics || durable.value.idempotency != rq.idempotency {
          return ConflictReply;
        }
        if durable.value.state == Terminal {
          if durable.value.outcome.None? {
            return ConflictReply;
          }
          terminal := terminal[rq.invocation := Cached(Some(durable.value.semantics), durable.value.outcome.value)];
          return Emit(durable.value.outcome.value);
        }
        if durable.value.state == Running && !ReplaySafe(rq.idempotency) {
          return Silent;
        }
      }
      if capacity == 0 {
        terminal := terminal[rq.invocation := Cached(Some(rq.semantics), Busy)];
        return Emit(Busy);
      }
      r := PrepareAndSubmit(rq, now, raises);
    }

    /**
     Takes a slot, prepares the row, looks at it once more, and hands the invocation to the worker pool.
     Every early exit gives the slot back, except a failing ledger.
     */
    method PrepareAndSubmit(rq: Request, now: int, raises: bool) returns (r: Response)
      requires ledger.Valid() && capacity > 0
      modifies this, ledger
      ensures ledger.Valid()
      ensures if raises && KeyOf(old(Snapshot()), rq.invocation).Some?
              then Snapshot() == old(Snapshot()).(capacity := old(capacity) - 1) && r == Raised
              else (Snapshot(), r) == Admit(old(Snapshot()), rq, now + ledger.terminalTtl)
    {
      hide Spawn, ReplaySafe;
      ghost var s := Snapshot();
      capacity := capacity - 1;
      var key := LedgerIdentity(rq.invocation);
      var replay := false;
      if key.Some? {
        if raises { return Raised; }
        var prepared := ledger.PrepareRow(key.value, rq.semantics, rq.idempotency, now);
        if prepared.Err? {
          capacity := capacity + 1;
          return ConflictReply;
        }
        var row := prepared.value;
        if row.state == Terminal {
          capacity := capacity + 1;
          if row.outcome.None? { return ConflictReply; }
          terminal := terminal[rq.invocation := Cached(Some(row.semantics), row.outcome.value)];
          return Emit(row.outcome.value);
        }
        if row.state == Running && !ReplaySafe(rq.idempotency) {
          capacity := capacity + 1;
          return Silent;
        }
        replay := row.state == Running;
      }
      SpawnRows(s, ledger.rows, rq, key, replay);
      Submit(rq, key, replay);
      r := Accepted;
    }

    /** Starts a worker in the slot that was taken. */
    method Submit(rq: Request, key: Option<LedgerKey>, replay: bool)
      modifies this
      ensures Snapshot() == Spawn(old(Snapshot()).(capacity := old(capacity) + 1), rq, key, replay, ledger.rows)
    {
      workers := workers[nextWorker := Worker(rq.invocation, rq.semantics, key, replay, epoch, false, Queued)];
      invocations := invocations[rq.invocation := nextWorker];
      nextWorker := nextWorker + 1;
    }

    /** The executor's hook right before the target call. */
    method BeforeTargetCall(w: nat, failure: Outcome)
      requires ledger.Valid() && InPhase(Snapshot(), w, Checking)
      modifies this, ledger
      ensures ledger.Valid() && Snapshot() == After(old(Snapshot()), Mark(w, failure))
    {
      var worker := workers[w];
      if worker.key.Some? && !worker.replay {
        var marked := ledger.MarkRowRunning(worker.key.value);
        if marked.Err? {
          workers := workers[w := worker.(phase := Finished(failure))];
          return;
        }
      }
      workers := workers[w := worker.(phase := Marked)];
    }

    /** The completion callback: free the slot and drop outcomes of an earlier principal. */
    method Complete(w: nat)
      requires w in workers && workers[w].phase.Finished?
      modifies this
      ensures Snapshot() == After(old(Snapshot()), Pop(w))
    {
      var worker := workers[w];
      invocations := invocations - {worker.invocation};
      capacity := capacity + 1;
      if worker.epoch != epoch {
        workers := workers - {w};
        return;
      }
      workers := workers[w := worker.(phase := Recording(worker.phase.outcome))];
    }

    method RecordAndEmit(w: nat, encodes: bool, now: int)
      requires ledger.Valid() && w in workers && workers[w].phase.Recording?
      modifies this, ledger
      ensures ledger.Valid() && Snapshot() == RecordWorker(old(Snapshot()), w, encodes, now + ledger.terminalTtl)
    {
      hide CommitTerminal;
      var worker := workers[w];
      workers := workers - {w};
      if worker.epoch != epoch {
        return;
      }
      if worker.key.Some? {
        if !encodes {
          return;
        }
        var committed := ledger.CommitRow(worker.key.value, worker.phase.final, now);
        if committed.Err? {
          return;
        }
      }
      if worker.invocation !in terminal {
        terminal := terminal[worker.invocation := Cached(Some(worker.semantics), worker.phase.final)];
      }
    }

    /** Invalidates the work and outcomes of the previous principal. */
    method ResetPrincipal()
      modifies this
      ensures Snapshot() == After(old(Snapshot()), Reset)
    {
      epoch := epoch + 1;
      terminal := map[];
      CancelWorkers();
    }

    method CancelWorkers()
      modifies this`workers
      ensures workers == map w | w in old(workers) :: old(workers)[w].(cancelled := true)
    {
      var rest := workers.Keys;
      while rest != {}
        invariant rest <= old(workers).Keys == workers.Keys
        invariant forall w | w in rest :: workers[w] == old(workers)[w]
        invariant forall w | w in workers && w !in rest :: workers[w] == old(workers)[w].(cancelled := true)
        decreases |rest|
      {
        var w :| w in rest;
        workers := workers[w := workers[w].(cancelled := true)];
        rest := rest - {w};
      }
    }

    method ReconcileInvocation(invocation: string, sem: Semantics) returns (status: Status)
      requires ledger.Valid()
      ensures status == Reconcile(Snapshot(), invocation, sem)
    {
      if invocation in invocations && invocations[invocation] in workers {
        return if workers[invocations[invocation]].semantics == sem then StatusRunning else StatusConflict;
      }
      if invocation in terminal {
        var cached := terminal[invocation];
        return if cached.semantics == Some(sem) then StatusTerminal(cached.outcome) else StatusConflict;
      }
      var durable := LedgerGet(invocation);
      if durable.None? {
        return NotFound;
      }
      if durable.value.semantics != sem {
        return StatusConflict;
      }
      if durable.value.state == Terminal && durable.value.outcome.Some? {
        return StatusTerminal(durable.value.outcome.value);
      }
      return StatusUnknown;
    }
  }
}

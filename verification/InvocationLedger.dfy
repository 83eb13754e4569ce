/**
 The durable ledger of remote invocations (cl/src/core/client_invocation_ledger.py): a table
 keyed by client, principal and invocation whose rows go PREPARED, RUNNING, TERMINAL.
 */
module InvocationLedger {
  import opened Common

  datatype LedgerKey = LedgerKey(client: string, principal: string, invocation: string)

  /** What an invocation id is bound to. */
  datatype Semantics = Semantics(capability: string, version: string, fingerprint: string)

  datatype RowState = Prepared | Running | Terminal

  datatype OutcomeKind = ResultKind | ErrorKind | CancelledKind

  datatype Outcome = Outcome(kind: OutcomeKind, payload: string)

  datatype Row = Row(
    semantics: Semantics, idempotency: string, state: RowState, outcome: Option<Outcome>, expiresAt: int)

  type Rows = map<LedgerKey, Row>

  datatype LedgerError = InvalidIdentity | SemanticsConflict | TerminalConflict | UnknownInvocation

  predicate HasIdentity(k: LedgerKey) { k.client != "" && k.principal != "" && k.invocation != "" }

  function Prepare(rows: Rows, k: LedgerKey, sem: Semantics, idempotency: string,
                   expiresAt: int): Result<Rows, LedgerError> {
    if !HasIdentity(k) then Err(InvalidIdentity)
    else if k in rows then
      if rows[k].semantics == sem && rows[k].idempotency == idempotency then Ok(rows) else Err(SemanticsConflict)
    else Ok(rows[k := Row(sem, idempotency, Prepared, None, expiresAt)])
  }

  function MarkRunning(rows: Rows, k: LedgerKey): Result<Rows, LedgerError> {
    if k !in rows then Err(UnknownInvocation)
    else if rows[k].state == Terminal then Err(TerminalConflict)
    else Ok(rows[k := rows[k].(state := Running)])
  }

  function CommitTerminal(rows: Rows, k: LedgerKey, o: Outcome, expiresAt: int): Result<Rows, LedgerError> {
    if k !in rows then Err(UnknownInvocation)
    else if rows[k].state == Terminal then
      if rows[k].outcome == Some(o) then Ok(rows) else Err(TerminalConflict)
    else Ok(rows[k := rows[k].(state := Terminal, outcome := Some(o), expiresAt := expiresAt)])
  }

  predicate Purgeable(r: Row, now: int) { r.state == Terminal && r.expiresAt <= now }

  function PurgeExpired(rows: Rows, now: int): Rows {
    map k | k in rows && !Purgeable(rows[k], now) :: rows[k]
  }

  // ---- What every operation keeps ---------------------------------------------------

  function Rank(s: RowState): nat {
    match s
    case Prepared => 0
    case Running => 1
    case Terminal => 2
  }

  /** A row keeps its bound semantics, its state never goes back, and a committed outcome is final. */
  ghost predicate RowAdvances(a: Row, b: Row) {
    && b.semantics == a.semantics && b.idempotency == a.idempotency
    && Rank(b.state) >= Rank(a.state)
    && (a.state == Terminal ==> b == a)
  }

  ghost predicate Advances(a: Rows, b: Rows, k: LedgerKey) {
    k in a ==> k in b && RowAdvances(a[k], b[k])
  }

  /** An outcome is recorded exactly in terminal rows. */
  ghost predicate RowValid(r: Row) { r.outcome.Some? <==> r.state == Terminal }

  class ClientInvocationLedger {
    var rows: Rows
    const terminalTtl: int

    constructor (terminalTtl: int)
      requires terminalTtl > 0
      ensures Valid() && rows == map[] && this.terminalTtl == terminalTtl
    {
      this.terminalTtl := terminalTtl;
      rows := map[];
    }

    ghost predicate Valid()
      reads this
    {
      terminalTtl > 0 && forall k | k in rows :: HasIdentity(k) && RowValid(rows[k])
    }

    method PrepareRow(k: LedgerKey, sem: Semantics, idempotency: string, now: int) returns (r: Result<Row, LedgerError>)
      requires Valid()
      modifies this
      ensures Valid() && forall j :: Advances(old(rows), rows, j)
      ensures match Prepare(old(rows), k, sem, idempotency, now + terminalTtl)
              case Ok(rows') => rows == rows' && k in rows && r == Ok(rows[k])
              case Err(e) => rows == old(rows) && r == Err(e)
      ensures r.Ok? ==> r.value.semantics == sem && r.value.idempotency == idempotency
      ensures r.Ok? <==>
              && k.client != "" && k.principal != "" && k.invocation != ""
              && (k in old(rows) ==> old(rows)[k].semantics == sem && old(rows)[k].idempotency == idempotency)
      ensures r.Ok? && k !in old(rows) ==> r.value.state == Prepared && r.value.expiresAt == now + terminalTtl
    {
      if !HasIdentity(k) {
        return Err(InvalidIdentity);
      }
      if k in rows {
        var existing := rows[k];
        if existing.semantics != sem || existing.idempotency != idempotency {
          return Err(SemanticsConflict);
        }
        return Ok(existing);
      }
      rows := rows[k := Row(sem, idempotency, Prepared, None, now + terminalTtl)];
      r := Ok(rows[k]);
    }

    method MarkRowRunning(k: LedgerKey) returns (r: Result<Row, LedgerError>)
      requires Valid()
      modifies this
      ensures Valid() && forall j :: Advances(old(rows), rows, j)
      ensures match MarkRunning(old(rows), k)
              case Ok(rows') => rows == rows' && k in rows && r == Ok(rows[k]) && rows[k].state == Running
              case Err(e) => rows == old(rows) && r == Err(e)
      ensures r.Ok? <==> k in old(rows) && old(rows)[k].state != Terminal
    {
      if k !in rows {
        return Err(UnknownInvocation);
      }
      if rows[k].state == Terminal {
        return Err(TerminalConflict);
      }
      if rows[k].state == Prepared {
        rows := rows[k := rows[k].(state := Running)];
      }
      assert rows == old(rows)[k := old(rows)[k].(state := Running)];
      r := Ok(rows[k]);
    }

    method CommitRow(k: LedgerKey, o: Outcome, now: int) returns (r: Result<Row, LedgerError>)
      requires Valid()
      modifies this
      ensures Valid() && forall j :: Advances(old(rows), rows, j)
      ensures match CommitTerminal(old(rows), k, o, now + terminalTtl)
              case Ok(rows') => rows == rows' && k in rows && r == Ok(rows[k]) && rows[k].outcome == Some(o)
              case Err(e) => rows == old(rows) && r == Err(e)
      ensures r.Ok? <==> k in old(rows) && (old(rows)[k].state == Terminal ==> old(rows)[k].outcome == Some(o))
      ensures r.Ok? && old(rows)[k].state != Terminal ==> r.value.expiresAt == now + terminalTtl
    {
      if k !in rows {
        return Err(UnknownInvocation);
      }
      var existing := rows[k];
      if existing.state == Terminal {
        if existing.outcome != Some(o) {
          return Err(TerminalConflict);
        }
        return Ok(existing);
      }
      rows := rows[k := existing.(state := Terminal, outcome := Some(o), expiresAt := now + terminalTtl)];
      r := Ok(rows[k]);
    }

    method Get(k: LedgerKey) returns (r: Option<Row>)
      requires Valid()
      ensures r == if k in rows then Some(rows[k]) else None
    {
      if !HasIdentity(k) {
        return None;
      }
      r := if k in rows then Some(rows[k]) else None;
    }

    /** Only terminal rows are ever deleted: running crash evidence is kept. */
    method Purge(now: int) returns (count: nat)
      requires Valid()
      modifies this
      ensures Valid() && rows == PurgeExpired(old(rows), now)
      ensures count == |old(rows)| - |rows|
      ensures forall k :: k in rows <==>
                k in old(rows) && (old(rows)[k].state != Terminal || now < old(rows)[k].expiresAt)
      ensures forall k | k in rows :: rows[k] == old(rows)[k]
    {
      var kept: Rows := map[];
      count := 0;
      var rest := rows.Keys;
      while rest != {}
        invariant rest <= rows.Keys
        invariant kept == map k | k in rows && k !in rest && !Purgeable(rows[k], now) :: rows[k]
        invariant count + |kept| + |rest| == |rows|
        decreases |rest|
      {
        var k :| k in rest;
        if Purgeable(rows[k], now) {
          count := count + 1;
        } else {
          kept := kept[k := rows[k]];
        }
        rest := rest - {k};
      }
      rows := kept;
    }
  }
}

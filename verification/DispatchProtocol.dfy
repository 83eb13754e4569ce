/**
 Remote invocations on the client (cl/src/core/capability_dispatcher.py and
 cl/src/core/local_capability_executor.py) as a machine over lock-held sections and worker
 progress. The ledger survives a crash; workers, tables and the terminal cache do not.
 */
module DispatchProtocol {
  import opened Common
  import opened InvocationLedger

  /** How far a worker has come: it checks, marks the ledger, calls the target, finishes, records. */
  datatype Phase = Queued | Checking | Marked | Called | Finished(outcome: Outcome) | Recording(final: Outcome)

  datatype Worker = Worker(
    invocation: string,
    semantics: Semantics,
    key: Option<LedgerKey>,
    replay: bool,
    epoch: nat,
    cancelled: bool,
    phase: Phase)

  /** A cached terminal; frames refused before their semantics were known carry none. */
  datatype Cached = Cached(semantics: Option<Semantics>, outcome: Outcome)

  datatype Identity = Identity(client: string, principal: string)

  /** `calls` is history: the ledgered target calls made so far. */
  datatype State = State(
    rows: Rows,
    workers: map<nat, Worker>,
    invocations: map<string, nat>,
    cache: map<string, Cached>,
    epoch: nat,
    capacity: nat,
    identity: Option<Identity>,
    nextWorker: nat,
    calls: multiset<LedgerKey>)

  datatype Request = Request(invocation: string, semantics: Semantics, idempotency: string)

  datatype Response = Silent | ConflictReply | Emit(outcome: Outcome) | Accepted | Raised

  datatype Step =
    | Dispatch(request: Request, expiresAt: int)
    | PrepareRaises(request: Request)
    | Refuse(invocation: string, error: Outcome)
    | Cancel(invocation: string)
    | CancelQueued(worker: nat)
    | Begin(worker: nat)
    | FailBefore(worker: nat, outcome: Outcome)
    | Mark(worker: nat, failure: Outcome)
    | Call(worker: nat)
    | Return(worker: nat, outcome: Outcome)
    | Pop(worker: nat)
    | Record(worker: nat, encodes: bool, expiresAt: int)
    | Evict(invocations: set<string>)
    | Reset
    | SetIdentity(identity: Option<Identity>)
    | Purge(now: int)
    | Crash(capacity: nat)

  const Busy := Outcome(ErrorKind, "CLIENT_BUSY")

  const CancelledOutcome := Outcome(CancelledKind, "")

  predicate ReplaySafe(idempotency: string) { idempotency in {"IDEMPOTENT", "DEDUPLICATED"} }

  /** The ledger key of an invocation under the bound identity. */
  function KeyOf(s: State, invocation: string): Option<LedgerKey> {
    if s.identity.Some? && s.identity.value.client != "" && s.identity.value.principal != ""
    then Some(LedgerKey(s.identity.value.client, s.identity.value.principal, invocation))
    else None
  }

  function Durable(s: State, invocation: string): Option<Row> {
    var k := KeyOf(s, invocation);
    if k.Some? && k.value in s.rows then Some(s.rows[k.value]) else None
  }

  function CacheOutcome(s: State, invocation: string, c: Cached): State {
    s.(cache := s.cache[invocation := c])
  }

  function Spawn(s: State, rq: Request, key: Option<LedgerKey>, replay: bool, rows: Rows): State {
    s.(rows := rows,
       workers := s.workers[s.nextWorker := Worker(rq.invocation, rq.semantics, key, replay, s.epoch, false, Queued)],
       invocations := s.invocations[rq.invocation := s.nextWorker],
       capacity := if s.capacity > 0 then s.capacity - 1 else 0,
       nextWorker := s.nextWorker + 1)
  }

  /** A slot is taken: the row is prepared and looked at once more before a worker starts. */
  function Admit(s: State, rq: Request, expiresAt: int): (State, Response) {
    var key := KeyOf(s, rq.invocation);
    if key.None? then (Spawn(s, rq, None, false, s.rows), Accepted)
    else match Prepare(s.rows, key.value, rq.semantics, rq.idempotency, expiresAt)
      case Err(_) => (s, ConflictReply)
      case Ok(rows) =>
        var row := rows[key.value];
        var prepared := s.(rows := rows);
        if row.state == Terminal then Answer(prepared, rq.invocation, row)
        else if row.state == Running && !ReplaySafe(rq.idempotency) then (prepared, Silent)
        else (Spawn(s, rq, key, row.state == Running, rows), Accepted)
  }

  /** A terminal row is the answer, and is cached. */
  function Answer(s: State, invocation: string, row: Row): (State, Response) {
    match row.outcome
    case None => (s, ConflictReply)
    case Some(o) => (CacheOutcome(s, invocation, Cached(Some(row.semantics), o)), Emit(o))
  }

  /** The checks made before a slot is taken; None when the invocation goes on to take one. */
  function Screened(s: State, rq: Request): Option<(State, Response)> {
    if rq.invocation == "" then Some((s, Silent))
    else if rq.invocation in s.invocations && s.invocations[rq.invocation] in s.workers then
      var same := s.workers[s.invocations[rq.invocation]].semantics == rq.semantics;
      Some((s, if same then Silent else ConflictReply))
    else if rq.invocation in s.cache then
      var c := s.cache[rq.invocation];
      Some((s, if c.semantics == Some(rq.semantics) then Emit(c.outcome) else ConflictReply))
    else
      var durable := Durable(s, rq.invocation);
      if durable.Some? && (durable.value.semantics != rq.semantics || durable.value.idempotency != rq.idempotency) then
        Some((s, ConflictReply))
      else if durable.Some? && durable.value.state == Terminal then Some(Answer(s, rq.invocation, durable.value))
      else if durable.Some? && durable.value.state == Running && !ReplaySafe(rq.idempotency) then Some((s, Silent))
      else if s.capacity == 0 then
        Some((CacheOutcome(s, rq.invocation, Cached(Some(rq.semantics), Busy)), Emit(Busy)))
      else None
  }

  function DispatchRequest(s: State, rq: Request, expiresAt: int): (State, Response) {
    match Screened(s, rq)
    case Some(answer) => answer
    case None => Admit(s, rq, expiresAt)
  }

  /** The dispatch takes a slot and then, having an identity, asks the ledger to prepare a row. */
  predicate ReachesPrepare(s: State, rq: Request) { Screened(s, rq).None? && KeyOf(s, rq.invocation).Some? }

  /**
   Exactly when a dispatch reaches the ledger: it has an id, an identity and a free slot, is neither in
   progress nor answered, and its row, if there is one, is the same request, prepared or safe to run again.
   */
  lemma ReachesPrepareExactly(s: State, rq: Request)
    ensures ReachesPrepare(s, rq) <==>
              var durable := Durable(s, rq.invocation);
              && rq.invocation != "" && KeyOf(s, rq.invocation).Some? && s.capacity > 0
              && !(rq.invocation in s.invocations && s.invocations[rq.invocation] in s.workers)
              && rq.invocation !in s.cache
              && (durable.Some? ==>
                    && durable.value.semantics == rq.semantics && durable.value.idempotency == rq.idempotency
                    && durable.value.state != Terminal
                    && (durable.value.state == Running ==> ReplaySafe(rq.idempotency)))
  {
    var durable := Durable(s, rq.invocation);
    if durable.Some? {
      match durable.value.state
      case Prepared =>
      case Running =>
      case Terminal =>
    }
  }

  function SetWorker(s: State, w: nat, worker: Worker): State {
    s.(workers := s.workers[w := worker])
  }

  predicate InPhase(s: State, w: nat, phase: Phase) { w in s.workers && s.workers[w].phase == phase }

  /** The last step before the target: write RUNNING, unless replaying or not ledgered. */
  function MarkWorker(s: State, w: nat, failure: Outcome): State
    requires w in s.workers
  {
    var worker := s.workers[w];
    if worker.key.None? || worker.replay then SetWorker(s, w, worker.(phase := Marked))
    else match MarkRunning(s.rows, worker.key.value)
      case Err(_) => SetWorker(s, w, worker.(phase := Finished(failure)))
      case Ok(rows) => SetWorker(s.(rows := rows), w, worker.(phase := Marked))
  }

  function CallTarget(s: State, w: nat): State
    requires w in s.workers
  {
    var worker := s.workers[w];
    SetWorker(s, w, worker.(phase := Called))
      .(calls := if worker.key.Some? then s.calls + multiset{worker.key.value} else s.calls)
  }

  /** The completion callback takes the worker out of the table; an old epoch is dropped. */
  function PopWorker(s: State, w: nat): State
    requires w in s.workers && s.workers[w].phase.Finished?
  {
    var worker := s.workers[w];
    var popped := s.(invocations := s.invocations - {worker.invocation}, capacity := s.capacity + 1);
    if worker.epoch != s.epoch then popped.(workers := s.workers - {w})
    else SetWorker(popped, w, worker.(phase := Recording(worker.phase.outcome)))
  }

  function CacheIfAbsent(s: State, invocation: string, c: Cached): State {
    if invocation in s.cache then s else CacheOutcome(s, invocation, c)
  }

  /** Commits the outcome and caches it, unless the principal was reset or the commit fails. */
  function RecordWorker(s: State, w: nat, encodes: bool, expiresAt: int): State
    requires w in s.workers && s.workers[w].phase.Recording?
  {
    var worker := s.workers[w];
    var gone := s.(workers := s.workers - {w});
    var cached := Cached(Some(worker.semantics), worker.phase.final);
    if worker.epoch != s.epoch then gone
    else if worker.key.None? then CacheIfAbsent(gone, worker.invocation, cached)
    else if !encodes then gone
    else match CommitTerminal(s.rows, worker.key.value, worker.phase.final, expiresAt)
      case Err(_) => gone
      case Ok(rows) => CacheIfAbsent(gone.(rows := rows), worker.invocation, cached)
  }

  function CancelAll(s: State): map<nat, Worker> {
    map w | w in s.workers :: s.workers[w].(cancelled := true)
  }

  function After(s: State, st: Step): State {
    match st
    case Dispatch(rq, expiresAt) => DispatchRequest(s, rq, expiresAt).0
    case PrepareRaises(rq) => if ReachesPrepare(s, rq) then s.(capacity := s.capacity - 1) else s
    case Refuse(invocation, error) => CacheIfAbsent(s, invocation, Cached(None, error))
    case Cancel(invocation) =>
      if invocation in s.invocations && s.invocations[invocation] in s.workers then
        var w := s.invocations[invocation];
        SetWorker(s, w, s.workers[w].(cancelled := true))
      else s
    case CancelQueued(w) =>
      if InPhase(s, w, Queued) && s.workers[w].cancelled
      then SetWorker(s, w, s.workers[w].(phase := Finished(CancelledOutcome))) else s
    case Begin(w) => if InPhase(s, w, Queued) then SetWorker(s, w, s.workers[w].(phase := Checking)) else s
    case FailBefore(w, o) => if InPhase(s, w, Checking) then SetWorker(s, w, s.workers[w].(phase := Finished(o))) else s
    case Mark(w, failure) => if InPhase(s, w, Checking) then MarkWorker(s, w, failure) else s
    case Call(w) => if InPhase(s, w, Marked) then CallTarget(s, w) else s
    case Return(w, o) => if InPhase(s, w, Called) then SetWorker(s, w, s.workers[w].(phase := Finished(o))) else s
    case Pop(w) => if w in s.workers && s.workers[w].phase.Finished? then PopWorker(s, w) else s
    case Record(w, encodes, expiresAt) =>
      if w in s.workers && s.workers[w].phase.Recording? then RecordWorker(s, w, encodes, expiresAt) else s
    case Evict(ids) => s.(cache := s.cache - ids)
    case Reset => s.(epoch := s.epoch + 1, cache := map[], workers := CancelAll(s))
    case SetIdentity(identity) => s.(identity := identity)
    case Purge(now) => s.(rows := PurgeExpired(s.rows, now))
    case Crash(capacity) =>
      s.(workers := map[], invocations := map[], cache := map[], epoch := 0, capacity := capacity, identity := None)
  }

  function Run(s: State, steps: seq<Step>): State
    decreases |steps|
  {
    if steps == [] then s else Run(After(s, steps[0]), steps[1..])
  }

  datatype Status = StatusRunning | StatusTerminal(outcome: Outcome) | StatusConflict | StatusUnknown | NotFound

  /** What the client answers when the server asks about an invocation. */
  function Reconcile(s: State, invocation: string, sem: Semantics): Status {
    if invocation in s.invocations && s.invocations[invocation] in s.workers then
      if s.workers[s.invocations[invocation]].semantics == sem then StatusRunning else StatusConflict
    else if invocation in s.cache then
      if s.cache[invocation].semantics == Some(sem) then StatusTerminal(s.cache[invocation].outcome) else StatusConflict
    else
      match Durable(s, invocation)
      case None => NotFound
      case Some(row) =>
        if row.semantics != sem then StatusConflict
        else if row.state == Terminal && row.outcome.Some? then StatusTerminal(row.outcome.value)
        else StatusUnknown
  }

  /** The step deletes the row of this key. */
  predicate PurgesKey(s: State, st: Step, k: LedgerKey) {
    st.Purge? && k in s.rows && Purgeable(s.rows[k], st.now)
  }

  /** The row of this key is not deleted along the run. */
  predicate Unpurged(s: State, steps: seq<Step>, k: LedgerKey)
    decreases |steps|
  {
    steps != [] ==> !PurgesKey(s, steps[0], k) && Unpurged(After(s, steps[0]), steps[1..], k)
  }

  // ---- The ledger over runs ---------------------------------------------------------

  lemma DispatchAdvances(s: State, rq: Request, expiresAt: int, k: LedgerKey)
    ensures Advances(s.rows, DispatchRequest(s, rq, expiresAt).0.rows, k)
  {
  }

  lemma RecordAdvances(s: State, w: nat, encodes: bool, expiresAt: int, k: LedgerKey)
    requires w in s.workers && s.workers[w].phase.Recording?
    ensures Advances(s.rows, RecordWorker(s, w, encodes, expiresAt).rows, k)
  {
  }

  /** Every step advances an unpurged row: bound semantics, state order and outcome are kept. */
  lemma StepAdvances(s: State, st: Step, k: LedgerKey)
    requires !PurgesKey(s, st, k)
    ensures Advances(s.rows, After(s, st).rows, k)
  {
    hide DispatchRequest, RecordWorker;
    match st {
      case Dispatch(rq, expiresAt) => DispatchAdvances(s, rq, expiresAt, k);
      case Record(w, encodes, expiresAt) =>
        if w in s.workers && s.workers[w].phase.Recording? { RecordAdvances(s, w, encodes, expiresAt, k); }
      case _ =>
    }
  }

  lemma {:induction false} RunAdvances(s: State, steps: seq<Step>, k: LedgerKey)
    requires Unpurged(s, steps, k)
    ensures Advances(s.rows, Run(s, steps).rows, k)
    decreases |steps|
  {
    hide After;
    if steps != [] {
      StepAdvances(s, steps[0], k);
      RunAdvances(After(s, steps[0]), steps[1..], k);
    }
  }
}

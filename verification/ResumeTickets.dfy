/**
 The resume-ticket state machine of the client (cl/src/core/client_runtime.py and
 cl/src/core/resume_ticket.py) as a function from state and step to state. Each step is one
 section the source runs under its lock; the clock and the server's replies are inputs.
 */
module ResumeTickets {
  import opened Common

  /** Tickets are kept under (execution id, checkpoint id). */
  datatype Key = Key(execution: string, checkpoint: string)

  datatype Ticket = Ticket(
    key: Key,
    revision: nat,
    waitReason: string,
    capabilities: seq<string>,
    originClient: Option<string>,
    expiresAt: Option<int>,
    autoResumeAllowed: bool)

  datatype TicketState =
    | Observed | Blocked | Eligible | InFlight | RetrySameRequest | WaitRefresh
    | Accepted | Rejected | Failed | Expired | Superseded | Conflict

  predicate Terminal(s: TicketState) {
    s in {Accepted, Rejected, Failed, Expired, Superseded, Conflict}
  }

  datatype Entry = Entry(
    ticket: Ticket,
    principal: Option<string>,
    state: TicketState,
    request: Option<nat>,
    freshness: nat)

  /** `ready` is the readiness flag, `phaseReady` whether the lifecycle state is READY. */
  datatype State = State(
    tickets: map<Key, Entry>,
    watermarks: map<string, int>,
    conflicts: map<string, int>,
    lastKey: Option<Key>,
    ready: bool,
    phaseReady: bool,
    confirmed: set<string>,
    owner: Option<string>,
    client: string,
    nextRequest: nat)

  datatype Kind = AcceptedKind | FailedKind | RejectedKind

  datatype Outcome = Outcome(
    kind: Kind,
    key: Key,
    request: nat,
    code: string,
    retryable: bool,
    hasClaim: bool,
    revision: Option<int>)

  datatype Attempt = Attempt(ticket: Ticket, request: nat)

  datatype Step =
    | Ingest(ticket: Ticket, now: int)
    | Worker(now: int, later: int)
    | Manual(key: Key, now: int, later: int)
    | SendFailed(key: Key, request: nat)
    | Malformed(key: Key, request: nat)
    | Reply(key: Key, request: nat, outcome: Outcome, now: int)
    | Disconnect
    | Connect(capabilities: set<string>)
    | Stop
    | SetPhase(readyPhase: bool)
    | SetOwner(principal: Option<string>)
    | Drain

  // ---- Key order --------------------------------------------------------------------

  predicate StringLess(a: string, b: string) {
    b != "" && (a == "" || a[0] < b[0] || (a[0] == b[0] && StringLess(a[1..], b[1..])))
  }

  predicate KeyLess(a: Key, b: Key) {
    StringLess(a.execution, b.execution) || (a.execution == b.execution && StringLess(a.checkpoint, b.checkpoint))
  }

  lemma {:induction false} StringOrder(a: string, b: string, c: string)
    ensures !StringLess(a, a)
    ensures a == b || StringLess(a, b) || StringLess(b, a)
    ensures StringLess(a, b) && StringLess(b, c) ==> StringLess(a, c)
  {
    if a != "" && b != "" && c != "" {
      StringOrder(a[1..], b[1..], c[1..]);
      assert a == [a[0]] + a[1..] && b == [b[0]] + b[1..];
    } else if a != "" && b != "" {
      StringOrder(a[1..], b[1..], "");
      assert a == [a[0]] + a[1..] && b == [b[0]] + b[1..];
    } else if a != "" {
      StringOrder(a[1..], a[1..], a[1..]);
    }
  }

  lemma KeyOrder(a: Key, b: Key, c: Key)
    ensures !KeyLess(a, a)
    ensures a == b || KeyLess(a, b) || KeyLess(b, a)
    ensures KeyLess(a, b) && KeyLess(b, c) ==> KeyLess(a, c)
  {
    hide StringLess;
    StringOrder(a.execution, b.execution, c.execution);
    StringOrder(a.checkpoint, b.checkpoint, c.checkpoint);
    StringOrder(c.execution, a.execution, b.execution);
  }

  predicate IsLeast(k: Key, keys: set<Key>) {
    k in keys && forall x | x in keys && x != k :: KeyLess(k, x)
  }

  lemma {:induction false} LeastExists(keys: set<Key>)
    requires keys != {}
    ensures exists k :: IsLeast(k, keys)
    decreases |keys|
  {
    hide KeyLess;
    var x :| x in keys;
    if keys == {x} {
      assert IsLeast(x, keys);
    } else {
      var rest := keys - {x};
      assert keys == rest + {x};
      LeastExists(rest);
      var m :| IsLeast(m, rest);
      KeyOrder(x, m, m);
      var least := if KeyLess(x, m) then x else m;
      forall y | y in keys && y != least
        ensures KeyLess(least, y)
      {
        KeyOrder(x, m, y);
      }
      assert IsLeast(least, keys);
    }
  }

  lemma LeastUnique(a: Key, b: Key, keys: set<Key>)
    requires IsLeast(a, keys) && IsLeast(b, keys)
    ensures a == b
  {
    hide KeyLess;
    KeyOrder(a, b, a);
  }

  /** The first key in sorted order. */
  ghost function LeastOf(keys: set<Key>): (k: Key)
    requires keys != {}
    ensures IsLeast(k, keys)
  {
    LeastExists(keys);
    var k :| IsLeast(k, keys);
    k
  }

  // ---- Classification ---------------------------------------------------------------

  predicate HasExpired(t: Ticket, now: int) {
    t.expiresAt.Some? && t.expiresAt.value <= now
  }

  /** The ticket is at its execution's watermark and belongs to this client and principal. */
  predicate Authorized(s: State, e: Entry) {
    && e.ticket.key.execution in s.watermarks
    && e.ticket.revision == s.watermarks[e.ticket.key.execution]
    && e.principal == s.owner
    && e.ticket.originClient == Some(s.client)
    && e.ticket.waitReason == "CONNECTION"
    && e.ticket.autoResumeAllowed
    && e.ticket.capabilities != []
  }

  predicate CapabilitiesReady(s: State, e: Entry) {
    s.ready && s.phaseReady && forall c | c in e.ticket.capabilities :: c in s.confirmed
  }

  function Classify(s: State, e: Entry, now: int): Entry {
    if Terminal(e.state) then e
    else if HasExpired(e.ticket, now) && e.request.None? then e.(state := Expired)
    else if !Authorized(s, e) then e.(state := Blocked)
    else if !CapabilitiesReady(s, e) then e.(state := Blocked)
    else if e.state in {InFlight, RetrySameRequest, WaitRefresh} then e
    else e.(state := Eligible)
  }

  predicate Claimable(e: Entry) { e.state in {Eligible, RetrySameRequest} }

  // ---- Ingest -----------------------------------------------------------------------

  function SupersededBy(e: Entry, execution: string, revision: int): Entry {
    if e.ticket.key.execution == execution && e.ticket.revision < revision && !Terminal(e.state)
    then e.(state := Superseded) else e
  }

  function AdvanceWatermark(s: State, execution: string, revision: int): State {
    if execution in s.watermarks && revision <= s.watermarks[execution] then s
    else
      s.(watermarks := s.watermarks[execution := revision],
         conflicts := if execution in s.conflicts && revision > s.conflicts[execution]
                      then s.conflicts - {execution} else s.conflicts,
         tickets := map k | k in s.tickets :: SupersededBy(s.tickets[k], execution, revision))
  }

  /** A live ticket of the same execution and revision for another checkpoint. */
  predicate Rival(e: Entry, t: Ticket) {
    && e.ticket.key.execution == t.key.execution && e.ticket.revision == t.revision
    && e.ticket.key.checkpoint != t.key.checkpoint && !Terminal(e.state)
  }

  predicate StaleTicket(s: State, t: Ticket) {
    || (t.key.execution in s.watermarks && t.revision < s.watermarks[t.key.execution])
    || (t.key.execution in s.conflicts && t.revision <= s.conflicts[t.key.execution])
  }

  function Marked(e: Entry, t: Ticket): Entry {
    if Rival(e, t) then e.(state := Conflict) else e
  }

  function MarkRivals(s: State, t: Ticket): State {
    s.(tickets := map k | k in s.tickets :: Marked(s.tickets[k], t),
       conflicts := s.conflicts[t.key.execution := t.revision])
  }

  function Readmit(s: State, t: Ticket, now: int): State
    requires t.key in s.tickets
  {
    var e := s.tickets[t.key];
    if e.ticket != t then s.(tickets := s.tickets[t.key := e.(state := Conflict)])
    else
      var refreshed := e.(freshness := e.freshness + 1, state := if e.state == WaitRefresh then Observed else e.state);
      s.(tickets := s.tickets[t.key := Classify(s, refreshed, now)])
  }

  function Admit(s: State, t: Ticket, now: int): State {
    s.(tickets := s.tickets[t.key := Classify(s, Entry(t, s.owner, Observed, None, 0), now)])
  }

  function IngestTicket(s: State, t: Ticket, now: int): State {
    if StaleTicket(s, t) then s
    else if exists k | k in s.tickets :: Rival(s.tickets[k], t) then MarkRivals(s, t)
    else
      var advanced := AdvanceWatermark(s, t.key.execution, t.revision);
      if t.key in advanced.tickets then Readmit(advanced, t, now) else Admit(advanced, t, now)
  }

  // ---- Claims -----------------------------------------------------------------------

  function ClassifyAll(s: State, now: int): State {
    s.(tickets := map k | k in s.tickets :: Classify(s, s.tickets[k], now))
  }

  function EligibleKeys(s: State): set<Key> {
    set k | k in s.tickets && Claimable(s.tickets[k])
  }

  /** Round robin: the first eligible key after the last one claimed, wrapping around. */
  ghost function NextKey(s: State): Option<Key> {
    var eligible := EligibleKeys(s);
    var after := set k | k in eligible && s.lastKey.Some? && KeyLess(s.lastKey.value, k);
    if eligible == {} then None
    else if after != {} then Some(LeastOf(after))
    else Some(LeastOf(eligible))
  }

  function RequestOf(s: State, e: Entry): nat {
    if e.request.Some? then e.request.value else s.nextRequest
  }

  function Claim(s: State, key: Key, now: int): (State, Option<Attempt>) {
    if key !in s.tickets then (s, None)
    else
      var e := Classify(s, s.tickets[key], now);
      if !Claimable(e) then (s.(tickets := s.tickets[key := e]), None)
      else
        var id := RequestOf(s, e);
        (s.(tickets := s.tickets[key := e.(state := InFlight, request := Some(id))],
            lastKey := Some(key),
            nextRequest := if e.request.Some? then s.nextRequest else s.nextRequest + 1),
         Some(Attempt(e.ticket, id)))
  }

  ghost function WorkerClaim(s: State, now: int, later: int): (State, Option<Attempt>) {
    if !s.ready || !s.phaseReady then (s, None)
    else
      var classified := ClassifyAll(s, now);
      match NextKey(classified)
      case None => (classified, None)
      case Some(k) => Claim(classified, k, later)
  }

  /** A manual trigger may also retry a ticket that waits for a refresh. */
  function ManualClaim(s: State, key: Key, now: int, later: int): (State, Option<Attempt>) {
    if !s.ready || key !in s.tickets || Terminal(s.tickets[key].state) then (s, None)
    else
      var e := Classify(s, s.tickets[key], now);
      var e' := if e.state == WaitRefresh then e.(state := Eligible) else e;
      Claim(s.(tickets := s.tickets[key := e']), key, later)
  }

  // ---- Outcomes ---------------------------------------------------------------------

  predicate Correlates(o: Outcome, e: Entry) {
    o.key == e.ticket.key && e.request == Some(o.request)
  }

  /** The same consumed claim is still settling: the request id must be kept. */
  predicate Settlement(o: Outcome) {
    o.kind == RejectedKind && o.code == "RESUME_CONFLICT" && o.retryable && o.hasClaim
  }

  function AuthorityFloor(t: Ticket, o: Outcome): int {
    if o.revision.Some? then Max(t.revision + 1, o.revision.value) else t.revision + 1
  }

  function RejectedEntry(s: State, e: Entry, o: Outcome, now: int): Entry {
    if Settlement(o) then e.(state := RetrySameRequest)
    else
      var cleared := e.(request := None);
      if o.code == "CLAIM_EXPIRED" then Classify(s, cleared.(state := Observed), now)
      else if o.retryable then cleared.(state := WaitRefresh)
      else cleared.(state := Rejected)
  }

  /** Applies a reply to the entry under `key`; terminal states are not guarded here. */
  function ApplyOutcome(s: State, key: Key, o: Outcome, now: int): State
    requires key in s.tickets
  {
    var e := s.tickets[key];
    if !Correlates(o, e) then s.(tickets := s.tickets[key := e.(state := Conflict)])
    else if o.kind == RejectedKind then s.(tickets := s.tickets[key := RejectedEntry(s, e, o, now)])
    else
      var advanced := AdvanceWatermark(s, e.ticket.key.execution, AuthorityFloor(e.ticket, o));
      if o.kind == AcceptedKind && o.revision.None? then
        advanced.(tickets := advanced.tickets[key := advanced.tickets[key].(state := Conflict)])
      else advanced.(tickets := advanced.tickets - {key})
  }

  /** A reply only reaches the entry while it still carries the request id of the attempt. */
  predicate Reaches(s: State, key: Key, request: nat) {
    key in s.tickets && s.tickets[key].request == Some(request)
  }

  function SetState(s: State, key: Key, state: TicketState): State
    requires key in s.tickets
  {
    s.(tickets := s.tickets[key := s.tickets[key].(state := state)])
  }

  function Moved(e: Entry, src: TicketState, dst: TicketState): Entry {
    if e.state == src then e.(state := dst) else e
  }

  function MoveAll(s: State, src: TicketState, dst: TicketState): State {
    s.(tickets := map k | k in s.tickets :: Moved(s.tickets[k], src, dst))
  }

  ghost function StepClaim(s: State, st: Step): (State, Option<Attempt>) {
    match st
    case Ingest(t, now) => (IngestTicket(s, t, now), None)
    case Worker(now, later) => WorkerClaim(s, now, later)
    case Manual(key, now, later) => ManualClaim(s, key, now, later)
    case SendFailed(key, request) =>
      var waiting := Reaches(s, key, request) && !Terminal(s.tickets[key].state);
      (if waiting then SetState(s, key, RetrySameRequest) else s, None)
    case Malformed(key, request) =>
      (if Reaches(s, key, request) then SetState(s, key, Conflict) else s, None)
    case Reply(key, request, o, now) =>
      (if Reaches(s, key, request) then ApplyOutcome(s, key, o, now) else s, None)
    case Disconnect =>
      (MoveAll(s, InFlight, RetrySameRequest).(ready := false, phaseReady := false, confirmed := {}), None)
    case Connect(capabilities) =>
      (if s.ready then s
       else MoveAll(s, WaitRefresh, Observed).(ready := true, phaseReady := true, confirmed := capabilities), None)
    case Stop => (s.(ready := false, phaseReady := false, confirmed := {}), None)
    case SetPhase(phase) => (s.(phaseReady := phase), None)
    case SetOwner(principal) => (s.(owner := principal), None)
    case Drain =>
      (s.(tickets := map[], watermarks := map[], conflicts := map[], confirmed := {}, lastKey := None,
          ready := false, phaseReady := false), None)
  }

  ghost function After(s: State, st: Step): State { StepClaim(s, st).0 }

  ghost function Claimed(s: State, st: Step): Option<Attempt> { StepClaim(s, st).1 }

  ghost function Run(s: State, steps: seq<Step>): State
    decreases |steps|
  {
    if steps == [] then s else Run(After(s, steps[0]), steps[1..])
  }

  /** One principal epoch: no drain. */
  predicate OneEpoch(steps: seq<Step>) {
    forall i | 0 <= i < |steps| :: steps[i] != Drain
  }
}

/**
 The client runtime's mutable resume state (cl/src/core/client_runtime.py): each method is one
 section under the runtime's lock, and carries out the corresponding step of the machine.
 */
module ResumeRuntime {
  import opened Common
  import opened ResumeTickets

  /** The table with `f` applied to the entries outside `rest`: a walk over the table half way. */
  ghost function Partly(m: map<Key, Entry>, f: Entry -> Entry, rest: set<Key>): map<Key, Entry> {
    map k | k in m :: if k in rest then m[k] else f(m[k])
  }

  lemma PartlyStep(m: map<Key, Entry>, f: Entry -> Entry, rest: set<Key>, key: Key)
    requires key in rest && rest <= m.Keys
    ensures key in Partly(m, f, rest) && Partly(m, f, rest)[key] == m[key]
    ensures Partly(m, f, rest - {key}) == Partly(m, f, rest)[key := f(m[key])]
    ensures f(m[key]) == m[key] ==> Partly(m, f, rest - {key}) == Partly(m, f, rest)
  {
  }

  lemma PartlyEnds(m: map<Key, Entry>, f: Entry -> Entry)
    ensures Partly(m, f, m.Keys) == m
    ensures Partly(m, f, {}) == map k | k in m :: f(m[k])
  {
  }

  class ClientRuntime {
    var tickets: map<Key, Entry>
    var watermarks: map<string, int>
    var conflicts: map<string, int>
    var lastKey: Option<Key>
    var ready: bool
    var phaseReady: bool
    var confirmed: set<string>
    var owner: Option<string>
    var nextRequest: nat
    const client: string

    constructor (client: string, owner: Option<string>)
      ensures Snapshot() == State(map[], map[], map[], None, false, false, {}, owner, client, 0)
    {
      this.client, this.owner := client, owner;
      tickets, watermarks, conflicts, lastKey := map[], map[], map[], None;
      ready, phaseReady, confirmed, nextRequest := false, false, {}, 0;
    }

    function Snapshot(): State
      reads this
    {
      State(tickets, watermarks, conflicts, lastKey, ready, phaseReady, confirmed, owner, client, nextRequest)
    }

    method AdvanceResumeWatermark(execution: string, revision: int)
      modifies this
      ensures Snapshot() == AdvanceWatermark(old(Snapshot()), execution, revision)
    {
      if execution in watermarks && revision <= watermarks[execution] {
        return;
      }
      watermarks := watermarks[execution := revision];
      if execution in conflicts && revision > conflicts[execution] {
        conflicts := conflicts - {execution};
      }
      SupersedeOlder(execution, revision);
    }

    /** Marks the live older tickets of the execution. */
    method SupersedeOlder(execution: string, revision: int)
      modifies this`tickets
      ensures tickets == map k | k in old(tickets) :: SupersededBy(old(tickets)[k], execution, revision)
    {
      hide Partly;
      ghost var f := (e: Entry) => SupersededBy(e, execution, revision);
      PartlyEnds(tickets, f);
      var rest := tickets.Keys;
      while rest != {}
        invariant rest <= old(tickets).Keys && tickets == Partly(old(tickets), f, rest)
        decreases |rest|
      {
        var key :| key in rest;
        PartlyStep(old(tickets), f, rest, key);
        var entry := tickets[key];
        if entry.ticket.key.execution == execution && entry.ticket.revision < revision && !Terminal(entry.state) {
          tickets := tickets[key := entry.(state := Superseded)];
        }
        rest := rest - {key};
      }
    }

    method ClassifyResumeEntry(key: Key, now: int)
      requires key in tickets
      modifies this`tickets
      ensures tickets == old(tickets)[key := Classify(old(Snapshot()), old(tickets)[key], now)]
    {
      var entry := tickets[key];
      var ticket := entry.ticket;
      if Terminal(entry.state) {
        assert tickets == tickets[key := entry];
        return;
      }
      if HasExpired(ticket, now) && entry.request.None? {
        tickets := tickets[key := entry.(state := Expired)];
        return;
      }
      if !Authorized(Snapshot(), entry) || !CapabilitiesReady(Snapshot(), entry) {
        tickets := tickets[key := entry.(state := Blocked)];
        return;
      }
      if entry.state == InFlight || entry.state == RetrySameRequest || entry.state == WaitRefresh {
        assert tickets == tickets[key := entry];
        return;
      }
      tickets := tickets[key := entry.(state := Eligible)];
    }

    /** The live tickets of the same execution and revision for other checkpoints. */
    method SameRevision(ticket: Ticket) returns (rivals: set<Key>)
      ensures rivals == set k | k in tickets && Rival(tickets[k], ticket)
    {
      rivals := {};
      var rest := tickets.Keys;
      while rest != {}
        invariant rest <= tickets.Keys
        invariant rivals == set k | k in tickets && k !in rest && Rival(tickets[k], ticket)
        decreases |rest|
      {
        var key :| key in rest;
        if Rival(tickets[key], ticket) {
          rivals := rivals + {key};
        }
        rest := rest - {key};
      }
    }

    method MarkConflict(ticket: Ticket, rivals: set<Key>)
      requires rivals == set k | k in tickets && Rival(tickets[k], ticket)
      modifies this
      ensures Snapshot() == MarkRivals(old(Snapshot()), ticket)
    {
      hide Partly, Rival, MarkRivals;
      ghost var s := Snapshot();
      ghost var f := (e: Entry) => Marked(e, ticket);
      OnlyRivalsMove(tickets, f, rivals, ticket);
      RivalsMarked(s, f, ticket);
      var rest := rivals;
      while rest != {}
        invariant rest <= rivals && tickets == Partly(old(tickets), f, rest)
        invariant Snapshot() == old(Snapshot()).(tickets := tickets)
        decreases |rest|
      {
        var key :| key in rest;
        PartlyStep(old(tickets), f, rest, key);
        tickets := tickets[key := tickets[key].(state := Conflict)];
        rest := rest - {key};
      }
      conflicts := conflicts[ticket.key.execution := ticket.revision];
    }

    method IngestWaiting(ticket: Ticket, now: int)
      modifies this
      ensures Snapshot() == IngestTicket(old(Snapshot()), ticket, now)
    {
      hide Rival, AdvanceWatermark, MarkRivals, Readmit, Admit;
      var execution := ticket.key.execution;
      if execution in watermarks && ticket.revision < watermarks[execution] {
        return;
      }
      if execution in conflicts && ticket.revision <= conflicts[execution] {
        return;
      }
      var rivals := SameRevision(ticket);
      if rivals != {} {
        MarkConflict(ticket, rivals);
        return;
      }
      assert forall k | k in tickets :: k !in rivals;
      AdvanceResumeWatermark(execution, ticket.revision);
      AdmitOrRefresh(ticket, now);
    }

    /** Stores a new ticket, or refreshes the entry that is already there. */
    method AdmitOrRefresh(ticket: Ticket, now: int)
      modifies this`tickets
      ensures Snapshot()
              == if ticket.key in old(tickets) then Readmit(old(Snapshot()), ticket, now)
                 else Admit(old(Snapshot()), ticket, now)
    {
      hide Classify;
      if ticket.key in tickets {
        var existing := tickets[ticket.key];
        if existing.ticket != ticket {
          tickets := tickets[ticket.key := existing.(state := Conflict)];
          return;
        }
        existing := existing.(freshness := existing.freshness + 1);
        if existing.state == WaitRefresh {
          existing := existing.(state := Observed);
        }
        tickets := tickets[ticket.key := existing];
      } else {
        tickets := tickets[ticket.key := Entry(ticket, owner, Observed, None, 0)];
      }
      ClassifyStoredIn(ticket.key, now, old(Snapshot()));
      assert tickets == old(tickets)[ticket.key := tickets[ticket.key]];
    }

    /** The eligible keys in sorted order, after classifying every entry. */
    method EligibleInOrder(now: int) returns (eligible: seq<Key>)
      modifies this`tickets
      ensures Snapshot() == ClassifyAll(old(Snapshot()), now)
      ensures (set k | k in eligible) == EligibleKeys(Snapshot()) && Ascending(eligible)
    {
      hide Classify, KeyLess, Partly, Ascending, AllBelow, Chosen, ClassifyAll, EligibleKeys;
      ghost var s := Snapshot();
      ghost var f := (e: Entry) => Classify(s, e, now);
      PartlyEnds(tickets, f);
      eligible := [];
      var rest := tickets.Keys;
      NoneChosen(tickets, f);
      while rest != {}
        invariant rest <= old(tickets).Keys && tickets == Partly(old(tickets), f, rest)
        invariant (set k | k in eligible) == Chosen(old(tickets), f, rest)
        invariant Ascending(eligible) && AllBelow(eligible, rest)
        decreases |rest|
      {
        LeastExists(rest);
        var key :| IsLeast(key, rest);
        PartlyStep(old(tickets), f, rest, key);
        ChosenStep(old(tickets), f, rest, key);
        AscendingStep(eligible, rest, key);
        ClassifyStoredIn(key, now, s);
        if Claimable(tickets[key]) {
          assert (set k | k in eligible + [key]) == (set k | k in eligible) + {key};
          eligible := eligible + [key];
        }
        rest := rest - {key};
      }
      ClassifiedAll(s, f, now);
    }

    /** Classification looks at the table's watermarks and flags, not at its tickets. */
    method ClassifyStoredIn(key: Key, now: int, ghost s: State)
      requires key in tickets && s == Snapshot().(tickets := s.tickets)
      modifies this`tickets
      ensures tickets == old(tickets)[key := Classify(s, old(tickets)[key], now)]
    {
      ClassifyResumeEntry(key, now);
    }

    method NextResumeKey(now: int) returns (next: Option<Key>)
      modifies this`tickets
      ensures !(ready && phaseReady) ==> Snapshot() == old(Snapshot()) && next.None?
      ensures ready && phaseReady ==>
                Snapshot() == ClassifyAll(old(Snapshot()), now) && next == NextKey(Snapshot())
    {
      hide Classify, KeyLess, ClassifyAll, Ascending;
      if !ready || !phaseReady {
        return None;
      }
      var eligible := EligibleInOrder(now);
      ghost var keys := EligibleKeys(Snapshot());
      if eligible == [] {
        return None;
      }
      assert eligible[0] in keys;
      FirstIsLeast(eligible, keys);
      if lastKey.Some? {
        ghost var after := set k | k in keys && KeyLess(lastKey.value, k);
        assert after == set k | k in keys && lastKey.Some? && KeyLess(lastKey.value, k);
        for i := 0 to |eligible|
          invariant forall j | 0 <= j < i :: !KeyLess(lastKey.value, eligible[j])
        {
          if KeyLess(lastKey.value, eligible[i]) {
            FirstAfterIsLeast(eligible, keys, i, lastKey.value);
            return Some(eligible[i]);
          }
        }
        NoneAfter(eligible, keys, lastKey.value);
      }
      return Some(eligible[0]);
    }

    method ClaimResumeAttempt(key: Key, now: int) returns (attempt: Option<Attempt>)
      modifies this
      ensures (Snapshot(), attempt) == Claim(old(Snapshot()), key, now)
    {
      hide Classify;
      if key !in tickets {
        return None;
      }
      ClassifyResumeEntry(key, now);
      var entry := tickets[key];
      if !Claimable(entry) {
        return None;
      }
      var id;
      if entry.request.Some? {
        id := entry.request.value;
      } else {
        id := nextRequest;
        nextRequest := nextRequest + 1;
      }
      tickets := tickets[key := entry.(request := Some(id), state := InFlight)];
      assert tickets == old(tickets)[key := tickets[key]];
      lastKey := Some(key);
      attempt := Some(Attempt(entry.ticket, id));
    }

    /** One round of the worker: pick the next key and claim it. */
    method WorkerRound(now: int, later: int) returns (attempt: Option<Attempt>)
      modifies this
      ensures (Snapshot(), attempt) == WorkerClaim(old(Snapshot()), now, later)
    {
      hide Classify, ClassifyAll, NextKey, Claim;
      var key := NextResumeKey(now);
      if key.None? {
        return None;
      }
      attempt := ClaimResumeAttempt(key.value, later);
    }

    /** The manual trigger; None stands for the error it raises. */
    method ResumeExecution(key: Key, now: int, later: int) returns (attempt: Option<Attempt>)
      modifies this
      ensures (Snapshot(), attempt) == ManualClaim(old(Snapshot()), key, now, later)
    {
      hide Classify, Claim;
      if !ready {
        return None;
      }
      if key !in tickets || Terminal(tickets[key].state) {
        return None;
      }
      ClassifyResumeEntry(key, now);
      ghost var e := tickets[key];
      if tickets[key].state == WaitRefresh {
        tickets := tickets[key := tickets[key].(state := Eligible)];
      }
      assert tickets == old(tickets)[key := if e.state == WaitRefresh then e.(state := Eligible) else e];
      attempt := ClaimResumeAttempt(key, later);
    }

    method ApplyResumeOutcome(key: Key, outcome: Outcome, now: int)
      requires key in tickets
      modifies this
      ensures Snapshot() == ApplyOutcome(old(Snapshot()), key, outcome, now)
    {
      hide Classify, AdvanceWatermark;
      var entry := tickets[key];
      if !Correlates(outcome, entry) {
        tickets := tickets[key := entry.(state := Conflict)];
        return;
      }
      if outcome.kind == AcceptedKind || outcome.kind == FailedKind {
        AdvanceResumeWatermark(entry.ticket.key.execution, AuthorityFloor(entry.ticket, outcome));
        AdvanceKeepsKeys(old(Snapshot()), entry.ticket.key.execution, AuthorityFloor(entry.ticket, outcome));
        if outcome.kind == AcceptedKind && outcome.revision.None? {
          tickets := tickets[key := tickets[key].(state := Conflict)];
        } else {
          tickets := tickets - {key};
        }
        return;
      }
      if Settlement(outcome) {
        tickets := tickets[key := entry.(state := RetrySameRequest)];
        return;
      }
      entry := entry.(request := None);
      if outcome.code == "CLAIM_EXPIRED" {
        tickets := tickets[key := entry.(state := Observed)];
        ClassifyStoredIn(key, now, old(Snapshot()));
        assert tickets == old(tickets)[key := tickets[key]];
      } else if outcome.retryable {
        tickets := tickets[key := entry.(state := WaitRefresh)];
      } else {
        tickets := tickets[key := entry.(state := Rejected)];
      }
    }

    /** A reply to an attempt, if the entry still carries the attempt's request id. */
    method ReceiveReply(key: Key, request: nat, outcome: Outcome, now: int)
      modifies this
      ensures Snapshot() == After(old(Snapshot()), Reply(key, request, outcome, now))
    {
      hide ApplyOutcome;
      if key !in tickets || tickets[key].request != Some(request) {
        return;
      }
      ApplyResumeOutcome(key, outcome, now);
    }

    /** The request could not be delivered, or no reply came. */
    method AttemptFailed(key: Key, request: nat)
      modifies this
      ensures Snapshot() == After(old(Snapshot()), SendFailed(key, request))
    {
      if key in tickets && !Terminal(tickets[key].state) && tickets[key].request == Some(request) {
        tickets := tickets[key := tickets[key].(state := RetrySameRequest)];
      }
    }

    /** The reply could not be understood. */
    method ReplyMalformed(key: Key, request: nat)
      modifies this
      ensures Snapshot() == After(old(Snapshot()), Malformed(key, request))
    {
      if key in tickets && tickets[key].request == Some(request) {
        tickets := tickets[key := tickets[key].(state := Conflict)];
      }
    }

    /** Moves every entry from one state to another. */
    method MoveEntries(src: TicketState, dst: TicketState)
      requires src != dst
      modifies this`tickets
      ensures Snapshot() == MoveAll(old(Snapshot()), src, dst)
    {
      hide Partly, MoveAll;
      ghost var s := Snapshot();
      ghost var f := (e: Entry) => Moved(e, src, dst);
      PartlyEnds(tickets, f);
      MovedAll(s, f, src, dst);
      var rest := tickets.Keys;
      while rest != {}
        invariant rest <= old(tickets).Keys && tickets == Partly(old(tickets), f, rest)
        decreases |rest|
      {
        var key :| key in rest;
        PartlyStep(old(tickets), f, rest, key);
        if tickets[key].state == src {
          tickets := tickets[key := tickets[key].(state := dst)];
        }
        rest := rest - {key};
      }
    }

    method HandleDisconnect()
      modifies this
      ensures Snapshot() == After(old(Snapshot()), Disconnect)
    {
      ready, confirmed, phaseReady := false, {}, false;
      MoveEntries(InFlight, RetrySameRequest);
    }

    /** The resume part of a successful start, with the capabilities the server confirmed. */
    method Start(capabilities: set<string>)
      modifies this
      ensures Snapshot() == After(old(Snapshot()), Connect(capabilities))
    {
      if ready {
        return;
      }
      confirmed, ready, phaseReady := capabilities, true, true;
      MoveEntries(WaitRefresh, Observed);
    }

    method DrainGeneration()
      modifies this
      ensures Snapshot() == After(old(Snapshot()), Drain)
    {
      phaseReady, ready, confirmed := false, false, {};
      tickets, watermarks, conflicts, lastKey := map[], map[], map[], None;
    }
  }

  lemma RivalsMarked(s: State, f: Entry -> Entry, ticket: Ticket)
    requires forall e :: f(e) == Marked(e, ticket)
    ensures MarkRivals(s, ticket) ==
            s.(tickets := Partly(s.tickets, f, {}), conflicts := s.conflicts[ticket.key.execution := ticket.revision])
  {
    hide Marked;
    PartlyEnds(s.tickets, f);
    assert MarkRivals(s, ticket).tickets == Partly(s.tickets, f, {});
  }

  lemma MovedAll(s: State, f: Entry -> Entry, src: TicketState, dst: TicketState)
    requires forall e :: f(e) == Moved(e, src, dst)
    ensures MoveAll(s, src, dst) == s.(tickets := Partly(s.tickets, f, {}))
  {
    hide Moved;
    PartlyEnds(s.tickets, f);
  }

  lemma ClassifiedAll(s: State, f: Entry -> Entry, now: int)
    requires forall e :: f(e) == Classify(s, e, now)
    ensures ClassifyAll(s, now) == s.(tickets := Partly(s.tickets, f, {}))
    ensures Chosen(s.tickets, f, {}) == EligibleKeys(ClassifyAll(s, now))
  {
    hide Classify;
  }

  /** The keys outside `rest` whose new entry can be claimed. */
  ghost function Chosen(m: map<Key, Entry>, f: Entry -> Entry, rest: set<Key>): set<Key> {
    set k | k in m && k !in rest && Claimable(f(m[k]))
  }

  lemma NoneChosen(m: map<Key, Entry>, f: Entry -> Entry)
    ensures Chosen(m, f, m.Keys) == {}
    ensures Ascending([]) && AllBelow([], m.Keys)
  {
  }

  lemma ChosenStep(m: map<Key, Entry>, f: Entry -> Entry, rest: set<Key>, key: Key)
    requires key in rest && rest <= m.Keys
    ensures Chosen(m, f, rest - {key}) == Chosen(m, f, rest) + if Claimable(f(m[key])) then {key} else {}
  {
  }

  ghost predicate Ascending(keys: seq<Key>) {
    forall i, j | 0 <= i < j < |keys| :: KeyLess(keys[i], keys[j])
  }

  ghost predicate AllBelow(keys: seq<Key>, rest: set<Key>) {
    forall i, k | 0 <= i < |keys| && k in rest :: KeyLess(keys[i], k)
  }

  lemma AscendingStep(keys: seq<Key>, rest: set<Key>, key: Key)
    requires Ascending(keys) && AllBelow(keys, rest) && IsLeast(key, rest)
    ensures Ascending(keys + [key]) && AllBelow(keys + [key], rest - {key}) && AllBelow(keys, rest - {key})
  {
    hide KeyLess;
  }

  lemma OnlyRivalsMove(m: map<Key, Entry>, f: Entry -> Entry, rivals: set<Key>, ticket: Ticket)
    requires rivals == set k | k in m && Rival(m[k], ticket)
    requires forall e :: f(e) == Marked(e, ticket)
    ensures Partly(m, f, rivals) == m
    ensures forall k | k in rivals :: f(m[k]) == m[k].(state := Conflict)
  {
    hide Rival;
    assert forall k | k in m && k !in rivals :: f(m[k]) == m[k];
  }

  lemma AdvanceKeepsKeys(s: State, x: string, r: int)
    ensures AdvanceWatermark(s, x, r).tickets.Keys == s.tickets.Keys
  {
  }

  lemma FirstIsLeast(eligible: seq<Key>, keys: set<Key>)
    requires eligible != [] && (set k | k in eligible) == keys && Ascending(eligible)
    ensures keys != {} && LeastOf(keys) == eligible[0]
  {
    hide KeyLess;
    assert eligible[0] in keys;
    assert IsLeast(eligible[0], keys);
    LeastUnique(eligible[0], LeastOf(keys), keys);
  }

  lemma NoneAfter(eligible: seq<Key>, keys: set<Key>, last: Key)
    requires (set k | k in eligible) == keys
    requires forall j | 0 <= j < |eligible| :: !KeyLess(last, eligible[j])
    ensures (set k | k in keys && KeyLess(last, k)) == {}
  {
    hide KeyLess;
    forall k | k in keys
      ensures !KeyLess(last, k)
    {
      assert k in eligible;
    }
  }

  lemma FirstAfterIsLeast(eligible: seq<Key>, keys: set<Key>, i: nat, last: Key)
    requires i < |eligible| && (set k | k in eligible) == keys && Ascending(eligible)
    requires KeyLess(last, eligible[i]) && forall j | 0 <= j < i :: !KeyLess(last, eligible[j])
    ensures var after := set k | k in keys && KeyLess(last, k);
            after != {} && LeastOf(after) == eligible[i]
  {
    hide KeyLess;
    var after := set k | k in keys && KeyLess(last, k);
    assert eligible[i] in after;
    forall x | x in after && x != eligible[i]
      ensures KeyLess(eligible[i], x)
    {
      var j :| 0 <= j < |eligible| && eligible[j] == x;
    }
    assert IsLeast(eligible[i], after);
    LeastUnique(eligible[i], LeastOf(after), after);
  }
}

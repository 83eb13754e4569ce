/**
 What a resume attempt is allowed for, and what each event of the resume protocol leaves behind
 (cl/src/core/client_runtime.py), field by field.
 */
module ResumeAuthority {
  import opened Common
  import opened ResumeTickets
  import opened ResumeProtocol

  // ---- Who may resume ---------------------------------------------------------------

  /**
   The entry is this client's and this owner's, waits for a connection, may be resumed automatically, is at
   its execution's watermark, and the runtime is ready with all of its capabilities confirmed.
   */
  ghost predicate Permitted(s: State, e: Entry) {
    && e.ticket.originClient == Some(s.client) && e.principal == s.owner
    && e.ticket.waitReason == "CONNECTION" && e.ticket.autoResumeAllowed
    && e.ticket.key.execution in s.watermarks && s.watermarks[e.ticket.key.execution] == e.ticket.revision
    && s.ready && s.phaseReady
    && e.ticket.capabilities != [] && (forall c | c in e.ticket.capabilities :: c in s.confirmed)
  }

  predicate Unexpired(t: Ticket, now: int) { t.expiresAt.None? || now < t.expiresAt.value }

  lemma PermittedExactly(s: State, e: Entry)
    ensures Permitted(s, e) <==> Authorized(s, e) && CapabilitiesReady(s, e)
  {
  }

  lemma PermittedSame(s: State, t: State, e: Entry, f: Entry)
    requires t == s.(tickets := t.tickets) && f.ticket == e.ticket && f.principal == e.principal
    ensures Permitted(t, f) <==> Permitted(s, e)
  {
  }

  /** The state an entry is put in: terminal states stay, then expiry, then authority, then an attempt under way. */
  lemma ClassifyExactly(s: State, e: Entry, now: int)
    ensures Classify(s, e, now)
            == e.(state := if Terminal(e.state) then e.state
                           else if e.request.None? && !Unexpired(e.ticket, now) then Expired
                           else if !Permitted(s, e) then Blocked
                           else if e.state in {InFlight, RetrySameRequest, WaitRefresh} then e.state
                           else Eligible)
  {
    hide Permitted, Authorized, CapabilitiesReady;
    PermittedExactly(s, e);
  }

  lemma ClaimExactly(s: State, key: Key, now: int)
    requires key in s.tickets
    ensures var e := s.tickets[key];
            Claim(s, key, now).1.Some? <==>
            && !Terminal(e.state) && e.state !in {InFlight, WaitRefresh} && Permitted(s, e)
            && (e.request.None? ==> Unexpired(e.ticket, now))
  {
    hide Permitted, Classify, HasExpired, Unexpired;
    ClassifyExactly(s, s.tickets[key], now);
  }

  /**
   A manual trigger starts an attempt exactly for a live ticket that is not in flight, is permitted and,
   unless it already carries a request id, has not expired at either reading of the clock.
   */
  lemma ManualClaimsExactly(s: State, key: Key, now: int, later: int)
    ensures Claimed(s, Manual(key, now, later)).Some? <==>
            && key in s.tickets
            && var e := s.tickets[key];
               && !Terminal(e.state) && e.state != InFlight && Permitted(s, e)
               && (e.request.None? ==> Unexpired(e.ticket, now) && Unexpired(e.ticket, later))
  {
    if s.ready && key in s.tickets && !Terminal(s.tickets[key].state) {
      var e := Classify(s, s.tickets[key], now);
      var e' := if e.state == WaitRefresh then e.(state := Eligible) else e;
      var t := s.(tickets := s.tickets[key := e']);
      ClassifyExactly(s, s.tickets[key], now);
      PermittedSame(s, t, s.tickets[key], e');
      ClaimExactly(t, key, later);
      hide Permitted, Classify, HasExpired, Unexpired, Claim;
    }
  }

  /** The worker starts an attempt exactly when there is such a ticket that does not wait for a refresh. */
  lemma WorkerClaimsExactly(s: State, now: int, later: int)
    requires forall k | k in s.tickets && Unexpired(s.tickets[k].ticket, now) :: Unexpired(s.tickets[k].ticket, later)
    ensures Claimed(s, Worker(now, later)).Some? <==>
            exists k | k in s.tickets ::
              var e := s.tickets[k];
              && !Terminal(e.state) && e.state !in {InFlight, WaitRefresh} && Permitted(s, e)
              && (e.request.None? ==> Unexpired(e.ticket, now))
  {
    var c := ClassifyAll(s, now);
    forall k | k in s.tickets
      ensures Claimable(c.tickets[k]) <==> Free(s, s.tickets[k], now)
      ensures Claim(c, k, later).1.Some? <==> Claimable(c.tickets[k])
    {
      ClassifiedClaims(s, k, now, later);
    }
    hide Permitted, Classify, HasExpired, Unexpired, Claim, ClassifyAll, KeyLess;
    assert c.tickets.Keys == s.tickets.Keys by { ClassifyAllKeys(s, now); }
    if k :| k in s.tickets && Free(s, s.tickets[k], now) {
      assert k in EligibleKeys(c);
      ReadyIfPermitted(s, s.tickets[k]);
    }
  }

  ghost predicate Free(s: State, e: Entry, now: int) {
    && !Terminal(e.state) && e.state !in {InFlight, WaitRefresh} && Permitted(s, e)
    && (e.request.None? ==> Unexpired(e.ticket, now))
  }

  lemma ReadyIfPermitted(s: State, e: Entry)
    requires Permitted(s, e)
    ensures s.ready && s.phaseReady
  {
  }

  lemma ClassifyAllKeys(s: State, now: int)
    ensures ClassifyAll(s, now).tickets.Keys == s.tickets.Keys
  {
  }

  lemma ClassifiedClaims(s: State, k: Key, now: int, later: int)
    requires k in s.tickets && (Unexpired(s.tickets[k].ticket, now) ==> Unexpired(s.tickets[k].ticket, later))
    ensures var c := ClassifyAll(s, now);
            && k in c.tickets
            && (Claimable(c.tickets[k]) <==> Free(s, s.tickets[k], now))
            && (Claim(c, k, later).1.Some? <==> Claimable(c.tickets[k]))
  {
    hide Permitted, HasExpired, Unexpired, Classify, Claim;
    var c := ClassifyAll(s, now);
    ClassifyExactly(s, s.tickets[k], now);
    PermittedSame(s, c, s.tickets[k], c.tickets[k]);
    ClaimExactly(c, k, later);
  }

  /** Whoever starts an attempt, the entry it is for was permitted and live in the state the step met. */
  lemma ClaimPermitted(s: State, st: Step)
    requires Inv(s) && Claimed(s, st).Some?
    ensures var k := Claimed(s, st).value.ticket.key;
            && k in s.tickets && Permitted(s, s.tickets[k])
            && !Terminal(s.tickets[k].state) && s.tickets[k].state != InFlight
  {
    ClaimedEntry(s, st);
    match st {
      case Worker(now, later) =>
        var c := ClassifyAll(s, now);
        var k := NextKey(c).value;
        ClaimExactly(c, k, later);
        ClassifyExactly(s, s.tickets[k], now);
        PermittedSame(s, c, s.tickets[k], c.tickets[k]);
        InvAt(s, k);
        ClaimAtWatermark(c, k, later);
        hide Inv, Permitted, Claim, Classify, NextKey, HasExpired, Unexpired;
      case Manual(key, now, later) =>
        ManualClaimsExactly(s, key, now, later);
        InvAt(s, key);
        hide Inv, Permitted, Claim, Classify, HasExpired, Unexpired;
    }
  }

  /**
   In every run of the client, by worker or by hand, an attempt is only ever started for a ticket of this
   client and this owner that waits for a connection, allows automatic resumption and names capabilities
   that are all confirmed, and only while the runtime is ready; a first attempt never for an expired one.
   */
  lemma RunClaimsAuthorised(s: State, steps: seq<Step>, st: Step)
    requires Inv(s) && Claimed(Run(s, steps), st).Some?
    ensures var r, t := Run(s, steps), Claimed(Run(s, steps), st).value.ticket;
            && t.originClient == Some(r.client) && t.key in r.tickets && r.tickets[t.key].principal == r.owner
            && t.waitReason == "CONNECTION" && t.autoResumeAllowed
            && t.capabilities != [] && (forall c | c in t.capabilities :: c in r.confirmed)
            && r.ready && r.phaseReady && (st.Worker? || st.Manual?)
            && (r.tickets[t.key].request.None? ==> t.expiresAt.None? || st.later < t.expiresAt.value)
  {
    hide Run, Inv, Claimed;
    RunKeeps(s, steps);
    ClaimPermitted(Run(s, steps), st);
    ClaimedEntry(Run(s, steps), st);
  }

  // ---- What a ticket, a reply and a connection change --------------------------------

  /** A ticket below the watermark, or not above the revision in conflict, changes nothing. */
  lemma StaleChangesNothing(s: State, t: Ticket, now: int)
    requires || (t.key.execution in s.watermarks && t.revision < s.watermarks[t.key.execution])
             || (t.key.execution in s.conflicts && t.revision <= s.conflicts[t.key.execution])
    ensures After(s, Ingest(t, now)) == s
  {
  }

  predicate Live(e: Entry) { e.state in {Observed, Blocked, Eligible, InFlight, RetrySameRequest, WaitRefresh} }

  lemma LiveOrTerminal(e: Entry)
    ensures Live(e) <==> !Terminal(e.state)
  {
    match e.state {
      case Observed => case Blocked => case Eligible => case InFlight => case RetrySameRequest => case WaitRefresh =>
      case Accepted => case Rejected => case Failed => case Expired => case Superseded => case Conflict =>
    }
  }

  lemma ClashIsRival(s: State, t: Ticket, k: Key)
    ensures Clash(s, t, k) <==> k in s.tickets && Rival(s.tickets[k], t)
  {
    if k in s.tickets { LiveOrTerminal(s.tickets[k]); }
  }

  /** A watermark that is raised supersedes the live tickets of its execution. */
  lemma AdvanceExactly(s: State, x: string, r: int, k: Key)
    requires (x in s.watermarks ==> s.watermarks[x] <= r) && EntryInv(s, k)
    ensures var a := AdvanceWatermark(s, x, r);
            && a.watermarks == s.watermarks[x := r] && a.tickets.Keys == s.tickets.Keys
            && a == s.(tickets := a.tickets, watermarks := a.watermarks, conflicts := a.conflicts)
            && (k in s.tickets ==>
                  var e := s.tickets[k];
                  a.tickets[k] == if Live(e) && k.execution == x && s.watermarks[x] < r
                                  then e.(state := Superseded) else e)
  {
    if k in s.tickets { LiveOrTerminal(s.tickets[k]); }
    var a := AdvanceWatermark(s, x, r);
    assert a.watermarks == s.watermarks[x := r];
    assert a.tickets.Keys == s.tickets.Keys;
  }

  /** A live ticket for another checkpoint of the same execution and revision. */
  ghost predicate Clash(s: State, t: Ticket, k: Key) {
    && k in s.tickets && Live(s.tickets[k]) && s.tickets[k].ticket.revision == t.revision
    && s.tickets[k].ticket.key.execution == t.key.execution && s.tickets[k].ticket.key.checkpoint != t.key.checkpoint
  }

  /** Two checkpoints claim one revision: all of its live tickets are in conflict, and so is the revision. */
  lemma ClashConflicts(s: State, t: Ticket, now: int, clash: Key, k: Key)
    requires !StaleTicket(s, t) && Clash(s, t, clash) && k in s.tickets
    ensures var s' := After(s, Ingest(t, now));
            && s'.tickets.Keys == s.tickets.Keys && s'.watermarks == s.watermarks
            && s'.tickets[k] == (if Clash(s, t, k) then s.tickets[k].(state := Conflict) else s.tickets[k])
            && s'.conflicts == s.conflicts[t.key.execution := t.revision]
  {
    ClashIsRival(s, t, clash);
    ClashIsRival(s, t, k);
    hide Clash, Rival, StaleTicket;
    assert Rival(s.tickets[clash], t);
    assert After(s, Ingest(t, now)) == MarkRivals(s, t);
    assert MarkRivals(s, t).tickets.Keys == s.tickets.Keys;
  }

  /** Any other ticket sets the watermark, and supersedes the live tickets of its execution if it raises it. */
  lemma IngestSupersedes(s: State, t: Ticket, now: int, k: Key)
    requires Inv(s) && !StaleTicket(s, t) && (forall j :: !Clash(s, t, j)) && k in s.tickets && k != t.key
    ensures var s', e := After(s, Ingest(t, now)), s.tickets[k];
            && s'.watermarks == s.watermarks[t.key.execution := t.revision]
            && k in s'.tickets && k.execution in s.watermarks
            && s'.tickets[k] == if Live(e) && k.execution == t.key.execution && s.watermarks[k.execution] < t.revision
                                then e.(state := Superseded) else e
  {
    hide Inv, Clash, Rival, Live, Classify, AdvanceWatermark;
    NoRival(s, t);
    InvAt(s, k);
    AdvanceExactly(s, t.key.execution, t.revision, k);
    var a := AdvanceWatermark(s, t.key.execution, t.revision);
    assert After(s, Ingest(t, now)) == if t.key in a.tickets then Readmit(a, t, now) else Admit(a, t, now);
    hide IngestTicket, EntryInv;
  }

  lemma NoRival(s: State, t: Ticket)
    requires forall j :: !Clash(s, t, j)
    ensures !exists k | k in s.tickets :: Rival(s.tickets[k], t)
  {
    forall k | k in s.tickets
      ensures !Rival(s.tickets[k], t)
    {
      ClashIsRival(s, t, k);
    }
  }

  /** It is stored for the owner of the moment, without a request id. */
  lemma IngestAdmits(s: State, t: Ticket, now: int)
    requires !StaleTicket(s, t) && (forall j :: !Clash(s, t, j)) && t.key !in s.tickets
    ensures var s' := After(s, Ingest(t, now));
            && t.key in s'.tickets
            && var e := s'.tickets[t.key];
               && e == Entry(t, s.owner, e.state, None, 0)
               && e.state == (if !Unexpired(t, now) then Expired else if Permitted(s', e) then Eligible else Blocked)
  {
    NoRival(s, t);
    var a := AdvanceWatermark(s, t.key.execution, t.revision);
    var e := Entry(t, s.owner, Observed, None, 0);
    ClassifyExactly(a, e, now);
    PermittedSame(a, After(s, Ingest(t, now)), e, Classify(a, e, now));
    hide Permitted, Classify, HasExpired, Unexpired;
  }

  /** Seen again, a ticket is only refreshed; a different ticket under its key is a conflict. */
  lemma IngestRefreshes(s: State, t: Ticket, now: int)
    requires Inv(s) && !StaleTicket(s, t) && (forall j :: !Clash(s, t, j)) && t.key in s.tickets
    ensures var s', e := After(s, Ingest(t, now)), s.tickets[t.key];
            && t.key in s'.tickets
            && var f := s'.tickets[t.key];
               if e.ticket != t then f == e.(state := Conflict)
               else
                 && f == e.(freshness := e.freshness + 1, state := f.state)
                 && f.state == (if !Live(e) then e.state
                                else if e.request.None? && !Unexpired(t, now) then Expired
                                else if !Permitted(s', e) then Blocked
                                else if e.state in {InFlight, RetrySameRequest} then e.state
                                else Eligible)
  {
    hide Inv, Clash, Rival, Permitted, Classify, HasExpired, Unexpired, AdvanceWatermark;
    NoRival(s, t);
    InvAt(s, t.key);
    AdvanceExactly(s, t.key.execution, t.revision, t.key);
    var a, e := AdvanceWatermark(s, t.key.execution, t.revision), s.tickets[t.key];
    assert After(s, Ingest(t, now)) == Readmit(a, t, now);
    if e.ticket == t {
      var f := e.(freshness := e.freshness + 1, state := if e.state == WaitRefresh then Observed else e.state);
      ClassifyExactly(a, f, now);
      PermittedSame(a, Readmit(a, t, now), f, e);
      PermittedSame(a, a, f, e);
      LiveOrTerminal(e);
    }
  }

  /**
   A rejection of the attempt under way: a claim still settling keeps the request id for a retry, every
   other rejection gives it up, and what the entry then waits for depends on the code.
   */
  lemma RejectionLeaves(s: State, key: Key, request: nat, o: Outcome, now: int)
    requires Reaches(s, key, request) && o.kind == RejectedKind
    requires o.request == request && o.key == s.tickets[key].ticket.key
    ensures var s', e := After(s, Reply(key, request, o, now)), s.tickets[key];
            && s' == s.(tickets := s'.tickets) && key in s'.tickets
            && s'.tickets == s.tickets[key := s'.tickets[key]]
            && s'.tickets[key]
               == if o.code == "RESUME_CONFLICT" && o.retryable && o.hasClaim then e.(state := RetrySameRequest)
                  else e.(request := None,
                          state := if o.code == "CLAIM_EXPIRED" then
                                     if !Unexpired(e.ticket, now) then Expired
                                     else if Permitted(s, e) then Eligible else Blocked
                                   else if o.retryable then WaitRefresh else Rejected)
  {
    var e := s.tickets[key];
    var cleared := e.(request := None, state := Observed);
    ClassifyExactly(s, cleared, now);
    PermittedSame(s, s, e, cleared);
    hide Permitted, Classify, HasExpired, Unexpired;
  }

  /** Acceptance and failure forget the ticket, except an acceptance without a revision, which is a conflict. */
  lemma AuthorityLeaves(s: State, key: Key, request: nat, o: Outcome, now: int)
    requires Inv(s) && Reaches(s, key, request) && o.kind != RejectedKind && o.request == request && o.key == key
    ensures var s', e := After(s, Reply(key, request, o, now)), s.tickets[key];
            && (o.kind == AcceptedKind && o.revision.None? ==>
                  key in s'.tickets && s'.tickets[key] == e.(state := Conflict) && s'.tickets.Keys == s.tickets.Keys)
            && (o.kind == FailedKind || o.revision.Some? ==> s'.tickets.Keys == s.tickets.Keys - {key})
            && key.execution in s.watermarks
            && s'.watermarks == s.watermarks[key.execution :=
                 Max(s.watermarks[key.execution],
                     Max(e.ticket.revision + 1, if o.revision.Some? then o.revision.value else 0))]
  {
    hide Inv, AdvanceWatermark;
    InvAt(s, key);
    AdvanceToFloor(s, key.execution, AuthorityFloor(s.tickets[key].ticket, o), key);
  }

  lemma AdvanceToFloor(s: State, x: string, floor: int, k: Key)
    requires x in s.watermarks && k in s.tickets
    ensures var a := AdvanceWatermark(s, x, floor);
            && a.watermarks == s.watermarks[x := Max(s.watermarks[x], floor)] && a.tickets.Keys == s.tickets.Keys
            && a.tickets[k] == s.tickets[k].(state := a.tickets[k].state)
  {
  }

  /** A reply about another key or request marks the entry it was correlated with, and nothing else. */
  lemma MismatchConflicts(s: State, key: Key, request: nat, o: Outcome, now: int)
    requires Reaches(s, key, request) && (o.key != s.tickets[key].ticket.key || o.request != request)
    ensures After(s, Reply(key, request, o, now)).tickets
            == s.tickets[key := s.tickets[key].(state := Conflict)]
  {
  }

  /** A lost connection keeps every request id: attempts in flight are retried, and nothing starts until a new one. */
  lemma DisconnectKeeps(s: State, k: Key)
    ensures var s' := After(s, Disconnect);
            && s'.tickets.Keys == s.tickets.Keys && !s'.ready && s'.confirmed == {}
            && (k in s.tickets ==>
                  s'.tickets[k] == if s.tickets[k].state == InFlight then s.tickets[k].(state := RetrySameRequest)
                                   else s.tickets[k])
  {
  }

  /** A new connection brings its capabilities and ends the wait for a refresh. */
  lemma ConnectRefreshes(s: State, capabilities: set<string>, k: Key)
    requires !s.ready
    ensures var s' := After(s, Connect(capabilities));
            && s'.tickets.Keys == s.tickets.Keys && s'.ready && s'.phaseReady && s'.confirmed == capabilities
            && (k in s.tickets ==>
                  s'.tickets[k] == if s.tickets[k].state == WaitRefresh then s.tickets[k].(state := Observed)
                                   else s.tickets[k])
  {
  }
}

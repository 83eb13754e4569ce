/** What every run of the resume-ticket machine keeps (cl/src/core/client_runtime.py). */
module ResumeProtocol {
  import opened Common
  import opened ResumeTickets

  // ---- The state invariant ----------------------------------------------------------

  /** Every entry sits under its own key, at or below its execution's watermark. */
  ghost predicate EntryInv(s: State, k: Key) {
    k in s.tickets ==>
      var e := s.tickets[k];
      && e.ticket.key == k && k.execution in s.watermarks && e.ticket.revision <= s.watermarks[k.execution]
      && (e.request.Some? ==> e.request.value < s.nextRequest)
      && (e.state in {InFlight, RetrySameRequest} ==> e.request.Some?)
      && (e.state == WaitRefresh ==> e.request.None?)
  }

  /** A recorded conflict is at the watermark. */
  ghost predicate ConflictInv(s: State) {
    forall x | x in s.conflicts :: x in s.watermarks && s.conflicts[x] == s.watermarks[x]
  }

  /** No request id is active for two tickets. */
  ghost predicate RequestsDistinct(s: State) {
    forall j, k | j in s.tickets && k in s.tickets && j != k && s.tickets[j].request.Some? ::
      s.tickets[j].request != s.tickets[k].request
  }

  ghost predicate Inv(s: State) {
    (forall k :: EntryInv(s, k)) && ConflictInv(s) && RequestsDistinct(s)
  }

  lemma ClassifyKeeps(s: State, e: Entry, now: int)
    ensures var c := Classify(s, e, now);
            && c.ticket == e.ticket && c.request == e.request && c.principal == e.principal
            && (c.state in {InFlight, RetrySameRequest, WaitRefresh} ==> c.state == e.state)
            && (Terminal(e.state) ==> c == e)
            && (Terminal(c.state) ==> c == e || (c.state == Expired && e.request.None? && HasExpired(e.ticket, now)))
            && (Claimable(c) ==>
                Authorized(s, e) && CapabilitiesReady(s, e) && (e.request.None? ==> !HasExpired(e.ticket, now)))
  {
    hide Authorized, CapabilitiesReady;
  }

  lemma AdvanceShape(s: State, x: string, r: int)
    ensures var a := AdvanceWatermark(s, x, r);
            && a.tickets.Keys == s.tickets.Keys && x in a.watermarks && a.watermarks[x] >= r
            && (forall y | y in s.watermarks :: y in a.watermarks && a.watermarks[y] >= s.watermarks[y])
            && (forall k | k in s.tickets :: a.tickets[k] == s.tickets[k].(state := a.tickets[k].state))
            && (forall k | k in s.tickets ::
                a.tickets[k].state == s.tickets[k].state || a.tickets[k].state == Superseded)
            && (forall k | k in s.tickets && Terminal(s.tickets[k].state) :: a.tickets[k] == s.tickets[k])
            && a == s.(tickets := a.tickets, watermarks := a.watermarks, conflicts := a.conflicts)
  {
  }

  lemma AdvanceConflicts(s: State, x: string, r: int)
    requires ConflictInv(s)
    ensures ConflictInv(AdvanceWatermark(s, x, r))
  {
  }

  lemma AdvanceKeeps(s: State, x: string, r: int)
    requires Inv(s)
    ensures Inv(AdvanceWatermark(s, x, r))
  {
    AdvanceShape(s, x, r);
    AdvanceConflicts(s, x, r);
    hide AdvanceWatermark, ConflictInv;
    var a := AdvanceWatermark(s, x, r);
    forall k
      ensures EntryInv(a, k)
    {
      assert EntryInv(s, k);
    }
  }

  /** Changing one entry's state, or dropping its request id, keeps the invariant. */
  lemma OneEntryKeeps(s: State, k: Key, e: Entry)
    requires Inv(s) && k in s.tickets && e.ticket == s.tickets[k].ticket
    requires e.request == s.tickets[k].request || e.request.None?
    requires e.state in {InFlight, RetrySameRequest} ==> e.request.Some?
    requires e.state == WaitRefresh ==> e.request.None?
    ensures Inv(s.(tickets := s.tickets[k := e]))
  {
    var t := s.(tickets := s.tickets[k := e]);
    forall j
      ensures EntryInv(t, j)
    {
      assert EntryInv(s, j) && EntryInv(s, k);
    }
  }

  /** The same for changing the states of many entries at once. */
  lemma ManyEntriesKeep(s: State, t: State)
    requires Inv(s) && t.tickets.Keys == s.tickets.Keys
    requires t.watermarks == s.watermarks && t.nextRequest == s.nextRequest && ConflictInv(t)
    requires forall k | k in s.tickets ::
               && t.tickets[k].ticket == s.tickets[k].ticket && t.tickets[k].request == s.tickets[k].request
               && (t.tickets[k].state in {InFlight, RetrySameRequest} ==> t.tickets[k].request.Some?)
               && (t.tickets[k].state == WaitRefresh ==> t.tickets[k].request.None?)
    ensures Inv(t)
  {
    forall k
      ensures EntryInv(t, k)
    {
      assert EntryInv(s, k);
    }
  }

  lemma IngestKeeps(s: State, t: Ticket, now: int)
    requires Inv(s)
    ensures Inv(IngestTicket(s, t, now))
  {
    hide Classify;
    if !StaleTicket(s, t) {
      if exists k | k in s.tickets :: Rival(s.tickets[k], t) {
        MarkRivalsKeeps(s, t);
      } else {
        AdvanceKeeps(s, t.key.execution, t.revision);
        AdvanceShape(s, t.key.execution, t.revision);
        var a := AdvanceWatermark(s, t.key.execution, t.revision);
        if t.key in a.tickets {
          ReadmitKeeps(a, t, now);
        } else {
          assert a.watermarks[t.key.execution] == t.revision;
          AdmitKeeps(a, t, now);
        }
      }
    }
  }

  lemma MarkRivalsKeeps(s: State, t: Ticket)
    requires Inv(s) && !StaleTicket(s, t) && exists k | k in s.tickets :: Rival(s.tickets[k], t)
    ensures Inv(MarkRivals(s, t))
  {
    var k :| k in s.tickets && Rival(s.tickets[k], t);
    assert EntryInv(s, k);
    assert s.watermarks[t.key.execution] == t.revision;
    var m := MarkRivals(s, t);
    forall j | j in s.tickets
      ensures m.tickets[j].state in {InFlight, RetrySameRequest} ==> m.tickets[j].request.Some?
      ensures m.tickets[j].state == WaitRefresh ==> m.tickets[j].request.None?
    {
      assert EntryInv(s, j);
    }
    ManyEntriesKeep(s, m);
  }

  lemma ReadmitKeeps(s: State, t: Ticket, now: int)
    requires Inv(s) && t.key in s.tickets
    ensures Inv(Readmit(s, t, now))
  {
    hide Classify, Inv;
    var e := s.tickets[t.key];
    InvAt(s, t.key);
    var refreshed := e.(freshness := e.freshness + 1, state := if e.state == WaitRefresh then Observed else e.state);
    ClassifyKeeps(s, refreshed, now);
    OneEntryKeeps(s, t.key, if e.ticket != t then e.(state := Conflict) else Classify(s, refreshed, now));
  }

  lemma InvAt(s: State, k: Key)
    requires Inv(s)
    ensures EntryInv(s, k)
  {
  }

  lemma AdmitKeeps(s: State, t: Ticket, now: int)
    requires Inv(s) && t.key !in s.tickets
    requires t.key.execution in s.watermarks && s.watermarks[t.key.execution] == t.revision
    ensures Inv(Admit(s, t, now))
  {
    hide Classify;
    var e := Entry(t, s.owner, Observed, None, 0);
    ClassifyKeeps(s, e, now);
    var a := Admit(s, t, now);
    forall j
      ensures EntryInv(a, j)
    {
      assert EntryInv(s, j);
    }
  }

  lemma ClassifyAllKeeps(s: State, now: int)
    requires Inv(s)
    ensures Inv(ClassifyAll(s, now))
  {
    hide Classify;
    var c := ClassifyAll(s, now);
    forall k | k in s.tickets
      ensures c.tickets[k].ticket == s.tickets[k].ticket && c.tickets[k].request == s.tickets[k].request
      ensures c.tickets[k].state in {InFlight, RetrySameRequest} ==> c.tickets[k].request.Some?
      ensures c.tickets[k].state == WaitRefresh ==> c.tickets[k].request.None?
    {
      ClassifyKeeps(s, s.tickets[k], now);
      assert EntryInv(s, k);
    }
    ManyEntriesKeep(s, c);
  }

  lemma ClaimKeeps(s: State, key: Key, now: int)
    requires Inv(s)
    ensures Inv(Claim(s, key, now).0)
  {
    hide Classify;
    if key in s.tickets {
      ClassifyKeeps(s, s.tickets[key], now);
      assert EntryInv(s, key);
      var c := Claim(s, key, now).0;
      forall j
        ensures EntryInv(c, j)
      {
        assert EntryInv(s, j);
      }
      forall j, k | j in c.tickets && k in c.tickets && j != k && c.tickets[j].request.Some?
        ensures c.tickets[j].request != c.tickets[k].request
      {
        assert EntryInv(s, j) && EntryInv(s, k);
      }
    }
  }

  lemma ManualKeeps(s: State, key: Key, now: int, later: int)
    requires Inv(s)
    ensures Inv(ManualClaim(s, key, now, later).0)
  {
    hide Classify, Inv, Claim;
    if !(!s.ready || key !in s.tickets || Terminal(s.tickets[key].state)) {
      ClassifyKeeps(s, s.tickets[key], now);
      InvAt(s, key);
      var e := Classify(s, s.tickets[key], now);
      var e' := if e.state == WaitRefresh then e.(state := Eligible) else e;
      OneEntryKeeps(s, key, e');
      ClaimKeeps(s.(tickets := s.tickets[key := e']), key, later);
    }
  }

  lemma OutcomeKeeps(s: State, key: Key, o: Outcome, now: int)
    requires Inv(s) && key in s.tickets
    ensures Inv(ApplyOutcome(s, key, o, now))
  {
    hide Classify, Inv, AdvanceWatermark;
    var e := s.tickets[key];
    InvAt(s, key);
    if !Correlates(o, e) {
      OneEntryKeeps(s, key, e.(state := Conflict));
    } else if o.kind == RejectedKind {
      var r := RejectedEntry(s, e, o, now);
      ClassifyKeeps(s, e.(request := None, state := Observed), now);
      OneEntryKeeps(s, key, r);
    } else {
      AdvanceKeeps(s, e.ticket.key.execution, AuthorityFloor(e.ticket, o));
      AdvanceShape(s, e.ticket.key.execution, AuthorityFloor(e.ticket, o));
      var a := AdvanceWatermark(s, e.ticket.key.execution, AuthorityFloor(e.ticket, o));
      OneEntryKeeps(a, key, a.tickets[key].(state := Conflict));
      RemoveKeeps(a, key);
    }
  }

  lemma RemoveKeeps(s: State, key: Key)
    requires Inv(s)
    ensures Inv(s.(tickets := s.tickets - {key}))
  {
    var r := s.(tickets := s.tickets - {key});
    forall k
      ensures EntryInv(r, k)
    {
      assert EntryInv(s, k);
    }
  }

  lemma MoveAllKeeps(s: State, src: TicketState, dst: TicketState, ready: bool, phaseReady: bool,
                     confirmed: set<string>)
    requires Inv(s) && ((src == InFlight && dst == RetrySameRequest) || (src == WaitRefresh && dst == Observed))
    ensures Inv(MoveAll(s, src, dst).(ready := ready, phaseReady := phaseReady, confirmed := confirmed))
  {
    var m := MoveAll(s, src, dst).(ready := ready, phaseReady := phaseReady, confirmed := confirmed);
    forall k | k in s.tickets
      ensures m.tickets[k].state in {InFlight, RetrySameRequest} ==> m.tickets[k].request.Some?
      ensures m.tickets[k].state == WaitRefresh ==> m.tickets[k].request.None?
    {
      assert EntryInv(s, k);
    }
    ManyEntriesKeep(s, m);
  }

  /** Every step keeps the invariant. */
  lemma StepKeeps(s: State, st: Step)
    requires Inv(s)
    ensures Inv(After(s, st))
  {
    hide Inv, ApplyOutcome, IngestTicket, Claim, ManualClaim, ClassifyAll, MoveAll, NextKey;
    match st {
      case Ingest(t, now) => IngestKeeps(s, t, now);
      case Worker(now, later) =>
        ClassifyAllKeeps(s, now);
        var c := ClassifyAll(s, now);
        if NextKey(c).Some? { ClaimKeeps(c, NextKey(c).value, later); }
      case Manual(key, now, later) => ManualKeeps(s, key, now, later);
      case SendFailed(key, request) =>
        if Reaches(s, key, request) {
          InvAt(s, key);
          OneEntryKeeps(s, key, s.tickets[key].(state := RetrySameRequest));
        }
      case Malformed(key, request) =>
        if Reaches(s, key, request) {
          OneEntryKeeps(s, key, s.tickets[key].(state := Conflict));
        }
      case Reply(key, request, o, now) =>
        if Reaches(s, key, request) { OutcomeKeeps(s, key, o, now); }
      case Disconnect => MoveAllKeeps(s, InFlight, RetrySameRequest, false, false, {});
      case Connect(caps) => MoveAllKeeps(s, WaitRefresh, Observed, true, true, caps);
      case Stop => FlagsKeep(s, s.(ready := false, phaseReady := false, confirmed := {}));
      case SetPhase(phase) => FlagsKeep(s, s.(phaseReady := phase));
      case SetOwner(principal) => FlagsKeep(s, s.(owner := principal));
      case Drain => EmptyInv(After(s, Drain));
    }
  }

  lemma FlagsKeep(s: State, t: State)
    requires Inv(s) && t.tickets == s.tickets && t.watermarks == s.watermarks && t.conflicts == s.conflicts
    requires t.nextRequest == s.nextRequest
    ensures Inv(t)
  {
    forall k
      ensures EntryInv(t, k)
    {
      assert EntryInv(s, k);
    }
  }

  lemma EmptyInv(s: State)
    requires s.tickets == map[] && s.conflicts == map[]
    ensures Inv(s)
  {
  }

  lemma {:induction false} RunKeeps(s: State, steps: seq<Step>)
    requires Inv(s)
    ensures Inv(Run(s, steps))
    decreases |steps|
  {
    hide Inv, After;
    if steps != [] {
      StepKeeps(s, steps[0]);
      RunKeeps(After(s, steps[0]), steps[1..]);
    }
  }

  // ---- What each operation leaves alone ---------------------------------------------

  /** The entry keeps its ticket and request id, and stays terminal if it was. */
  ghost predicate EntryKept(s: State, t: State, k: Key) {
    k in s.tickets ==>
      && k in t.tickets && t.tickets[k].ticket == s.tickets[k].ticket && t.tickets[k].request == s.tickets[k].request
      && (Terminal(s.tickets[k].state) ==> Terminal(t.tickets[k].state))
  }

  ghost predicate WatermarkKept(s: State, t: State, x: string) {
    x in s.watermarks ==> x in t.watermarks && t.watermarks[x] >= s.watermarks[x]
  }

  lemma AdvanceAt(s: State, x: string, r: int, k: Key, y: string)
    ensures var a := AdvanceWatermark(s, x, r);
            && EntryKept(s, a, k) && (k in a.tickets <==> k in s.tickets) && WatermarkKept(s, a, y)
            && x in a.watermarks && a.watermarks[x] >= r
  {
  }

  lemma ReadmitAt(s: State, t: Ticket, now: int, k: Key)
    requires t.key in s.tickets
    ensures EntryKept(s, Readmit(s, t, now), k) && (k in Readmit(s, t, now).tickets <==> k in s.tickets)
    ensures Readmit(s, t, now).watermarks == s.watermarks
  {
    hide Classify;
    var e := s.tickets[t.key];
    var state := if e.state == WaitRefresh then Observed else e.state;
    ClassifyKeeps(s, e.(freshness := e.freshness + 1, state := state), now);
  }

  lemma AdmitAt(s: State, t: Ticket, now: int, k: Key)
    requires t.key !in s.tickets
    ensures EntryKept(s, Admit(s, t, now), k) && (k in Admit(s, t, now).tickets <==> k in s.tickets || k == t.key)
    ensures Admit(s, t, now).tickets[t.key].ticket == t && Admit(s, t, now).watermarks == s.watermarks
  {
    hide Classify;
    ClassifyKeeps(s, Entry(t, s.owner, Observed, None, 0), now);
  }

  lemma MarkRivalsAt(s: State, t: Ticket, k: Key)
    ensures EntryKept(s, MarkRivals(s, t), k) && (k in MarkRivals(s, t).tickets <==> k in s.tickets)
    ensures MarkRivals(s, t).watermarks == s.watermarks
  {
  }

  lemma IngestAt(s: State, t: Ticket, now: int, k: Key, y: string)
    ensures var s' := IngestTicket(s, t, now);
            && EntryKept(s, s', k) && WatermarkKept(s, s', y)
            && (k !in s.tickets && k in s'.tickets ==> k == t.key && !StaleTicket(s, t) && s'.tickets[k].ticket == t)
  {
    hide AdvanceWatermark, Readmit, Admit, MarkRivals, StaleTicket, Rival;
    AdvanceAt(s, t.key.execution, t.revision, k, y);
    MarkRivalsAt(s, t, k);
    var a := AdvanceWatermark(s, t.key.execution, t.revision);
    if t.key in a.tickets { ReadmitAt(a, t, now, k); } else { AdmitAt(a, t, now, k); }
  }

  /** The reply is a correlated rejection, or one that proves authority was acquired. */
  predicate Releasing(o: Outcome, e: Entry) { Correlates(o, e) && o.kind == RejectedKind && !Settlement(o) }

  predicate Acquiring(o: Outcome, e: Entry) { Correlates(o, e) && o.kind != RejectedKind }

  lemma RejectedEntryShape(s: State, e: Entry, o: Outcome, now: int)
    ensures var r := RejectedEntry(s, e, o, now);
            r.ticket == e.ticket && r.request == if Settlement(o) then e.request else None
  {
    hide Classify, Settlement;
    ClassifyKeeps(s, e.(request := None, state := Observed), now);
  }

  lemma OutcomeAt(s: State, k: Key, o: Outcome, now: int, j: Key, y: string)
    requires k in s.tickets
    ensures var s', e := ApplyOutcome(s, k, o, now), s.tickets[k];
            && (j in s'.tickets ==> j in s.tickets)
            && (j != k ==> EntryKept(s, s', j))
            && WatermarkKept(s, s', y)
            && (k in s'.tickets ==>
                s'.tickets[k].ticket == e.ticket && (!Releasing(o, e) ==> s'.tickets[k].request == e.request))
            && (k !in s'.tickets ==> Acquiring(o, e))
            && (Acquiring(o, e) ==>
                e.ticket.key.execution in s'.watermarks && s'.watermarks[e.ticket.key.execution] > e.ticket.revision)
  {
    hide AdvanceWatermark, Correlates, Settlement, RejectedEntry, EntryKept;
    var e := s.tickets[k];
    if !Correlates(o, e) {
      OtherKept(s, s.(tickets := s.tickets[k := e.(state := Conflict)]), j, k);
    } else if o.kind == RejectedKind {
      RejectedEntryShape(s, e, o, now);
      OtherKept(s, s.(tickets := s.tickets[k := RejectedEntry(s, e, o, now)]), j, k);
    } else {
      AdvanceAt(s, e.ticket.key.execution, AuthorityFloor(e.ticket, o), j, y);
      AdvanceAt(s, e.ticket.key.execution, AuthorityFloor(e.ticket, o), k, y);
      var a := AdvanceWatermark(s, e.ticket.key.execution, AuthorityFloor(e.ticket, o));
      KeptMeans(s, a, k);
      OtherAfter(s, a, j, k, a.tickets[k].(state := Conflict));
    }
  }

  lemma KeptMeans(s: State, t: State, k: Key)
    requires EntryKept(s, t, k) && k in s.tickets
    ensures k in t.tickets && t.tickets[k].ticket == s.tickets[k].ticket && t.tickets[k].request == s.tickets[k].request
  {
  }

  lemma OtherKept(s: State, t: State, j: Key, k: Key)
    requires j != k ==> (j in t.tickets <==> j in s.tickets) && (j in s.tickets ==> t.tickets[j] == s.tickets[j])
    ensures j != k ==> EntryKept(s, t, j)
  {
  }

  lemma OtherAfter(s: State, a: State, j: Key, k: Key, e: Entry)
    requires EntryKept(s, a, j)
    ensures j != k ==>
              EntryKept(s, a.(tickets := a.tickets[k := e]), j) && EntryKept(s, a.(tickets := a.tickets - {k}), j)
  {
  }

  // ---- Watermarks fence claims ------------------------------------------------------

  /** Until a drain a watermark only grows. */
  lemma WatermarkGrows(s: State, st: Step, x: string)
    requires st != Drain && x in s.watermarks
    ensures x in After(s, st).watermarks && After(s, st).watermarks[x] >= s.watermarks[x]
  {
    hide Classify, NextKey, IngestTicket, ApplyOutcome;
    match st {
      case Ingest(t, now) => IngestAt(s, t, now, Key(x, x), x);
      case Reply(key, request, o, now) =>
        if Reaches(s, key, request) { OutcomeAt(s, key, o, now, key, x); }
      case _ =>
    }
  }

  lemma {:induction false} WatermarkGrowsInRun(s: State, steps: seq<Step>, x: string)
    requires OneEpoch(steps) && x in s.watermarks
    ensures x in Run(s, steps).watermarks && Run(s, steps).watermarks[x] >= s.watermarks[x]
    decreases |steps|
  {
    hide After;
    if steps != [] {
      WatermarkGrows(s, steps[0], x);
      WatermarkGrowsInRun(After(s, steps[0]), steps[1..], x);
    }
  }

  /** A claim is only ever made for a ticket whose revision is the watermark. */
  lemma ClaimAtWatermark(s: State, key: Key, now: int)
    ensures var (s', a) := Claim(s, key, now);
            && s'.watermarks == s.watermarks
            && (a.Some? ==>
                  && key in s.tickets && a.value.ticket == s.tickets[key].ticket
                  && a.value.request == RequestOf(s, s.tickets[key])
                  && a.value.ticket.key.execution in s.watermarks
                  && a.value.ticket.revision == s.watermarks[a.value.ticket.key.execution]
                  && (s.tickets[key].request.None? ==> !HasExpired(a.value.ticket, now))
                  && s'.lastKey == Some(key) && Reaches(s', key, a.value.request))
            && (a.None? ==> s'.lastKey == s.lastKey)
  {
    hide Classify;
    if key in s.tickets {
      ClassifyKeeps(s, s.tickets[key], now);
    }
  }

  lemma AnyClaimAtWatermark(s: State, st: Step)
    requires Claimed(s, st).Some?
    ensures var t := Claimed(s, st).value.ticket;
            t.key.execution in s.watermarks && t.revision == s.watermarks[t.key.execution]
  {
    hide Claim, Classify, NextKey;
    match st {
      case Worker(now, later) =>
        var c := ClassifyAll(s, now);
        ClaimAtWatermark(c, NextKey(c).value, later);
      case Manual(key, now, later) =>
        var e := Classify(s, s.tickets[key], now);
        var e' := if e.state == WaitRefresh then e.(state := Eligible) else e;
        ClaimAtWatermark(s.(tickets := s.tickets[key := e']), key, later);
    }
  }

  /**
   Once a correlated ACCEPTED or FAILED reply for a ticket at revision N is applied, no later
   step of the epoch claims an attempt for any ticket of that execution at revision N or
   below, from whatever state and through whatever steps.
   */
  lemma AuthorityFencesRevision(s: State, key: Key, request: nat, o: Outcome, now: int, steps: seq<Step>, st: Step)
    requires Reaches(s, key, request) && Correlates(o, s.tickets[key]) && o.kind != RejectedKind
    requires OneEpoch(steps)
    ensures var t := s.tickets[key].ticket;
            var later := Claimed(Run(After(s, Reply(key, request, o, now)), steps), st);
            later.Some? && later.value.ticket.key.execution == t.key.execution ==>
              later.value.ticket.revision > t.revision
  {
    hide Run, Claimed, ApplyOutcome;
    var t := s.tickets[key].ticket;
    OutcomeAt(s, key, o, now, key, t.key.execution);
    var s1 := After(s, Reply(key, request, o, now));
    WatermarkGrowsInRun(s1, steps, t.key.execution);
    if Claimed(Run(s1, steps), st).Some? {
      AnyClaimAtWatermark(Run(s1, steps), st);
    }
  }

  // ---- Request ids ------------------------------------------------------------------

  /** The step applies, to an attempt that is waiting for it, a rejection that lets go of the request id. */
  predicate ReleasesRequest(s: State, st: Step, key: Key, request: nat) {
    && Reaches(s, key, request) && st.Reply? && st.key == key && st.request == request
    && st.outcome.kind == RejectedKind
    && st.outcome.key == key && st.outcome.request == request && !Settlement(st.outcome)
  }

  /**
   Either the entry still carries the request id, or the execution has moved past the
   ticket's revision and anything under the key is newer.
   */
  ghost predicate IdOrNewer(s: State, key: Key, request: nat, revision: nat) {
    || (key in s.tickets && s.tickets[key].request == Some(request) && s.tickets[key].ticket.revision == revision)
    || (&& key.execution in s.watermarks && s.watermarks[key.execution] > revision
        && (key in s.tickets ==> s.tickets[key].ticket.revision > revision))
  }

  /** What a step may do to an entry: nothing to its ticket, and only a release drops its id. */
  lemma StepOnEntry(s: State, st: Step, key: Key)
    requires Inv(s) && st != Drain && key in s.tickets
    ensures var s' := After(s, st);
            && (key in s'.tickets ==>
                  && s'.tickets[key].ticket == s.tickets[key].ticket
                  && (forall r | s.tickets[key].request == Some(r) && !ReleasesRequest(s, st, key, r) ::
                      s'.tickets[key].request == Some(r)))
            && (key !in s'.tickets ==>
                  key.execution in s'.watermarks && s'.watermarks[key.execution] > s.tickets[key].ticket.revision)
  {
    hide Inv, IngestTicket, ApplyOutcome, WorkerClaim, ManualClaim;
    InvAt(s, key);
    match st {
      case Ingest(t, now) => IngestAt(s, t, now, key, key.execution);
      case Worker(now, later) => WorkerOnEntry(s, now, later, key);
      case Manual(k, now, later) => ManualOnEntry(s, k, now, later, key);
      case Reply(k, request, o, now) =>
        if Reaches(s, k, request) { InvAt(s, k); OutcomeAt(s, k, o, now, key, key.execution); }
      case _ =>
    }
  }

  lemma ClaimOnEntry(s: State, k: Key, now: int, key: Key)
    requires key in s.tickets
    ensures var s' := Claim(s, k, now).0;
            && key in s'.tickets && s'.tickets[key].ticket == s.tickets[key].ticket
            && (s.tickets[key].request.Some? ==> s'.tickets[key].request == s.tickets[key].request)
  {
    hide Classify;
    if k in s.tickets { ClassifyKeeps(s, s.tickets[k], now); }
  }

  lemma WorkerOnEntry(s: State, now: int, later: int, key: Key)
    requires key in s.tickets
    ensures var s' := WorkerClaim(s, now, later).0;
            && key in s'.tickets && s'.tickets[key].ticket == s.tickets[key].ticket
            && (s.tickets[key].request.Some? ==> s'.tickets[key].request == s.tickets[key].request)
  {
    hide Classify, Claim, NextKey;
    ClassifyKeeps(s, s.tickets[key], now);
    var c := ClassifyAll(s, now);
    if NextKey(c).Some? { ClaimOnEntry(c, NextKey(c).value, later, key); }
  }

  lemma ManualOnEntry(s: State, k: Key, now: int, later: int, key: Key)
    requires key in s.tickets
    ensures var s' := ManualClaim(s, k, now, later).0;
            && key in s'.tickets && s'.tickets[key].ticket == s.tickets[key].ticket
            && (s.tickets[key].request.Some? ==> s'.tickets[key].request == s.tickets[key].request)
  {
    hide Classify, Claim;
    if k in s.tickets {
      ClassifyKeeps(s, s.tickets[k], now);
      var e := Classify(s, s.tickets[k], now);
      var e' := if e.state == WaitRefresh then e.(state := Eligible) else e;
      ClaimOnEntry(s.(tickets := s.tickets[k := e']), k, later, key);
    }
  }

  /** A ticket enters the table only at or above its execution's watermark. */
  lemma NewEntryAtWatermark(s: State, st: Step, key: Key)
    requires key !in s.tickets && key in After(s, st).tickets
    ensures key.execution in s.watermarks ==> After(s, st).tickets[key].ticket.revision >= s.watermarks[key.execution]
  {
    hide Classify, NextKey, IngestTicket, ApplyOutcome;
    match st {
      case Ingest(t, now) => IngestAt(s, t, now, key, key.execution);
      case Reply(k, request, o, now) =>
        if Reaches(s, k, request) { OutcomeAt(s, k, o, now, key, key.execution); }
      case _ =>
    }
  }

  lemma StepKeepsId(s: State, st: Step, key: Key, request: nat, revision: nat)
    requires Inv(s) && st != Drain && IdOrNewer(s, key, request, revision) && !ReleasesRequest(s, st, key, request)
    ensures IdOrNewer(After(s, st), key, request, revision)
  {
    hide Inv, After;
    if key.execution in s.watermarks { WatermarkGrows(s, st, key.execution); }
    if key in s.tickets {
      StepOnEntry(s, st, key);
    } else if key in After(s, st).tickets {
      NewEntryAtWatermark(s, st, key);
    }
  }

  lemma {:induction false} RunKeepsId(s: State, steps: seq<Step>, key: Key, request: nat, revision: nat)
    requires Inv(s) && OneEpoch(steps) && IdOrNewer(s, key, request, revision)
    requires forall i | 0 <= i < |steps| :: !ReleasesRequest(Run(s, steps[..i]), steps[i], key, request)
    ensures IdOrNewer(Run(s, steps), key, request, revision)
    ensures Inv(Run(s, steps))
    decreases |steps|
  {
    hide Inv, After, IdOrNewer, ReleasesRequest;
    if steps != [] {
      assert Run(s, steps[..0]) == s;
      StepKeepsId(s, steps[0], key, request, revision);
      StepKeeps(s, steps[0]);
      forall i | 0 <= i < |steps[1..]|
        ensures !ReleasesRequest(Run(After(s, steps[0]), steps[1..][..i]), steps[1..][i], key, request)
      {
        assert steps[..i + 1][1..] == steps[1..][..i];
      }
      RunKeepsId(After(s, steps[0]), steps[1..], key, request, revision);
    }
  }

  /** What a claim is made for, whichever step makes it. */
  lemma ClaimedEntry(s: State, st: Step)
    requires Inv(s) && Claimed(s, st).Some?
    ensures var a := Claimed(s, st).value;
            && a.ticket.key in s.tickets && a.ticket == s.tickets[a.ticket.key].ticket
            && a.request == RequestOf(s, s.tickets[a.ticket.key])
            && After(s, st).lastKey == Some(a.ticket.key)
            && Reaches(After(s, st), a.ticket.key, a.request)
            && (st.Worker? || st.Manual?)
            && (s.tickets[a.ticket.key].request.None? ==> !HasExpired(a.ticket, st.later))
  {
    hide Inv, Claim, Classify, NextKey;
    match st {
      case Worker(now, later) =>
        var c := ClassifyAll(s, now);
        var k := NextKey(c).value;
        ClaimAtWatermark(c, k, later);
        ClassifyKeeps(s, s.tickets[k], now);
        InvAt(s, k);
      case Manual(key, now, later) =>
        ClassifyKeeps(s, s.tickets[key], now);
        var e := Classify(s, s.tickets[key], now);
        var e' := if e.state == WaitRefresh then e.(state := Eligible) else e;
        ClaimAtWatermark(s.(tickets := s.tickets[key := e']), key, later);
        InvAt(s, key);
    }
  }

  /**
   Two claims of one ticket in an epoch carry different request ids only if, in the state it met,
   a rejection that is not a settlement was applied to the first id between them, or the second is
   for a strictly higher revision.
   */
  lemma RequestIdStable(s: State, first: Step, steps: seq<Step>, second: Step)
    requires Inv(s) && Claimed(s, first).Some? && OneEpoch(steps)
    requires var s2 := Run(After(s, first), steps);
             Claimed(s2, second).Some? && Claimed(s2, second).value.ticket.key == Claimed(s, first).value.ticket.key
    ensures var a, b := Claimed(s, first).value, Claimed(Run(After(s, first), steps), second).value;
            || a.request == b.request
            || b.ticket.revision > a.ticket.revision
            || exists i | 0 <= i < |steps| ::
                 ReleasesRequest(Run(After(s, first), steps[..i]), steps[i], a.ticket.key, a.request)
  {
    hide Inv, After, Claimed, Run, ReleasesRequest;
    var a := Claimed(s, first).value;
    ClaimedEntry(s, first);
    StepKeeps(s, first);
    ClaimNotDrain(s, first);
    StepOnEntry(s, first, a.ticket.key);
    var s1 := After(s, first);
    if forall i | 0 <= i < |steps| :: !ReleasesRequest(Run(s1, steps[..i]), steps[i], a.ticket.key, a.request) {
      RunKeepsId(s1, steps, a.ticket.key, a.request, a.ticket.revision);
      ClaimedEntry(Run(s1, steps), second);
    }
  }

  lemma ClaimNotDrain(s: State, st: Step)
    requires Claimed(s, st).Some?
    ensures st != Drain
  {
  }

  /** A new request id is newer than every id in use and never goes to an expired ticket. */
  lemma FreshIdsAreFresh(s: State, st: Step, key: Key)
    requires Inv(s) && Claimed(s, st).Some? && Claimed(s, st).value.ticket.key == key
    requires key in s.tickets && s.tickets[key].request.None?
    ensures var a := Claimed(s, st).value;
            && (st.Worker? || st.Manual?) && !HasExpired(a.ticket, st.later)
            && (forall k | k in s.tickets && s.tickets[k].request.Some? :: s.tickets[k].request.value < a.request)
  {
    hide Inv, Claimed;
    ClaimedEntry(s, st);
    forall k | k in s.tickets && s.tickets[k].request.Some?
      ensures s.tickets[k].request.value < s.nextRequest
    {
      InvAt(s, k);
    }
  }

  // ---- Terminal states --------------------------------------------------------------

  /** A late rejection that leaves its entry live. */
  predicate Reviving(o: Outcome, e: Entry, now: int) {
    && Correlates(o, e) && o.kind == RejectedKind
    && (|| Settlement(o)
        || (o.code == "CLAIM_EXPIRED" && !HasExpired(e.ticket, now))
        || (o.code != "CLAIM_EXPIRED" && o.retryable))
  }

  lemma RejectedEntryTerminal(s: State, e: Entry, o: Outcome, now: int)
    requires Correlates(o, e) && o.kind == RejectedKind
    ensures !Terminal(RejectedEntry(s, e, o, now).state) <==> Reviving(o, e, now)
  {
    hide Authorized, CapabilitiesReady, HasExpired;
  }

  lemma OutcomeTerminal(s: State, k: Key, o: Outcome, now: int, key: Key)
    requires k in s.tickets && key in s.tickets && Terminal(s.tickets[key].state)
    ensures var s' := ApplyOutcome(s, k, o, now);
            key in s'.tickets && !Terminal(s'.tickets[key].state) <==> k == key && Reviving(o, s.tickets[key], now)
  {
    var e := s.tickets[k];
    if k != key {
      OutcomeAt(s, k, o, now, key, "");
    } else if Correlates(o, e) && o.kind == RejectedKind {
      hide Correlates, Reviving, RejectedEntry;
      RejectedEntryTerminal(s, e, o, now);
    } else {
      hide AdvanceWatermark;
      AdvanceAt(s, e.ticket.key.execution, AuthorityFloor(e.ticket, o), k, "");
    }
  }

  lemma WorkerTerminal(s: State, now: int, later: int, key: Key)
    requires key in s.tickets && Terminal(s.tickets[key].state)
    ensures key in WorkerClaim(s, now, later).0.tickets && Terminal(WorkerClaim(s, now, later).0.tickets[key].state)
  {
    hide Classify, NextKey;
    ClassifyKeeps(s, s.tickets[key], now);
    var c := ClassifyAll(s, now);
    if NextKey(c).Some? && NextKey(c).value in c.tickets {
      ClassifyKeeps(c, c.tickets[NextKey(c).value], later);
    }
  }

  lemma ManualTerminal(s: State, k: Key, now: int, later: int, key: Key)
    requires key in s.tickets && Terminal(s.tickets[key].state)
    ensures key in ManualClaim(s, k, now, later).0.tickets
            && Terminal(ManualClaim(s, k, now, later).0.tickets[key].state)
  {
    hide Classify;
  }

  /**
   Terminal states are not absorbing: a terminal entry becomes live again exactly when a late
   rejection of its own request id arrives that is retryable in one of three ways.
   */
  lemma TerminalLeftExactly(s: State, st: Step, key: Key)
    requires st != Drain && key in s.tickets && Terminal(s.tickets[key].state)
    ensures key in After(s, st).tickets && !Terminal(After(s, st).tickets[key].state) <==>
            st.Reply? && st.key == key && Reaches(s, key, st.request) && Reviving(st.outcome, s.tickets[key], st.now)
  {
    hide IngestTicket, WorkerClaim, ManualClaim, ApplyOutcome, Reviving;
    match st {
      case Ingest(t, now) => IngestAt(s, t, now, key, "");
      case Worker(now, later) => WorkerTerminal(s, now, later, key);
      case Manual(k, now, later) => ManualTerminal(s, k, now, later, key);
      case Reply(k, request, o, now) =>
        if Reaches(s, k, request) { OutcomeTerminal(s, k, o, now, key); }
      case _ =>
    }
  }
}

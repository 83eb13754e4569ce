/** Round-robin fairness of the resume worker (cl/src/core/client_runtime.py). */
module ResumeFairness {
  import opened Common
  import opened ResumeTickets
  import opened ResumeProtocol

  /** In the circular order that starts just after k and ends with k, a comes before b. */
  ghost predicate CyclicBefore(k: Key, a: Key, b: Key) {
    if KeyLess(k, a) then KeyLess(a, b) || !KeyLess(k, b)
    else !KeyLess(k, b) && KeyLess(a, b)
  }

  lemma CyclicOrder(k: Key, a: Key, b: Key, c: Key)
    ensures !CyclicBefore(k, a, a)
    ensures CyclicBefore(k, a, b) && CyclicBefore(k, b, c) ==> CyclicBefore(k, a, c)
  {
    hide KeyLess;
    KeyOrder(a, b, c);
    KeyOrder(k, a, b);
    KeyOrder(k, b, c);
    KeyOrder(k, a, c);
    KeyOrder(a, a, a);
  }

  /** While k is eligible, the next key is circularly after the last one claimed, up to k. */
  lemma NextIsCyclicallyAfter(s: State, k: Key, l: Key)
    requires k in EligibleKeys(s) && s.lastKey == Some(l) && l != k
    ensures NextKey(s).Some? && CyclicBefore(k, l, NextKey(s).value)
  {
    hide KeyLess;
    var eligible := EligibleKeys(s);
    var after := set x | x in eligible && KeyLess(l, x);
    var next := NextKey(s).value;
    assert after == set x | x in eligible && s.lastKey.Some? && KeyLess(s.lastKey.value, x);
    KeyOrder(k, l, k);
    KeyOrder(k, next, k);
    KeyOrder(l, k, l);
    if KeyLess(l, k) {
      assert k in after;
    }
  }

  /** The keys claimed along a run, in order. */
  ghost function ClaimedKeys(s: State, steps: seq<Step>): seq<Key>
    decreases |steps|
  {
    if steps == [] then []
    else
      var rest := ClaimedKeys(After(s, steps[0]), steps[1..]);
      var c := Claimed(s, steps[0]);
      if c.Some? then [c.value.ticket.key] + rest else rest
  }

  predicate WorkerOnly(steps: seq<Step>) {
    forall i | 0 <= i < |steps| :: !steps[i].Manual? && !steps[i].Drain?
  }

  /** Whenever the worker looks for work in the run, the ticket is eligible. */
  ghost predicate StaysEligible(s: State, steps: seq<Step>, k: Key)
    decreases |steps|
  {
    steps != [] ==>
      && (steps[0].Worker? && s.ready && s.phaseReady ==> k in EligibleKeys(ClassifyAll(s, steps[0].now)))
      && StaysEligible(After(s, steps[0]), steps[1..], k)
  }

  lemma IngestKeepsLast(s: State, t: Ticket, now: int)
    ensures IngestTicket(s, t, now).lastKey == s.lastKey
  {
    hide Classify, StaleTicket, Rival, SupersededBy;
  }

  lemma OutcomeKeepsLast(s: State, key: Key, o: Outcome, now: int)
    requires key in s.tickets
    ensures ApplyOutcome(s, key, o, now).lastKey == s.lastKey
  {
    hide RejectedEntry, AdvanceWatermark, Correlates;
    AdvanceShape(s, s.tickets[key].ticket.key.execution, AuthorityFloor(s.tickets[key].ticket, o));
  }

  lemma OtherStepsKeepLast(s: State, st: Step)
    requires !st.Worker? && !st.Manual? && !st.Drain?
    ensures After(s, st).lastKey == s.lastKey && Claimed(s, st).None?
  {
    hide IngestTicket, ApplyOutcome;
    match st {
      case Ingest(t, now) => IngestKeepsLast(s, t, now);
      case Reply(key, request, o, now) =>
        if Reaches(s, key, request) { OutcomeKeepsLast(s, key, o, now); }
      case _ =>
    }
  }

  lemma WorkerStepAdvances(s: State, now: int, later: int, k: Key)
    requires Inv(s) && (s.ready && s.phaseReady ==> k in EligibleKeys(ClassifyAll(s, now)))
    ensures var st := Worker(now, later);
            && (Claimed(s, st).None? ==> After(s, st).lastKey == s.lastKey)
            && (Claimed(s, st).Some? ==>
                  && After(s, st).lastKey == Some(Claimed(s, st).value.ticket.key)
                  && (forall l | s.lastKey == Some(l) && l != k :: CyclicBefore(k, l, Claimed(s, st).value.ticket.key)))
  {
    hide Classify, Claim, NextKey, EligibleKeys, CyclicBefore, Inv;
    var c := ClassifyAll(s, now);
    if Claimed(s, Worker(now, later)).Some? {
      ClaimedEntry(s, Worker(now, later));
      if s.lastKey.Some? && s.lastKey.value != k {
        NextIsCyclicallyAfter(c, k, s.lastKey.value);
      }
      ClaimAtWatermark(c, NextKey(c).value, later);
    } else if s.ready && s.phaseReady && NextKey(c).Some? {
      ClaimAtWatermark(c, NextKey(c).value, later);
    }
  }

  /** Every key claimed in the run is circularly after the last key claimed before it. */
  lemma {:induction false} AllCyclicallyAfter(s: State, steps: seq<Step>, k: Key, l: Key)
    requires Inv(s) && s.lastKey == Some(l) && l != k
    requires WorkerOnly(steps) && StaysEligible(s, steps, k) && k !in ClaimedKeys(s, steps)
    ensures forall d | d in ClaimedKeys(s, steps) :: CyclicBefore(k, l, d)
    decreases |steps|
  {
    hide After, Claimed, Inv, CyclicBefore, EligibleKeys, ClassifyAll;
    if steps != [] {
      var st, s' := steps[0], After(s, steps[0]);
      StepKeeps(s, st);
      if st.Worker? {
        WorkerStepAdvances(s, st.now, st.later, k);
      } else {
        OtherStepsKeepLast(s, st);
      }
      var c := Claimed(s, st);
      if c.Some? {
        var m := c.value.ticket.key;
        assert m in ClaimedKeys(s, steps);
        AllCyclicallyAfter(s', steps[1..], k, m);
        forall d | d in ClaimedKeys(s', steps[1..])
          ensures CyclicBefore(k, l, d)
        {
          CyclicOrder(k, l, m, d);
        }
      } else {
        AllCyclicallyAfter(s', steps[1..], k, l);
      }
    }
  }

  /**
   While a ticket stays eligible, and until it is itself claimed, the worker claims every
   other ticket at most once, whatever arrives or changes in between.
   */
  lemma {:induction false} WorkerFairness(s: State, steps: seq<Step>, k: Key)
    requires Inv(s) && WorkerOnly(steps) && StaysEligible(s, steps, k) && k !in ClaimedKeys(s, steps)
    ensures var keys := ClaimedKeys(s, steps);
            forall i, j | 0 <= i < j < |keys| :: keys[i] != keys[j]
    decreases |steps|
  {
    hide After, Claimed, Inv, EligibleKeys, ClassifyAll, CyclicBefore;
    if steps != [] {
      var st, s' := steps[0], After(s, steps[0]);
      StepKeeps(s, st);
      if st.Worker? {
        WorkerStepAdvances(s, st.now, st.later, k);
      } else {
        OtherStepsKeepLast(s, st);
      }
      WorkerFairness(s', steps[1..], k);
      var c := Claimed(s, st);
      if c.Some? {
        var m := c.value.ticket.key;
        assert m in ClaimedKeys(s, steps);
        AllCyclicallyAfter(s', steps[1..], k, m);
        CyclicOrder(k, m, m, m);
        assert m !in ClaimedKeys(s', steps[1..]);
      }
    }
  }

  /**
   While a ticket is eligible a worker round always picks one, and claims it exactly when it has not
   expired between the two readings of the clock or carries a request id already.
   */
  lemma WorkerMakesProgress(s: State, now: int, later: int, k: Key)
    requires s.ready && s.phaseReady && k in EligibleKeys(ClassifyAll(s, now))
    ensures var c := ClassifyAll(s, now);
            && NextKey(c).Some? && NextKey(c).value in c.tickets
            && var next := c.tickets[NextKey(c).value];
               Claimed(s, Worker(now, later)).Some? <==> next.request.Some? || !HasExpired(next.ticket, later)
  {
    hide KeyLess, Authorized, CapabilitiesReady;
    var c := ClassifyAll(s, now);
    var next := NextKey(c).value;
    assert next in EligibleKeys(c);
    assert c.watermarks == s.watermarks;
    SameFlags(s, c, c.tickets[next], later);
    ClassifyLater(s, s.tickets[next], now, later);
  }

  lemma ClassifyLater(s: State, e: Entry, now: int, later: int)
    requires Claimable(Classify(s, e, now))
    ensures Claimable(Classify(s, Classify(s, e, now), later)) <==> e.request.Some? || !HasExpired(e.ticket, later)
  {
    SameAuthority(s, e, Classify(s, e, now));
  }

  lemma SameAuthority(s: State, e: Entry, f: Entry)
    requires f == e.(state := f.state)
    ensures Authorized(s, f) == Authorized(s, e) && CapabilitiesReady(s, f) == CapabilitiesReady(s, e)
  {
  }

  lemma SameFlags(s: State, t: State, e: Entry, now: int)
    requires t == s.(tickets := t.tickets)
    ensures Classify(t, e, now) == Classify(s, e, now)
  {
  }

  // ---- The bound on waiting ---------------------------------------------------------

  /** A worker round of a ready client whose pick does not expire between the two readings of the clock. */
  ghost predicate Effective(s: State, st: Step) {
    && st.Worker? && s.ready && s.phaseReady
    && var c := ClassifyAll(s, st.now);
       && NextKey(c).Some? && NextKey(c).value in c.tickets
       && var next := c.tickets[NextKey(c).value];
          next.request.Some? || !HasExpired(next.ticket, st.later)
  }

  ghost function EffectiveRounds(s: State, steps: seq<Step>): nat
    decreases |steps|
  {
    if steps == [] then 0
    else (if Effective(s, steps[0]) then 1 else 0) + EffectiveRounds(After(s, steps[0]), steps[1..])
  }

  /** Whenever the worker looks for work before it claims the ticket, the ticket is eligible. */
  ghost predicate EligibleUntilClaimed(s: State, steps: seq<Step>, k: Key)
    decreases |steps|
  {
    steps != [] ==>
      && (steps[0].Worker? && s.ready && s.phaseReady ==> k in EligibleKeys(ClassifyAll(s, steps[0].now)))
      && (k in ClaimedKeys(s, steps[..1]) || EligibleUntilClaimed(After(s, steps[0]), steps[1..], k))
  }

  lemma OneStepClaims(s: State, steps: seq<Step>)
    requires steps != []
    ensures ClaimedKeys(s, steps[..1])
            == if Claimed(s, steps[0]).Some? then [Claimed(s, steps[0]).value.ticket.key] else []
  {
    assert steps[..1][1..] == [];
    assert ClaimedKeys(After(s, steps[0]), []) == [];
  }

  /** While a ticket waits, the effective rounds are the rounds that claim something. */
  lemma {:induction false} RoundsClaim(s: State, steps: seq<Step>, k: Key)
    requires WorkerOnly(steps) && EligibleUntilClaimed(s, steps, k) && k !in ClaimedKeys(s, steps)
    ensures StaysEligible(s, steps, k) && EffectiveRounds(s, steps) == |ClaimedKeys(s, steps)|
    decreases |steps|
  {
    if steps != [] {
      var st := steps[0];
      OneStepClaims(s, steps);
      assert Claimed(s, st).Some? <==> Effective(s, st) by {
        if st.Worker? {
          if s.ready && s.phaseReady { WorkerMakesProgress(s, st.now, st.later, k); }
        } else {
          OtherStepsKeepLast(s, st);
        }
      }
      hide After, Claimed, Effective, EligibleKeys, ClassifyAll;
      RoundsClaim(After(s, st), steps[1..], k);
    }
  }

  lemma {:induction false} DistinctWithin(keys: seq<Key>, others: set<Key>)
    requires forall i, j | 0 <= i < j < |keys| :: keys[i] != keys[j]
    requires forall d | d in keys :: d in others
    ensures |keys| <= |others|
    decreases |keys|
  {
    if keys != [] {
      var n := |keys| - 1;
      forall d | d in keys[..n] ensures d in others - {keys[n]} {}
      DistinctWithin(keys[..n], others - {keys[n]});
    }
  }

  /**
   If only n other tickets are claimed in the run, a ticket that is eligible until it is claimed is
   claimed within n + 1 effective rounds.
   */
  lemma ClaimedWithin(s: State, steps: seq<Step>, k: Key, others: set<Key>)
    requires Inv(s) && WorkerOnly(steps) && EligibleUntilClaimed(s, steps, k)
    requires forall d | d in ClaimedKeys(s, steps) :: d == k || d in others
    requires EffectiveRounds(s, steps) > |others|
    ensures k in ClaimedKeys(s, steps)
  {
    hide Inv, ClaimedKeys, EffectiveRounds, EligibleUntilClaimed, StaysEligible;
    if k !in ClaimedKeys(s, steps) {
      RoundsClaim(s, steps, k);
      WorkerFairness(s, steps, k);
      DistinctWithin(ClaimedKeys(s, steps), others);
    }
  }

  // ---- Reviving a conflicting ticket ------------------------------------------------

  const Capability := "c"

  function SampleTicket(checkpoint: string): Ticket {
    Ticket(Key("e", checkpoint), 3, "CONNECTION", [Capability], Some("me"), None, true)
  }

  const First := SampleTicket("x")

  const Second := SampleTicket("y")

  /** The sample runtime holding the first ticket in the given state. */
  function Sample(state: TicketState, request: Option<nat>, conflicts: map<string, int>, last: Option<Key>,
                  next: nat): State {
    State(map[First.key := Entry(First, Some("p"), state, request, 0)], map["e" := 3], conflicts, last,
          true, true, {Capability}, Some("p"), "me", next)
  }

  const Empty := State(map[], map[], map[], None, true, true, {Capability}, Some("p"), "me", 0)

  const Late := Outcome(RejectedKind, First.key, 0, "CLAIM_EXPIRED", false, false, None)

  lemma FirstAdmitted()
    ensures IngestTicket(Empty, First, 0) == Sample(Eligible, None, map[], None, 0)
  {
    var advanced := AdvanceWatermark(Empty, "e", 3);
    assert advanced == Empty.(watermarks := map["e" := 3]);
    assert Authorized(advanced, Entry(First, Some("p"), Observed, None, 0));
  }

  lemma FirstClaimed(next: nat, conflicts: map<string, int>, last: Option<Key>)
    ensures ManualClaim(Sample(Eligible, None, conflicts, last, next), First.key, 0, 0)
            == (Sample(InFlight, Some(next), conflicts, Some(First.key), next + 1), Some(Attempt(First, next)))
  {
    var s := Sample(Eligible, None, conflicts, last, next);
    assert Authorized(s, s.tickets[First.key]) && CapabilitiesReady(s, s.tickets[First.key]);
    assert Classify(s, s.tickets[First.key], 0) == s.tickets[First.key];
    assert s.tickets[First.key := s.tickets[First.key]] == s.tickets;
    var claimed := s.tickets[First.key].(state := InFlight, request := Some(next));
    assert s.tickets[First.key := claimed] == map[First.key := claimed];
  }

  lemma SecondConflicts()
    ensures IngestTicket(Sample(InFlight, Some(0), map[], Some(First.key), 1), Second, 0)
            == Sample(Conflict, Some(0), map["e" := 3], Some(First.key), 1)
  {
    var s := Sample(InFlight, Some(0), map[], Some(First.key), 1);
    assert "x" != "y";
    assert Rival(s.tickets[First.key], Second);
  }

  lemma LateRejectionRevives()
    ensures ApplyOutcome(Sample(Conflict, Some(0), map["e" := 3], Some(First.key), 1), First.key, Late, 0)
            == Sample(Eligible, None, map["e" := 3], Some(First.key), 1)
  {
    var s := Sample(Conflict, Some(0), map["e" := 3], Some(First.key), 1);
    assert Authorized(s, s.tickets[First.key].(request := None, state := Observed));
  }

  /**
   A run in which a ticket marked as conflicting is claimed again at the conflicting
   revision, under a new request id: the late rejection of its first request revives it.
   */
  lemma ConflictClaimedAgain()
    ensures var s := Run(Empty, [Ingest(First, 0), Manual(First.key, 0, 0), Ingest(Second, 0)]);
            && First.key in s.tickets && s.tickets[First.key].state == Conflict && s.conflicts == map["e" := 3]
            && var s' := After(s, Reply(First.key, 0, Late, 0));
            && s'.conflicts == map["e" := 3] && Claimed(s', Manual(First.key, 0, 0)) == Some(Attempt(First, 1))
  {
    hide IngestTicket, ManualClaim, ApplyOutcome;
    FirstAdmitted();
    FirstClaimed(0, map[], None);
    SecondConflicts();
    LateRejectionRevives();
    FirstClaimed(1, map["e" := 3], Some(First.key));
    var steps := [Ingest(First, 0), Manual(First.key, 0, 0), Ingest(Second, 0)];
    var s1, s2 := Sample(Eligible, None, map[], None, 0), Sample(InFlight, Some(0), map[], Some(First.key), 1);
    var s3 := Sample(Conflict, Some(0), map["e" := 3], Some(First.key), 1);
    assert After(Empty, Ingest(First, 0)) == s1 && After(s1, Manual(First.key, 0, 0)) == s2;
    assert After(s2, Ingest(Second, 0)) == s3;
    assert steps[1..] == [Manual(First.key, 0, 0), Ingest(Second, 0)];
    assert steps[1..][1..] == [Ingest(Second, 0)];
    assert steps[1..][1..][1..] == [];
    assert Run(s2, [Ingest(Second, 0)]) == Run(s3, []);
    assert Run(s1, steps[1..]) == s3;
    assert Run(Empty, steps) == s3;
  }
}

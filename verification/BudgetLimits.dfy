/** The limits of a policy hold in every window, at every moment of every run. */
module BudgetLimits {
  import opened Common
  import opened BudgetStore
  import opened BudgetQuota
  import opened BudgetShadow
  import opened BudgetMirror
  import opened BudgetRuns
  import opened BudgetOnce

  /** What a window has used or promised. */
  ghost function Committed(s: Store, e: nat, k: Kind): nat
    requires e in s.windows
  {
    Count(s.windows[e].used, k) + ReservedSum(s.rows, e, k)
  }

  ghost predicate WithinLimit(s: Store, e: nat, k: Kind) {
    Governing(s, e).Some? && k in Governing(s, e).value.limits ==> Committed(s, e, k) <= Governing(s, e).value.limits[k]
  }

  // ---- Reserving --------------------------------------------------------------------

  lemma RolloverLimit(s: Store, now: int, e: nat, k: Kind)
    requires Inv(s) && ActiveWindow(s, now).Ok? && WithinLimit(s, e, k)
    ensures WithinLimit(ActiveWindow(s, now).value.0, e, k)
  {
    hide Inv, ReservedSum, SettledSum;
    var (t, x) := ActiveWindow(s, now).value;
    InvKnown(s);
    if t != s && x == e { NoRows(s.rows, e, k); }
  }

  lemma ReserveInLimit(s: Store, rq: Request, x: nat, e: nat, k: Kind)
    requires Inv(s) && x in s.windows && QuotaKey(rq.logicalId, InferenceCall) !in s.rows && QuotaKind(k)
    requires AdmissionError(s, rq, x).None? && WithinLimit(s, e, k)
    ensures WithinLimit(ReserveIn(s, rq, x), e, k)
  {
    hide Inv, ReservedSum, SettledSum, WithRows, IsShadow, Estimable;
    FreshId(s, rq.logicalId);
    NewRowsSums(s.rows, rq.logicalId, rq.fingerprint, x, e, k);
    InvParts(s, e, k, "", Operation("", "", ""));
  }

  lemma ReserveLimit(s: Store, rq: Request, now: int, e: nat, k: Kind)
    requires Inv(s) && QuotaKind(k) && WithinLimit(s, e, k)
    ensures WithinLimit(Reserve(s, rq, now).0, e, k)
  {
    hide Inv, WithinLimit, ReserveIn, AdmissionError, Replay, ActiveWindow;
    if Reserve(s, rq, now).0 != s {
      var (t, x) := ActiveWindow(s, now).value;
      RolloverInv(s, now);
      RolloverLimit(s, now, e, k);
      ReserveInLimit(t, rq, x, e, k);
    }
  }

  // ---- Settling ---------------------------------------------------------------------

  /** What a settlement moves the committed amount by. */
  function Excess(s: Store, a: Admission, u: Reported, k: Kind): int {
    if Pending(s, a, u, k) then Actual(u, k).value - s.rows[QuotaKey(a.logicalId, k)].amount else 0
  }

  lemma SettleKindCommits(s: Store, a: Admission, u: Reported, j: Kind, e: nat, k: Kind)
    requires Inv(s) && Issued(s, a) && a.epoch in s.windows && e in s.windows && QuotaKind(j)
    ensures Committed(SettleKind(s, a, u, j), e, k) == Committed(s, e, k) + if j == k
            && e == a.epoch then Excess(s, a, u, k) else 0
  {
    hide Inv, ReservedSum, SettledSum, Minus;
    RowsOfRequest(s, a.logicalId, j);
    if Pending(s, a, u, j) {
      var key := QuotaKey(a.logicalId, j);
      RowWritten(s.rows, key, s.rows[key].(state := Settled(Actual(u, j).value)), e, k);
    }
  }

  lemma SettleKindLeaves(s: Store, a: Admission, u: Reported, j: Kind, k: Kind)
    requires a.epoch in s.windows && j != k
    ensures Excess(SettleKind(s, a, u, j), a, u, k) == Excess(s, a, u, k)
  {
    hide Plus, Minus;
  }

  lemma {:induction false} SettleAllCommits(s: Store, a: Admission, u: Reported, kinds: seq<Kind>, e: nat, k: Kind)
    requires Inv(s) && Issued(s, a) && a.epoch in s.windows && e in s.windows
    requires (forall j | j in kinds :: QuotaKind(j)) && (forall i, j | 0 <= i < j < |kinds| :: kinds[i] != kinds[j])
    ensures e in SettleAll(s, a, u, kinds).windows
    ensures Committed(SettleAll(s, a, u, kinds), e, k)
            == Committed(s, e, k) + if k in kinds && e == a.epoch then Excess(s, a, u, k) else 0
    decreases |kinds|
  {
    hide Inv, Committed, Excess, Issued;
    if kinds != [] {
      var t := SettleKind(s, a, u, kinds[0]);
      SettleKindCommits(s, a, u, kinds[0], e, k);
      SettleKindKeeps(s, a, u, kinds[0]);
      SettleAllCommits(t, a, u, kinds[1..], e, k);
      assert k in kinds <==> k == kinds[0] || k in kinds[1..];
      if k == kinds[0] { assert k !in kinds[1..]; } else { SettleKindLeaves(s, a, u, kinds[0], k); }
    }
  }

  /**
   Settling keeps a limit exactly when what is reported beyond the reservation still fits.
   A call is reported as one, so the call limit always survives.
   */
  lemma SettleLimitExact(s: Store, a: Admission, u: Reported, e: nat, k: Kind)
    requires Inv(s) && Issued(s, a) && Settle(s, a, u).Ok? && QuotaKind(k) && e in s.windows
    ensures var t := Settle(s, a, u).value;
            && e in t.windows && Governing(t, e) == Governing(s, e)
            && Committed(t, e, k) == Committed(s, e, k) + (if e == a.epoch then Excess(s, a, u, k) else 0)
            && (WithinLimit(t, e, k) <==>
                (Governing(s, e).Some? && k in Governing(s, e).value.limits ==>
                   Committed(s, e, k) + (if e == a.epoch then Excess(s, a, u, k) else 0)
                   <= Governing(s, e).value.limits[k]))
    ensures k == InferenceCall ==> Excess(s, a, u, k) == 0
  {
    hide Inv, Committed, SettleAll, FirstRowError, Underflows, Overflows;
    QuotaKindsAre();
    SettleAllCommits(s, a, u, QuotaKinds, e, k);
    RowsOfRequest(s, a.logicalId, k);
    SettleGoverning(s, a, u, QuotaKinds, e);
  }

  lemma QuotaKindsAre()
    ensures forall k :: k in QuotaKinds <==> QuotaKind(k)
    ensures forall i, j | 0 <= i < j < |QuotaKinds| :: QuotaKinds[i] != QuotaKinds[j]
  {
    assert QuotaKinds[0] == InferenceCall && QuotaKinds[1] == InputToken && QuotaKinds[2] == OutputToken
           && QuotaKinds[3] == TotalToken;
  }

  lemma {:induction false} SettleGoverning(s: Store, a: Admission, u: Reported, kinds: seq<Kind>, e: nat)
    requires a.epoch in s.windows
    ensures Governing(SettleAll(s, a, u, kinds), e) == Governing(s, e)
    decreases |kinds|
  {
    hide Plus, Minus;
    if kinds != [] { SettleGoverning(SettleKind(s, a, u, kinds[0]), a, u, kinds[1..], e); }
  }

  /** The provider reports no more than was reserved. */
  predicate WithinEstimate(step: Step, k: Kind) {
    step.SettleStep? && Actual(step.reported, k).Some? ==>
      Actual(step.reported, k).value <= Amount(step.admission.fingerprint, k)
  }

  lemma SettleLimit(s: Store, a: Admission, u: Reported, e: nat, k: Kind)
    requires Inv(s) && Issued(s, a) && Settle(s, a, u).Ok? && QuotaKind(k) && WithinEstimate(SettleStep(a, u), k)
    requires WithinLimit(s, e, k)
    ensures WithinLimit(Settle(s, a, u).value, e, k)
  {
    hide Inv, Committed, SettleAll, FirstRowError, Underflows, Overflows;
    RowsOfRequest(s, a.logicalId, k);
    if e in s.windows { SettleLimitExact(s, a, u, e, k); } else { SettleGoverning(s, a, u, QuotaKinds, e); }
  }

  // ---- Mirroring --------------------------------------------------------------------

  /** Nothing is limited in the window. */
  predicate Unlimited(s: Store, e: nat) { Governing(s, e).Some? && Governing(s, e).value.limits == map[] }

  lemma ChargeLimit(s: Store, x: nat, op: Operation, source: string, d: Mirrored, e: nat, k: Kind)
    requires DimensionValid(d) && Unlimited(s, x) && WithinLimit(s, e, k)
    ensures WithinLimit(Charge(s, x, op, source, d), e, k)
  {
    hide ReservedSum, SettledSum, WithToolUsage;
    RowWritten(s.rows, MirrorKey(op, d.dimension.kind), MirrorRow(d, x), e, k);
  }

  lemma {:induction false} MirrorAllLimit(s: Store, x: nat, op: Operation, source: string, dims: seq<Mirrored>, e: nat,
                                          k: Kind)
    requires x in s.windows && MirrorAll(s, x, op, source, dims).Ok? && Unlimited(s, x) && WithinLimit(s, e, k)
    ensures WithinLimit(MirrorAll(s, x, op, source, dims).value, e, k)
    decreases |dims|
  {
    hide WithinLimit, Charge, Governing;
    if dims != [] {
      ChargeLimit(s, x, op, source, dims[0], e, k);
      ChargeGoverned(s, x, op, source, dims[0], x);
      MirrorAllLimit(Charge(s, x, op, source, dims[0]), x, op, source, dims[1..], e, k);
    }
  }

  lemma AccountOnlyLimit(s: Store, t: Store, e: nat, k: Kind)
    requires Inv(s) && AccountOnly(s, t) && WithinLimit(s, e, k)
    ensures WithinLimit(t, e, k)
  {
    hide Inv;
    InvParts(s, e, k, "", Operation("", "", ""));
  }

  lemma MirrorLimit(s: Store, cfg: Settings, op: Operation, source: string, dims: seq<Mirrored>, now: int, e: nat,
                    k: Kind)
    requires Inv(s) && Mirror(s, cfg, op, source, dims, now).Ok? && WithinLimit(s, e, k)
    ensures WithinLimit(Mirror(s, cfg, op, source, dims, now).value, e, k)
  {
    hide Inv, MirrorAll, EnsureShadowAccount, ActiveWindow, Recorded, RecordedAs, ShapeAllowed, Committed, Governing;
    var t := Mirror(s, cfg, op, source, dims, now).value;
    if t != s {
      if |dims| == 1 && dims[0].dimension.NoCharge? {
        assert t.windows == s.windows && t.rows == s.rows && t.policies == s.policies;
        SameLimit(s, t, e, k);
      } else {
        var s1 := EnsureShadowAccount(s, cfg).value;
        EnsureShadowAccountInv(s, cfg);
        AccountOnlyLimit(s, s1, e, k);
        RolloverLimit(s1, now, e, k);
        ShadowWindowInv(s, cfg, now);
        var (w, x) := ShadowWindow(s, cfg, now).value;
        MirrorAllLimit(w, x, op, source, dims, e, k);
      }
    }
  }

  lemma SameLimit(s: Store, t: Store, e: nat, k: Kind)
    requires t.windows == s.windows && t.rows == s.rows && t.policies == s.policies && WithinLimit(s, e, k)
    ensures WithinLimit(t, e, k)
  {
  }

  // ---- Runs -------------------------------------------------------------------------

  lemma StepLimit(s: Store, cfg: Settings, step: Step, e: nat, k: Kind)
    requires Inv(s) && QuotaKind(k) && WithinEstimate(step, k) && WithinLimit(s, e, k)
    ensures WithinLimit(After(s, cfg, step), e, k)
  {
    hide Inv, WithinLimit, Reserve, Settle, Mirror, CreatePolicy, SelectPolicy, Dimensions, AccountOnly;
    InvAccount(s);
    match step
    case ReserveStep(rq, now) => ReserveLimit(s, rq, now, e, k);
    case SettleStep(a, u) => if Issued(s, a) && Settle(s, a, u).Ok? { SettleLimit(s, a, u, e, k); }
    case MirrorStep(op, source, c, now) =>
      if Mirror(s, cfg, op, source, Dimensions(c), now).Ok? {
        MirrorLimit(s, cfg, op, source, Dimensions(c), now, e, k);
      }
    case PolicyStep(p) =>
      if CreatePolicy(s, p).Ok? { CreateKeeps(s, p); AccountOnlyLimit(s, CreatePolicy(s, p).value, e, k); }
    case SelectStep(id) =>
      if SelectPolicy(s, id).Ok? { SelectKeeps(s, id); AccountOnlyLimit(s, SelectPolicy(s, id).value, e, k); }
  }

  lemma {:induction false} RunLimit(s: Store, cfg: Settings, steps: seq<Step>, e: nat, k: Kind)
    requires Inv(s) && QuotaKind(k) && WithinLimit(s, e, k)
    requires forall step | step in steps :: WithinEstimate(step, k)
    ensures WithinLimit(Run(s, cfg, steps), e, k)
    decreases |steps|
  {
    hide Inv, After, WithinLimit, WithinEstimate;
    if steps != [] {
      StepLimit(s, cfg, steps[0], e, k);
      StepKeepsInv(s, cfg, steps[0]);
      RunLimit(After(s, cfg, steps[0]), cfg, steps[1..], e, k);
    }
  }

  /** No window ever uses or promises more inference calls than its policy allows. */
  lemma CallLimitHolds(cfg: Settings, steps: seq<Step>, e: nat)
    requires e in Run(Empty, cfg, steps).windows
    ensures var s := Run(Empty, cfg, steps);
            && Governing(s, e).Some?
            && (InferenceCall in Governing(s, e).value.limits ==>
                  Count(s.windows[e].used, InferenceCall) + Count(s.windows[e].reserved, InferenceCall)
                  <= Governing(s, e).value.limits[InferenceCall])
  {
    hide Inv, Run, ReservedSum, SettledSum;
    EmptyInv();
    RunLimit(Empty, cfg, steps, e, InferenceCall);
    RunKeepsInv(Empty, cfg, steps);
    InvParts(Run(Empty, cfg, steps), e, InferenceCall, "", Operation("", "", ""));
  }

  /** The token limits hold as well while no settlement reports more than was reserved. */
  lemma TokenLimitHolds(cfg: Settings, steps: seq<Step>, e: nat, k: Kind)
    requires e in Run(Empty, cfg, steps).windows && QuotaKind(k)
    requires forall step | step in steps :: WithinEstimate(step, k)
    ensures var s := Run(Empty, cfg, steps);
            && Governing(s, e).Some?
            && (k in Governing(s, e).value.limits ==>
                  Count(s.windows[e].used, k) + ReservedSum(s.rows, e, k) <= Governing(s, e).value.limits[k])
  {
    hide Inv, Run, ReservedSum, SettledSum;
    EmptyInv();
    RunLimit(Empty, cfg, steps, e, k);
    RunKeepsInv(Empty, cfg, steps);
    InvParts(Run(Empty, cfg, steps), e, k, "", Operation("", "", ""));
  }

  // ---- A report beyond the reservation ----------------------------------------------

  const TenInputs := Policy(OtherId("p"), "v", 60, map[InputToken := 10], false)

  const TenTokens := Fingerprint("d", 10, 1)

  /** A store with one window of a policy of ten input tokens and one request of ten admitted to it. */
  const OneAdmitted := Store(
    map[OtherId("p") := TenInputs], Some(Account(Some(OtherId("p")), Some(1), 2)),
    map[1 := Window(OtherId("p"), 60, map[], map[InferenceCall := 1, TotalToken := 11])],
    map[QuotaKey("q", InferenceCall) := NewRow(TenTokens, 1, InferenceCall),
        QuotaKey("q", InputToken) := NewRow(TenTokens, 1, InputToken),
        QuotaKey("q", OutputToken) := NewRow(TenTokens, 1, OutputToken),
        QuotaKey("q", TotalToken) := NewRow(TenTokens, 1, TotalToken)], map[], map[])

  const Setup := [PolicyStep(TenInputs), SelectStep(OtherId("p")), ReserveStep(Request("q", TenTokens, None), 0)]

  lemma SetupReached(cfg: Settings)
    ensures Run(Empty, cfg, Setup) == OneAdmitted
  {
    var s1 := Empty.(policies := map[OtherId("p") := TenInputs]);
    var s2 := s1.(account := Some(Account(Some(OtherId("p")), None, 1)));
    assert CreatePolicy(Empty, TenInputs) == Ok(s1);
    assert SelectPolicy(s1, OtherId("p")) == Ok(s2);
    AdmittedReached(s2);
    assert Setup[1..] == [Setup[1], Setup[2]] && Setup[1..][1..] == [Setup[2]] && [Setup[2]][1..] == [];
    assert Run(OneAdmitted, cfg, []) == OneAdmitted;
    assert Run(s2, cfg, [Setup[2]]) == OneAdmitted;
    assert Run(s1, cfg, Setup[1..]) == OneAdmitted;
  }

  lemma AdmittedReached(s: Store)
    requires s == Store(map[OtherId("p") := TenInputs], Some(Account(Some(OtherId("p")), None, 1)),
                        map[], map[], map[], map[])
    ensures Reserve(s, Request("q", TenTokens, None), 0) == (OneAdmitted, Ok(Admission("q", TenTokens, 1, false)))
  {
    var rq := Request("q", TenTokens, None);
    var t := s.(account := Some(Account(Some(OtherId("p")), Some(1), 2)),
      windows := map[1 := Window(OtherId("p"), 60, map[], map[])]);
    assert ActiveWindow(s, 0) == Ok((t, 1));
    NoRows(t.rows, 1, InputToken);
    NoRows(t.rows, 1, OutputToken);
    assert AdmissionError(t, rq, 1) == None;
    assert ReserveIn(t, rq, 1).windows == OneAdmitted.windows;
    assert ReserveIn(t, rq, 1).rows == OneAdmitted.rows;
  }

  /** Settling it with a report of twenty input tokens leaves the window twice over its limit of ten. */
  lemma OverrunExample(cfg: Settings)
    ensures var a := Admission("q", TenTokens, 1, false);
            var s := Run(Empty, cfg, Setup + [SettleStep(a, Reported(Some(20), None, None))]);
            && 1 in s.windows && Count(s.windows[1].used, InputToken) == 20
            && Governing(s, 1) == Some(TenInputs) && TenInputs.limits[InputToken] == 10
  {
    var a, u := Admission("q", TenTokens, 1, false), Reported(Some(20), None, None);
    SetupReached(cfg);
    OverrunSettles(a, u);
    RunSnoc(Empty, cfg, Setup, SettleStep(a, u));
  }

  lemma OverrunSettles(a: Admission, u: Reported)
    requires a == Admission("q", TenTokens, 1, false) && u == Reported(Some(20), None, None)
    ensures Issued(OneAdmitted, a) && Settle(OneAdmitted, a, u).Ok?
    ensures var s := Settle(OneAdmitted, a, u).value;
            1 in s.windows && Count(s.windows[1].used, InputToken) == 20 && Governing(s, 1) == Some(TenInputs)
  {
    hide SettleAll, FirstRowError, RowError, Underflows, Overflows, Governing;
    OverrunStore(a, u);
    QuotaKindsAre();
    forall k | k in QuotaKinds ensures RowError(OneAdmitted, a, u, k).None? { OverrunRow(a, u, k); }
    NoRowError(OneAdmitted, a, u, QuotaKinds);
    forall k | QuotaKind(k)
      ensures !Underflows(OneAdmitted, a, u, k) && !Overflows(OneAdmitted, a, u, k)
    {
      OverrunRow(a, u, k);
    }
  }

  lemma OverrunRow(a: Admission, u: Reported, k: Kind)
    requires a == Admission("q", TenTokens, 1, false) && u == Reported(Some(20), None, None) && QuotaKind(k)
    ensures RowError(OneAdmitted, a, u, k).None?
    ensures !Underflows(OneAdmitted, a, u, k) && !Overflows(OneAdmitted, a, u, k)
  {
  }

  lemma OverrunStore(a: Admission, u: Reported)
    requires a == Admission("q", TenTokens, 1, false) && u == Reported(Some(20), None, None)
    ensures var s := SettleAll(OneAdmitted, a, u, QuotaKinds);
            1 in s.windows && Count(s.windows[1].used, InputToken) == 20 && Governing(s, 1) == Some(TenInputs)
  {
    var s1 := SettleKind(OneAdmitted, a, u, InferenceCall);
    var s2 := SettleKind(s1, a, u, InputToken);
    assert s1.windows[1].used == map[InferenceCall := 1];
    assert Count(s2.windows[1].used, InputToken) == 20;
    assert SettleKind(s2, a, u, OutputToken) == s2 && SettleKind(s2, a, u, TotalToken) == s2;
    assert QuotaKinds[1..] == [InputToken, OutputToken, TotalToken]
           && QuotaKinds[1..][1..] == [OutputToken, TotalToken];
    assert [OutputToken, TotalToken][1..] == [TotalToken] && [TotalToken][1..] == [];
    assert SettleAll(s2, a, u, [OutputToken, TotalToken]) == s2;
    assert SettleAll(OneAdmitted, a, u, QuotaKinds) == s2;
  }

  lemma {:induction false} RunSnoc(s: Store, cfg: Settings, steps: seq<Step>, last: Step)
    ensures Run(s, cfg, steps + [last]) == After(Run(s, cfg, steps), cfg, last)
    decreases |steps|
  {
    hide After;
    if steps == [] {
      assert ([] + [last])[1..] == [];
      assert Run(After(s, cfg, last), cfg, []) == After(s, cfg, last);
    } else {
      assert (steps + [last])[1..] == steps[1..] + [last];
      RunSnoc(After(s, cfg, steps[0]), cfg, steps[1..], last);
    }
  }
}

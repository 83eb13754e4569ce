/**
 What admissions, settlements and mirrored charges do to a window, counted in the tokens of the requests and
 reports themselves (se/src/application/user_inference_quota.py and se/src/application/user_budget.py).
 */
module BudgetEffects {
  import opened Common
  import opened Sums
  import opened BudgetStore
  import opened BudgetQuota
  import opened BudgetShadow
  import opened BudgetMirror
  import opened BudgetRuns
  import opened BudgetOnce
  import opened BudgetLimits

  // ---- Pending requests -------------------------------------------------------------

  /** The request's row of this kind is still reserved in the window. */
  predicate IsPending(rows: map<RowKey, Row>, key: RowKey, e: nat, k: Kind) {
    && key in rows && key.QuotaKey? && key.kind == k && rows[key].epoch == e && rows[key].state.Reserved?
    && rows[key].fingerprint.Some?
  }

  /** The pending requests of a window, and the input, output and total tokens they were estimated at. */
  ghost function PendingCalls(rows: map<RowKey, Row>, e: nat): nat {
    MapSum(map key | key in rows :: if IsPending(rows, key, e, InferenceCall) then 1 else 0)
  }

  ghost function PendingInput(rows: map<RowKey, Row>, e: nat): nat {
    MapSum(map key | key in rows ::
             if IsPending(rows, key, e, InputToken) then rows[key].fingerprint.value.input else 0)
  }

  ghost function PendingOutput(rows: map<RowKey, Row>, e: nat): nat {
    MapSum(map key | key in rows ::
             if IsPending(rows, key, e, OutputToken) then rows[key].fingerprint.value.output else 0)
  }

  ghost function PendingTotal(rows: map<RowKey, Row>, e: nat): nat {
    MapSum(map key | key in rows ::
             if IsPending(rows, key, e, TotalToken)
             then rows[key].fingerprint.value.input + rows[key].fingerprint.value.output else 0)
  }

  /** Only pending requests reserve, each what its fingerprint says. */
  lemma RowReserves(s: Store, key: RowKey, e: nat, k: Kind)
    requires Inv(s) && key in s.rows && QuotaKind(k)
    ensures IsPending(s.rows, key, e, k) ==>
              && ReservedPart(key, s.rows[key], e, k) == s.rows[key].amount
              && s.rows[key].amount == Amount(s.rows[key].fingerprint.value, k)
    ensures !IsPending(s.rows, key, e, k) ==> ReservedPart(key, s.rows[key], e, k) == 0
  {
    match key
    case QuotaKey(l, j) => InvParts(s, e, j, l, Operation("", "", ""));
    case MirrorKey(op, j) => InvParts(s, e, j, "", op);
    hide Inv;
  }

  lemma PendingInputIs(s: Store, e: nat)
    requires Inv(s)
    ensures PendingInput(s.rows, e) == ReservedSum(s.rows, e, InputToken)
  {
    forall key | key in s.rows
      ensures ReservedPart(key, s.rows[key], e, InputToken)
              == if IsPending(s.rows, key, e, InputToken) then s.rows[key].fingerprint.value.input else 0
    {
      RowReserves(s, key, e, InputToken);
    }
    hide Inv, IsPending, ReservedPart;
    assert ReservedWeights(s.rows, e, InputToken)
           == map key | key in s.rows ::
                if IsPending(s.rows, key, e, InputToken) then s.rows[key].fingerprint.value.input else 0;
  }

  lemma PendingOutputIs(s: Store, e: nat)
    requires Inv(s)
    ensures PendingOutput(s.rows, e) == ReservedSum(s.rows, e, OutputToken)
  {
    forall key | key in s.rows
      ensures ReservedPart(key, s.rows[key], e, OutputToken)
              == if IsPending(s.rows, key, e, OutputToken) then s.rows[key].fingerprint.value.output else 0
    {
      RowReserves(s, key, e, OutputToken);
    }
    hide Inv, IsPending, ReservedPart;
    assert ReservedWeights(s.rows, e, OutputToken)
           == map key | key in s.rows ::
                if IsPending(s.rows, key, e, OutputToken) then s.rows[key].fingerprint.value.output else 0;
  }

  lemma PendingTotalIs(s: Store, e: nat)
    requires Inv(s)
    ensures PendingTotal(s.rows, e) == ReservedSum(s.rows, e, TotalToken)
  {
    forall key | key in s.rows
      ensures ReservedPart(key, s.rows[key], e, TotalToken)
              == if IsPending(s.rows, key, e, TotalToken)
                 then s.rows[key].fingerprint.value.input + s.rows[key].fingerprint.value.output else 0
    {
      RowReserves(s, key, e, TotalToken);
    }
    hide Inv, IsPending, ReservedPart;
    assert ReservedWeights(s.rows, e, TotalToken)
           == map key | key in s.rows ::
                if IsPending(s.rows, key, e, TotalToken)
                then s.rows[key].fingerprint.value.input + s.rows[key].fingerprint.value.output else 0;
  }

  lemma PendingCallsIs(s: Store, e: nat)
    requires Inv(s)
    ensures PendingCalls(s.rows, e) == ReservedSum(s.rows, e, InferenceCall)
  {
    forall key | key in s.rows
      ensures ReservedPart(key, s.rows[key], e, InferenceCall)
              == if IsPending(s.rows, key, e, InferenceCall) then 1 else 0
    {
      RowReserves(s, key, e, InferenceCall);
    }
    hide Inv, IsPending, ReservedPart;
    assert ReservedWeights(s.rows, e, InferenceCall)
           == map key | key in s.rows :: if IsPending(s.rows, key, e, InferenceCall) then 1 else 0;
  }

  lemma PendingAre(s: Store, e: nat)
    requires Inv(s)
    ensures PendingCalls(s.rows, e) == ReservedSum(s.rows, e, InferenceCall)
    ensures PendingInput(s.rows, e) == ReservedSum(s.rows, e, InputToken)
    ensures PendingOutput(s.rows, e) == ReservedSum(s.rows, e, OutputToken)
    ensures PendingTotal(s.rows, e) == ReservedSum(s.rows, e, TotalToken)
  {
    hide Inv, ReservedSum, PendingCalls, PendingInput, PendingOutput, PendingTotal;
    PendingCallsIs(s, e);
    PendingInputIs(s, e);
    PendingOutputIs(s, e);
    PendingTotalIs(s, e);
  }

  // ---- The limits, in tokens --------------------------------------------------------

  /** No settlement reports more input, output or total tokens than its request was estimated at. */
  predicate HonestInput(steps: seq<Step>) {
    forall step | step in steps && step.SettleStep? && step.reported.input.Some? ::
      step.reported.input.value <= step.admission.fingerprint.input
  }

  predicate HonestOutput(steps: seq<Step>) {
    forall step | step in steps && step.SettleStep? && step.reported.output.Some? ::
      step.reported.output.value <= step.admission.fingerprint.output
  }

  predicate HonestTotal(steps: seq<Step>) {
    forall step | step in steps && step.SettleStep? && step.reported.total.Some? ::
      step.reported.total.value <= step.admission.fingerprint.input + step.admission.fingerprint.output
  }

  ghost function LimitOf(s: Store, e: nat, k: Kind): Option<nat> {
    if Governing(s, e).Some? && k in Governing(s, e).value.limits then Some(Governing(s, e).value.limits[k]) else None
  }

  /** Input tokens used and input tokens of pending requests stay within the input limit. */
  lemma InputLimitHolds(cfg: Settings, steps: seq<Step>, e: nat)
    requires e in Run(Empty, cfg, steps).windows && HonestInput(steps)
    ensures var s := Run(Empty, cfg, steps);
            LimitOf(s, e, InputToken).Some? ==>
              Count(s.windows[e].used, InputToken) + PendingInput(s.rows, e) <= LimitOf(s, e, InputToken).value
  {
    TokenLimitHolds(cfg, steps, e, InputToken);
    hide Run, Inv, ReservedSum;
    EmptyInv();
    RunKeepsInv(Empty, cfg, steps);
    PendingInputIs(Run(Empty, cfg, steps), e);
  }

  lemma OutputLimitHolds(cfg: Settings, steps: seq<Step>, e: nat)
    requires e in Run(Empty, cfg, steps).windows && HonestOutput(steps)
    ensures var s := Run(Empty, cfg, steps);
            LimitOf(s, e, OutputToken).Some? ==>
              Count(s.windows[e].used, OutputToken) + PendingOutput(s.rows, e) <= LimitOf(s, e, OutputToken).value
  {
    TokenLimitHolds(cfg, steps, e, OutputToken);
    hide Run, Inv, ReservedSum;
    EmptyInv();
    RunKeepsInv(Empty, cfg, steps);
    PendingOutputIs(Run(Empty, cfg, steps), e);
  }

  lemma TotalLimitHolds(cfg: Settings, steps: seq<Step>, e: nat)
    requires e in Run(Empty, cfg, steps).windows && HonestTotal(steps)
    ensures var s := Run(Empty, cfg, steps);
            LimitOf(s, e, TotalToken).Some? ==>
              Count(s.windows[e].used, TotalToken) + PendingTotal(s.rows, e) <= LimitOf(s, e, TotalToken).value
  {
    TokenLimitHolds(cfg, steps, e, TotalToken);
    hide Run, Inv, ReservedSum;
    EmptyInv();
    RunKeepsInv(Empty, cfg, steps);
    PendingTotalIs(Run(Empty, cfg, steps), e);
  }

  // ---- When a request is admitted ---------------------------------------------------

  /** With what is used and what is pending, the request fits the window's limit. */
  ghost predicate Fits(s: Store, e: nat, k: Kind, pending: nat, more: nat)
    requires e in s.windows
  {
    LimitOf(s, e, k).Some? ==> Count(s.windows[e].used, k) + pending + more <= LimitOf(s, e, k).value
  }

  /** The policy accounts for mirrored charges only: unlimited, of a shadow version, and identified by it. */
  predicate Automatic(p: Policy) {
    && "ubq2-shadow-" <= p.version && p.limits.Keys == {} && !p.perToolLimits
    && p.id == ShadowId(p.version, p.duration)
  }

  lemma AutomaticIsShadow(p: Policy)
    ensures Automatic(p) <==> IsShadow(p)
  {
  }

  /**
   A new request enters the window exactly when the policy is not the automatic one, limits neither compute nor
   cost, and has room for one call and for the request's input, output and total tokens beside everything used
   and pending; its estimate is positive; and no total leaves 64 bits.
   */
  lemma AdmittedExactly(s: Store, rq: Request, e: nat)
    requires Inv(s) && e in s.windows
    ensures var fp := rq.fingerprint;
            AdmissionError(s, rq, e).None? <==>
            && Governing(s, e).Some? && !Automatic(Governing(s, e).value)
            && LimitOf(s, e, ComputeUnit).None? && LimitOf(s, e, CostUsd).None?
            && Fits(s, e, InferenceCall, PendingCalls(s.rows, e), 1)
            && Fits(s, e, InputToken, PendingInput(s.rows, e), fp.input)
            && Fits(s, e, OutputToken, PendingOutput(s.rows, e), fp.output)
            && Fits(s, e, TotalToken, PendingTotal(s.rows, e), fp.input + fp.output)
            && fp.input > 0 && fp.output > 0 && fp.input + fp.output <= INT64_MAX
            && PendingInput(s.rows, e) <= INT64_MAX && PendingOutput(s.rows, e) <= INT64_MAX
            && PendingCalls(s.rows, e) < INT64_MAX && PendingTotal(s.rows, e) + fp.input + fp.output <= INT64_MAX
  {
    hide Inv, IsShadow, Automatic, ReservedSum, SettledSum, PendingCalls, PendingInput, PendingOutput, PendingTotal;
    if Governing(s, e).Some? { AutomaticIsShadow(Governing(s, e).value); }
    PendingAre(s, e);
    InvParts(s, e, InferenceCall, "", Operation("", "", ""));
    InvParts(s, e, TotalToken, "", Operation("", "", ""));
  }

  /** A request with a new id is refused only for its task's history, for want of a window, or by the window. */
  lemma NewRequestAdmitted(s: Store, rq: Request, now: int)
    requires Inv(s) && QuotaKey(rq.logicalId, InferenceCall) !in s.rows
    ensures Reserve(s, rq, now).1.Ok? <==>
            && (rq.task.Some? ==> ReceiptKey(Operation(rq.task.value, "INFERENCE", rq.logicalId),
                                             Charged(InferenceCall)) !in s.receipts)
            && ActiveWindow(s, now).Ok? && s.account.value.nextPolicy.Some?
            && var (t, e) := ActiveWindow(s, now).value;
               e in t.windows && AdmissionError(t, rq, e).None?
  {
    hide AdmissionError, ReserveIn, Inv;
    if ActiveWindow(s, now).Ok? { RolloverInv(s, now); }
  }

  /** The window is the account's: the active one until it expires, then a new and empty one of the next policy. */
  lemma WindowIsCurrent(s: Store, now: int)
    requires Inv(s) && ActiveWindow(s, now).Ok?
    ensures var (t, e) := ActiveWindow(s, now).value;
            && s.account.Some? && t.account.Some? && t.account.value.active == Some(e)
            && t.windows.Keys == s.windows.Keys + {e}
            && var a := s.account.value;
               if a.active.Some? && a.active.value in s.windows && now < s.windows[a.active.value].expiresAt then
                 t == s && a.active == Some(e)
               else
                 && e !in s.windows && (forall x | x in s.windows :: x < e)
                 && a.nextPolicy.Some? && a.nextPolicy.value in s.policies && t.windows[e].policy == a.nextPolicy.value
                 && t.windows[e].expiresAt == now + s.policies[a.nextPolicy.value].duration
                 && forall k :: Count(t.windows[e].used, k) == 0 && Count(t.windows[e].reserved, k) == 0
  {
    InvKnown(s);
    hide Inv;
  }

  /** An admission makes the request pending in its window and touches no other. */
  lemma AdmissionReserves(s: Store, rq: Request, e: nat, x: nat)
    requires Inv(s) && e in s.windows && QuotaKey(rq.logicalId, InferenceCall) !in s.rows
    requires Governing(s, e).Some? && !IsShadow(Governing(s, e).value)
    ensures var t, fp := ReserveIn(s, rq, e), rq.fingerprint;
            && (x in s.windows ==> x in t.windows && t.windows[x].used == s.windows[x].used)
            && PendingCalls(t.rows, x) == PendingCalls(s.rows, x) + (if x == e then 1 else 0)
            && PendingInput(t.rows, x) == PendingInput(s.rows, x) + (if x == e then fp.input else 0)
            && PendingOutput(t.rows, x) == PendingOutput(s.rows, x) + (if x == e then fp.output else 0)
            && PendingTotal(t.rows, x) == PendingTotal(s.rows, x) + (if x == e then fp.input + fp.output else 0)
  {
    hide Inv, WithRows, ReservedSum, SettledSum, IsShadow, Plus, Governing;
    hide PendingCalls, PendingInput, PendingOutput, PendingTotal;
    ReserveInInv(s, rq, e);
    PendingAre(s, x);
    PendingAre(ReserveIn(s, rq, e), x);
    FreshId(s, rq.logicalId);
    NewRowsSums(s.rows, rq.logicalId, rq.fingerprint, e, x, InferenceCall);
    NewRowsSums(s.rows, rq.logicalId, rq.fingerprint, e, x, InputToken);
    NewRowsSums(s.rows, rq.logicalId, rq.fingerprint, e, x, OutputToken);
    NewRowsSums(s.rows, rq.logicalId, rq.fingerprint, e, x, TotalToken);
  }

  // ---- What a settlement moves ------------------------------------------------------

  ghost function UsedIn(s: Store, e: nat, k: Kind): nat { if e in s.windows then Count(s.windows[e].used, k) else 0 }

  /** What settling adds to a counter: the report, if the row is still reserved and the report is known. */
  ghost function Settling(s: Store, a: Admission, report: Option<nat>, k: Kind): nat {
    if report.Some? && QuotaKey(a.logicalId, k) in s.rows && s.rows[QuotaKey(a.logicalId, k)].state.Reserved?
    then report.value else 0
  }

  lemma SettleKindUses(s: Store, a: Admission, u: Reported, j: Kind, e: nat, k: Kind)
    requires a.epoch in s.windows
    ensures var t := SettleKind(s, a, u, j);
            && UsedIn(t, e, k)
               == UsedIn(s, e, k) + (if j == k && e == a.epoch then Settling(s, a, Actual(u, k), k) else 0)
            && (j != k ==> Settling(t, a, Actual(u, k), k) == Settling(s, a, Actual(u, k), k))
  {
    hide Minus;
  }

  lemma {:induction false} SettleAllUses(s: Store, a: Admission, u: Reported, kinds: seq<Kind>, e: nat, k: Kind)
    requires a.epoch in s.windows && forall i, j | 0 <= i < j < |kinds| :: kinds[i] != kinds[j]
    ensures UsedIn(SettleAll(s, a, u, kinds), e, k)
            == UsedIn(s, e, k) + if k in kinds && e == a.epoch then Settling(s, a, Actual(u, k), k) else 0
    decreases |kinds|
  {
    hide SettleKind, Settling, UsedIn;
    if kinds != [] {
      SettleKindUses(s, a, u, kinds[0], e, k);
      SettleAllUses(SettleKind(s, a, u, kinds[0]), a, u, kinds[1..], e, k);
      assert k in kinds <==> k == kinds[0] || k in kinds[1..];
      if k == kinds[0] { assert k !in kinds[1..]; }
    }
  }

  /**
   Settling counts one call and, as far as the report knows them, its input, output and total tokens, each once
   and only in the admission's window.
   */
  lemma SettlementCounts(s: Store, a: Admission, u: Reported, e: nat)
    requires Settle(s, a, u).Ok?
    ensures var t := Settle(s, a, u).value;
            if e == a.epoch then
              && UsedIn(t, e, InferenceCall) == UsedIn(s, e, InferenceCall) + Settling(s, a, Some(1), InferenceCall)
              && UsedIn(t, e, InputToken) == UsedIn(s, e, InputToken) + Settling(s, a, u.input, InputToken)
              && UsedIn(t, e, OutputToken) == UsedIn(s, e, OutputToken) + Settling(s, a, u.output, OutputToken)
              && UsedIn(t, e, TotalToken) == UsedIn(s, e, TotalToken) + Settling(s, a, u.total, TotalToken)
              && UsedIn(t, e, ToolCall) == UsedIn(s, e, ToolCall) && UsedIn(t, e, CostUsd) == UsedIn(s, e, CostUsd)
            else forall k :: UsedIn(t, e, k) == UsedIn(s, e, k)
  {
    hide SettleAll, FirstRowError, Underflows, Overflows, Settling, UsedIn;
    QuotaKindsAre();
    forall k
      ensures UsedIn(SettleAll(s, a, u, QuotaKinds), e, k)
              == UsedIn(s, e, k) + if QuotaKind(k) && e == a.epoch then Settling(s, a, Actual(u, k), k) else 0
    {
      SettleAllUses(s, a, u, QuotaKinds, e, k);
    }
  }

  // ---- What a task charge spends ----------------------------------------------------

  /** The price of a task charge in each kind. */
  function Spent(c: TaskCharge, k: Kind): nat {
    match c
    case InferenceCharge => if k == InferenceCall then 1 else 0
    case ToolCharge(_) => if k == ToolCall then 1 else 0
    case UsageCharge(tokens, cost) =>
      if k == TotalToken && tokens > 0 then tokens else if k == CostUsd && cost > 0 then cost else 0
  }

  function Share(d: Mirrored, k: Kind): int { if d.dimension == Charged(k) then d.amount else 0 }

  function Shares(dims: seq<Mirrored>, k: Kind): int {
    if dims == [] then 0 else Share(dims[0], k) + Shares(dims[1..], k)
  }

  lemma {:induction false} MirrorAllUses(s: Store, e: nat, op: Operation, source: string, dims: seq<Mirrored>,
                                         x: nat, k: Kind)
    requires e in s.windows && MirrorAll(s, e, op, source, dims).Ok?
    ensures var t := MirrorAll(s, e, op, source, dims).value;
            t.account == s.account && UsedIn(t, x, k) == UsedIn(s, x, k) + if x == e then Shares(dims, k) else 0
    decreases |dims|
  {
    hide WithToolUsage;
    if dims != [] { MirrorAllUses(Charge(s, e, op, source, dims[0]), e, op, source, dims[1..], x, k); }
  }

  lemma SharesAreSpent(c: TaskCharge, k: Kind)
    ensures Shares(Dimensions(c), k) == Spent(c, k)
  {
    match c
    case InferenceCharge => assert InferenceDimensions[1..] == [];
    case ToolCharge(capability) => assert ToolCallDimensions(capability)[1..] == [];
    case UsageCharge(tokens, cost) =>
      var token, spend := Mirrored(Charged(TotalToken), tokens, None), Mirrored(Charged(CostUsd), cost, None);
      assert [token, spend][1..] == [spend] && [spend][1..] == [] && [token][1..] == [];
      assert [Mirrored(NoCharge, 0, None)][1..] == [];
      assert Shares([token], k) == Share(token, k) && Shares([spend], k) == Share(spend, k);
  }

  /** A task charge mirrored for the first time spends its price, in the account's window and nowhere else. */
  lemma ChargeSpends(s: Store, cfg: Settings, op: Operation, source: string, c: TaskCharge, now: int, e: nat, k: Kind)
    requires Inv(s) && Mirror(s, cfg, op, source, Dimensions(c), now).Ok?
    requires forall d | d in Dimensions(c) :: !Recorded(s, op, d)
    ensures var t := Mirror(s, cfg, op, source, Dimensions(c), now).value;
            UsedIn(t, e, k)
            == UsedIn(s, e, k) + if t.account.Some? && t.account.value.active == Some(e) then Spent(c, k) else 0
  {
    hide Inv, MirrorAll, ShadowWindow, ShapeAllowed, Recorded, UsedIn, Shares, Dimensions;
    var dims := Dimensions(c);
    SharesAreSpent(c, k);
    ZeroCharge(c);
    assert dims[0] in dims;
    if |dims| == 1 && dims[0].dimension.NoCharge? {
      assert dims == [Mirrored(NoCharge, 0, None)];
      NoChargeSpendsNothing(c, k);
      SameWindows(s, op, source, e, k);
    } else {
      var (t, x) := ShadowWindow(s, cfg, now).value;
      MirrorAllUses(t, x, op, source, dims, e, k);
      ShadowWindowUses(s, cfg, now, e, k);
    }
  }

  lemma NoChargeSpendsNothing(c: TaskCharge, k: Kind)
    requires Dimensions(c) == [Mirrored(NoCharge, 0, None)]
    ensures Spent(c, k) == 0
  {
    assert Dimensions(c)[0] == Mirrored(NoCharge, 0, None);
  }

  lemma SameWindows(s: Store, op: Operation, source: string, e: nat, k: Kind)
    ensures UsedIn(s.(receipts := s.receipts[ReceiptKey(op, NoCharge) := Receipt(source, None, 0, None)]), e, k)
            == UsedIn(s, e, k)
  {
  }

  lemma ShadowWindowUses(s: Store, cfg: Settings, now: int, e: nat, k: Kind)
    requires Inv(s) && ShadowWindow(s, cfg, now).Ok?
    ensures var (t, x) := ShadowWindow(s, cfg, now).value;
            t.account.Some? && t.account.value.active == Some(x) && x in t.windows && UsedIn(t, e, k) == UsedIn(s, e, k)
  {
    hide Inv, ActiveWindow, EnsureShadowAccount;
    var s1 := EnsureShadowAccount(s, cfg).value;
    EnsureShadowAccountInv(s, cfg);
    WindowIsCurrent(s1, now);
    RolloverInv(s1, now);
  }

  ghost function ToolUsed(s: Store, u: Usage): nat { if u in s.toolUsage then s.toolUsage[u] else 0 }

  /** A tool call is counted once, for its capability in the account's window. */
  lemma ToolCallCounts(s: Store, cfg: Settings, op: Operation, source: string, capability: string, now: int, u: Usage)
    requires Inv(s) && Mirror(s, cfg, op, source, ToolCallDimensions(capability), now).Ok?
    requires !Recorded(s, op, ToolCallDimensions(capability)[0])
    ensures var t := Mirror(s, cfg, op, source, ToolCallDimensions(capability), now).value;
            && t.account.Some?
            && ToolUsed(t, u)
               == ToolUsed(s, u)
                  + if t.account.value.active == Some(u.epoch) && u.capability == capability then 1 else 0
  {
    hide Inv, ShadowWindow, ShapeAllowed, UsedIn, Plus;
    var dims := ToolCallDimensions(capability);
    assert dims[0] in dims && dims[1..] == [];
    var (t, x) := ShadowWindow(s, cfg, now).value;
    ShadowWindowUses(s, cfg, now, x, ToolCall);
    ShadowWindowInv(s, cfg, now);
    assert MirrorAll(Charge(t, x, op, source, dims[0]), x, op, source, dims[1..])
           == Ok(Charge(t, x, op, source, dims[0]));
  }

  // ---- When a task charge is taken --------------------------------------------------

  /** The policies once the configured one is among them. */
  function WithConfigured(s: Store, cfg: Settings): map<PolicyId, Policy> {
    s.policies[ShadowId(cfg.version, cfg.duration) :=
      Policy(ShadowId(cfg.version, cfg.duration), cfg.version, cfg.duration, map[], false)]
  }

  /** The configured policy can be recorded, and the account is not under any other authority. */
  ghost predicate ShadowReady(s: Store, cfg: Settings) {
    var id, policies := ShadowId(cfg.version, cfg.duration), WithConfigured(s, cfg);
    && (if id in s.policies then s.policies[id] == policies[id]
        else forall other | other in s.policies :: s.policies[other].version != cfg.version)
    && (s.account.Some? && s.account.value.active.Some? ==>
          var e := s.account.value.active.value;
          e in s.windows && s.windows[e].policy in policies && Automatic(policies[s.windows[e].policy]))
    && (s.account.Some? && s.account.value.nextPolicy.Some? ==>
          var next := s.account.value.nextPolicy.value; next in policies && Automatic(policies[next]))
  }

  lemma ConfiguredCreated(s: Store, cfg: Settings)
    ensures var id, r := ShadowId(cfg.version, cfg.duration), CreatePolicy(s, ShadowPolicy(cfg));
            && (r.Ok? <==> if id in s.policies then s.policies[id] == WithConfigured(s, cfg)[id]
                           else forall other | other in s.policies :: s.policies[other].version != cfg.version)
            && (r.Ok? ==> r.value == s.(policies := WithConfigured(s, cfg)))
  {
    if ShadowId(cfg.version, cfg.duration) in s.policies && CreatePolicy(s, ShadowPolicy(cfg)).Ok? {
      assert WithConfigured(s, cfg) == s.policies;
    }
  }

  /** There is a window to charge exactly then. */
  lemma ShadowWindowExactly(s: Store, cfg: Settings, now: int)
    ensures ShadowWindow(s, cfg, now).Ok? <==> ShadowReady(s, cfg)
  {
    ConfiguredCreated(s, cfg);
    var policies := WithConfigured(s, cfg);
    hide CreatePolicy;
    forall p ensures Automatic(p) <==> IsShadow(p) { AutomaticIsShadow(p); }
    hide Automatic, IsShadow, WithConfigured;
    assert ShadowId(cfg.version, cfg.duration) in policies by { ConfiguredIsThere(s, cfg); }
  }

  lemma ConfiguredIsThere(s: Store, cfg: Settings)
    ensures ShadowId(cfg.version, cfg.duration) in WithConfigured(s, cfg)
  {
  }

  /** One more unit of a kind fits the 64-bit counter. */
  ghost predicate Room(t: Store, e: nat, k: Kind, amount: int) { UsedIn(t, e, k) + amount <= INT64_MAX }

  /** The operation is of the charge's own kind, a tool is named, and the amounts fit their counters. */
  ghost predicate Chargeable(t: Store, e: nat, op: Operation, c: TaskCharge) {
    match c
    case InferenceCharge => op.budgetKind == "INFERENCE" && Room(t, e, InferenceCall, 1)
    case ToolCharge(capability) => op.budgetKind == "TOOL_CALL" && capability != "" && Room(t, e, ToolCall, 1)
    case UsageCharge(tokens, cost) =>
      && op.budgetKind == "USAGE"
      && (tokens > 0 ==> Room(t, e, TotalToken, tokens)) && (cost > 0 ==> Room(t, e, CostUsd, cost))
  }

  lemma OneTaken(t: Store, e: nat, op: Operation, source: string, d: Mirrored)
    requires Inv(t) && e in t.windows && !Recorded(t, op, d) && d.dimension.Charged? && d.amount > 0
    ensures MirrorOne(t, e, op, source, d).Ok? <==>
            DimensionValid(d) && ShapeAllowed(op.budgetKind, d) && Room(t, e, d.dimension.kind, d.amount)
    ensures MirrorOne(t, e, op, source, d).Ok? ==> MirrorOne(t, e, op, source, d).value == Charge(t, e, op, source, d)
  {
    InvParts(t, e, d.dimension.kind, "", op);
    hide Inv, ShapeAllowed, DimensionValid, WithToolUsage, Plus, IsShadow;
  }

  lemma SingleTaken(t: Store, e: nat, op: Operation, source: string, c: TaskCharge)
    requires Inv(t) && e in t.windows && |Dimensions(c)| == 1 && Dimensions(c)[0].dimension.Charged?
    requires !Recorded(t, op, Dimensions(c)[0])
    ensures MirrorAll(t, e, op, source, Dimensions(c)).Ok? <==> Chargeable(t, e, op, c)
  {
    var dims := Dimensions(c);
    var d := dims[0];
    assert dims[1..] == [];
    OneTaken(t, e, op, source, d);
    SingleAllowed(t, e, op, c);
    hide Inv, MirrorOne, Room, Chargeable, ShapeAllowed, DimensionValid, Dimensions;
    if MirrorOne(t, e, op, source, d).Ok? {
      assert MirrorAll(MirrorOne(t, e, op, source, d).value, e, op, source, []).Ok?;
    }
  }

  lemma SingleAllowed(t: Store, e: nat, op: Operation, c: TaskCharge)
    requires |Dimensions(c)| == 1 && Dimensions(c)[0].dimension.Charged?
    ensures var d := Dimensions(c)[0];
            && d.amount > 0
            && (DimensionValid(d) && ShapeAllowed(op.budgetKind, d) && Room(t, e, d.dimension.kind, d.amount)
                <==> Chargeable(t, e, op, c))
  {
  }

  lemma PairTaken(t: Store, e: nat, op: Operation, source: string, tokens: int, cost: int)
    requires Inv(t) && Governing(t, e).Some? && tokens > 0 && cost > 0
    requires forall d | d in UsageDimensions(tokens, cost) :: !Recorded(t, op, d)
    ensures MirrorAll(t, e, op, source, UsageDimensions(tokens, cost)).Ok?
            <==> Chargeable(t, e, op, UsageCharge(tokens, cost))
  {
    var token, spend := Mirrored(Charged(TotalToken), tokens, None), Mirrored(Charged(CostUsd), cost, None);
    assert UsageDimensions(tokens, cost) == [token, spend];
    assert [token, spend][0] == token && [token, spend][1] == spend;
    assert token in [token, spend] && spend in [token, spend];
    assert [token, spend][1..] == [spend] && [spend][1..] == [];
    OneTaken(t, e, op, source, token);
    PairAllowed(t, e, op, tokens, cost);
    if MirrorOne(t, e, op, source, token).Ok? {
      var u := Charge(t, e, op, source, token);
      SecondTaken(t, e, op, source, token, spend);
      hide *;
      MirrorPair(t, e, op, source, token, spend, u);
    } else {
      hide Inv, Charge, MirrorOne, Room, DimensionValid, ShapeAllowed, Recorded;
    }
  }

  lemma MirrorPair(t: Store, e: nat, op: Operation, source: string, first: Mirrored, second: Mirrored, u: Store)
    requires e in t.windows && e in u.windows && MirrorOne(t, e, op, source, first) == Ok(u)
    ensures MirrorAll(t, e, op, source, [first, second]).Ok? <==> MirrorOne(u, e, op, source, second).Ok?
  {
    hide MirrorOne;
    assert [first, second][1..] == [second] && [second][1..] == [];
    if MirrorOne(u, e, op, source, second).Ok? {
      assert MirrorAll(MirrorOne(u, e, op, source, second).value, e, op, source, []).Ok?;
    }
  }

  lemma PairAllowed(t: Store, e: nat, op: Operation, tokens: int, cost: int)
    requires tokens > 0 && cost > 0
    ensures var token, spend := Mirrored(Charged(TotalToken), tokens, None), Mirrored(Charged(CostUsd), cost, None);
            Chargeable(t, e, op, UsageCharge(tokens, cost)) <==>
            && DimensionValid(token) && ShapeAllowed(op.budgetKind, token) && Room(t, e, TotalToken, tokens)
            && DimensionValid(spend) && ShapeAllowed(op.budgetKind, spend) && Room(t, e, CostUsd, cost)
  {
  }

  lemma SecondTaken(t: Store, e: nat, op: Operation, source: string, token: Mirrored, spend: Mirrored)
    requires Inv(t) && Governing(t, e).Some? && DimensionValid(token) && !Recorded(t, op, token)
    requires token.dimension == Charged(TotalToken) && spend.dimension == Charged(CostUsd) && spend.amount > 0
    requires !Recorded(t, op, spend)
    ensures var u := Charge(t, e, op, source, token);
            && e in u.windows
            && (MirrorOne(u, e, op, source, spend).Ok? <==>
                  DimensionValid(spend) && ShapeAllowed(op.budgetKind, spend) && Room(t, e, CostUsd, spend.amount))
  {
    InvParts(t, e, TotalToken, "", op);
    hide Inv, ShapeAllowed;
    ChargeInv(t, e, op, source, token);
    var u := Charge(t, e, op, source, token);
    assert UsedIn(u, e, CostUsd) == UsedIn(t, e, CostUsd);
    hide DimensionValid, IsShadow;
    OneTaken(u, e, op, source, spend);
  }

  predicate Free(c: TaskCharge) { c.UsageCharge? && c.tokens <= 0 && c.cost <= 0 }

  /**
   A task charge not mirrored before is taken exactly when it costs nothing and is of usage, or there is a
   window to charge and the charge fits it.
   */
  lemma ChargeTakenExactly(s: Store, cfg: Settings, op: Operation, source: string, c: TaskCharge, now: int)
    requires Inv(s) && forall d | d in Dimensions(c) :: !Recorded(s, op, d)
    ensures Mirror(s, cfg, op, source, Dimensions(c), now).Ok? <==>
            if Free(c) then op.budgetKind == "USAGE"
            else
              && ShadowWindow(s, cfg, now).Ok?
              && var (t, e) := ShadowWindow(s, cfg, now).value; Chargeable(t, e, op, c)
  {
    var dims := Dimensions(c);
    FreeIsNoCharge(c);
    assert dims[0] in dims;
    hide Inv, MirrorAll, ShadowWindow, Recorded, Chargeable, Dimensions, Free;
    if !Free(c) && ShadowWindow(s, cfg, now).Ok? {
      var (t, e) := ShadowWindow(s, cfg, now).value;
      ShadowWindowInv(s, cfg, now);
      ShadowWindowUses(s, cfg, now, e, ToolCall);
      NotRecorded(s, t, op, dims);
      ChargesTaken(t, e, op, source, c);
    }
  }

  lemma FreeIsNoCharge(c: TaskCharge)
    ensures var dims := Dimensions(c);
            && dims != []
            && (Free(c) ==> dims == [Mirrored(NoCharge, 0, None)])
            && (!Free(c) ==> dims[0].dimension.Charged?)
  {
  }

  lemma NotRecorded(s: Store, t: Store, op: Operation, dims: seq<Mirrored>)
    requires t.receipts == s.receipts && forall d | d in dims :: !Recorded(s, op, d)
    ensures forall d | d in dims :: !Recorded(t, op, d)
  {
  }

  lemma ChargesTaken(t: Store, e: nat, op: Operation, source: string, c: TaskCharge)
    requires Inv(t) && Governing(t, e).Some? && !Free(c) && forall d | d in Dimensions(c) :: !Recorded(t, op, d)
    ensures MirrorAll(t, e, op, source, Dimensions(c)).Ok? <==> Chargeable(t, e, op, c)
  {
    if c.UsageCharge? && c.tokens > 0 && c.cost > 0 {
      PairTaken(t, e, op, source, c.tokens, c.cost);
    } else {
      assert Dimensions(c)[0] in Dimensions(c);
      SingleTaken(t, e, op, source, c);
    }
    hide Inv, MirrorAll, Chargeable, Recorded;
  }
}

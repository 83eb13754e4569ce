/** What every run of reservations, settlements and mirrored charges keeps. */
module BudgetRuns {
  import opened Common
  import opened BudgetStore
  import opened BudgetQuota
  import opened BudgetShadow
  import opened BudgetMirror

  /** The charges that TaskBudget mirrors. */
  datatype TaskCharge = InferenceCharge | ToolCharge(capability: string) | UsageCharge(tokens: int, cost: int)

  function Dimensions(c: TaskCharge): seq<Mirrored> {
    match c
    case InferenceCharge => InferenceDimensions
    case ToolCharge(capability) => ToolCallDimensions(capability)
    case UsageCharge(tokens, cost) => UsageDimensions(tokens, cost)
  }

  datatype Step =
    | ReserveStep(rq: Request, now: int)
    | SettleStep(admission: Admission, reported: Reported)
    | MirrorStep(op: Operation, source: string, charge: TaskCharge, now: int)
    | PolicyStep(policy: Policy)
    | SelectStep(id: PolicyId)

  function Kept(s: Store, r: Result<Store, Error>): Store { if r.Ok? then r.value else s }

  /** A caller settles only what a reservation handed out. */
  ghost function After(s: Store, cfg: Settings, step: Step): Store {
    match step
    case ReserveStep(rq, now) => Reserve(s, rq, now).0
    case SettleStep(a, u) => if Issued(s, a) then Kept(s, Settle(s, a, u)) else s
    case MirrorStep(op, source, c, now) => Kept(s, Mirror(s, cfg, op, source, Dimensions(c), now))
    case PolicyStep(p) => Kept(s, CreatePolicy(s, p))
    case SelectStep(id) => Kept(s, SelectPolicy(s, id))
  }

  ghost function Run(s: Store, cfg: Settings, steps: seq<Step>): Store
    decreases |steps|
  {
    if steps == [] then s else Run(After(s, cfg, steps[0]), cfg, steps[1..])
  }

  // ---- The books balance in every reachable store -----------------------------------

  lemma DimensionsDistinct(c: TaskCharge)
    ensures DistinctKinds(Dimensions(c))
  {
  }

  lemma StepKeepsInv(s: Store, cfg: Settings, step: Step)
    requires Inv(s)
    ensures Inv(After(s, cfg, step))
  {
    hide Inv, Reserve, Settle, Mirror, CreatePolicy, SelectPolicy, Dimensions, DistinctKinds, ChargesWindow;
    InvAccount(s);
    match step
    case ReserveStep(rq, now) => ReserveKeepsInv(s, rq, now);
    case SettleStep(a, u) => if Issued(s, a) { SettleKeepsInv(s, a, u); }
    case MirrorStep(op, source, c, now) =>
      DimensionsDistinct(c);
      if Mirror(s, cfg, op, source, Dimensions(c), now).Ok? {
        if ChargesWindow(s, op, Dimensions(c)) {
          ChargedKeepsInvExactly(s, cfg, op, source, Dimensions(c), now);
        } else {
          UnchargedKeepsInv(s, cfg, op, source, Dimensions(c), now);
        }
      }
    case PolicyStep(p) =>
      if CreatePolicy(s, p).Ok? { CreateKeeps(s, p); AccountOnlyInv(s, CreatePolicy(s, p).value); }
    case SelectStep(id) =>
      if SelectPolicy(s, id).Ok? { SelectKeeps(s, id); AccountOnlyInv(s, SelectPolicy(s, id).value); }
  }

  lemma {:induction false} RunKeepsInv(s: Store, cfg: Settings, steps: seq<Step>)
    requires Inv(s)
    ensures Inv(Run(s, cfg, steps))
    decreases |steps|
  {
    hide Inv, After;
    if steps != [] {
      StepKeepsInv(s, cfg, steps[0]);
      RunKeepsInv(After(s, cfg, steps[0]), cfg, steps[1..]);
    }
  }

  /**
   In every reachable store each counter is the sum of its rows, and also what admitted requests
   settled plus what the receipts of the window say; tool calls add up per capability; and a
   recognised shadow window takes no admitted request, so there the receipts are everything.
   */
  lemma BooksBalance(cfg: Settings, steps: seq<Step>, e: nat, k: Kind, l: string)
    requires e in Run(Empty, cfg, steps).windows
    ensures var s := Run(Empty, cfg, steps);
            && Count(s.windows[e].used, k) == SettledSum(s.rows, e, k)
            && Count(s.windows[e].used, k) == QuotaSum(s.rows, e, k) + ReceiptSum(s.receipts, e, k)
            && (Tracked(k) ==> Count(s.windows[e].reserved, k) == ReservedSum(s.rows, e, k))
            && Count(s.windows[e].used, ToolCall) == ToolSum(s.toolUsage, e)
            && (QuotaKey(l, k) in s.rows && s.rows[QuotaKey(l, k)].epoch == e ==> !InShadow(s, e))
            && (InShadow(s, e) ==> Count(s.windows[e].used, k) == ReceiptSum(s.receipts, e, k))
  {
    hide Inv, Run, SettledSum, ReservedSum, QuotaSum, ReceiptSum, ToolSum, IsShadow;
    EmptyInv();
    RunKeepsInv(Empty, cfg, steps);
    var s := Run(Empty, cfg, steps);
    InvParts(s, e, k, l, Operation("", "", ""));
    if InShadow(s, e) {
      forall key | key in s.rows && key.QuotaKey? && key.kind == k
        ensures s.rows[key].epoch != e
      {
        InvParts(s, e, k, key.logicalId, Operation("", "", ""));
      }
      NoQuotaRows(s.rows, e, k);
    }
  }

  // ---- Nothing is rewritten ---------------------------------------------------------

  lemma RolloverGrows(s: Store, now: int)
    requires Inv(s) && ActiveWindow(s, now).Ok?
    ensures Grows(s, ActiveWindow(s, now).value.0)
  {
    hide Inv, ActiveWindow;
    RolloverInv(s, now);
  }

  lemma ReserveInGrows(s: Store, rq: Request, e: nat)
    requires Inv(s) && e in s.windows && QuotaKey(rq.logicalId, InferenceCall) !in s.rows
    ensures Grows(s, ReserveIn(s, rq, e))
  {
    hide Inv, WithRows;
    FreshId(s, rq.logicalId);
    forall key | key in s.rows
      ensures key in ReserveIn(s, rq, e).rows && RowGrows(s.rows[key], ReserveIn(s, rq, e).rows[key])
    {
      WithRowsAt(s.rows, rq.logicalId, rq.fingerprint, e, key);
    }
  }

  lemma ReserveGrows(s: Store, rq: Request, now: int)
    requires Inv(s)
    ensures Grows(s, Reserve(s, rq, now).0)
  {
    hide Inv, Grows, ReserveIn, AdmissionError, Replay, ActiveWindow;
    GrowsRefl(s);
    if Reserve(s, rq, now).0 != s {
      var (t, e) := ActiveWindow(s, now).value;
      RolloverInv(s, now);
      RolloverGrows(s, now);
      ReserveInGrows(t, rq, e);
      GrowsTrans(s, t, ReserveIn(t, rq, e));
    }
  }

  lemma {:induction false} SettleAllGrows(s: Store, a: Admission, u: Reported, kinds: seq<Kind>)
    requires a.epoch in s.windows
    ensures Grows(s, SettleAll(s, a, u, kinds))
    decreases |kinds|
  {
    hide Grows, SettleKind;
    GrowsRefl(s);
    if kinds != [] {
      var t := SettleKind(s, a, u, kinds[0]);
      SettleKindGrows(s, a, u, kinds[0]);
      SettleAllGrows(t, a, u, kinds[1..]);
      GrowsTrans(s, t, SettleAll(s, a, u, kinds));
    }
  }

  lemma SettleKindGrows(s: Store, a: Admission, u: Reported, k: Kind)
    requires a.epoch in s.windows
    ensures Grows(s, SettleKind(s, a, u, k))
  {
    hide Plus, Minus;
  }

  lemma MirrorGrows(s: Store, cfg: Settings, op: Operation, source: string, dims: seq<Mirrored>, now: int)
    requires Inv(s) && Mirror(s, cfg, op, source, dims, now).Ok?
    ensures Grows(s, Mirror(s, cfg, op, source, dims, now).value)
  {
    hide Inv, Grows, MirrorAll, ShadowWindow, Recorded, RecordedAs, ShapeAllowed;
    var t := Mirror(s, cfg, op, source, dims, now).value;
    GrowsRefl(s);
    if t != s {
      if |dims| == 1 && dims[0].dimension.NoCharge? {
        assert !Recorded(s, op, dims[0]);
        ZeroReceiptGrows(s, op, source, dims[0]);
      } else {
        var (w, e) := ShadowWindow(s, cfg, now).value;
        ShadowWindowInv(s, cfg, now);
        ShadowWindowGrows(s, cfg, now);
        MirrorAllFacts(w, e, op, source, dims);
        GrowsTrans(s, w, t);
      }
    }
  }

  lemma ZeroReceiptGrows(s: Store, op: Operation, source: string, d: Mirrored)
    requires !Recorded(s, op, d) && d.dimension.NoCharge?
    ensures Grows(s, s.(receipts := s.receipts[ReceiptKey(op, NoCharge) := Receipt(source, None, 0, None)]))
  {
  }

  lemma ShadowWindowGrows(s: Store, cfg: Settings, now: int)
    requires Inv(s) && ShadowWindow(s, cfg, now).Ok?
    ensures Grows(s, ShadowWindow(s, cfg, now).value.0)
  {
    hide Inv, EnsureShadowAccount, ActiveWindow, Grows;
    EnsureShadowAccountInv(s, cfg);
    var t := EnsureShadowAccount(s, cfg).value;
    AccountOnlyGrows(s, t);
    RolloverGrows(t, now);
    GrowsTrans(s, t, ShadowWindow(s, cfg, now).value.0);
  }

  lemma AccountOnlyGrows(s: Store, t: Store)
    requires AccountOnly(s, t)
    ensures Grows(s, t)
  {
  }

  lemma StepGrows(s: Store, cfg: Settings, step: Step)
    requires Inv(s)
    ensures Grows(s, After(s, cfg, step))
  {
    hide Inv, Grows, Reserve, SettleAll, Mirror, CreatePolicy, SelectPolicy;
    hide Dimensions, Issued, FirstRowError, Underflows, Overflows, AccountOnly;
    InvAccount(s);
    GrowsRefl(s);
    match step
    case ReserveStep(rq, now) => ReserveGrows(s, rq, now);
    case SettleStep(a, u) => if Settle(s, a, u).Ok? { SettleAllGrows(s, a, u, QuotaKinds); }
    case MirrorStep(op, source, c, now) =>
      if Mirror(s, cfg, op, source, Dimensions(c), now).Ok? { MirrorGrows(s, cfg, op, source, Dimensions(c), now); }
    case PolicyStep(p) =>
      if CreatePolicy(s, p).Ok? { CreateKeeps(s, p); AccountOnlyGrows(s, CreatePolicy(s, p).value); }
    case SelectStep(id) =>
      if SelectPolicy(s, id).Ok? { SelectKeeps(s, id); AccountOnlyGrows(s, SelectPolicy(s, id).value); }
  }

  lemma {:induction false} RunGrows(s: Store, cfg: Settings, steps: seq<Step>)
    requires Inv(s)
    ensures Grows(s, Run(s, cfg, steps))
    decreases |steps|
  {
    hide Inv, After, Grows;
    GrowsRefl(s);
    if steps != [] {
      var t := After(s, cfg, steps[0]);
      StepKeepsInv(s, cfg, steps[0]);
      StepGrows(s, cfg, steps[0]);
      RunGrows(t, cfg, steps[1..]);
      GrowsTrans(s, t, Run(s, cfg, steps));
    }
  }
}

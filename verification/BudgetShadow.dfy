/**
 Shadow accounting (se/src/application/user_budget.py): charges of TaskBudget mirrored,
 one receipt per resource, into windows of an automatic unbounded policy.
 */
module BudgetShadow {
  import opened Common
  import opened BudgetStore
  import opened BudgetQuota

  datatype Settings = Settings(version: string, duration: int)

  function ShadowPolicy(cfg: Settings): Policy {
    Policy(ShadowId(cfg.version, cfg.duration), cfg.version, cfg.duration, map[], false)
  }

  datatype Mirrored = Mirrored(dimension: Dimension, amount: int, capability: Option<string>)

  // ---- The account ------------------------------------------------------------------

  /** Policies are immutable, and a version names one policy. */
  function CreatePolicy(s: Store, p: Policy): Result<Store, Error> {
    if p.id in s.policies then if s.policies[p.id] == p then Ok(s) else Err(PolicyConflict)
    else if exists id | id in s.policies :: s.policies[id].version == p.version then Err(PolicyConflict)
    else Ok(s.(policies := s.policies[p.id := p]))
  }

  function SelectPolicy(s: Store, id: PolicyId): Result<Store, Error> {
    if id !in s.policies then Err(NoPolicy)
    else
      var a := if s.account.Some? then s.account.value else Account(None, None, 1);
      Ok(s.(account := Some(a.(nextPolicy := Some(id)))))
  }

  /** An account with no selection takes the shadow policy; any other authority is left alone. */
  function AdoptShadow(s: Store, id: PolicyId): Result<Store, Error> {
    if s.account.Some? && s.account.value.active.Some? && !InShadow(s, s.account.value.active.value)
      then Err(PolicyConflict)
    else if !HasSelection(s) then SelectPolicy(s, id)
    else if s.account.value.nextPolicy.value in s.policies && IsShadow(s.policies[s.account.value.nextPolicy.value])
      then Ok(s)
    else Err(PolicyConflict)
  }

  predicate HasSelection(s: Store) { s.account.Some? && s.account.value.nextPolicy.Some? }

  predicate InShadow(s: Store, e: nat) { Governing(s, e).Some? && IsShadow(Governing(s, e).value) }

  function EnsureShadowAccount(s: Store, cfg: Settings): Result<Store, Error> {
    match CreatePolicy(s, ShadowPolicy(cfg))
    case Err(e) => Err(e)
    case Ok(s1) => AdoptShadow(s1, ShadowPolicy(cfg).id)
  }

  function ShadowWindow(s: Store, cfg: Settings, now: int): Result<(Store, nat), Error> {
    match EnsureShadowAccount(s, cfg)
    case Err(e) => Err(e)
    case Ok(s1) => ActiveWindow(s1, now)
  }

  // ---- Mirroring --------------------------------------------------------------------

  predicate Supported(k: Kind) { k in {InferenceCall, TotalToken, CostUsd, ToolCall} }

  predicate DimensionValid(d: Mirrored) {
    d.dimension.Charged? && Supported(d.dimension.kind) && 0 < d.amount <= INT64_MAX
    && (if d.dimension.kind == ToolCall then d.capability.Some? && d.capability.value != "" else d.capability.None?)
  }

  /** Which dimensions a kind of task charge may be recorded under. */
  predicate ShapeAllowed(budgetKind: string, d: Mirrored) {
    match d.dimension
    case NoCharge => budgetKind == "USAGE"
    case Charged(k) =>
      || (budgetKind == "INFERENCE" && k == InferenceCall && d.amount == 1)
      || (budgetKind == "USAGE" && (k == TotalToken || k == CostUsd))
      || (budgetKind == "TOOL_CALL" && k == ToolCall && d.amount == 1)
  }

  function MirrorRow(d: Mirrored, e: nat): Row
    requires DimensionValid(d)
  {
    Row(e, d.amount, None, d.capability, Settled(d.amount))
  }

  function WithToolUsage(usage: map<Usage, nat>, d: Mirrored, e: nat): map<Usage, nat>
    requires DimensionValid(d)
  {
    if d.dimension.kind != ToolCall then usage
    else
      var u := Usage(e, d.capability.value);
      usage[u := (if u in usage then usage[u] else 0) + d.amount]
  }

  /** One dimension: its row, its share of the window and of the tool, its receipt. */
  function Charge(s: Store, e: nat, op: Operation, source: string, d: Mirrored): Store
    requires DimensionValid(d) && e in s.windows
  {
    var key := MirrorKey(op, d.dimension.kind);
    var receipt := ReceiptKey(op, d.dimension);
    s.(rows := if key in s.rows then s.rows else s.rows[key := MirrorRow(d, e)],
       windows := s.windows[e := s.windows[e].(used := Plus(s.windows[e].used, d.dimension.kind, d.amount))],
       toolUsage := WithToolUsage(s.toolUsage, d, e),
       receipts := if receipt in s.receipts then s.receipts
                   else s.receipts[receipt := Receipt(source, Some(e), d.amount, d.capability)])
  }

  function MirrorOne(s: Store, e: nat, op: Operation, source: string, d: Mirrored): (r: Result<Store, Error>)
    requires e in s.windows
    ensures r.Ok? ==> e in r.value.windows
  {
    if !DimensionValid(d) then Err(Unsupported)
    else
      var key := MirrorKey(op, d.dimension.kind);
      var receipt := ReceiptKey(op, d.dimension);
      if key in s.rows && s.rows[key] != MirrorRow(d, e) then Err(ReplayConflict)
      else if Count(s.windows[e].used, d.dimension.kind) + d.amount > INT64_MAX then Err(Overflow)
      else if receipt in s.receipts && s.receipts[receipt] != Receipt(source, Some(e), d.amount, d.capability)
        then Err(ReplayConflict)
      else if !ShapeAllowed(op.budgetKind, d) then Err(Unsupported)
      else Ok(Charge(s, e, op, source, d))
  }

  function MirrorAll(s: Store, e: nat, op: Operation, source: string, dims: seq<Mirrored>): Result<Store, Error>
    requires e in s.windows
    decreases |dims|
  {
    if dims == [] then Ok(s)
    else match MirrorOne(s, e, op, source, dims[0])
      case Err(x) => Err(x)
      case Ok(s') => MirrorAll(s', e, op, source, dims[1..])
  }

  predicate Recorded(s: Store, op: Operation, d: Mirrored) { ReceiptKey(op, d.dimension) in s.receipts }

  /** The receipt says what the repeated request says. */
  predicate RecordedAs(s: Store, op: Operation, source: string, d: Mirrored) {
    Recorded(s, op, d)
    && var c := s.receipts[ReceiptKey(op, d.dimension)];
       c.source == source && c.amount == d.amount && c.capability == d.capability
  }

  function Mirror(s: Store, cfg: Settings, op: Operation, source: string, dims: seq<Mirrored>,
                  now: int): Result<Store, Error> {
    if dims == [] then Err(Unsupported)
    else if exists d | d in dims :: Recorded(s, op, d) && !RecordedAs(s, op, source, d) then Err(ReplayConflict)
    else if forall d | d in dims :: Recorded(s, op, d) then Ok(s)
    else if exists d | d in dims :: Recorded(s, op, d) then Err(PartiallyMirrored)
    else if |dims| == 1 && dims[0].dimension.NoCharge? then
      if !ShapeAllowed(op.budgetKind, dims[0]) then Err(Unsupported)
      else Ok(s.(receipts := s.receipts[ReceiptKey(op, NoCharge) := Receipt(source, None, 0, None)]))
    else match ShadowWindow(s, cfg, now)
      case Err(e) => Err(e)
      case Ok((s1, e)) => if e !in s1.windows then Err(MissingWindow) else MirrorAll(s1, e, op, source, dims)
  }

  // ---- The dimensions the callers pass ----------------------------------------------

  const InferenceDimensions := [Mirrored(Charged(InferenceCall), 1, None)]

  function ToolCallDimensions(capability: string): seq<Mirrored> { [Mirrored(Charged(ToolCall), 1, Some(capability))] }

  function UsageDimensions(tokens: int, cost: int): seq<Mirrored> {
    var ds := (if tokens > 0 then [Mirrored(Charged(TotalToken), tokens, None)] else [])
            + (if cost > 0 then [Mirrored(Charged(CostUsd), cost, None)] else []);
    if ds == [] then [Mirrored(NoCharge, 0, None)] else ds
  }

  predicate DistinctKinds(dims: seq<Mirrored>) {
    forall i, j | 0 <= i < j < |dims| :: dims[i].dimension != dims[j].dimension
  }

  // ---- One charge keeps the store invariant -----------------------------------------

  lemma ChargeSums(s: Store, e: nat, op: Operation, source: string, d: Mirrored, x: nat, k: Kind)
    requires Inv(s) && DimensionValid(d) && e in s.windows && MirrorKey(op, d.dimension.kind) !in s.rows
    ensures SumInv(Charge(s, e, op, source, d), x, k)
  {
    hide Inv, SettledSum, ReservedSum, WithToolUsage;
    InvParts(s, x, k, "", op);
    RowWritten(s.rows, MirrorKey(op, d.dimension.kind), MirrorRow(d, e), x, k);
  }

  lemma ToolUsageSum(usage: map<Usage, nat>, d: Mirrored, e: nat, x: nat)
    requires DimensionValid(d)
    ensures ToolSum(WithToolUsage(usage, d, e), x)
            == ToolSum(usage, x) + if x == e && d.dimension.kind == ToolCall then d.amount else 0
  {
    hide ToolSum;
    if d.dimension.kind == ToolCall {
      var u := Usage(e, d.capability.value);
      ToolWritten(usage, u, (if u in usage then usage[u] else 0) + d.amount, x);
    }
  }

  lemma ChargeSources(s: Store, e: nat, op: Operation, source: string, d: Mirrored, x: nat, k: Kind)
    requires Inv(s) && DimensionValid(d) && e in s.windows && !Recorded(s, op, d)
    ensures SourceInv(Charge(s, e, op, source, d), x, k)
  {
    hide Inv, QuotaSum, ReceiptSum, ToolSum, WithToolUsage;
    InvParts(s, x, k, "", op);
    QuotaRowWritten(s.rows, MirrorKey(op, d.dimension.kind), MirrorRow(d, e), x, k);
    ReceiptWritten(s.receipts, ReceiptKey(op, d.dimension), Receipt(source, Some(e), d.amount, d.capability), x, k);
    ToolUsageSum(s.toolUsage, d, e, x);
  }

  lemma ChargeRows(s: Store, e: nat, op: Operation, source: string, d: Mirrored, l: string, o: Operation, k: Kind)
    requires Inv(s) && DimensionValid(d) && Governing(s, e).Some? && !Recorded(s, op, d)
    requires MirrorKey(op, d.dimension.kind) !in s.rows
    ensures QuotaRowInv(Charge(s, e, op, source, d), l, k)
    ensures MirrorRowInv(Charge(s, e, op, source, d), o, k) && ReceiptInv(Charge(s, e, op, source, d), o, k)
  {
    hide Inv, WithToolUsage, IsShadow, Plus;
    InvParts(s, e, k, l, o);
  }

  lemma ChargeKnown(s: Store, e: nat, op: Operation, source: string, d: Mirrored)
    requires Inv(s) && DimensionValid(d) && e in s.windows
    ensures var t := Charge(s, e, op, source, d);
            EpochsKnown(t) && AccountInv(t) && forall x :: WindowInv(t, x)
  {
    hide Plus;
    forall x ensures WindowInv(Charge(s, e, op, source, d), x) { assert WindowInv(s, x) && WindowInv(s, e); }
  }

  lemma ChargeInv(s: Store, e: nat, op: Operation, source: string, d: Mirrored)
    requires Inv(s) && DimensionValid(d) && Governing(s, e).Some? && !Recorded(s, op, d)
    ensures Inv(Charge(s, e, op, source, d))
  {
    assert MirrorRowInv(s, op, d.dimension.kind);
    hide Charge, SumInv, SourceInv, QuotaRowInv, MirrorRowInv, ReceiptInv, WindowInv, AccountInv, EpochsKnown;
    assert MirrorKey(op, d.dimension.kind) !in s.rows;
    var t := Charge(s, e, op, source, d);
    ChargeKnown(s, e, op, source, d);
    forall x, k ensures SumInv(t, x, k) { ChargeSums(s, e, op, source, d, x, k); }
    forall x, k ensures SourceInv(t, x, k) { ChargeSources(s, e, op, source, d, x, k); }
    forall l, k ensures QuotaRowInv(t, l, k) { ChargeRows(s, e, op, source, d, l, op, k); }
    forall o, k ensures MirrorRowInv(t, o, k) && ReceiptInv(t, o, k) { ChargeRows(s, e, op, source, d, "", o, k); }
  }

  lemma ChargeGoverned(s: Store, e: nat, op: Operation, source: string, d: Mirrored, x: nat)
    requires DimensionValid(d) && e in s.windows
    ensures Governing(Charge(s, e, op, source, d), x) == Governing(s, x)
  {
    hide WithToolUsage, Plus;
  }

  // ---- The account keeps the store invariant ----------------------------------------

  /** Changes that touch only the account and add policies. */
  ghost predicate AccountOnly(s: Store, t: Store) {
    && t == s.(policies := t.policies, account := t.account)
    && (forall id | id in s.policies :: id in t.policies && t.policies[id] == s.policies[id])
    && AccountInv(t)
  }

  lemma AccountOnlySums(s: Store, t: Store, x: nat, k: Kind)
    requires Inv(s) && AccountOnly(s, t)
    ensures WindowInv(t, x) && SumInv(t, x, k) && SourceInv(t, x, k)
  {
    hide Inv, AccountInv, SettledSum, ReservedSum, QuotaSum, ReceiptSum, ToolSum;
    InvParts(s, x, k, "", Operation("", "", ""));
  }

  lemma AccountOnlyGoverning(s: Store, t: Store, e: nat)
    requires Inv(s) && AccountOnly(s, t) && e in s.windows
    ensures Governing(t, e) == Governing(s, e)
  {
    hide Inv, AccountInv;
    InvParts(s, e, ToolCall, "", Operation("", "", ""));
  }

  lemma AccountOnlyRows(s: Store, t: Store, k: Kind, l: string, op: Operation)
    requires Inv(s) && AccountOnly(s, t)
    ensures QuotaRowInv(t, l, k) && MirrorRowInv(t, op, k) && ReceiptInv(t, op, k)
  {
    hide Inv, AccountInv, IsShadow, Governing;
    InvParts(s, 0, k, l, op);
    forall e | e in s.windows ensures Governing(t, e) == Governing(s, e) { AccountOnlyGoverning(s, t, e); }
  }

  lemma AccountOnlyInv(s: Store, t: Store)
    requires Inv(s) && AccountOnly(s, t)
    ensures Inv(t)
  {
    hide SumInv, SourceInv, QuotaRowInv, MirrorRowInv, ReceiptInv, WindowInv;
    var op0 := Operation("", "", "");
    forall x ensures WindowInv(t, x) { AccountOnlySums(s, t, x, ToolCall); }
    forall x, k ensures SumInv(t, x, k) && SourceInv(t, x, k) { AccountOnlySums(s, t, x, k); }
    forall l, k ensures QuotaRowInv(t, l, k) { AccountOnlyRows(s, t, k, l, op0); }
    forall op, k ensures MirrorRowInv(t, op, k) && ReceiptInv(t, op, k) { AccountOnlyRows(s, t, k, "", op); }
  }

  lemma CreateKeeps(s: Store, p: Policy)
    requires AccountInv(s) && CreatePolicy(s, p).Ok?
    ensures AccountOnly(s, CreatePolicy(s, p).value) && CreatePolicy(s, p).value.account == s.account
    ensures p.id in CreatePolicy(s, p).value.policies && CreatePolicy(s, p).value.policies[p.id] == p
  {
  }

  lemma SelectKeeps(s: Store, id: PolicyId)
    requires AccountInv(s) && SelectPolicy(s, id).Ok?
    ensures AccountOnly(s, SelectPolicy(s, id).value)
  {
  }

  lemma EnsureIsAccountOnly(s: Store, cfg: Settings)
    requires AccountInv(s) && EnsureShadowAccount(s, cfg).Ok?
    ensures AccountOnly(s, EnsureShadowAccount(s, cfg).value)
  {
    hide IsShadow, CreatePolicy, SelectPolicy, InShadow, AccountInv;
    CreateKeeps(s, ShadowPolicy(cfg));
    var s1 := CreatePolicy(s, ShadowPolicy(cfg)).value;
    if !HasSelection(s1) { SelectKeeps(s1, ShadowPolicy(cfg).id); }
  }

  lemma EnsureShadowAccountInv(s: Store, cfg: Settings)
    requires Inv(s) && EnsureShadowAccount(s, cfg).Ok?
    ensures Inv(EnsureShadowAccount(s, cfg).value) && AccountOnly(s, EnsureShadowAccount(s, cfg).value)
  {
    hide EnsureShadowAccount, Inv, AccountOnly;
    InvAccount(s);
    EnsureIsAccountOnly(s, cfg);
    AccountOnlyInv(s, EnsureShadowAccount(s, cfg).value);
  }

  /** What the account is ready for: every window it can lead to is a shadow window. */
  predicate LeadsToShadow(s: Store) {
    && (HasSelection(s) && s.account.value.nextPolicy.value in s.policies ==>
        IsShadow(s.policies[s.account.value.nextPolicy.value]))
    && (s.account.Some? && s.account.value.active.Some? ==> InShadow(s, s.account.value.active.value))
  }

  lemma AdoptLeads(s: Store, id: PolicyId)
    requires AccountInv(s) && AdoptShadow(s, id).Ok?
    ensures var t := AdoptShadow(s, id).value;
            && t.policies == s.policies
            && (HasSelection(s) || IsShadow(s.policies[id]) ==> LeadsToShadow(t))
            && (!HasSelection(s) ==>
                t.account.Some? && t.account.value.active.None? && t.account.value.nextPolicy == Some(id))
  {
    hide IsShadow;
  }

  lemma EnsureLeads(s: Store, cfg: Settings)
    requires AccountInv(s) && EnsureShadowAccount(s, cfg).Ok?
    ensures var t := EnsureShadowAccount(s, cfg).value;
            && (ShadowPrefix <= cfg.version || HasSelection(s) ==> LeadsToShadow(t))
            && (!HasSelection(s) ==>
                  && t.account.Some? && t.account.value.active.None?
                  && t.account.value.nextPolicy == Some(ShadowPolicy(cfg).id)
                  && ShadowPolicy(cfg).id in t.policies && t.policies[ShadowPolicy(cfg).id] == ShadowPolicy(cfg))
  {
    hide CreatePolicy, AdoptShadow, LeadsToShadow, AccountInv;
    CreateKeeps(s, ShadowPolicy(cfg));
    AdoptLeads(CreatePolicy(s, ShadowPolicy(cfg)).value, ShadowPolicy(cfg).id);
  }

  lemma ActiveLeads(s: Store, now: int)
    requires AccountInv(s) && ActiveWindow(s, now).Ok?
    ensures var (t, e) := ActiveWindow(s, now).value;
            && (LeadsToShadow(s) ==> InShadow(t, e))
            && (s.account.value.active.None? ==> Governing(t, e) == Some(s.policies[s.account.value.nextPolicy.value]))
  {
    hide IsShadow;
  }

  /**
   The window a fresh mirror charges is governed by a recognised shadow policy exactly when the
   configured version has the shadow prefix or a policy was selected before.
   */
  lemma ShadowWindowInv(s: Store, cfg: Settings, now: int)
    requires Inv(s) && ShadowWindow(s, cfg, now).Ok?
    ensures var (t, e) := ShadowWindow(s, cfg, now).value;
            && Inv(t) && e in t.windows
            && t.rows == s.rows && t.receipts == s.receipts && t.toolUsage == s.toolUsage
            && (forall x | x in s.windows :: x in t.windows && t.windows[x] == s.windows[x])
            && Governing(t, e).Some?
            && (InShadow(t, e) <==> ShadowPrefix <= cfg.version || HasSelection(s))
            && (!InShadow(t, e) ==> Governing(t, e) == Some(ShadowPolicy(cfg)))
  {
    hide Inv, EnsureShadowAccount, ActiveWindow, LeadsToShadow, AccountInv;
    EnsureShadowAccountInv(s, cfg);
    var s1 := EnsureShadowAccount(s, cfg).value;
    RolloverInv(s1, now);
    InvAccount(s);
    InvAccount(s1);
    EnsureLeads(s, cfg);
    ActiveLeads(s1, now);
  }

  lemma InvAccount(s: Store)
    requires Inv(s)
    ensures AccountInv(s)
  {
  }

  // ---- A whole mirror call ----------------------------------------------------------

  lemma ChargeRecords(s: Store, e: nat, op: Operation, source: string, d: Mirrored, x: Mirrored)
    requires DimensionValid(d) && e in s.windows
    ensures Recorded(Charge(s, e, op, source, d), op, x) <==> Recorded(s, op, x) || x.dimension == d.dimension
  {
  }

  lemma {:induction false} MirrorAllInv(s: Store, e: nat, op: Operation, source: string, dims: seq<Mirrored>)
    requires Inv(s) && e in s.windows && Governing(s, e).Some? && DistinctKinds(dims)
             && MirrorAll(s, e, op, source, dims).Ok?
    requires forall d | d in dims :: !Recorded(s, op, d)
    ensures Inv(MirrorAll(s, e, op, source, dims).value)
    decreases |dims|
  {
    hide Inv, Governing, Charge, Recorded;
    if dims != [] {
      var t := Charge(s, e, op, source, dims[0]);
      ChargeInv(s, e, op, source, dims[0]);
      ChargeGoverned(s, e, op, source, dims[0], e);
      forall d | d in dims[1..]
        ensures !Recorded(t, op, d)
      {
        ChargeRecords(s, e, op, source, dims[0], d);
      }
      MirrorAllInv(t, e, op, source, dims[1..]);
    }
  }

  // ---- A repeated kind charges the window twice -------------------------------------

  /** How far a used counter runs ahead of the settled rows. */
  ghost function Drift(s: Store, e: nat, k: Kind): int
    requires e in s.windows
  {
    Count(s.windows[e].used, k) - SettledSum(s.rows, e, k)
  }

  lemma ChargeDrift(s: Store, e: nat, op: Operation, source: string, d: Mirrored, k: Kind)
    requires DimensionValid(d) && e in s.windows
    ensures Drift(Charge(s, e, op, source, d), e, k)
            == Drift(s, e, k) + if d.dimension.kind == k && MirrorKey(op, k) in s.rows then d.amount else 0
    ensures MirrorKey(op, k) in Charge(s, e, op, source, d).rows <==>
              MirrorKey(op, k) in s.rows || d.dimension.kind == k
  {
    hide SettledSum, ReservedSum, WithToolUsage;
    RowWritten(s.rows, MirrorKey(op, d.dimension.kind), MirrorRow(d, e), e, k);
  }

  lemma {:induction false} MirrorAllDrift(s: Store, e: nat, op: Operation, source: string, dims: seq<Mirrored>, k: Kind)
    requires e in s.windows && MirrorAll(s, e, op, source, dims).Ok?
    ensures e in MirrorAll(s, e, op, source, dims).value.windows
    ensures Drift(MirrorAll(s, e, op, source, dims).value, e, k) >= Drift(s, e, k)
    ensures MirrorKey(op, k) in s.rows && (exists d | d in dims :: d.dimension == Charged(k)) ==>
              Drift(MirrorAll(s, e, op, source, dims).value, e, k) > Drift(s, e, k)
    decreases |dims|
  {
    hide Drift, Charge, DimensionValid;
    if dims != [] {
      var t := Charge(s, e, op, source, dims[0]);
      assert DimensionValid(dims[0]);
      ChargeDrift(s, e, op, source, dims[0], k);
      ValidCharge(dims[0]);
      MirrorAllDrift(t, e, op, source, dims[1..], k);
      assert forall d | d in dims :: d == dims[0] || d in dims[1..];
    }
  }

  lemma ValidCharge(d: Mirrored)
    requires DimensionValid(d)
    ensures d.dimension.Charged? && d.amount > 0
  {
  }

  lemma {:induction false} RepeatedKindDrifts(s: Store, e: nat, op: Operation, source: string, dims: seq<Mirrored>,
                                              i: nat, j: nat)
    requires e in s.windows && MirrorAll(s, e, op, source, dims).Ok?
    requires i < j < |dims| && dims[i].dimension == dims[j].dimension && dims[i].dimension.Charged?
    ensures e in MirrorAll(s, e, op, source, dims).value.windows
    ensures var k := dims[i].dimension.kind;
            Drift(MirrorAll(s, e, op, source, dims).value, e, k) > Drift(s, e, k)
    decreases i
  {
    hide Drift, Charge, DimensionValid;
    var k := dims[i].dimension.kind;
    var t := Charge(s, e, op, source, dims[0]);
    assert DimensionValid(dims[0]);
    ChargeDrift(s, e, op, source, dims[0], k);
    ValidCharge(dims[0]);
    assert dims[1..][j - 1] == dims[j];
    if i == 0 {
      assert dims[j] in dims[1..];
      MirrorAllDrift(t, e, op, source, dims[1..], k);
    } else {
      RepeatedKindDrifts(t, e, op, source, dims[1..], i - 1, j - 1);
    }
  }
}

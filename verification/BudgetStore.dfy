/**
 One owner's renewable budget (se/src/application/user_inference_quota.py and
 se/src/application/user_budget.py): policies, windows, reservation rows, bridge receipts and
 per-tool usage. A unit of work is one function from store to store; an error leaves the
 store as it was, as the rolled back transaction does. Digests are taken to be injective.
 */
module BudgetStore {
  import opened Common
  import opened Sums

  const INT64_MAX: int := 9_223_372_036_854_775_807

  datatype Kind = InferenceCall | InputToken | OutputToken | TotalToken | ToolCall | ComputeUnit | CostUsd

  type Counters = map<Kind, nat>

  function Count(c: Counters, k: Kind): nat { if k in c then c[k] else 0 }

  function Plus(c: Counters, k: Kind, n: nat): Counters { c[k := Count(c, k) + n] }

  datatype PolicyId = ShadowId(version: string, duration: int) | OtherId(name: string)

  datatype Policy = Policy(id: PolicyId, version: string, duration: int, limits: map<Kind, nat>, perToolLimits: bool)

  const ShadowPrefix := "ubq2-shadow-"

  /** The automatic, unbounded accounting policy, recognised by its content and identity. */
  predicate IsShadow(p: Policy) {
    ShadowPrefix <= p.version && p.limits == map[] && !p.perToolLimits && p.id == ShadowId(p.version, p.duration)
  }

  datatype Window = Window(policy: PolicyId, expiresAt: int, used: Counters, reserved: Counters)

  /** The logical request digest; it fixes the request body and with it the token estimate. */
  datatype Fingerprint = Fingerprint(digest: string, input: nat, output: nat)

  /** A charged operation of TaskBudget that is mirrored here. */
  datatype Operation = Operation(task: string, budgetKind: string, reservationKey: string)

  datatype RowKey = QuotaKey(logicalId: string, kind: Kind) | MirrorKey(operation: Operation, kind: Kind)

  datatype RowState = Reserved | Settled(actual: nat)

  datatype Row = Row(
    epoch: nat, amount: nat, fingerprint: Option<Fingerprint>, capability: Option<string>, state: RowState)

  datatype Dimension = Charged(kind: Kind) | NoCharge

  datatype ReceiptKey = ReceiptKey(operation: Operation, dimension: Dimension)

  datatype Receipt = Receipt(source: string, epoch: Option<nat>, amount: nat, capability: Option<string>)

  datatype Usage = Usage(epoch: nat, capability: string)

  datatype Account = Account(nextPolicy: Option<PolicyId>, active: Option<nat>, nextEpoch: nat)

  datatype Store = Store(
    policies: map<PolicyId, Policy>,
    account: Option<Account>,
    windows: map<nat, Window>,
    rows: map<RowKey, Row>,
    receipts: map<ReceiptKey, Receipt>,
    toolUsage: map<Usage, nat>)

  datatype Error =
    | NoPolicy | PolicyConflict | FingerprintConflict | PartialSet | Historical | EstimateUnavailable | InvalidAmount
    | CallsExhausted | TokensExhausted | Overflow | MissingWindow | MissingRow | SettledDifferently | Underflow
    | ReplayConflict | PartiallyMirrored | Unsupported

  /** Counters that have a reserved column of their own. */
  predicate Tracked(k: Kind) { k == InferenceCall || k == TotalToken }

  // ---- Sums of rows -----------------------------------------------------------------

  predicate Counts(key: RowKey, r: Row, epoch: nat, k: Kind) { key.kind == k && r.epoch == epoch }

  /** What a row adds to the used and to the reserved counter of a window. */
  function SettledPart(key: RowKey, r: Row, epoch: nat, k: Kind): nat {
    if Counts(key, r, epoch, k) && r.state.Settled? then r.state.actual else 0
  }

  function ReservedPart(key: RowKey, r: Row, epoch: nat, k: Kind): nat {
    if Counts(key, r, epoch, k) && r.state.Reserved? then r.amount else 0
  }

  /** The part of the used counter that comes from admitted requests. */
  function QuotaPart(key: RowKey, r: Row, epoch: nat, k: Kind): nat {
    if key.QuotaKey? then SettledPart(key, r, epoch, k) else 0
  }

  ghost function QuotaWeights(rows: map<RowKey, Row>, epoch: nat, k: Kind): map<RowKey, nat> {
    map key | key in rows :: QuotaPart(key, rows[key], epoch, k)
  }

  ghost function QuotaSum(rows: map<RowKey, Row>, epoch: nat, k: Kind): nat { MapSum(QuotaWeights(rows, epoch, k)) }

  ghost function SettledWeights(rows: map<RowKey, Row>, epoch: nat, k: Kind): map<RowKey, nat> {
    map key | key in rows :: SettledPart(key, rows[key], epoch, k)
  }

  ghost function ReservedWeights(rows: map<RowKey, Row>, epoch: nat, k: Kind): map<RowKey, nat> {
    map key | key in rows :: ReservedPart(key, rows[key], epoch, k)
  }

  ghost function SettledSum(rows: map<RowKey, Row>, epoch: nat, k: Kind): nat { MapSum(SettledWeights(rows, epoch, k)) }

  ghost function ReservedSum(rows: map<RowKey, Row>, epoch: nat, k: Kind): nat {
    MapSum(ReservedWeights(rows, epoch, k))
  }

  /** Writing one row moves the two sums by what the row itself contributes. */
  lemma RowWritten(rows: map<RowKey, Row>, key: RowKey, r: Row, epoch: nat, k: Kind)
    ensures SettledSum(rows[key := r], epoch, k) + (if key in rows then SettledPart(key, rows[key], epoch, k) else 0)
            == SettledSum(rows, epoch, k) + SettledPart(key, r, epoch, k)
    ensures ReservedSum(rows[key := r], epoch, k) + (if key in rows then ReservedPart(key, rows[key], epoch, k) else 0)
            == ReservedSum(rows, epoch, k) + ReservedPart(key, r, epoch, k)
  {
    hide SettledPart, ReservedPart;
    WeightsWritten(rows, key, r, epoch, k);
    MapSumUpdate(SettledWeights(rows, epoch, k), key, SettledPart(key, r, epoch, k));
    MapSumUpdate(ReservedWeights(rows, epoch, k), key, ReservedPart(key, r, epoch, k));
  }

  lemma QuotaRowWritten(rows: map<RowKey, Row>, key: RowKey, r: Row, epoch: nat, k: Kind)
    ensures QuotaSum(rows[key := r], epoch, k) + (if key in rows then QuotaPart(key, rows[key], epoch, k) else 0)
            == QuotaSum(rows, epoch, k) + QuotaPart(key, r, epoch, k)
  {
    hide QuotaPart;
    assert QuotaWeights(rows[key := r], epoch, k) == QuotaWeights(rows, epoch, k)[key := QuotaPart(key, r, epoch, k)];
    MapSumUpdate(QuotaWeights(rows, epoch, k), key, QuotaPart(key, r, epoch, k));
  }

  lemma NoQuotaRows(rows: map<RowKey, Row>, epoch: nat, k: Kind)
    requires forall key | key in rows && key.QuotaKey? && key.kind == k :: rows[key].epoch != epoch
    ensures QuotaSum(rows, epoch, k) == 0
  {
    MapSumZero(QuotaWeights(rows, epoch, k));
  }

  lemma WeightsWritten(rows: map<RowKey, Row>, key: RowKey, r: Row, epoch: nat, k: Kind)
    ensures SettledWeights(rows[key := r], epoch, k)
            == SettledWeights(rows, epoch, k)[key := SettledPart(key, r, epoch, k)]
    ensures ReservedWeights(rows[key := r], epoch, k)
            == ReservedWeights(rows, epoch, k)[key := ReservedPart(key, r, epoch, k)]
  {
    hide SettledPart, ReservedPart;
  }

  lemma NoRows(rows: map<RowKey, Row>, epoch: nat, k: Kind)
    requires forall key | key in rows :: rows[key].epoch != epoch
    ensures SettledSum(rows, epoch, k) == 0 && ReservedSum(rows, epoch, k) == 0
  {
    MapSumZero(SettledWeights(rows, epoch, k));
    MapSumZero(ReservedWeights(rows, epoch, k));
  }

  lemma NothingReserved(rows: map<RowKey, Row>, epoch: nat, k: Kind)
    requires forall key | key in rows :: ReservedPart(key, rows[key], epoch, k) == 0
    ensures ReservedSum(rows, epoch, k) == 0
  {
    MapSumZero(ReservedWeights(rows, epoch, k));
  }

  // ---- Sums of receipts and tool usage ----------------------------------------------

  ghost function ReceiptWeights(receipts: map<ReceiptKey, Receipt>, epoch: nat, k: Kind): map<ReceiptKey, nat> {
    map key | key in receipts ::
      if key.dimension == Charged(k) && receipts[key].epoch == Some(epoch) then receipts[key].amount else 0
  }

  ghost function ReceiptSum(receipts: map<ReceiptKey, Receipt>, epoch: nat, k: Kind): nat {
    MapSum(ReceiptWeights(receipts, epoch, k))
  }

  ghost function ToolWeights(usage: map<Usage, nat>, epoch: nat): map<Usage, nat> {
    map u | u in usage :: if u.epoch == epoch then usage[u] else 0
  }

  ghost function ToolSum(usage: map<Usage, nat>, epoch: nat): nat { MapSum(ToolWeights(usage, epoch)) }

  lemma ReceiptWritten(receipts: map<ReceiptKey, Receipt>, key: ReceiptKey, r: Receipt, epoch: nat, k: Kind)
    requires key !in receipts
    ensures ReceiptSum(receipts[key := r], epoch, k)
            == ReceiptSum(receipts, epoch, k)
               + if key.dimension == Charged(k) && r.epoch == Some(epoch) then r.amount else 0
  {
    var v := if key.dimension == Charged(k) && r.epoch == Some(epoch) then r.amount else 0;
    assert ReceiptWeights(receipts[key := r], epoch, k) == ReceiptWeights(receipts, epoch, k)[key := v];
    MapSumUpdate(ReceiptWeights(receipts, epoch, k), key, v);
  }

  lemma ToolWritten(usage: map<Usage, nat>, u: Usage, n: nat, epoch: nat)
    ensures ToolSum(usage[u := n], epoch) + (if u in usage && u.epoch == epoch then usage[u] else 0)
            == ToolSum(usage, epoch) + if u.epoch == epoch then n else 0
  {
    var v := if u.epoch == epoch then n else 0;
    assert ToolWeights(usage[u := n], epoch) == ToolWeights(usage, epoch)[u := v];
    MapSumUpdate(ToolWeights(usage, epoch), u, v);
  }

  lemma NoReceipts(receipts: map<ReceiptKey, Receipt>, usage: map<Usage, nat>, epoch: nat, k: Kind)
    requires forall key | key in receipts :: receipts[key].epoch != Some(epoch)
    requires forall u | u in usage :: u.epoch != epoch
    ensures ReceiptSum(receipts, epoch, k) == 0 && ToolSum(usage, epoch) == 0
  {
    MapSumZero(ReceiptWeights(receipts, epoch, k));
    MapSumZero(ToolWeights(usage, epoch));
  }

  // ---- Windows ----------------------------------------------------------------------

  /** The active window while it has not expired, else a new one under the selected policy. */
  function ActiveWindow(s: Store, now: int): Result<(Store, nat), Error> {
    if s.account.None? then Err(NoPolicy)
    else
      var a := s.account.value;
      if a.active.Some? && a.active.value in s.windows && now < s.windows[a.active.value].expiresAt then
        Ok((s, a.active.value))
      else if a.nextPolicy.None? || a.nextPolicy.value !in s.policies then Err(NoPolicy)
      else
        var p := s.policies[a.nextPolicy.value];
        var e := a.nextEpoch;
        Ok((s.(account := Some(Account(a.nextPolicy, Some(e), e + 1)),
               windows := s.windows[e := Window(p.id, now + p.duration, map[], map[])]), e))
  }

  /** The policy that governs a window. */
  function Governing(s: Store, epoch: nat): Option<Policy> {
    if epoch in s.windows && s.windows[epoch].policy in s.policies
    then Some(s.policies[s.windows[epoch].policy]) else None
  }

  // ---- The store invariant ----------------------------------------------------------

  ghost predicate AccountInv(s: Store) {
    && (forall e | e in s.windows :: s.account.Some? && e < s.account.value.nextEpoch)
    && (s.account.Some? && s.account.value.active.Some? ==>
          s.account.value.active.value in s.windows && s.account.value.nextPolicy.Some?)
    && (forall id | id in s.policies :: s.policies[id].id == id)
  }

  ghost predicate WindowInv(s: Store, e: nat) {
    e in s.windows ==> s.windows[e].policy in s.policies
  }

  /** Each counter is the sum of the rows of its window. */
  ghost predicate SumInv(s: Store, e: nat, k: Kind) {
    e in s.windows ==>
      && Count(s.windows[e].used, k) == SettledSum(s.rows, e, k)
      && (Tracked(k) ==> Count(s.windows[e].reserved, k) == ReservedSum(s.rows, e, k))
  }

  predicate QuotaKind(k: Kind) { k in {InferenceCall, InputToken, OutputToken, TotalToken} }

  function Amount(fp: Fingerprint, k: Kind): nat {
    match k
    case InferenceCall => 1
    case InputToken => fp.input
    case OutputToken => fp.output
    case TotalToken => fp.input + fp.output
    case _ => 0
  }

  /** A quota row belongs to a complete set of four in one governed window. */
  ghost predicate QuotaRowInv(s: Store, l: string, k: Kind) {
    QuotaKey(l, k) in s.rows ==>
      var r := s.rows[QuotaKey(l, k)];
      && QuotaKind(k) && r.epoch in s.windows && r.capability.None?
      && r.fingerprint.Some? && r.amount == Amount(r.fingerprint.value, k)
      && (Governing(s, r.epoch).Some? && !IsShadow(Governing(s, r.epoch).value))
      && (r.state.Settled? && k == InferenceCall ==> r.state.actual == 1)
      && (forall j | QuotaKind(j) :: QuotaKey(l, j) in s.rows
            && s.rows[QuotaKey(l, j)].epoch == r.epoch && s.rows[QuotaKey(l, j)].fingerprint == r.fingerprint)
  }

  /** A mirror row is settled in a governed window and has its receipt. */
  ghost predicate MirrorRowInv(s: Store, op: Operation, k: Kind) {
    MirrorKey(op, k) in s.rows ==>
      var r := s.rows[MirrorKey(op, k)];
      && r.epoch in s.windows && r.state == Settled(r.amount) && r.fingerprint.None?
      && Governing(s, r.epoch).Some? && ReceiptKey(op, Charged(k)) in s.receipts
  }

  /** A charged receipt repeats its settled mirror row. */
  ghost predicate ReceiptInv(s: Store, op: Operation, k: Kind) {
    ReceiptKey(op, Charged(k)) in s.receipts ==>
      var c := s.receipts[ReceiptKey(op, Charged(k))];
      && MirrorKey(op, k) in s.rows && c.epoch == Some(s.rows[MirrorKey(op, k)].epoch)
      && c.amount == s.rows[MirrorKey(op, k)].amount && c.capability == s.rows[MirrorKey(op, k)].capability
  }

  /** A counter is what admitted requests settled and what receipts say; tool calls add up per capability. */
  ghost predicate SourceInv(s: Store, e: nat, k: Kind) {
    e in s.windows ==>
      && Count(s.windows[e].used, k) == QuotaSum(s.rows, e, k) + ReceiptSum(s.receipts, e, k)
      && Count(s.windows[e].used, ToolCall) == ToolSum(s.toolUsage, e)
  }

  ghost predicate EpochsKnown(s: Store) {
    && (forall key | key in s.receipts && s.receipts[key].epoch.Some? :: s.receipts[key].epoch.value in s.windows)
    && (forall u | u in s.toolUsage :: u.epoch in s.windows)
    && (forall key | key in s.rows :: s.rows[key].epoch in s.windows)
    && (forall op | ReceiptKey(op, NoCharge) in s.receipts :: s.receipts[ReceiptKey(op, NoCharge)].epoch.None?)
  }

  ghost predicate Inv(s: Store) {
    && AccountInv(s) && EpochsKnown(s)
    && (forall e :: WindowInv(s, e))
    && (forall e, k :: SumInv(s, e, k))
    && (forall e, k :: SourceInv(s, e, k))
    && (forall l, k :: QuotaRowInv(s, l, k))
    && (forall op, k :: MirrorRowInv(s, op, k))
    && (forall op, k :: ReceiptInv(s, op, k))
  }

  const Empty := Store(map[], None, map[], map[], map[], map[])

  lemma EmptyInv()
    ensures Inv(Empty)
  {
  }
}

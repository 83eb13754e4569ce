/** Reserving and settling inference quota (se/src/application/user_inference_quota.py). */
module BudgetQuota {
  import opened Common
  import opened BudgetStore

  datatype Request = Request(logicalId: string, fingerprint: Fingerprint, task: Option<string>)

  datatype Admission = Admission(logicalId: string, fingerprint: Fingerprint, epoch: nat, replayed: bool)

  /** What the provider reported; None means unknown, and stays reserved. */
  datatype Reported = Reported(input: Option<nat>, output: Option<nat>, total: Option<nat>)

  function Actual(u: Reported, k: Kind): Option<nat> {
    match k
    case InferenceCall => Some(1)
    case InputToken => u.input
    case OutputToken => u.output
    case TotalToken => u.total
    case _ => None
  }

  /** Compute and cost limits cannot be estimated, so a policy with one admits nothing. */
  predicate Estimable(p: Policy) { ComputeUnit !in p.limits && CostUsd !in p.limits }

  predicate RowMatches(r: Row, fp: Fingerprint, epoch: nat, k: Kind) {
    r.epoch == epoch && r.fingerprint == Some(fp) && r.amount == Amount(fp, k) && r.capability.None?
  }

  const QuotaKinds := [InferenceCall, InputToken, OutputToken, TotalToken]

  function ReplayRowError(s: Store, rq: Request, e: nat, k: Kind): Option<Error> {
    if QuotaKey(rq.logicalId, k) !in s.rows then Some(PartialSet)
    else if !RowMatches(s.rows[QuotaKey(rq.logicalId, k)], rq.fingerprint, e, k) then Some(FingerprintConflict)
    else None
  }

  function FirstReplayError(s: Store, rq: Request, e: nat, kinds: seq<Kind>): Option<Error> {
    if kinds == [] then None
    else if ReplayRowError(s, rq, e, kinds[0]).Some? then ReplayRowError(s, rq, e, kinds[0])
    else FirstReplayError(s, rq, e, kinds[1..])
  }

  /** A repeated request is answered from its rows. */
  function Replay(s: Store, rq: Request): Result<Admission, Error>
    requires QuotaKey(rq.logicalId, InferenceCall) in s.rows
  {
    var first := s.rows[QuotaKey(rq.logicalId, InferenceCall)];
    if first.fingerprint != Some(rq.fingerprint) then Err(FingerprintConflict)
    else if first.epoch !in s.windows then Err(MissingWindow)
    else if Governing(s, first.epoch).None? then Err(PolicyConflict)
    else if !Estimable(Governing(s, first.epoch).value) then Err(EstimateUnavailable)
    else if FirstReplayError(s, rq, first.epoch, QuotaKinds).Some? then
      Err(FirstReplayError(s, rq, first.epoch, QuotaKinds).value)
    else Ok(Admission(rq.logicalId, rq.fingerprint, first.epoch, true))
  }

  predicate HasHistoricalCharge(s: Store, rq: Request) {
    rq.task.Some?
      && ReceiptKey(Operation(rq.task.value, "INFERENCE", rq.logicalId), Charged(InferenceCall)) in s.receipts
  }

  ghost predicate OverLimit(s: Store, e: nat, p: Policy, fp: Fingerprint, k: Kind)
    requires e in s.windows
  {
    k in p.limits &&
    Count(s.windows[e].used, k)
    + (if Tracked(k) then Count(s.windows[e].reserved, k) else ReservedSum(s.rows, e, k))
    + Amount(fp, k) > p.limits[k]
  }

  function NewRow(fp: Fingerprint, e: nat, k: Kind): Row { Row(e, Amount(fp, k), Some(fp), None, Reserved) }

  function WithRows(rows: map<RowKey, Row>, l: string, fp: Fingerprint, e: nat): map<RowKey, Row> {
    rows[QuotaKey(l, InferenceCall) := NewRow(fp, e, InferenceCall)]
        [QuotaKey(l, InputToken) := NewRow(fp, e, InputToken)]
        [QuotaKey(l, OutputToken) := NewRow(fp, e, OutputToken)]
        [QuotaKey(l, TotalToken) := NewRow(fp, e, TotalToken)]
  }

  /** Writes the four rows and raises the two reserved counters. */
  function ReserveIn(s: Store, rq: Request, e: nat): Store
    requires e in s.windows
  {
    var w := s.windows[e];
    var reserved := Plus(Plus(w.reserved, InferenceCall, 1), TotalToken, Amount(rq.fingerprint, TotalToken));
    s.(rows := WithRows(s.rows, rq.logicalId, rq.fingerprint, e), windows := s.windows[e := w.(reserved := reserved)])
  }

  predicate AmountsValid(fp: Fingerprint) {
    fp.input > 0 && fp.output > 0 && fp.input + fp.output <= INT64_MAX
  }

  /** The checks of a new reservation in the window, in the order they are made. */
  ghost function AdmissionError(s: Store, rq: Request, e: nat): Option<Error>
    requires e in s.windows
  {
    var fp := rq.fingerprint;
    if Governing(s, e).None? then Some(PolicyConflict)
    else
      var p := Governing(s, e).value;
      if IsShadow(p) then Some(PolicyConflict)
      else if !Estimable(p) then Some(EstimateUnavailable)
      else if ReservedSum(s.rows, e, InputToken) > INT64_MAX || ReservedSum(s.rows, e, OutputToken) > INT64_MAX then
        Some(Overflow)
      else if OverLimit(s, e, p, fp, InferenceCall) then Some(CallsExhausted)
      else if OverLimit(s, e, p, fp, InputToken) || OverLimit(s, e, p, fp, OutputToken)
        || OverLimit(s, e, p, fp, TotalToken) then
        Some(TokensExhausted)
      else if !AmountsValid(fp) then Some(InvalidAmount)
      else if Count(s.windows[e].reserved, InferenceCall) + 1 > INT64_MAX
              || Count(s.windows[e].reserved, TotalToken) + fp.input + fp.output > INT64_MAX then Some(Overflow)
      else None
  }

  ghost function Reserve(s: Store, rq: Request, now: int): (Store, Result<Admission, Error>) {
    if QuotaKey(rq.logicalId, InferenceCall) in s.rows then (s, Replay(s, rq))
    else if HasHistoricalCharge(s, rq) then (s, Err(Historical))
    else if s.account.None? || s.account.value.nextPolicy.None? then (s, Err(NoPolicy))
    else match ActiveWindow(s, now)
      case Err(e) => (s, Err(e))
      case Ok((s1, e)) =>
        if e !in s1.windows then (s, Err(MissingWindow))
        else match AdmissionError(s1, rq, e)
          case Some(err) => (s, Err(err))
          case None => (ReserveIn(s1, rq, e), Ok(Admission(rq.logicalId, rq.fingerprint, e, false)))
  }

  // ---- Settlement -------------------------------------------------------------------

  /** What settling finds wrong with one row of the admission. */
  function RowError(s: Store, a: Admission, u: Reported, k: Kind): Option<Error> {
    var key := QuotaKey(a.logicalId, k);
    if key !in s.rows then Some(MissingRow)
    else if s.rows[key].fingerprint != Some(a.fingerprint) then Some(FingerprintConflict)
    else if Actual(u, k).Some? && s.rows[key].state.Settled? && s.rows[key].state.actual != Actual(u, k).value then
      Some(SettledDifferently)
    else None
  }

  function FirstRowError(s: Store, a: Admission, u: Reported, kinds: seq<Kind>): Option<Error> {
    if kinds == [] then None
    else if RowError(s, a, u, kinds[0]).Some? then RowError(s, a, u, kinds[0])
    else FirstRowError(s, a, u, kinds[1..])
  }

  /** The row is still reserved and its usage is known. */
  predicate Pending(s: Store, a: Admission, u: Reported, k: Kind) {
    QuotaKey(a.logicalId, k) in s.rows && s.rows[QuotaKey(a.logicalId, k)].state.Reserved? && Actual(u, k).Some?
  }

  function Minus(c: Counters, k: Kind, n: nat): Counters { c[k := if n <= Count(c, k) then Count(c, k) - n else 0] }

  /** Moves one reservation of the admission's window from reserved to used. */
  function SettleRow(s: Store, e: nat, key: RowKey, actual: nat): Store
    requires key in s.rows && e in s.windows
  {
    var r := s.rows[key];
    var w := s.windows[e];
    s.(rows := s.rows[key := r.(state := Settled(actual))],
       windows := s.windows[e := w.(used := Plus(w.used, key.kind, actual),
                                    reserved := if Tracked(key.kind) then Minus(w.reserved, key.kind, r.amount)
                                      else w.reserved)])
  }

  function SettleKind(s: Store, a: Admission, u: Reported, k: Kind): (t: Store)
    requires a.epoch in s.windows
    ensures a.epoch in t.windows
  {
    if Pending(s, a, u, k) then SettleRow(s, a.epoch, QuotaKey(a.logicalId, k), Actual(u, k).value) else s
  }

  function SettleAll(s: Store, a: Admission, u: Reported, kinds: seq<Kind>): Store
    requires a.epoch in s.windows
    decreases |kinds|
  {
    if kinds == [] then s else SettleAll(SettleKind(s, a, u, kinds[0]), a, u, kinds[1..])
  }

  predicate Underflows(s: Store, a: Admission, u: Reported, k: Kind)
    requires a.epoch in s.windows
  {
    Tracked(k) && Pending(s, a, u, k) && s.rows[QuotaKey(a.logicalId, k)].amount > Count(s.windows[a.epoch].reserved, k)
  }

  predicate Overflows(s: Store, a: Admission, u: Reported, k: Kind)
    requires a.epoch in s.windows
  {
    Pending(s, a, u, k) && Count(s.windows[a.epoch].used, k) + Actual(u, k).value > INT64_MAX
  }

  function Settle(s: Store, a: Admission, u: Reported): Result<Store, Error> {
    if a.epoch !in s.windows then Err(MissingWindow)
    else if FirstRowError(s, a, u, QuotaKinds).Some? then Err(FirstRowError(s, a, u, QuotaKinds).value)
    else if exists k | QuotaKind(k) :: Underflows(s, a, u, k) then Err(Underflow)
    else if exists k | QuotaKind(k) :: Overflows(s, a, u, k) then Err(Overflow)
    else Ok(SettleAll(s, a, u, QuotaKinds))
  }

  /** The admission is one a reservation handed out. */
  predicate Issued(s: Store, a: Admission) {
    QuotaKey(a.logicalId, InferenceCall) in s.rows
    && RowMatches(s.rows[QuotaKey(a.logicalId, InferenceCall)], a.fingerprint, a.epoch, InferenceCall)
  }

  // ---- Reserving keeps the store invariant ------------------------------------------

  lemma InvParts(s: Store, e: nat, k: Kind, l: string, op: Operation)
    requires Inv(s)
    ensures WindowInv(s, e) && SumInv(s, e, k) && SourceInv(s, e, k) && QuotaRowInv(s, l, k) && MirrorRowInv(s, op, k)
            && ReceiptInv(s, op, k)
  {
  }

  lemma InvKnown(s: Store)
    requires Inv(s)
    ensures AccountInv(s) && EpochsKnown(s)
  {
  }

  lemma RolloverKnown(s: Store, now: int)
    requires AccountInv(s) && EpochsKnown(s) && ActiveWindow(s, now).Ok?
    ensures var (t, e) := ActiveWindow(s, now).value;
            AccountInv(t) && EpochsKnown(t) && e in t.windows && t.rows == s.rows && t.receipts == s.receipts
              && t.policies == s.policies
            && t.toolUsage == s.toolUsage
            && (forall x | x in s.windows :: x in t.windows && t.windows[x] == s.windows[x])
  {
  }

  lemma RolloverSums(s: Store, now: int, x: nat, k: Kind)
    requires Inv(s) && ActiveWindow(s, now).Ok?
    ensures var t := ActiveWindow(s, now).value.0;
            WindowInv(t, x) && SumInv(t, x, k) && SourceInv(t, x, k)
  {
    hide Inv, SettledSum, ReservedSum, QuotaSum, ReceiptSum, ToolSum;
    var (t, e) := ActiveWindow(s, now).value;
    InvParts(s, x, k, "", Operation("", "", ""));
    InvKnown(s);
    if t != s && x == e {
      assert e !in s.windows;
      NoRows(s.rows, e, k);
      NoQuotaRows(s.rows, e, k);
      NoReceipts(s.receipts, s.toolUsage, e, k);
    }
  }

  lemma RolloverRows(s: Store, now: int, k: Kind, l: string, op: Operation)
    requires Inv(s) && ActiveWindow(s, now).Ok?
    ensures var t := ActiveWindow(s, now).value.0;
            QuotaRowInv(t, l, k) && MirrorRowInv(t, op, k) && ReceiptInv(t, op, k)
  {
    hide Inv, IsShadow;
    InvParts(s, 0, k, l, op);
    InvKnown(s);
  }

  /** A new window starts empty; the old ones stay. */
  lemma RolloverInv(s: Store, now: int)
    requires Inv(s) && ActiveWindow(s, now).Ok?
    ensures var (t, e) := ActiveWindow(s, now).value;
            Inv(t) && e in t.windows && t.rows == s.rows && t.receipts == s.receipts && t.policies == s.policies
            && t.toolUsage == s.toolUsage
            && (forall x | x in s.windows :: x in t.windows && t.windows[x] == s.windows[x])
  {
    hide SumInv, SourceInv, QuotaRowInv, MirrorRowInv, ReceiptInv, WindowInv, ActiveWindow, AccountInv, EpochsKnown;
    RolloverKnown(s, now);
    var (t, e) := ActiveWindow(s, now).value;
    forall x ensures WindowInv(t, x) { RolloverSums(s, now, x, ToolCall); }
    forall x, k ensures SumInv(t, x, k) && SourceInv(t, x, k) { RolloverSums(s, now, x, k); }
    forall l, k ensures QuotaRowInv(t, l, k) { RolloverRows(s, now, k, l, Operation("", "", "")); }
    forall op, k ensures MirrorRowInv(t, op, k) && ReceiptInv(t, op, k) { RolloverRows(s, now, k, "", op); }
  }

  /** The four new rows shift the reserved sums of their window and nothing else. */
  lemma NewRowsSums(rows: map<RowKey, Row>, l: string, fp: Fingerprint, e: nat, x: nat, k: Kind)
    requires forall j | QuotaKind(j) :: QuotaKey(l, j) !in rows
    ensures SettledSum(WithRows(rows, l, fp, e), x, k) == SettledSum(rows, x, k)
    ensures ReservedSum(WithRows(rows, l, fp, e), x, k)
            == ReservedSum(rows, x, k) + if x == e && QuotaKind(k) then Amount(fp, k) else 0
  {
    hide SettledSum, ReservedSum;
    assert QuotaKind(InferenceCall) && QuotaKind(InputToken) && QuotaKind(OutputToken) && QuotaKind(TotalToken);
    var r1 := rows[QuotaKey(l, InferenceCall) := NewRow(fp, e, InferenceCall)];
    var r2 := r1[QuotaKey(l, InputToken) := NewRow(fp, e, InputToken)];
    var r3 := r2[QuotaKey(l, OutputToken) := NewRow(fp, e, OutputToken)];
    RowWritten(rows, QuotaKey(l, InferenceCall), NewRow(fp, e, InferenceCall), x, k);
    RowWritten(r1, QuotaKey(l, InputToken), NewRow(fp, e, InputToken), x, k);
    RowWritten(r2, QuotaKey(l, OutputToken), NewRow(fp, e, OutputToken), x, k);
    RowWritten(r3, QuotaKey(l, TotalToken), NewRow(fp, e, TotalToken), x, k);
  }

  lemma NewRowsUnsettled(rows: map<RowKey, Row>, l: string, fp: Fingerprint, e: nat, x: nat, k: Kind)
    requires forall j | QuotaKind(j) :: QuotaKey(l, j) !in rows
    ensures QuotaSum(WithRows(rows, l, fp, e), x, k) == QuotaSum(rows, x, k)
  {
    hide QuotaSum;
    assert QuotaKind(InferenceCall) && QuotaKind(InputToken) && QuotaKind(OutputToken) && QuotaKind(TotalToken);
    var r1 := rows[QuotaKey(l, InferenceCall) := NewRow(fp, e, InferenceCall)];
    var r2 := r1[QuotaKey(l, InputToken) := NewRow(fp, e, InputToken)];
    var r3 := r2[QuotaKey(l, OutputToken) := NewRow(fp, e, OutputToken)];
    QuotaRowWritten(rows, QuotaKey(l, InferenceCall), NewRow(fp, e, InferenceCall), x, k);
    QuotaRowWritten(r1, QuotaKey(l, InputToken), NewRow(fp, e, InputToken), x, k);
    QuotaRowWritten(r2, QuotaKey(l, OutputToken), NewRow(fp, e, OutputToken), x, k);
    QuotaRowWritten(r3, QuotaKey(l, TotalToken), NewRow(fp, e, TotalToken), x, k);
  }

  lemma FreshId(s: Store, l: string)
    requires Inv(s) && QuotaKey(l, InferenceCall) !in s.rows
    ensures forall j | QuotaKind(j) :: QuotaKey(l, j) !in s.rows
  {
    forall j | QuotaKind(j)
      ensures QuotaKey(l, j) !in s.rows
    {
      assert QuotaRowInv(s, l, j);
      assert QuotaKind(InferenceCall);
    }
  }

  lemma WithRowsAt(rows: map<RowKey, Row>, l: string, fp: Fingerprint, e: nat, key: RowKey)
    ensures var t := WithRows(rows, l, fp, e);
            if key.QuotaKey? && key.logicalId == l && QuotaKind(key.kind)
            then key in t && t[key] == NewRow(fp, e, key.kind)
            else (key in t <==> key in rows) && (key in rows ==> t[key] == rows[key])
  {
  }

  lemma ReserveSums(s: Store, rq: Request, e: nat, x: nat, k: Kind)
    requires Inv(s) && e in s.windows && QuotaKey(rq.logicalId, InferenceCall) !in s.rows
    ensures SumInv(ReserveIn(s, rq, e), x, k) && SourceInv(ReserveIn(s, rq, e), x, k)
  {
    hide Inv, WithRows, SettledSum, ReservedSum, QuotaSum, ReceiptSum, ToolSum;
    FreshId(s, rq.logicalId);
    NewRowsUnsettled(s.rows, rq.logicalId, rq.fingerprint, e, x, k);
    InvParts(s, x, k, rq.logicalId, Operation("", "", ""));
    NewRowsSums(s.rows, rq.logicalId, rq.fingerprint, e, x, k);
  }

  lemma ReserveRowInv(s: Store, rq: Request, e: nat, l: string, k: Kind)
    requires Inv(s) && e in s.windows && QuotaKey(rq.logicalId, InferenceCall) !in s.rows
    requires Governing(s, e).Some? && !IsShadow(Governing(s, e).value)
    ensures QuotaRowInv(ReserveIn(s, rq, e), l, k)
  {
    hide Inv, WithRows, IsShadow;
    InvParts(s, e, k, l, Operation("", "", ""));
    var t := ReserveIn(s, rq, e);
    WithRowsAt(s.rows, rq.logicalId, rq.fingerprint, e, QuotaKey(l, k));
    forall j | QuotaKind(j)
      ensures QuotaKey(l, k) in t.rows ==>
                && QuotaKey(l, j) in t.rows
                && t.rows[QuotaKey(l, j)].epoch == t.rows[QuotaKey(l, k)].epoch
                && t.rows[QuotaKey(l, j)].fingerprint == t.rows[QuotaKey(l, k)].fingerprint
    {
      WithRowsAt(s.rows, rq.logicalId, rq.fingerprint, e, QuotaKey(l, j));
    }
  }

  lemma ReserveMirrorInv(s: Store, rq: Request, e: nat, op: Operation, k: Kind)
    requires Inv(s) && e in s.windows
    ensures MirrorRowInv(ReserveIn(s, rq, e), op, k) && ReceiptInv(ReserveIn(s, rq, e), op, k)
  {
    hide Inv, WithRows, IsShadow;
    InvParts(s, e, k, "", op);
    WithRowsAt(s.rows, rq.logicalId, rq.fingerprint, e, MirrorKey(op, k));
  }

  lemma ReserveKnown(s: Store, rq: Request, e: nat)
    requires Inv(s) && e in s.windows
    ensures EpochsKnown(ReserveIn(s, rq, e)) && AccountInv(ReserveIn(s, rq, e))
    ensures forall x :: WindowInv(ReserveIn(s, rq, e), x)
  {
    hide WithRows;
    var t := ReserveIn(s, rq, e);
    forall key | key in t.rows
      ensures t.rows[key].epoch in t.windows
    {
      WithRowsAt(s.rows, rq.logicalId, rq.fingerprint, e, key);
    }
    forall x ensures WindowInv(t, x) { assert WindowInv(s, x) && WindowInv(s, e); }
  }

  lemma ReserveInInv(s: Store, rq: Request, e: nat)
    requires Inv(s) && e in s.windows && QuotaKey(rq.logicalId, InferenceCall) !in s.rows
    requires Governing(s, e).Some? && !IsShadow(Governing(s, e).value)
    ensures Inv(ReserveIn(s, rq, e))
  {
    hide ReserveIn, SumInv, SourceInv, QuotaRowInv, MirrorRowInv, ReceiptInv, WindowInv;
    var t := ReserveIn(s, rq, e);
    ReserveKnown(s, rq, e);
    forall x, k ensures SumInv(t, x, k) && SourceInv(t, x, k) { ReserveSums(s, rq, e, x, k); }
    forall l, k ensures QuotaRowInv(t, l, k) { ReserveRowInv(s, rq, e, l, k); }
    forall op, k ensures MirrorRowInv(t, op, k) && ReceiptInv(t, op, k) { ReserveMirrorInv(s, rq, e, op, k); }
  }

  lemma ReserveKeepsInv(s: Store, rq: Request, now: int)
    requires Inv(s)
    ensures Inv(Reserve(s, rq, now).0)
    ensures Reserve(s, rq, now).1.Err? ==> Reserve(s, rq, now).0 == s
    ensures Reserve(s, rq, now).1 != Err(PartialSet)
    ensures Reserve(s, rq, now).1.Ok? ==> Issued(Reserve(s, rq, now).0, Reserve(s, rq, now).1.value)
  {
    hide Inv, ReserveIn, IsShadow, OverLimit, Estimable;
    if QuotaKey(rq.logicalId, InferenceCall) in s.rows {
      ReplayComplete(s, rq);
    } else if ActiveWindow(s, now).Ok? {
      RolloverInv(s, now);
      var (t, e) := ActiveWindow(s, now).value;
      if AdmissionError(t, rq, e).None? {
        ReserveInInv(t, rq, e);
        ReserveIssues(t, rq, e);
      }
    }
  }

  lemma ReserveIssues(s: Store, rq: Request, e: nat)
    requires e in s.windows
    ensures Issued(ReserveIn(s, rq, e), Admission(rq.logicalId, rq.fingerprint, e, false))
  {
    hide WithRows;
    WithRowsAt(s.rows, rq.logicalId, rq.fingerprint, e, QuotaKey(rq.logicalId, InferenceCall));
  }

  /** The rows of one logical request agree with each other. */
  lemma RowsOfRequest(s: Store, l: string, k: Kind)
    requires Inv(s) && QuotaKey(l, InferenceCall) in s.rows && QuotaKind(k)
    ensures var first := s.rows[QuotaKey(l, InferenceCall)];
            QuotaKey(l, k) in s.rows && first.fingerprint.Some?
              && RowMatches(s.rows[QuotaKey(l, k)], first.fingerprint.value, first.epoch, k)
    ensures Governing(s, s.rows[QuotaKey(l, InferenceCall)].epoch).Some?
  {
    assert QuotaRowInv(s, l, InferenceCall);
    assert QuotaKey(l, k) in s.rows;
    assert QuotaRowInv(s, l, k);
  }

  /** A partial reservation set, a lost window and a lost policy cannot be met. */
  lemma ReplayComplete(s: Store, rq: Request)
    requires Inv(s) && QuotaKey(rq.logicalId, InferenceCall) in s.rows
    ensures Replay(s, rq) != Err(PartialSet) && Replay(s, rq) != Err(MissingWindow)
            && Replay(s, rq) != Err(PolicyConflict)
    ensures Replay(s, rq).Ok? ==> Issued(s, Replay(s, rq).value)
    ensures var first := s.rows[QuotaKey(rq.logicalId, InferenceCall)];
            first.fingerprint == Some(rq.fingerprint) && Governing(s, first.epoch).Some?
              && Estimable(Governing(s, first.epoch).value) ==>
              Replay(s, rq) == Ok(Admission(rq.logicalId, rq.fingerprint, first.epoch, true))
  {
    hide Inv, Estimable, FirstReplayError, RowMatches;
    var first := s.rows[QuotaKey(rq.logicalId, InferenceCall)];
    RowsOfRequest(s, rq.logicalId, InferenceCall);
    if first.fingerprint == Some(rq.fingerprint) {
      forall k | k in QuotaKinds
        ensures ReplayRowError(s, rq, first.epoch, k).None?
      {
        RowsOfRequest(s, rq.logicalId, k);
      }
      NoReplayError(s, rq, first.epoch, QuotaKinds);
    }
  }

  lemma {:induction false} NoReplayError(s: Store, rq: Request, e: nat, kinds: seq<Kind>)
    requires forall k | k in kinds :: ReplayRowError(s, rq, e, k).None?
    ensures FirstReplayError(s, rq, e, kinds).None?
  {
    hide ReplayRowError;
    if kinds != [] { NoReplayError(s, rq, e, kinds[1..]); }
  }

  // ---- Settling keeps the store invariant -------------------------------------------

  /** A reserved row is part of its counter, so the counter cannot underflow. */
  lemma NoUnderflow(s: Store, key: RowKey)
    requires Inv(s) && key in s.rows && s.rows[key].state.Reserved?
    ensures s.rows[key].amount <= ReservedSum(s.rows, s.rows[key].epoch, key.kind)
  {
    hide Inv, ReservedSum, SettledSum;
    RowWritten(s.rows, key, s.rows[key].(state := Settled(0)), s.rows[key].epoch, key.kind);
  }

  lemma SettleRowSums(s: Store, key: RowKey, actual: nat, x: nat, k: Kind)
    requires Inv(s) && key.QuotaKey? && key in s.rows && s.rows[key].state.Reserved? && s.rows[key].epoch in s.windows
    ensures SumInv(SettleRow(s, s.rows[key].epoch, key, actual), x, k)
  {
    hide Inv, SettledSum, ReservedSum;
    NoUnderflow(s, key);
    InvParts(s, x, k, "", Operation("", "", ""));
    RowWritten(s.rows, key, s.rows[key].(state := Settled(actual)), x, k);
  }

  lemma SettleRowSources(s: Store, key: RowKey, actual: nat, x: nat, k: Kind)
    requires Inv(s) && key.QuotaKey? && key in s.rows && s.rows[key].state.Reserved? && s.rows[key].epoch in s.windows
    ensures SourceInv(SettleRow(s, s.rows[key].epoch, key, actual), x, k)
  {
    hide Inv, QuotaSum, ReceiptSum, ToolSum, Minus;
    QuotaRowWritten(s.rows, key, s.rows[key].(state := Settled(actual)), x, k);
    InvParts(s, x, k, key.logicalId, Operation("", "", ""));
    InvParts(s, x, key.kind, key.logicalId, Operation("", "", ""));
  }

  lemma SettleRowRows(s: Store, key: RowKey, actual: nat, l: string, k: Kind)
    requires Inv(s) && key.QuotaKey? && key in s.rows && s.rows[key].epoch in s.windows
    requires key.kind == InferenceCall ==> actual == 1
    ensures QuotaRowInv(SettleRow(s, s.rows[key].epoch, key, actual), l, k)
  {
    hide Inv, IsShadow, Minus, Plus;
    InvParts(s, 0, k, l, Operation("", "", ""));
  }

  lemma SettleRowMirror(s: Store, key: RowKey, actual: nat, op: Operation, k: Kind)
    requires Inv(s) && key.QuotaKey? && key in s.rows && s.rows[key].epoch in s.windows
    ensures MirrorRowInv(SettleRow(s, s.rows[key].epoch, key, actual), op, k)
    ensures ReceiptInv(SettleRow(s, s.rows[key].epoch, key, actual), op, k)
  {
    hide Inv, IsShadow, Minus, Plus;
    InvParts(s, 0, k, "", op);
  }

  lemma SettleRowKnown(s: Store, key: RowKey, actual: nat)
    requires Inv(s) && key in s.rows && s.rows[key].epoch in s.windows
    ensures var t := SettleRow(s, s.rows[key].epoch, key, actual);
            EpochsKnown(t) && AccountInv(t) && forall x :: WindowInv(t, x)
  {
    hide Minus, Plus;
    forall x ensures WindowInv(SettleRow(s, s.rows[key].epoch, key, actual), x) {
      assert WindowInv(s, x) && WindowInv(s, s.rows[key].epoch);
    }
  }

  lemma SettleRowInv(s: Store, key: RowKey, actual: nat)
    requires Inv(s) && key.QuotaKey? && key in s.rows && s.rows[key].state.Reserved? && s.rows[key].epoch in s.windows
    requires key.kind == InferenceCall ==> actual == 1
    ensures Inv(SettleRow(s, s.rows[key].epoch, key, actual))
  {
    hide SettleRow, SumInv, SourceInv, QuotaRowInv, MirrorRowInv, ReceiptInv, WindowInv, AccountInv, EpochsKnown;
    var t := SettleRow(s, s.rows[key].epoch, key, actual);
    SettleRowKnown(s, key, actual);
    forall x, k ensures SumInv(t, x, k) { SettleRowSums(s, key, actual, x, k); }
    forall x, k ensures SourceInv(t, x, k) { SettleRowSources(s, key, actual, x, k); }
    forall l, k ensures QuotaRowInv(t, l, k) { SettleRowRows(s, key, actual, l, k); }
    forall op, k ensures MirrorRowInv(t, op, k) && ReceiptInv(t, op, k) { SettleRowMirror(s, key, actual, op, k); }
  }

  lemma SettleKindKeeps(s: Store, a: Admission, u: Reported, k: Kind)
    requires Inv(s) && Issued(s, a) && a.epoch in s.windows && QuotaKind(k)
    ensures Inv(SettleKind(s, a, u, k)) && Issued(SettleKind(s, a, u, k), a)
  {
    hide Inv;
    RowsOfRequest(s, a.logicalId, k);
    if Pending(s, a, u, k) { SettleRowInv(s, QuotaKey(a.logicalId, k), Actual(u, k).value); }
  }

  lemma {:induction false} SettleAllKeeps(s: Store, a: Admission, u: Reported, kinds: seq<Kind>)
    requires Inv(s) && Issued(s, a) && a.epoch in s.windows && forall k | k in kinds :: QuotaKind(k)
    ensures Inv(SettleAll(s, a, u, kinds)) && Issued(SettleAll(s, a, u, kinds), a)
    decreases |kinds|
  {
    hide Inv, Issued, SettleKind;
    if kinds != [] {
      SettleKindKeeps(s, a, u, kinds[0]);
      SettleAllKeeps(SettleKind(s, a, u, kinds[0]), a, u, kinds[1..]);
    }
  }

  /** Settling an admission that was handed out keeps the invariant and never underflows. */
  lemma SettleKeepsInv(s: Store, a: Admission, u: Reported)
    requires Inv(s) && Issued(s, a)
    ensures Settle(s, a, u).Ok? ==> Inv(Settle(s, a, u).value)
    ensures Settle(s, a, u).Err? ==> Settle(s, a, u).error == SettledDifferently || Settle(s, a, u).error == Overflow
  {
    hide Inv, SettleAll;
    forall k | QuotaKind(k)
      ensures QuotaKey(a.logicalId, k) in s.rows && s.rows[QuotaKey(a.logicalId, k)].fingerprint == Some(a.fingerprint)
      ensures a.epoch in s.windows && !Underflows(s, a, u, k)
    {
      SettleSafe(s, a, u, k);
    }
    assert QuotaKind(InferenceCall);
    forall k | k in QuotaKinds ensures QuotaKind(k) {}
    RowErrors(s, a, u, QuotaKinds);
    SettleAllKeeps(s, a, u, QuotaKinds);
  }

  lemma SettleSafe(s: Store, a: Admission, u: Reported, k: Kind)
    requires Inv(s) && Issued(s, a) && QuotaKind(k)
    ensures QuotaKey(a.logicalId, k) in s.rows && s.rows[QuotaKey(a.logicalId, k)].fingerprint == Some(a.fingerprint)
    ensures a.epoch in s.windows && !Underflows(s, a, u, k)
  {
    hide Inv, ReservedSum, SettledSum;
    RowsOfRequest(s, a.logicalId, k);
    InvParts(s, a.epoch, k, a.logicalId, Operation("", "", ""));
    if Pending(s, a, u, k) { NoUnderflow(s, QuotaKey(a.logicalId, k)); }
  }

  lemma {:induction false} RowErrors(s: Store, a: Admission, u: Reported, kinds: seq<Kind>)
    requires forall k | k in kinds ::
             QuotaKey(a.logicalId, k) in s.rows && s.rows[QuotaKey(a.logicalId, k)].fingerprint == Some(a.fingerprint)
    ensures FirstRowError(s, a, u, kinds) in {None, Some(SettledDifferently)}
  {
    if kinds != [] { RowErrors(s, a, u, kinds[1..]); }
  }
}

/** A logical request is charged once, however often and however late it is repeated. */
module BudgetOnce {
  import opened Common
  import opened BudgetStore
  import opened BudgetQuota
  import opened BudgetShadow
  import opened BudgetMirror
  import opened BudgetRuns

  /** The admission's window is governed by a policy whose amounts can be estimated. */
  predicate Estimated(s: Store, a: Admission) { Governing(s, a.epoch).Some? && Estimable(Governing(s, a.epoch).value) }

  lemma ReserveEstimated(s: Store, rq: Request, now: int)
    requires Inv(s) && Reserve(s, rq, now).1.Ok?
    ensures Estimated(Reserve(s, rq, now).0, Reserve(s, rq, now).1.value)
  {
    hide Inv, WithRows, OverLimit, Estimable, ActiveWindow;
    if QuotaKey(rq.logicalId, InferenceCall) !in s.rows { RolloverInv(s, now); }
  }

  lemma GrowsKeepsAdmission(s: Store, t: Store, a: Admission)
    requires Grows(s, t) && Issued(s, a) && Estimated(s, a)
    ensures Issued(t, a) && Estimated(t, a)
  {
    hide Estimable;
    GrowsRow(s, t, QuotaKey(a.logicalId, InferenceCall));
  }

  /**
   After any run of other work - settlements, new windows, new policies - a repeat of an admitted
   request gets the admission it had, in the window it had, and changes nothing; a different
   request under the same id is refused and changes nothing.
   */
  lemma RepeatIsNotCharged(s: Store, cfg: Settings, rq: Request, now: int, steps: seq<Step>, again: Request, later: int)
    requires Inv(s) && Reserve(s, rq, now).1.Ok? && again.logicalId == rq.logicalId
    ensures var a := Reserve(s, rq, now).1.value;
            var t := Run(Reserve(s, rq, now).0, cfg, steps);
            Reserve(t, again, later)
            == (t, if again.fingerprint == rq.fingerprint then Ok(a.(replayed := true)) else Err(FingerprintConflict))
  {
    hide Inv, Reserve, Run, Replay, Estimable, Grows, RowMatches;
    var s1 := Reserve(s, rq, now).0;
    var a := Reserve(s, rq, now).1.value;
    ReserveKeepsInv(s, rq, now);
    AdmissionNames(s, rq, now);
    ReserveEstimated(s, rq, now);
    RunKeepsInv(s1, cfg, steps);
    RunGrows(s1, cfg, steps);
    var t := Run(s1, cfg, steps);
    GrowsKeepsAdmission(s1, t, a);
    ReplayOf(t, a, again, later);
  }

  lemma AdmissionNames(s: Store, rq: Request, now: int)
    requires Reserve(s, rq, now).1.Ok?
    ensures var a := Reserve(s, rq, now).1.value; a.logicalId == rq.logicalId && a.fingerprint == rq.fingerprint
  {
    hide AdmissionError, ReserveIn, ActiveWindow, Governing, Estimable, RowMatches;
  }

  lemma ReplayOf(s: Store, a: Admission, rq: Request, now: int)
    requires Inv(s) && Issued(s, a) && Estimated(s, a) && rq.logicalId == a.logicalId
    ensures Reserve(s, rq, now)
            == (s, if rq.fingerprint == a.fingerprint then Ok(a.(replayed := true)) else Err(FingerprintConflict))
  {
    hide Inv, Estimable;
    ReplayComplete(s, rq);
  }

  // ---- Settling twice ---------------------------------------------------------------

  /** The row carries what was reported of it. */
  predicate SettledAs(s: Store, a: Admission, u: Reported, k: Kind) {
    QuotaKey(a.logicalId, k) in s.rows
    && var r := s.rows[QuotaKey(a.logicalId, k)];
       r.fingerprint == Some(a.fingerprint) && (Actual(u, k).Some? ==> r.state == Settled(Actual(u, k).value))
  }

  lemma GrowsKeepsSettled(s: Store, t: Store, a: Admission, u: Reported, k: Kind)
    requires Grows(s, t) && SettledAs(s, a, u, k)
    ensures SettledAs(t, a, u, k)
  {
    hide Grows;
    GrowsRow(s, t, QuotaKey(a.logicalId, k));
  }

  lemma {:induction false} NoRowError(s: Store, a: Admission, u: Reported, kinds: seq<Kind>)
    ensures FirstRowError(s, a, u, kinds).None? <==> forall k | k in kinds :: RowError(s, a, u, k).None?
  {
    hide RowError;
    if kinds != [] {
      NoRowError(s, a, u, kinds[1..]);
      assert forall k | k in kinds :: k == kinds[0] || k in kinds[1..];
    }
  }

  lemma SettleKindSettles(s: Store, a: Admission, u: Reported, j: Kind, k: Kind)
    requires a.epoch in s.windows && RowError(s, a, u, k).None?
    ensures RowError(SettleKind(s, a, u, j), a, u, k).None?
    ensures j == k ==> SettledAs(SettleKind(s, a, u, j), a, u, k)
  {
    hide Plus, Minus;
  }

  lemma {:induction false} SettleAllSettles(s: Store, a: Admission, u: Reported, kinds: seq<Kind>, k: Kind)
    requires a.epoch in s.windows && RowError(s, a, u, k).None? && k in kinds
    ensures SettledAs(SettleAll(s, a, u, kinds), a, u, k)
    decreases |kinds|
  {
    hide SettleKind, SettledAs, RowError;
    var t := SettleKind(s, a, u, kinds[0]);
    SettleKindSettles(s, a, u, kinds[0], k);
    if kinds[0] == k {
      SettleAllGrows(t, a, u, kinds[1..]);
      GrowsKeepsSettled(t, SettleAll(s, a, u, kinds), a, u, k);
    } else {
      SettleAllSettles(t, a, u, kinds[1..], k);
    }
  }

  lemma {:induction false} NothingPending(s: Store, a: Admission, u: Reported, kinds: seq<Kind>)
    requires a.epoch in s.windows && forall k | k in kinds :: !Pending(s, a, u, k)
    ensures SettleAll(s, a, u, kinds) == s
    decreases |kinds|
  {
    hide Pending;
    if kinds != [] { NothingPending(s, a, u, kinds[1..]); }
  }

  lemma ResettleIsNothing(s: Store, a: Admission, u: Reported)
    requires a.epoch in s.windows && forall k | k in QuotaKinds :: SettledAs(s, a, u, k)
    ensures Settle(s, a, u) == Ok(s)
  {
    hide FirstRowError, SettleAll;
    forall k | k in QuotaKinds
      ensures RowError(s, a, u, k).None? && !Pending(s, a, u, k)
    {
      assert SettledAs(s, a, u, k);
    }
    hide RowError, Pending, SettledAs;
    NoRowError(s, a, u, QuotaKinds);
    NothingPending(s, a, u, QuotaKinds);
    forall k | QuotaKind(k) ensures !Pending(s, a, u, k) { QuotaKindListed(k); }
  }

  lemma QuotaKindListed(k: Kind)
    requires QuotaKind(k)
    ensures k in QuotaKinds
  {
    assert QuotaKinds[0] == InferenceCall && QuotaKinds[1] == InputToken && QuotaKinds[2] == OutputToken
           && QuotaKinds[3] == TotalToken;
  }

  /** Settling again with the same report, after any run of other work, changes nothing. */
  lemma SettleOnce(s: Store, cfg: Settings, a: Admission, u: Reported, steps: seq<Step>)
    requires Inv(s) && Issued(s, a) && Settle(s, a, u).Ok?
    ensures var t := Run(Settle(s, a, u).value, cfg, steps);
            Settle(t, a, u) == Ok(t)
  {
    hide Inv, Run, Issued, Grows, SettleAll, FirstRowError, RowError, SettledAs, Underflows, Overflows;
    var s1 := Settle(s, a, u).value;
    SettleKeepsInv(s, a, u);
    var t := Run(s1, cfg, steps);
    RunGrows(s1, cfg, steps);
    NoRowError(s, a, u, QuotaKinds);
    forall k | k in QuotaKinds
      ensures SettledAs(t, a, u, k)
    {
      SettleAllSettles(s, a, u, QuotaKinds, k);
      GrowsKeepsSettled(s1, t, a, u, k);
    }
    SettleAllGrows(s, a, u, QuotaKinds);
    GrowsWindow(s, s1, a.epoch);
    GrowsWindow(s1, t, a.epoch);
    ResettleIsNothing(t, a, u);
  }

  lemma GrowsWindow(s: Store, t: Store, e: nat)
    requires Grows(s, t) && e in s.windows
    ensures e in t.windows
  {
  }

  // ---- Mirroring twice --------------------------------------------------------------

  lemma {:induction false} MirrorAllRecords(s: Store, e: nat, op: Operation, source: string, dims: seq<Mirrored>,
                                            d: Mirrored)
    requires e in s.windows && MirrorAll(s, e, op, source, dims).Ok? && d in dims
    ensures RecordedAs(MirrorAll(s, e, op, source, dims).value, op, source, d)
    decreases |dims|
  {
    hide Grows, WithToolUsage, Plus;
    var t := Charge(s, e, op, source, dims[0]);
    if d == dims[0] {
      assert RecordedAs(t, op, source, d);
      MirrorAllFacts(t, e, op, source, dims[1..]);
      GrowsKeepsRecord(t, MirrorAll(s, e, op, source, dims).value, op, source, d);
    } else {
      MirrorAllRecords(t, e, op, source, dims[1..], d);
    }
  }

  lemma GrowsKeepsRecord(s: Store, t: Store, op: Operation, source: string, d: Mirrored)
    requires Grows(s, t) && RecordedAs(s, op, source, d)
    ensures RecordedAs(t, op, source, d)
  {
  }

  lemma MirrorRecords(s: Store, cfg: Settings, op: Operation, source: string, c: TaskCharge, now: int)
    requires Inv(s) && Mirror(s, cfg, op, source, Dimensions(c), now).Ok?
    ensures forall d | d in Dimensions(c) ::
            RecordedAs(Mirror(s, cfg, op, source, Dimensions(c), now).value, op, source, d)
  {
    hide Inv, MirrorAll, ShadowWindow, ShapeAllowed, Recorded;
    var dims := Dimensions(c);
    var t := Mirror(s, cfg, op, source, dims, now).value;
    forall d | d in dims
      ensures RecordedAs(t, op, source, d)
    {
      if forall x | x in dims :: Recorded(s, op, x) {
        assert Recorded(s, op, d);
      } else if |dims| == 1 && dims[0].dimension.NoCharge? {
        ZeroCharge(c);
        ZeroRecorded(s, op, source);
      } else {
        var (w, e) := ShadowWindow(s, cfg, now).value;
        ShadowWindowInv(s, cfg, now);
        MirrorAllRecords(w, e, op, source, dims, d);
      }
    }
  }

  lemma ZeroCharge(c: TaskCharge)
    ensures forall d | d in Dimensions(c) && d.dimension.NoCharge? :: d == Mirrored(NoCharge, 0, None)
  {
  }

  lemma ZeroRecorded(s: Store, op: Operation, source: string)
    ensures var t := s.(receipts := s.receipts[ReceiptKey(op, NoCharge) := Receipt(source, None, 0, None)]);
            RecordedAs(t, op, source, Mirrored(NoCharge, 0, None))
  {
  }

  /** A task charge mirrored again, after any run of other work, changes nothing. */
  lemma MirrorOnce(s: Store, cfg: Settings, op: Operation, source: string, c: TaskCharge, now: int, steps: seq<Step>,
                   later: int)
    requires Inv(s) && Mirror(s, cfg, op, source, Dimensions(c), now).Ok?
    ensures var t := Run(After(s, cfg, MirrorStep(op, source, c, now)), cfg, steps);
            Mirror(t, cfg, op, source, Dimensions(c), later) == Ok(t)
  {
    hide Inv, Run, Grows, MirrorAll, ShadowWindow, RecordedAs;
    var s1 := After(s, cfg, MirrorStep(op, source, c, now));
    StepKeepsInv(s, cfg, MirrorStep(op, source, c, now));
    MirrorRecords(s, cfg, op, source, c, now);
    var t := Run(s1, cfg, steps);
    RunGrows(s1, cfg, steps);
    forall d | d in Dimensions(c) ensures RecordedAs(t, op, source, d) && Recorded(t, op, d) {
      GrowsKeepsRecord(s1, t, op, source, d);
      IsRecorded(t, op, source, d);
    }
  }

  lemma IsRecorded(s: Store, op: Operation, source: string, d: Mirrored)
    requires RecordedAs(s, op, source, d)
    ensures Recorded(s, op, d)
  {
  }

  // ---- Reconciliation ---------------------------------------------------------------

  datatype Status = Agrees | SourceMissing | PayloadMismatch | MissingReservation

  /** One receipt against the reservations of TaskBudget, by fingerprint. */
  function Reconcile(s: Store, sources: map<Operation, string>, key: ReceiptKey): Status
    requires key in s.receipts
  {
    var c := s.receipts[key];
    if key.operation !in sources then SourceMissing
    else if sources[key.operation] != c.source then PayloadMismatch
    else match key.dimension
      case NoCharge => Agrees
      case Charged(k) =>
        var rowKey := MirrorKey(key.operation, k);
        if rowKey !in s.rows then MissingReservation
        else if c.epoch != Some(s.rows[rowKey].epoch) || s.rows[rowKey].state != Settled(c.amount)
          || s.rows[rowKey].capability != c.capability then
          PayloadMismatch
        else Agrees
  }

  /** In every reachable store a receipt reconciles exactly when its source still says the same. */
  lemma ReconciliationExact(cfg: Settings, steps: seq<Step>, sources: map<Operation, string>, key: ReceiptKey)
    requires key in Run(Empty, cfg, steps).receipts
    ensures var s := Run(Empty, cfg, steps);
            Reconcile(s, sources, key)
            == if key.operation !in sources then SourceMissing
               else if sources[key.operation] == s.receipts[key].source then Agrees else PayloadMismatch
  {
    hide Inv, Run, IsShadow;
    EmptyInv();
    RunKeepsInv(Empty, cfg, steps);
    if key.dimension.Charged? { InvParts(Run(Empty, cfg, steps), 0, key.dimension.kind, "", key.operation); }
  }
}

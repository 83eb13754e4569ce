/** Whole mirror calls: exactly when they keep the books. */
module BudgetMirror {
  import opened Common
  import opened BudgetStore
  import opened BudgetQuota
  import opened BudgetShadow

  // ---- Mirroring keeps the books exactly when ... -----------------------------------

  /** What a mirror call leaves of the store it began with. */
  lemma {:induction false} MirrorAllFacts(s: Store, e: nat, op: Operation, source: string, dims: seq<Mirrored>)
    requires e in s.windows && MirrorAll(s, e, op, source, dims).Ok?
    ensures var t := MirrorAll(s, e, op, source, dims).value;
            Grows(s, t) && Governing(t, e) == Governing(s, e) && t.account == s.account && t.policies == s.policies
    ensures dims != [] ==>
              && dims[0].dimension.Charged?
              && var t := MirrorAll(s, e, op, source, dims).value;
                 var key := MirrorKey(op, dims[0].dimension.kind);
                 key in t.rows && t.rows[key].epoch == e
    decreases |dims|
  {
    hide Governing, Grows, WithToolUsage, Plus;
    GrowsRefl(s);
    if dims != [] {
      var t := Charge(s, e, op, source, dims[0]);
      var u := MirrorAll(s, e, op, source, dims).value;
      ChargeGrows(s, e, op, source, dims[0]);
      MirrorAllFacts(t, e, op, source, dims[1..]);
      GrowsTrans(s, t, u);
      GrowsRow(t, u, MirrorKey(op, dims[0].dimension.kind));
    }
  }

  /** Rows, receipts, policies and the policy of a window are never rewritten. */
  ghost predicate Grows(s: Store, t: Store) {
    && (forall id | id in s.policies :: id in t.policies && t.policies[id] == s.policies[id])
    && (forall e | e in s.windows :: e in t.windows && t.windows[e].policy == s.windows[e].policy)
    && (forall key | key in s.receipts :: key in t.receipts && t.receipts[key] == s.receipts[key])
    && (forall key | key in s.rows :: key in t.rows && RowGrows(s.rows[key], t.rows[key]))
  }

  /** A row only ever settles, once. */
  predicate RowGrows(r: Row, q: Row) {
    q == r || (r.state.Reserved? && q.state.Settled? && q == r.(state := q.state))
  }

  lemma GrowsRefl(s: Store)
    ensures Grows(s, s)
  {
  }

  lemma GrowsTrans(s: Store, t: Store, u: Store)
    requires Grows(s, t) && Grows(t, u)
    ensures Grows(s, u)
  {
  }

  lemma GrowsRow(s: Store, t: Store, key: RowKey)
    requires Grows(s, t)
    ensures key in s.rows ==> key in t.rows && RowGrows(s.rows[key], t.rows[key])
  {
  }

  lemma ChargeGrows(s: Store, e: nat, op: Operation, source: string, d: Mirrored)
    requires DimensionValid(d) && e in s.windows
    requires MirrorKey(op, d.dimension.kind) in s.rows ==> s.rows[MirrorKey(op, d.dimension.kind)] == MirrorRow(d, e)
    ensures var t := Charge(s, e, op, source, d);
            Grows(s, t) && Governing(t, e) == Governing(s, e) && t.account == s.account && t.policies == s.policies
            && var key := MirrorKey(op, d.dimension.kind); key in t.rows && t.rows[key].epoch == e
  {
    hide WithToolUsage, Plus;
  }

  /** Not recorded before and not a lone zero charge: the call charges a window. */
  predicate ChargesWindow(s: Store, op: Operation, dims: seq<Mirrored>) {
    dims != [] && !(forall d | d in dims :: Recorded(s, op, d)) && !(|dims| == 1 && dims[0].dimension.NoCharge?)
  }

  /** A charging call keeps the books exactly when no resource kind is repeated in it. */
  lemma ChargedKeepsInvExactly(s: Store, cfg: Settings, op: Operation, source: string, dims: seq<Mirrored>, now: int)
    requires Inv(s) && Mirror(s, cfg, op, source, dims, now).Ok? && ChargesWindow(s, op, dims)
    ensures Inv(Mirror(s, cfg, op, source, dims, now).value) <==> DistinctKinds(dims)
  {
    hide Inv, InShadow, ShadowWindow, MirrorAll, Recorded, DistinctKinds;
    ShadowWindowInv(s, cfg, now);
    var (t, e) := ShadowWindow(s, cfg, now).value;
    RecordsAgree(s, t, op);
    if DistinctKinds(dims) {
      MirrorAllInv(t, e, op, source, dims);
    } else {
      RepeatedBreaks(t, e, op, source, dims);
    }
  }

  lemma RecordsAgree(s: Store, t: Store, op: Operation)
    requires s.receipts == t.receipts
    ensures forall d :: Recorded(t, op, d) <==> Recorded(s, op, d)
  {
  }

  lemma RepeatedBreaks(t: Store, e: nat, op: Operation, source: string, dims: seq<Mirrored>)
    requires Inv(t) && e in t.windows && MirrorAll(t, e, op, source, dims).Ok? && !DistinctKinds(dims)
    ensures !Inv(MirrorAll(t, e, op, source, dims).value)
  {
    hide Inv, MirrorAll, SettledSum, ReservedSum;
    var i, j :| 0 <= i < j < |dims| && dims[i].dimension == dims[j].dimension;
    AllCharged(t, e, op, source, dims, i);
    RepeatedKindDrifts(t, e, op, source, dims, i, j);
    var k := dims[i].dimension.kind;
    InvParts(t, e, k, "", op);
    var u := MirrorAll(t, e, op, source, dims).value;
    assert !SumInv(u, e, k);
    SumBroken(u, e, k);
  }

  lemma SumBroken(u: Store, e: nat, k: Kind)
    requires !SumInv(u, e, k)
    ensures !Inv(u)
  {
  }

  lemma {:induction false} AllCharged(s: Store, e: nat, op: Operation, source: string, dims: seq<Mirrored>, i: nat)
    requires e in s.windows && MirrorAll(s, e, op, source, dims).Ok? && i < |dims|
    ensures dims[i].dimension.Charged?
    decreases i
  {
    hide Charge;
    if i > 0 { AllCharged(Charge(s, e, op, source, dims[0]), e, op, source, dims[1..], i - 1); }
  }

  /** A repeated call changes nothing; a lone zero charge keeps the invariant. */
  lemma UnchargedKeepsInv(s: Store, cfg: Settings, op: Operation, source: string, dims: seq<Mirrored>, now: int)
    requires Inv(s) && Mirror(s, cfg, op, source, dims, now).Ok? && !ChargesWindow(s, op, dims)
    ensures Inv(Mirror(s, cfg, op, source, dims, now).value)
  {
    var t := Mirror(s, cfg, op, source, dims, now).value;
    if t != s { ZeroReceiptInv(s, op, source); }
  }

  lemma ZeroReceiptInv(s: Store, op: Operation, source: string)
    requires Inv(s) && ReceiptKey(op, NoCharge) !in s.receipts
    ensures Inv(s.(receipts := s.receipts[ReceiptKey(op, NoCharge) := Receipt(source, None, 0, None)]))
  {
    var t := s.(receipts := s.receipts[ReceiptKey(op, NoCharge) := Receipt(source, None, 0, None)]);
    hide ReceiptSum, ToolSum, SettledSum, ReservedSum, QuotaSum, IsShadow, AccountInv;
    forall x ensures WindowInv(t, x) { assert WindowInv(s, x); }
    forall x, k ensures SumInv(t, x, k) { assert SumInv(s, x, k); }
    forall x, k
      ensures SourceInv(t, x, k)
    {
      assert SourceInv(s, x, k);
      ReceiptWritten(s.receipts, ReceiptKey(op, NoCharge), Receipt(source, None, 0, None), x, k);
    }
    forall l, k ensures QuotaRowInv(t, l, k) { assert QuotaRowInv(s, l, k); }
    forall o, k
      ensures MirrorRowInv(t, o, k) && ReceiptInv(t, o, k)
    {
      assert MirrorRowInv(s, o, k) && ReceiptInv(s, o, k);
    }
    assert AccountInv(t) by { AccountUnmoved(s, t); }
  }

  lemma AccountUnmoved(s: Store, t: Store)
    requires AccountInv(s) && t.account == s.account && t.windows == s.windows && t.policies == s.policies
    ensures AccountInv(t)
  {
  }

  /** Two token dimensions in one call: the window is charged ten, the one receipt says five. */
  lemma RepeatedKindExample(cfg: Settings, task: string, source: string, now: int)
    ensures var op := Operation(task, "USAGE", "r");
            var d := Mirrored(Charged(TotalToken), 5, None);
            var r := Mirror(Empty, cfg, op, source, [d, d], now);
            && r.Ok? && 1 in r.value.windows && Count(r.value.windows[1].used, TotalToken) == 10
            && r.value.receipts == map[ReceiptKey(op, Charged(TotalToken)) := Receipt(source, Some(1), 5, None)]
  {
    var op := Operation(task, "USAGE", "r");
    var d := Mirrored(Charged(TotalToken), 5, None);
    var (t, e) := ShadowWindow(Empty, cfg, now).value;
    var t1 := Charge(t, e, op, source, d);
    assert [d, d][0] == d && [d, d][1..] == [d];
    assert MirrorOne(t, e, op, source, d) == Ok(t1);
    assert MirrorOne(t1, e, op, source, d) == Ok(Charge(t1, e, op, source, d));
    assert d in [d, d] && !Recorded(Empty, op, d);
  }

  /** A configured version without the prefix charges one window and then locks the account out. */
  lemma UnprefixedVersionExample(cfg: Settings, task: string, source: string, now: int)
    requires !(ShadowPrefix <= cfg.version)
    ensures var op := Operation(task, "INFERENCE", "r");
            var next := Operation(task, "INFERENCE", "q");
            var r := Mirror(Empty, cfg, op, source, InferenceDimensions, now);
            r.Ok? && Mirror(r.value, cfg, next, source, InferenceDimensions, now) == Err(PolicyConflict)
  {
    var op := Operation(task, "INFERENCE", "r");
    var next := Operation(task, "INFERENCE", "q");
    var d := InferenceDimensions[0];
    var (t, e) := ShadowWindow(Empty, cfg, now).value;
    assert !Recorded(Empty, op, d) && d in InferenceDimensions;
    assert MirrorOne(t, e, op, source, d) == Ok(Charge(t, e, op, source, d));
    var u := Charge(t, e, op, source, d);
    assert Mirror(Empty, cfg, op, source, InferenceDimensions, now) == Ok(u);
    assert !Recorded(u, next, d);
    assert CreatePolicy(u, ShadowPolicy(cfg)) == Ok(u);
    assert AdoptShadow(u, ShadowPolicy(cfg).id) == Err(PolicyConflict);
  }
}

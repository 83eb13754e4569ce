/**
 The operations as they run: fields updated in place, loops over kinds and dimensions, and a
 unit of work that restores the store on an error.
 */
module BudgetService {
  import opened Common
  import opened Sums
  import opened BudgetStore
  import opened BudgetQuota
  import opened BudgetShadow

  lemma {:induction false} FirstReplayErrorSnoc(s: Store, rq: Request, e: nat, kinds: seq<Kind>, k: Kind)
    ensures FirstReplayError(s, rq, e, kinds + [k])
            == if FirstReplayError(s, rq, e, kinds).Some? then FirstReplayError(s, rq, e, kinds)
              else ReplayRowError(s, rq, e, k)
  {
    if kinds == [] {
      assert ([] + [k])[1..] == [];
    } else {
      assert (kinds + [k])[1..] == kinds[1..] + [k];
      FirstReplayErrorSnoc(s, rq, e, kinds[1..], k);
    }
  }

  lemma {:induction false} FirstReplayErrorPrefix(s: Store, rq: Request, e: nat, kinds: seq<Kind>, i: nat)
    requires i <= |kinds| && FirstReplayError(s, rq, e, kinds[..i]).Some?
    ensures FirstReplayError(s, rq, e, kinds) == FirstReplayError(s, rq, e, kinds[..i])
  {
    assert kinds[..i][1..] == kinds[1..][..i - 1];
    if ReplayRowError(s, rq, e, kinds[0]).None? { FirstReplayErrorPrefix(s, rq, e, kinds[1..], i - 1); }
  }

  lemma {:induction false} FirstRowErrorSnoc(s: Store, a: Admission, u: Reported, kinds: seq<Kind>, k: Kind)
    ensures FirstRowError(s, a, u, kinds + [k])
            == if FirstRowError(s, a, u, kinds).Some? then FirstRowError(s, a, u, kinds) else RowError(s, a, u, k)
  {
    if kinds == [] {
      assert ([] + [k])[1..] == [];
    } else {
      assert (kinds + [k])[1..] == kinds[1..] + [k];
      FirstRowErrorSnoc(s, a, u, kinds[1..], k);
    }
  }

  lemma {:induction false} FirstRowErrorPrefix(s: Store, a: Admission, u: Reported, kinds: seq<Kind>, i: nat)
    requires i <= |kinds| && FirstRowError(s, a, u, kinds[..i]).Some?
    ensures FirstRowError(s, a, u, kinds) == FirstRowError(s, a, u, kinds[..i])
  {
    assert kinds[..i][1..] == kinds[1..][..i - 1];
    if RowError(s, a, u, kinds[0]).None? { FirstRowErrorPrefix(s, a, u, kinds[1..], i - 1); }
  }

  lemma {:induction false} SettleAllSnoc(s: Store, a: Admission, u: Reported, kinds: seq<Kind>, k: Kind)
    requires a.epoch in s.windows
    ensures a.epoch in SettleAll(s, a, u, kinds).windows
    ensures SettleAll(s, a, u, kinds + [k]) == SettleKind(SettleAll(s, a, u, kinds), a, u, k)
    decreases |kinds|
  {
    hide SettleKind;
    if kinds == [] {
      assert ([] + [k])[1..] == [];
    } else {
      assert (kinds + [k])[1..] == kinds[1..] + [k];
      SettleAllSnoc(SettleKind(s, a, u, kinds[0]), a, u, kinds[1..], k);
    }
  }

  lemma {:induction false} MirrorAllSnoc(s: Store, e: nat, op: Operation, source: string, dims: seq<Mirrored>,
                                         d: Mirrored)
    requires e in s.windows
    ensures MirrorAll(s, e, op, source, dims).Ok? ==> e in MirrorAll(s, e, op, source, dims).value.windows
    ensures MirrorAll(s, e, op, source, dims + [d])
            == match MirrorAll(s, e, op, source, dims)
               case Err(x) => Err(x)
               case Ok(t) => MirrorOne(t, e, op, source, d)
    decreases |dims|
  {
    hide MirrorOne;
    if dims == [] {
      assert ([] + [d])[1..] == [];
    } else {
      assert (dims + [d])[1..] == dims[1..] + [d];
      match MirrorOne(s, e, op, source, dims[0])
      case Err(_) =>
      case Ok(t) => MirrorAllSnoc(t, e, op, source, dims[1..], d);
    }
  }

  lemma {:induction false} MirrorAllPrefix(s: Store, e: nat, op: Operation, source: string, dims: seq<Mirrored>, i: nat)
    requires e in s.windows && i <= |dims| && MirrorAll(s, e, op, source, dims[..i]).Err?
    ensures MirrorAll(s, e, op, source, dims) == MirrorAll(s, e, op, source, dims[..i])
    decreases |dims|
  {
    hide MirrorOne;
    assert dims[..i][1..] == dims[1..][..i - 1];
    if MirrorOne(s, e, op, source, dims[0]).Ok? {
      MirrorAllPrefix(MirrorOne(s, e, op, source, dims[0]).value, e, op, source, dims[1..], i - 1);
    }
  }

  /** The pending amount of some of the rows. */
  ghost function SumOver(rows: map<RowKey, Row>, some: set<RowKey>, e: nat, k: Kind): nat
    requires some <= rows.Keys
  {
    MapSum(map key | key in some :: ReservedPart(key, rows[key], e, k))
  }

  lemma SumOverAll(rows: map<RowKey, Row>, e: nat, k: Kind)
    ensures SumOver(rows, rows.Keys, e, k) == ReservedSum(rows, e, k)
  {
    hide ReservedPart;
    assert ReservedWeights(rows, e, k) == map key | key in rows.Keys :: ReservedPart(key, rows[key], e, k);
  }

  lemma SumOverZero(rows: map<RowKey, Row>, some: set<RowKey>, e: nat, k: Kind)
    requires some <= rows.Keys && forall key | key in some :: ReservedPart(key, rows[key], e, k) == 0
    ensures SumOver(rows, some, e, k) == 0
  {
    MapSumZero(map key | key in some :: ReservedPart(key, rows[key], e, k));
  }

  lemma SumOverTake(rows: map<RowKey, Row>, some: set<RowKey>, e: nat, k: Kind, key: RowKey)
    requires some <= rows.Keys && key in some
    ensures SumOver(rows, some, e, k) == ReservedPart(key, rows[key], e, k) + SumOver(rows, some - {key}, e, k)
  {
    hide ReservedPart;
    var m := map x | x in some :: ReservedPart(x, rows[x], e, k);
    MapSumTake(m, key);
    assert m - {key} == map x | x in some - {key} :: ReservedPart(x, rows[x], e, k);
  }

  lemma MirrorNone(s: Store, e: nat, op: Operation, source: string)
    requires e in s.windows
    ensures MirrorAll(s, e, op, source, []) == Ok(s)
  {
  }

  class UserBudget {
    var policies: map<PolicyId, Policy>
    var account: Option<Account>
    var windows: map<nat, Window>
    var rows: map<RowKey, Row>
    var receipts: map<ReceiptKey, Receipt>
    var toolUsage: map<Usage, nat>

    function Contents(): Store
      reads this
    {
      Store(policies, account, windows, rows, receipts, toolUsage)
    }

    constructor ()
      ensures Contents() == Empty
    {
      policies, account, windows, rows, receipts, toolUsage := map[], None, map[], map[], map[], map[];
    }

    method Rollback(saved: Store)
      modifies this
      ensures Contents() == saved
    {
      policies, account, windows := saved.policies, saved.account, saved.windows;
      rows, receipts, toolUsage := saved.rows, saved.receipts, saved.toolUsage;
    }

    method RolloverWindow(now: int) returns (r: Result<nat, Error>)
      modifies this
      ensures match ActiveWindow(old(Contents()), now)
              case Err(e) => r == Err(e) && Contents() == old(Contents())
              case Ok((t, e)) => r == Ok(e) && Contents() == t
    {
      if account.None? { return Err(NoPolicy); }
      var a := account.value;
      if a.active.Some? && a.active.value in windows && now < windows[a.active.value].expiresAt {
        return Ok(a.active.value);
      }
      if a.nextPolicy.None? || a.nextPolicy.value !in policies { return Err(NoPolicy); }
      var p := policies[a.nextPolicy.value];
      var e := a.nextEpoch;
      windows := windows[e := Window(p.id, now + p.duration, map[], map[])];
      account := Some(Account(a.nextPolicy, Some(e), e + 1));
      r := Ok(e);
    }

    /** The reserved amounts of a kind in a window; None when they exceed the 64-bit domain. */
    method SumPending(e: nat, k: Kind) returns (sum: Option<nat>)
      ensures sum == if ReservedSum(rows, e, k) <= INT64_MAX then Some(ReservedSum(rows, e, k)) else None
    {
      hide ReservedSum, SumOver;
      var n := 0;
      var rest := rows.Keys;
      SumOverAll(rows, e, k);
      while rest != {}
        invariant rest <= rows.Keys
        invariant n + SumOver(rows, rest, e, k) == ReservedSum(rows, e, k)
        decreases |rest|
      {
        var key :| key in rest;
        SumOverTake(rows, rest, e, k, key);
        if key.kind == k && rows[key].epoch == e && rows[key].state.Reserved? { n := n + rows[key].amount; }
        rest := rest - {key};
      }
      SumOverZero(rows, rest, e, k);
      sum := if n <= INT64_MAX then Some(n) else None;
    }

    method ReplayReservation(rq: Request) returns (r: Result<Admission, Error>)
      requires QuotaKey(rq.logicalId, InferenceCall) in rows
      ensures r == Replay(Contents(), rq)
    {
      var first := rows[QuotaKey(rq.logicalId, InferenceCall)];
      if first.fingerprint != Some(rq.fingerprint) { return Err(FingerprintConflict); }
      if first.epoch !in windows { return Err(MissingWindow); }
      if windows[first.epoch].policy !in policies { return Err(PolicyConflict); }
      if !Estimable(policies[windows[first.epoch].policy]) { return Err(EstimateUnavailable); }
      var i := 0;
      while i < |QuotaKinds|
        invariant 0 <= i <= |QuotaKinds|
        invariant FirstReplayError(Contents(), rq, first.epoch, QuotaKinds[..i]).None?
      {
        var k := QuotaKinds[i];
        assert QuotaKinds[..i + 1] == QuotaKinds[..i] + [k];
        FirstReplayErrorSnoc(Contents(), rq, first.epoch, QuotaKinds[..i], k);
        var key := QuotaKey(rq.logicalId, k);
        if key !in rows {
          FirstReplayErrorPrefix(Contents(), rq, first.epoch, QuotaKinds, i + 1);
          return Err(PartialSet);
        }
        if !RowMatches(rows[key], rq.fingerprint, first.epoch, k) {
          FirstReplayErrorPrefix(Contents(), rq, first.epoch, QuotaKinds, i + 1);
          return Err(FingerprintConflict);
        }
        i := i + 1;
      }
      assert QuotaKinds[..i] == QuotaKinds;
      r := Ok(Admission(rq.logicalId, rq.fingerprint, first.epoch, true));
    }

    method CheckAdmission(rq: Request, e: nat) returns (error: Option<Error>)
      requires e in windows
      ensures error == AdmissionError(Contents(), rq, e)
    {
      hide ReservedSum, IsShadow, Estimable, AmountsValid;
      var w := windows[e];
      if w.policy !in policies { return Some(PolicyConflict); }
      var p := policies[w.policy];
      if IsShadow(p) { return Some(PolicyConflict); }
      if !Estimable(p) { return Some(EstimateUnavailable); }
      var fp := rq.fingerprint;
      var input := SumPending(e, InputToken);
      if input.None? { return Some(Overflow); }
      var output := SumPending(e, OutputToken);
      if output.None? { return Some(Overflow); }
      if InferenceCall in p.limits
        && Count(w.used, InferenceCall) + Count(w.reserved, InferenceCall) + 1 > p.limits[InferenceCall] {
        return Some(CallsExhausted);
      }
      if InputToken in p.limits && Count(w.used, InputToken) + input.value + fp.input > p.limits[InputToken] {
        return Some(TokensExhausted);
      }
      if OutputToken in p.limits && Count(w.used, OutputToken) + output.value + fp.output > p.limits[OutputToken] {
        return Some(TokensExhausted);
      }
      if TotalToken in p.limits
        && Count(w.used, TotalToken) + Count(w.reserved, TotalToken) + fp.input + fp.output > p.limits[TotalToken] {
        return Some(TokensExhausted);
      }
      if !AmountsValid(fp) { return Some(InvalidAmount); }
      if Count(w.reserved, InferenceCall) + 1 > INT64_MAX
        || Count(w.reserved, TotalToken) + fp.input + fp.output > INT64_MAX {
        return Some(Overflow);
      }
      error := None;
    }

    method ReserveQuota(rq: Request, now: int) returns (r: Result<Admission, Error>)
      modifies this
      ensures (Contents(), r) == Reserve(old(Contents()), rq, now)
    {
      var saved := Contents();
      if QuotaKey(rq.logicalId, InferenceCall) in rows {
        r := ReplayReservation(rq);
        return;
      }
      if HasHistoricalCharge(saved, rq) { return Err(Historical); }
      if account.None? || account.value.nextPolicy.None? { return Err(NoPolicy); }
      var window := RolloverWindow(now);
      if window.Err? { return Err(window.error); }
      var e := window.value;
      if e !in windows {
        Rollback(saved);
        return Err(MissingWindow);
      }
      var error := CheckAdmission(rq, e);
      if error.Some? {
        Rollback(saved);
        return Err(error.value);
      }
      WriteReservation(rq, e);
      r := Ok(Admission(rq.logicalId, rq.fingerprint, e, false));
    }

    method WriteReservation(rq: Request, e: nat)
      requires e in windows
      modifies this
      ensures Contents() == ReserveIn(old(Contents()), rq, e)
    {
      var fp, l := rq.fingerprint, rq.logicalId;
      rows := rows[QuotaKey(l, InferenceCall) := NewRow(fp, e, InferenceCall)];
      rows := rows[QuotaKey(l, InputToken) := NewRow(fp, e, InputToken)];
      rows := rows[QuotaKey(l, OutputToken) := NewRow(fp, e, OutputToken)];
      rows := rows[QuotaKey(l, TotalToken) := NewRow(fp, e, TotalToken)];
      var w := windows[e];
      var reserved := Plus(Plus(w.reserved, InferenceCall, 1), TotalToken, fp.input + fp.output);
      windows := windows[e := w.(reserved := reserved)];
    }

    method CheckRow(a: Admission, u: Reported, k: Kind) returns (error: Option<Error>)
      ensures error == RowError(Contents(), a, u, k)
    {
      var key := QuotaKey(a.logicalId, k);
      if key !in rows { return Some(MissingRow); }
      if rows[key].fingerprint != Some(a.fingerprint) { return Some(FingerprintConflict); }
      if Actual(u, k).Some? && rows[key].state.Settled? && rows[key].state.actual != Actual(u, k).value {
        return Some(SettledDifferently);
      }
      error := None;
    }

    /** The window is moved once, by everything the known usage settles. */
    method SettleSuccess(a: Admission, u: Reported) returns (error: Option<Error>)
      modifies this
      ensures match Settle(old(Contents()), a, u)
              case Err(e) => error == Some(e) && Contents() == old(Contents())
              case Ok(t) => error.None? && Contents() == t
    {
      hide RowError, FirstRowError, SettleAll, SettleKind, Plus, Minus, At;
      hide MovedBy, Underflows, Overflows, Untouched, Underflowed, Overflowed;
      if a.epoch !in windows { return Some(MissingWindow); }
      ghost var s := Contents();
      var w := windows[a.epoch];
      var moved := Moved(rows, w.used, w.reserved);
      var underflow, overflow := false, false;
      var i := 0;
      AtStart(s, a, u);
      while i < |QuotaKinds|
        invariant 0 <= i <= |QuotaKinds|
        invariant Contents() == s
        invariant FirstRowError(s, a, u, QuotaKinds[..i]).None?
        invariant SettleAll(s, a, u, QuotaKinds[..i]) == At(s, a.epoch, moved)
        invariant Untouched(rows, moved.rows, a.logicalId, i)
        invariant underflow <==> Underflowed(s, a, u, i)
        invariant overflow <==> Overflowed(s, a, u, i)
      {
        var k := QuotaKinds[i];
        var key := QuotaKey(a.logicalId, k);
        assert QuotaKinds[..i + 1] == QuotaKinds[..i] + [k];
        FirstRowErrorSnoc(s, a, u, QuotaKinds[..i], k);
        SettleAllSnoc(s, a, u, QuotaKinds[..i], k);
        var rowError := CheckRow(a, u, k);
        if rowError.Some? {
          FirstRowErrorPrefix(s, a, u, QuotaKinds, i + 1);
          return rowError;
        }
        SettleStep(s, a, u, moved, i);
        FlowStep(s, a, u, i);
        if Actual(u, k).Some? && rows[key].state.Reserved? {
          var actual := Actual(u, k).value;
          underflow := underflow || (Tracked(k) && rows[key].amount > Count(w.reserved, k));
          overflow := overflow || Count(w.used, k) + actual > INT64_MAX;
          moved := MovedBy(moved, key, actual);
        }
        i := i + 1;
      }
      assert QuotaKinds[..i] == QuotaKinds;
      FlowsCovered(s, a, u);
      if underflow { return Some(Underflow); }
      if overflow { return Some(Overflow); }
      AtEnd(s, a.epoch, moved);
      rows := moved.rows;
      windows := windows[a.epoch := w.(used := moved.used, reserved := moved.reserved)];
      error := None;
    }

    method CreateOrGetPolicy(p: Policy) returns (error: Option<Error>)
      modifies this
      ensures match CreatePolicy(old(Contents()), p)
              case Err(e) => error == Some(e) && Contents() == old(Contents())
              case Ok(t) => error.None? && Contents() == t
    {
      if p.id in policies { return if policies[p.id] == p then None else Some(PolicyConflict); }
      var rest := policies.Keys;
      while rest != {}
        invariant rest <= policies.Keys && Contents() == old(Contents())
        invariant forall id | id in policies && id !in rest :: policies[id].version != p.version
        decreases |rest|
      {
        var id :| id in rest;
        if policies[id].version == p.version { return Some(PolicyConflict); }
        rest := rest - {id};
      }
      policies := policies[p.id := p];
      error := None;
    }

    method EnsureAccount(cfg: Settings) returns (error: Option<Error>)
      modifies this
      ensures match EnsureShadowAccount(old(Contents()), cfg)
              case Err(e) => error == Some(e) && Contents() == old(Contents())
              case Ok(t) => error.None? && Contents() == t
    {
      hide IsShadow;
      var saved := Contents();
      var policy := ShadowPolicy(cfg);
      error := CreateOrGetPolicy(policy);
      if error.Some? { return; }
      if account.Some? && account.value.active.Some? && !InShadow(Contents(), account.value.active.value) {
        Rollback(saved);
        return Some(PolicyConflict);
      }
      if account.None? || account.value.nextPolicy.None? {
        var a := if account.Some? then account.value else Account(None, None, 1);
        if policy.id !in policies {
          Rollback(saved);
          return Some(NoPolicy);
        }
        account := Some(a.(nextPolicy := Some(policy.id)));
      } else if account.value.nextPolicy.value !in policies || !IsShadow(policies[account.value.nextPolicy.value]) {
        Rollback(saved);
        return Some(PolicyConflict);
      }
    }

    /** One dimension, written field by field; the caller rolls back on an error. */
    method ChargeDimension(e: nat, op: Operation, source: string, d: Mirrored) returns (error: Option<Error>)
      requires e in windows
      modifies this
      ensures match MirrorOne(old(Contents()), e, op, source, d)
              case Err(x) => error == Some(x)
              case Ok(t) => error.None? && Contents() == t
    {
      if !DimensionValid(d) { return Some(Unsupported); }
      var k := d.dimension.kind;
      var key := MirrorKey(op, k);
      if key in rows {
        if rows[key] != MirrorRow(d, e) { return Some(ReplayConflict); }
      }
      if Count(windows[e].used, k) + d.amount > INT64_MAX { return Some(Overflow); }
      var receipt := Receipt(source, Some(e), d.amount, d.capability);
      var receiptKey := ReceiptKey(op, d.dimension);
      if receiptKey in receipts && receipts[receiptKey] != receipt { return Some(ReplayConflict); }
      if !ShapeAllowed(op.budgetKind, d) { return Some(Unsupported); }
      if key !in rows { rows := rows[key := MirrorRow(d, e)]; }
      windows := windows[e := windows[e].(used := Plus(windows[e].used, k, d.amount))];
      if k == ToolCall {
        var usage := Usage(e, d.capability.value);
        toolUsage := toolUsage[usage := (if usage in toolUsage then toolUsage[usage] else 0) + d.amount];
      }
      if receiptKey !in receipts { receipts := receipts[receiptKey := receipt]; }
      error := None;
    }

    /** What the earlier receipts of the operation say: a conflict, and whether some or none are missing. */
    method CheckReceipts(op: Operation, source: string, dims: seq<Mirrored>)
      returns (conflict: bool, some: bool, missing: bool)
      ensures conflict <==>
                exists d | d in dims :: Recorded(Contents(), op, d) && !RecordedAs(Contents(), op, source, d)
      ensures !conflict ==> (some <==> exists d | d in dims :: Recorded(Contents(), op, d))
      ensures !conflict ==> (missing <==> !(forall d | d in dims :: Recorded(Contents(), op, d)))
    {
      conflict, some, missing := false, false, false;
      for i := 0 to |dims|
        invariant forall j | 0 <= j < i :: Recorded(Contents(), op, dims[j]) ==>
                  RecordedAs(Contents(), op, source, dims[j])
        invariant some <==> exists j | 0 <= j < i :: Recorded(Contents(), op, dims[j])
        invariant missing <==> exists j | 0 <= j < i :: !Recorded(Contents(), op, dims[j])
      {
        var d := dims[i];
        if ReceiptKey(op, d.dimension) in receipts {
          if !RecordedAs(Contents(), op, source, d) { return true, some, missing; }
          some := true;
        } else {
          missing := true;
        }
      }
      assert forall d | d in dims :: exists j | 0 <= j < |dims| :: dims[j] == d;
    }

    method MirrorResource(cfg: Settings, op: Operation, source: string, dims: seq<Mirrored>, now: int)
      returns (error: Option<Error>)
      modifies this
      ensures match Mirror(old(Contents()), cfg, op, source, dims, now)
              case Err(x) => error == Some(x) && Contents() == old(Contents())
              case Ok(t) => error.None? && Contents() == t
    {
      hide Recorded, RecordedAs, EnsureShadowAccount, ActiveWindow, MirrorAll, MirrorOne;
      var saved := Contents();
      if dims == [] { return Some(Unsupported); }
      var conflict, some, missing := CheckReceipts(op, source, dims);
      if conflict { return Some(ReplayConflict); }
      if !missing { return None; }
      if some { return Some(PartiallyMirrored); }
      if |dims| == 1 && dims[0].dimension.NoCharge? {
        if !ShapeAllowed(op.budgetKind, dims[0]) { return Some(Unsupported); }
        receipts := receipts[ReceiptKey(op, NoCharge) := Receipt(source, None, 0, None)];
        return None;
      }
      error := EnsureAccount(cfg);
      if error.Some? { return; }
      var window := RolloverWindow(now);
      if window.Err? {
        Rollback(saved);
        return Some(window.error);
      }
      if window.value !in windows {
        Rollback(saved);
        return Some(MissingWindow);
      }
      error := ChargeDimensions(window.value, op, source, dims);
      if error.Some? { Rollback(saved); }
    }

    method ChargeDimensions(e: nat, op: Operation, source: string, dims: seq<Mirrored>) returns (error: Option<Error>)
      requires e in windows
      modifies this
      ensures match MirrorAll(old(Contents()), e, op, source, dims)
              case Err(x) => error == Some(x)
              case Ok(t) => error.None? && Contents() == t
    {
      hide MirrorAll, MirrorOne;
      ghost var s := Contents();
      MirrorNone(s, e, op, source);
      for i := 0 to |dims|
        invariant e in windows
        invariant MirrorAll(s, e, op, source, dims[..i]) == Ok(Contents())
      {
        assert dims[..i + 1] == dims[..i] + [dims[i]];
        MirrorAllSnoc(s, e, op, source, dims[..i], dims[i]);
        error := ChargeDimension(e, op, source, dims[i]);
        if error.Some? {
          MirrorAllPrefix(s, e, op, source, dims, i + 1);
          return;
        }
      }
      assert dims[..|dims|] == dims;
      error := None;
    }
  }

  /** The rows and counters a settlement is about to write. */
  datatype Moved = Moved(rows: map<RowKey, Row>, used: Counters, reserved: Counters)

  ghost function At(s: Store, e: nat, m: Moved): Store
    requires e in s.windows
  {
    s.(rows := m.rows, windows := s.windows[e := s.windows[e].(used := m.used, reserved := m.reserved)])
  }

  ghost predicate SameRow(r: map<RowKey, Row>, q: map<RowKey, Row>, key: RowKey) {
    (key in r <==> key in q) && (key in r ==> r[key] == q[key])
  }

  /** The rows of the kinds from i on are still as they were. */
  ghost predicate Untouched(r: map<RowKey, Row>, q: map<RowKey, Row>, l: string, i: nat) {
    forall j | i <= j < |QuotaKinds| :: SameRow(r, q, QuotaKey(l, QuotaKinds[j]))
  }

  ghost predicate Underflowed(s: Store, a: Admission, u: Reported, i: nat)
    requires a.epoch in s.windows && i <= |QuotaKinds|
  {
    exists j | 0 <= j < i :: Underflows(s, a, u, QuotaKinds[j])
  }

  ghost predicate Overflowed(s: Store, a: Admission, u: Reported, i: nat)
    requires a.epoch in s.windows && i <= |QuotaKinds|
  {
    exists j | 0 <= j < i :: Overflows(s, a, u, QuotaKinds[j])
  }

  lemma FlowStep(s: Store, a: Admission, u: Reported, i: nat)
    requires a.epoch in s.windows && i < |QuotaKinds| && QuotaKey(a.logicalId, QuotaKinds[i]) in s.rows
    ensures var r := s.rows[QuotaKey(a.logicalId, QuotaKinds[i])];
            Underflowed(s, a, u, i + 1) <==>
              || Underflowed(s, a, u, i)
              || (Pending(s, a, u, QuotaKinds[i]) && Tracked(QuotaKinds[i])
                  && r.amount > Count(s.windows[a.epoch].reserved, QuotaKinds[i]))
    ensures Overflowed(s, a, u, i + 1) <==>
              || Overflowed(s, a, u, i)
              || (Pending(s, a, u, QuotaKinds[i])
                  && Count(s.windows[a.epoch].used, QuotaKinds[i]) + Actual(u, QuotaKinds[i]).value > INT64_MAX)
  {
  }

  lemma FlowsCovered(s: Store, a: Admission, u: Reported)
    requires a.epoch in s.windows
    ensures Underflowed(s, a, u, |QuotaKinds|) <==> exists k | QuotaKind(k) :: Underflows(s, a, u, k)
    ensures Overflowed(s, a, u, |QuotaKinds|) <==> exists k | QuotaKind(k) :: Overflows(s, a, u, k)
  {
    hide Underflows, Overflows;
    KindsCovered();
  }

  function MovedBy(m: Moved, key: RowKey, actual: nat): Moved
    requires key in m.rows
  {
    Moved(m.rows[key := m.rows[key].(state := Settled(actual))],
          Plus(m.used, key.kind, actual),
          if Tracked(key.kind) then Minus(m.reserved, key.kind, m.rows[key].amount) else m.reserved)
  }

  lemma AtStart(s: Store, a: Admission, u: Reported)
    requires a.epoch in s.windows
    ensures At(s, a.epoch, Moved(s.rows, s.windows[a.epoch].used, s.windows[a.epoch].reserved)) == s
    ensures FirstRowError(s, a, u, []).None? && SettleAll(s, a, u, []) == s
    ensures Untouched(s.rows, s.rows, a.logicalId, 0) && !Underflowed(s, a, u, 0) && !Overflowed(s, a, u, 0)
  {
    assert s.windows[a.epoch := s.windows[a.epoch]] == s.windows;
  }

  lemma AtEnd(s: Store, e: nat, m: Moved)
    requires e in s.windows
    ensures At(s, e, m)
            == s.(rows := m.rows, windows := s.windows[e := s.windows[e].(used := m.used, reserved := m.reserved)])
  {
  }

  lemma SettleStep(s: Store, a: Admission, u: Reported, m: Moved, i: nat)
    requires a.epoch in s.windows && i < |QuotaKinds| && RowError(s, a, u, QuotaKinds[i]).None?
    requires Untouched(s.rows, m.rows, a.logicalId, i)
    ensures var key := QuotaKey(a.logicalId, QuotaKinds[i]);
            && key in s.rows && key in m.rows && a.epoch in At(s, a.epoch, m).windows
            && var n := if Pending(s, a, u, QuotaKinds[i]) then MovedBy(m, key, Actual(u, QuotaKinds[i]).value) else m;
               && SettleKind(At(s, a.epoch, m), a, u, QuotaKinds[i]) == At(s, a.epoch, n)
               && Untouched(s.rows, n.rows, a.logicalId, i + 1)
  {
    hide Plus, Minus;
    var key := QuotaKey(a.logicalId, QuotaKinds[i]);
    assert SameRow(s.rows, m.rows, key);
    KindsCovered();
    if Pending(s, a, u, QuotaKinds[i]) { SettleMoves(s, a.epoch, m, key, Actual(u, QuotaKinds[i]).value); }
  }

  lemma SettleMoves(s: Store, e: nat, m: Moved, key: RowKey, actual: nat)
    requires e in s.windows && key in m.rows
    ensures SettleRow(At(s, e, m), e, key, actual) == At(s, e, MovedBy(m, key, actual))
  {
    hide Plus, Minus;
  }

  lemma KindsCovered()
    ensures forall k | QuotaKind(k) :: exists j | 0 <= j < |QuotaKinds| :: QuotaKinds[j] == k
    ensures forall j | 0 <= j < |QuotaKinds| :: QuotaKind(QuotaKinds[j])
    ensures forall i, j | 0 <= i < j < |QuotaKinds| :: QuotaKinds[i] != QuotaKinds[j]
  {
    assert QuotaKinds[0] == InferenceCall && QuotaKinds[1] == InputToken && QuotaKinds[2] == OutputToken
           && QuotaKinds[3] == TotalToken;
  }
}

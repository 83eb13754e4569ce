/** Which windows hold mirrored charges, and exactly when one can hold admitted requests as well. */
module BudgetMixing {
  import opened Common
  import opened BudgetStore
  import opened BudgetQuota
  import opened BudgetShadow
  import opened BudgetMirror
  import opened BudgetRuns

  /** A window mirrored charges go to: a recognised shadow window, or one of an unprefixed configured policy. */
  predicate Home(s: Store, cfg: Settings, e: nat) {
    InShadow(s, e) || (!(ShadowPrefix <= cfg.version) && Governing(s, e) == Some(ShadowPolicy(cfg)))
  }

  ghost predicate AtHome(s: Store, cfg: Settings, op: Operation, k: Kind) {
    MirrorKey(op, k) in s.rows ==> Home(s, cfg, s.rows[MirrorKey(op, k)].epoch)
  }

  ghost predicate AllAtHome(s: Store, cfg: Settings) { forall op, k :: AtHome(s, cfg, op, k) }

  lemma GoverningKept(s: Store, t: Store, e: nat)
    requires Inv(s) && Grows(s, t) && e in s.windows
    ensures Governing(t, e) == Governing(s, e)
  {
    hide Inv;
    InvParts(s, e, ToolCall, "", Operation("", "", ""));
  }

  /** Mirror rows that were there stay at home. */
  lemma OldStaysHome(s: Store, t: Store, cfg: Settings, op: Operation, k: Kind)
    requires Inv(s) && Grows(s, t) && AtHome(s, cfg, op, k) && MirrorKey(op, k) in s.rows
    ensures AtHome(t, cfg, op, k)
  {
    hide Inv, Grows, IsShadow, Governing;
    InvParts(s, 0, k, "", op);
    GrowsRow(s, t, MirrorKey(op, k));
    GoverningKept(s, t, s.rows[MirrorKey(op, k)].epoch);
  }

  // ---- Only mirroring makes mirror rows ---------------------------------------------

  lemma ReserveMirrors(s: Store, rq: Request, now: int, op: Operation, k: Kind)
    requires Inv(s)
    ensures MirrorKey(op, k) in Reserve(s, rq, now).0.rows <==> MirrorKey(op, k) in s.rows
  {
    hide Inv, AdmissionError, Replay, ActiveWindow, WithRows;
    if Reserve(s, rq, now).0 != s {
      var (t, e) := ActiveWindow(s, now).value;
      RolloverInv(s, now);
      WithRowsAt(t.rows, rq.logicalId, rq.fingerprint, e, MirrorKey(op, k));
    }
  }

  lemma {:induction false} SettleMirrors(s: Store, a: Admission, u: Reported, kinds: seq<Kind>, op: Operation, k: Kind)
    requires a.epoch in s.windows
    ensures MirrorKey(op, k) in SettleAll(s, a, u, kinds).rows <==> MirrorKey(op, k) in s.rows
    decreases |kinds|
  {
    hide Plus, Minus;
    if kinds != [] { SettleMirrors(SettleKind(s, a, u, kinds[0]), a, u, kinds[1..], op, k); }
  }

  lemma {:induction false} MirrorAllMirrors(s: Store, e: nat, op: Operation, source: string, dims: seq<Mirrored>,
                                            o: Operation, k: Kind)
    requires e in s.windows && MirrorAll(s, e, op, source, dims).Ok?
    ensures var t := MirrorAll(s, e, op, source, dims).value;
            MirrorKey(o, k) in t.rows ==> MirrorKey(o, k) in s.rows || t.rows[MirrorKey(o, k)].epoch == e
    decreases |dims|
  {
    hide WithToolUsage, Plus, Grows;
    if dims != [] {
      var t := Charge(s, e, op, source, dims[0]);
      MirrorAllMirrors(t, e, op, source, dims[1..], o, k);
      MirrorAllFacts(t, e, op, source, dims[1..]);
      GrowsRow(t, MirrorAll(s, e, op, source, dims).value, MirrorKey(o, k));
    }
  }

  lemma MirrorAtHome(s: Store, cfg: Settings, op: Operation, source: string, dims: seq<Mirrored>, now: int,
                     o: Operation, k: Kind)
    requires Inv(s) && AtHome(s, cfg, o, k) && Mirror(s, cfg, op, source, dims, now).Ok?
    ensures AtHome(Mirror(s, cfg, op, source, dims, now).value, cfg, o, k)
  {
    hide Inv, MirrorAll, ShadowWindow, Recorded, RecordedAs, ShapeAllowed, Governing, IsShadow, Grows;
    var t := Mirror(s, cfg, op, source, dims, now).value;
    MirrorGrows(s, cfg, op, source, dims, now);
    if MirrorKey(o, k) in s.rows {
      OldStaysHome(s, t, cfg, o, k);
    } else if t.rows != s.rows {
      var (w, e) := ShadowWindow(s, cfg, now).value;
      ShadowWindowInv(s, cfg, now);
      MirrorAllMirrors(w, e, op, source, dims, o, k);
      MirrorAllFacts(w, e, op, source, dims);
    }
  }

  lemma StepAtHome(s: Store, cfg: Settings, step: Step, op: Operation, k: Kind)
    requires Inv(s) && AtHome(s, cfg, op, k)
    ensures AtHome(After(s, cfg, step), cfg, op, k)
  {
    hide Inv, AtHome, Grows, Reserve, SettleAll, Mirror, CreatePolicy;
    hide SelectPolicy, Dimensions, Issued, FirstRowError, Underflows, Overflows;
    hide AccountOnly;
    InvAccount(s);
    StepGrows(s, cfg, step);
    if MirrorKey(op, k) in s.rows {
      OldStaysHome(s, After(s, cfg, step), cfg, op, k);
    } else {
      NoRowAtHome(After(s, cfg, step), cfg, op, k);
      match step
      case ReserveStep(rq, now) => ReserveMirrors(s, rq, now, op, k);
      case SettleStep(a, u) => if Settle(s, a, u).Ok? { SettleMirrors(s, a, u, QuotaKinds, op, k); }
      case MirrorStep(o, source, c, now) =>
        if Mirror(s, cfg, o, source, Dimensions(c), now).Ok? {
          MirrorAtHome(s, cfg, o, source, Dimensions(c), now, op, k);
        }
      case PolicyStep(p) => if CreatePolicy(s, p).Ok? { CreateKeeps(s, p); SameRows(s, CreatePolicy(s, p).value); }
      case SelectStep(id) => if SelectPolicy(s, id).Ok? { SelectKeeps(s, id); SameRows(s, SelectPolicy(s, id).value); }
    }
  }

  lemma SameRows(s: Store, t: Store)
    requires AccountOnly(s, t)
    ensures t.rows == s.rows
  {
  }

  lemma NoRowAtHome(s: Store, cfg: Settings, op: Operation, k: Kind)
    ensures MirrorKey(op, k) !in s.rows ==> AtHome(s, cfg, op, k)
  {
  }

  lemma {:induction false} RunAtHome(s: Store, cfg: Settings, steps: seq<Step>)
    requires Inv(s) && AllAtHome(s, cfg)
    ensures AllAtHome(Run(s, cfg, steps), cfg)
    decreases |steps|
  {
    hide Inv, After, AtHome;
    if steps != [] {
      var t := After(s, cfg, steps[0]);
      StepKeepsInv(s, cfg, steps[0]);
      forall op, k ensures AtHome(t, cfg, op, k) { StepAtHome(s, cfg, steps[0], op, k); }
      RunAtHome(t, cfg, steps[1..]);
    }
  }

  // ---- Mixing -----------------------------------------------------------------------

  /** The window holds an admitted request and a mirrored charge. */
  predicate Mixes(s: Store, e: nat, l: string, k: Kind, op: Operation, j: Kind) {
    && QuotaKey(l, k) in s.rows && s.rows[QuotaKey(l, k)].epoch == e
    && MirrorKey(op, j) in s.rows && s.rows[MirrorKey(op, j)].epoch == e
  }

  /**
   In every reachable store a mirrored charge stands in a recognised shadow window or in a window
   of the configured policy, whose version then has no shadow prefix; and only a window of the
   second kind can hold admitted requests too.
   */
  lemma MirroredHomes(cfg: Settings, steps: seq<Step>, op: Operation, j: Kind, l: string, k: Kind)
    requires MirrorKey(op, j) in Run(Empty, cfg, steps).rows
    ensures var s := Run(Empty, cfg, steps);
            var e := s.rows[MirrorKey(op, j)].epoch;
            && Home(s, cfg, e)
            && (Mixes(s, e, l, k, op, j) ==>
                !(ShadowPrefix <= cfg.version) && Governing(s, e) == Some(ShadowPolicy(cfg)))
  {
    hide Inv, Run, Governing, IsShadow;
    EmptyInv();
    RunAtHome(Empty, cfg, steps);
    RunKeepsInv(Empty, cfg, steps);
    var s := Run(Empty, cfg, steps);
    assert AtHome(s, cfg, op, j);
    InvParts(s, 0, k, l, op);
  }

  /**
   With an unprefixed version, a mirrored charge on an empty account opens a window that then admits
   every request whose amounts are valid and that the charge was not for.
   */
  lemma MixingExample(cfg: Settings, op: Operation, source: string, now: int, rq: Request, later: int)
    requires !(ShadowPrefix <= cfg.version) && op.budgetKind == "INFERENCE" && AmountsValid(rq.fingerprint)
    requires rq.task != Some(op.task) || rq.logicalId != op.reservationKey
    requires later < now + cfg.duration
    ensures var m := Mirror(Empty, cfg, op, source, InferenceDimensions, now);
            && m.Ok?
            && var (s, r) := Reserve(m.value, rq, later);
               r == Ok(Admission(rq.logicalId, rq.fingerprint, 1, false))
                 && Mixes(s, 1, rq.logicalId, InferenceCall, op, InferenceCall)
  {
    hide Mirror, AdmissionError, IsShadow, WithRows, RowMatches;
    FirstMirror(cfg, op, source, now);
    var u := Mirror(Empty, cfg, op, source, InferenceDimensions, now).value;
    assert !HasHistoricalCharge(u, rq);
    assert ActiveWindow(u, later) == Ok((u, 1));
    AdmitsEverything(cfg, u, rq);
    WithRowsAt(u.rows, rq.logicalId, rq.fingerprint, 1, QuotaKey(rq.logicalId, InferenceCall));
    WithRowsAt(u.rows, rq.logicalId, rq.fingerprint, 1, MirrorKey(op, InferenceCall));
  }

  /** A window of the unprefixed policy with nothing reserved refuses no valid request. */
  lemma AdmitsEverything(cfg: Settings, u: Store, rq: Request)
    requires !(ShadowPrefix <= cfg.version) && AmountsValid(rq.fingerprint)
    requires 1 in u.windows && Governing(u, 1) == Some(ShadowPolicy(cfg)) && u.windows[1].reserved == map[]
    requires forall key | key in u.rows :: u.rows[key].state.Settled?
    ensures AdmissionError(u, rq, 1) == None
  {
    NothingReserved(u.rows, 1, InputToken);
    NothingReserved(u.rows, 1, OutputToken);
    hide ReservedSum;
  }

  /** What one mirrored inference leaves of an empty store. */
  lemma FirstMirror(cfg: Settings, op: Operation, source: string, now: int)
    requires op.budgetKind == "INFERENCE"
    ensures var p := ShadowPolicy(cfg);
            Mirror(Empty, cfg, op, source, InferenceDimensions, now)
            == Ok(Store(map[p.id := p], Some(Account(Some(p.id), Some(1), 2)),
                        map[1 := Window(p.id, now + cfg.duration, map[InferenceCall := 1], map[])],
                        map[MirrorKey(op, InferenceCall) := Row(1, 1, None, None, Settled(1))],
                        map[ReceiptKey(op, Charged(InferenceCall)) := Receipt(source, Some(1), 1, None)], map[]))
  {
    var d, p := InferenceDimensions[0], ShadowPolicy(cfg);
    var t := Store(map[p.id := p], Some(Account(Some(p.id), Some(1), 2)),
                   map[1 := Window(p.id, now + cfg.duration, map[], map[])], map[], map[], map[]);
    assert CreatePolicy(Empty, p) == Ok(Empty.(policies := map[p.id := p]));
    assert ShadowWindow(Empty, cfg, now) == Ok((t, 1));
    assert !Recorded(Empty, op, d) && d in InferenceDimensions;
    var u := Charge(t, 1, op, source, d);
    assert MirrorOne(t, 1, op, source, d) == Ok(u);
    assert InferenceDimensions[1..] == [];
    assert MirrorAll(t, 1, op, source, InferenceDimensions) == Ok(u);
    assert u.windows == map[1 := Window(p.id, now + cfg.duration, map[InferenceCall := 1], map[])];
  }

  /** Some run of this configuration puts both kinds of charge into one window. */
  ghost predicate CanMix(cfg: Settings) {
    exists steps: seq<Step>, e, l, k, op, j :: Mixes(Run(Empty, cfg, steps), e, l, k, op, j)
  }

  /** A window can come to hold both kinds of charge if and only if the configured version has no shadow prefix. */
  lemma MixingExact(cfg: Settings)
    ensures CanMix(cfg) <==> !(ShadowPrefix <= cfg.version)
  {
    hide Run, Reserve, Mirror;
    if CanMix(cfg) {
      var steps: seq<Step>, e, l, k, op, j :| Mixes(Run(Empty, cfg, steps), e, l, k, op, j);
      MirroredHomes(cfg, steps, op, j, l, k);
    }
    if !(ShadowPrefix <= cfg.version) {
      var op, rq := Operation("t", "INFERENCE", "r"), Request("q", Fingerprint("d", 1, 1), None);
      MixingExample(cfg, op, "f", 0, rq, cfg.duration - 1);
      var steps := [MirrorStep(op, "f", InferenceCharge, 0), ReserveStep(rq, cfg.duration - 1)];
      TwoSteps(Empty, cfg, steps);
      assert Mixes(Run(Empty, cfg, steps), 1, "q", InferenceCall, op, InferenceCall);
    }
  }

  lemma TwoSteps(s: Store, cfg: Settings, steps: seq<Step>)
    requires |steps| == 2
    ensures Run(s, cfg, steps) == After(After(s, cfg, steps[0]), cfg, steps[1])
  {
    hide After;
    assert steps[1..] == [steps[1]] && steps[1..][1..] == [];
    var t := After(s, cfg, steps[0]);
    assert Run(t, cfg, steps[1..]) == Run(After(t, cfg, steps[1]), cfg, []);
  }
}

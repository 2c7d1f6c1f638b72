/** Runs that do reach the two losses: a breach without its kill switch, and a transition cut in half. */
module OmsWitness {
  import opened Sequences
  import opened OmsTypes
  import opened OmsDecision
  import opened OmsLedger
  import opened OmsHistory
  import opened OmsMachine
  import opened OmsBoot
  import opened OmsCrash
  import opened OmsStore

  // ---- Reachable states ----

  ghost predicate Reachable(s: Sys) { exists steps :: Exec(EMPTY, steps) == s }

  lemma ReachStep(s: Sys, step: Step)
    requires Reachable(s)
    ensures Reachable(Perform(s, step))
  {
    var steps :| Exec(EMPTY, steps) == s;
    assert (steps + [step])[..|steps|] == steps;
    assert Exec(EMPTY, steps + [step]) == Perform(s, step);
  }

  lemma {:induction false} ReachWrites(s: Sys, t: Token, n: nat)
    requires Reachable(s)
    ensures Reachable(Writes(s, t, n))
  {
    if n > 0 {
      hide Perform, Reachable;
      ReachWrites(s, t, n - 1);
      ReachStep(Writes(s, t, n - 1), Write(t));
    }
  }

  lemma BootedIsReachable(plan: Plan, limit: real)
    requires limit > 0.0
    ensures Reachable(Booted(FrozenOf(plan, limit)))
  {
    hide Perform, Writes;
    assert Exec(EMPTY, []) == EMPTY;
    hide Exec;
    var start := Start(0, Init(Some(plan), limit));
    assert Reachable(EMPTY);
    hide Reachable;
    InitializationBoots(0, plan, limit);
    ReachStep(EMPTY, start);
    ReachWrites(Perform(EMPTY, start), 0, 2);
    ReachStep(Writes(Perform(EMPTY, start), 0, 2), Finish(0));
  }

  /** Idle, unlocked files whose state file is up to date. */
  ghost predicate Settled(frozen: Frozen, s: Sys) {
    && SysInv(frozen, s) && !IsTorn(s) && s.procs == map[] && s.disk.lock.None?
    && s.disk.state == Some(StateOf(frozen, History(s)))
  }

  lemma BootedSettled(frozen: Frozen)
    ensures Settled(frozen, Booted(frozen)) && Latest(History(Booted(frozen))) == BLANK
  {
    BootedInv(frozen);
    var line := FirstLine(frozen);
    EventsOfAppend([], line);
    assert [] + [line] == [line];
  }

  /** An observation offered to settled files is admitted, with nothing to recover. */
  lemma Submitted(frozen: Frozen, s: Sys, plan: Plan, raw: RawObservation, guard: Guard)
    requires Settled(frozen, s) && frozen.planHash == plan.planHash && frozen.reportHash == plan.reportHash
    ensures var first := Perform(s, Start(0, Observe(Some(plan), raw, guard)));
            && SysInv(frozen, first) && 0 in first.procs && !first.procs[0].dirty && History(first) == History(s)
            && first.procs[0].todo == Decide(plan, frozen, Latest(History(s)), raw, guard).todo
  {
    hide Decide;
    LoadGivesLastState(frozen, s);
    StartKeepsInv(frozen, s, 0, Observe(Some(plan), raw, guard));
    StartAdmits(frozen, s, 0, plan, raw, guard);
  }

  /** Two writes put one event in the ledger and in the state file. */
  lemma EventWritten(frozen: Frozen, s: Sys)
    requires SysInv(frozen, s) && 0 in s.procs && !s.procs[0].dirty && s.procs[0].todo != []
    ensures var w, p := Perform(Perform(s, Write(0)), Write(0)), s.procs[0];
            && SysInv(frozen, w) && 0 in w.procs && !w.procs[0].dirty && w.procs[0].todo == p.todo[1..]
            && Latest(History(w)) == p.todo[0].after && |History(w)| == |History(s)| + 1
  {
    hide SysInv, Perform;
    TwoWrites(s, 0);
    WriteEffect(frozen, s, 0);
    FirstWriteIsDirty(s);
    WriteEffect(frozen, Perform(s, Write(0)), 0);
  }

  lemma FourWrites(s: Sys)
    ensures Writes(s, 0, 4) == Perform(Perform(Perform(Perform(s, Write(0)), Write(0)), Write(0)), Write(0))
  {
    hide Perform;
    assert Writes(s, 0, 0) == s && Writes(s, 0, 1) == Perform(s, Write(0));
    assert Writes(s, 0, 2) == Perform(Writes(s, 0, 1), Write(0)) && Writes(s, 0, 3) == Perform(Writes(s, 0, 2), Write(0));
  }

  /** After four writes two events are in both files. */
  lemma TwoEventsIn(frozen: Frozen, s: Sys)
    requires SysInv(frozen, s) && 0 in s.procs && !s.procs[0].dirty && |s.procs[0].todo| >= 2
    ensures var w, todo := Writes(s, 0, 4), s.procs[0].todo;
            && SysInv(frozen, w) && 0 in w.procs && !w.procs[0].dirty && w.procs[0].todo == todo[2..]
            && Latest(History(w)) == todo[1].after
  {
    hide SysInv, Perform, History, Latest, Writes;
    FourWrites(s);
    EventWritten(frozen, s);
    EventWritten(frozen, Perform(Perform(s, Write(0)), Write(0)));
  }

  lemma FirstWriteIsDirty(s: Sys)
    requires 0 in s.procs && !s.procs[0].dirty && s.procs[0].todo != []
    ensures 0 in Perform(s, Write(0)).procs && Perform(s, Write(0)).procs[0].dirty
  {
  }

  /** Once everything is written the process finishes and leaves settled files. */
  lemma FinishSettles(frozen: Frozen, s: Sys)
    requires SysInv(frozen, s) && 0 in s.procs && !s.procs[0].dirty && s.procs[0].todo == []
    ensures Settled(frozen, Perform(s, Finish(0))) && History(Perform(s, Finish(0))) == History(s)
  {
    hide Decide;
    assert ProcOk(frozen, s, 0);
    OnlyProc(frozen, s, 0);
    StepKeepsInv(frozen, s, Finish(0));
  }

  // ---- Two observations, for any plan ----

  /** All that the runs need of a plan, a base and a limit: the base is tradable and money is at stake. */
  predicate Playable(plan: Plan, base: string, limit: real) {
    base in plan.candidates && plan.notional > 0.0 && limit > 0.0
  }

  function RowOf(base: string, ts: int, gateMark: real, gateTrade: real): RawObservation {
    RawObservation(false, Some(ts), Some(base), Some(1.0), Some(gateTrade), Some(1.0), Some(1.0), Some(gateMark), Some(1.0),
                   Some(true), None, None, None)
  }

  /** Marks as far apart as the plan's entry threshold asks. */
  function Opening(plan: Plan, base: string): RawObservation {
    RowOf(base, 1, 1.0 + Max(plan.entryBps, 0.0) / 10_000.0, 1.0)
  }

  function Cost(plan: Plan): real { plan.notional * plan.cycleCostBps / 10_000.0 }

  /** No spread left after the longest holding time, with the short leg's price so far up that the loss,
      costs included, reaches the limit. */
  function Breaching(plan: Plan, base: string, limit: real): RawObservation
    requires plan.notional > 0.0
  {
    RowOf(base, 2 + (if plan.maxHoldHours > 0 then plan.maxHoldHours * 3600 else 0), 1.0,
          1.0 + Max(limit - Cost(plan), 0.0) / plan.notional)
  }

  /** The plain contract has no guard; a guarded one may approve the observed prices. */
  function GuardFor(raw: RawObservation, guarded: bool): Guard {
    if guarded then Approved(raw.mexcTrade, raw.gateTrade) else NoGuard
  }

  lemma RowFacts(base: string, ts: int, gateMark: Price, gateTrade: Price)
    ensures Normalize(RowOf(base, ts, gateMark, gateTrade))
         == Some(Observation(ts, base, 1.0, gateTrade, 1.0, 1.0, gateMark, 1.0, true, None, None, None))
    ensures var row := Normalize(RowOf(base, ts, gateMark, gateTrade)).value;
            && MexcBps(row) == 0.0 && GateBps(row) == (gateMark - 1.0) * 10_000.0
            && (gateMark >= 1.0 ==> Spread(row) == (gateMark - 1.0) * 10_000.0 && LowerVenue(row) == Mexc)
  {
  }

  /** The position that the first observation opens. */
  ghost predicate Entered(base: string, after: Projection) {
    && after.status == Status.Open && after.lastTs == Some(1) && after.dailyNet == 0.0 && after.dailyDate == None
    && base in after.positions
    && var pos := after.positions[base];
       && pos.longVenue == Mexc && pos.shortVenue == Gateio && pos.longEntry == 1.0 && pos.shortEntry == 1.0
       && pos.entryTs == 1 && pos.funding == 0.0 && pos.settlementIds == []
  }

  /** The first observation opens. */
  lemma FirstOpens(plan: Plan, base: string, limit: real, guarded: bool)
    requires Playable(plan, base, limit)
    ensures var raw := Opening(plan, base);
            var todo := Decide(plan, FrozenOf(plan, limit), BLANK, raw, GuardFor(raw, guarded)).todo;
            && |todo| == 2 && todo[0].details.Observed? && todo[1].details.PositionOpened?
            && todo[0].after == BLANK.(lastTs := Some(1)) && Entered(base, todo[1].after)
  {
    RowFacts(base, 1, 1.0 + Max(plan.entryBps, 0.0) / 10_000.0, 1.0);
  }

  /** The second closes it at a loss of at least the limit. */
  lemma SecondBreaches(plan: Plan, base: string, limit: real, guarded: bool, now: Projection)
    requires Playable(plan, base, limit) && Entered(base, now)
    ensures var raw := Breaching(plan, base, limit);
            var todo := Decide(plan, FrozenOf(plan, limit), now, raw, GuardFor(raw, guarded)).todo;
            && |todo| == 3 && todo[1].details.PositionClosed? && todo[2].details == KillSwitch(DailyLossLimit, None)
  {
    var raw, frozen, pos := Breaching(plan, base, limit), FrozenOf(plan, limit), now.positions[base];
    var loss := Max(limit - Cost(plan), 0.0);
    assert loss / plan.notional >= 0.0;
    var price := 1.0 + loss / plan.notional;
    RowFacts(base, raw.ts.value, 1.0, price);
    var row := Normalize(raw).value;
    assert PricePnl(pos, row, plan.notional) == -loss by {
      assert (1.0 - price) * (plan.notional / 1.0) == -(loss / plan.notional) * plan.notional;
    }
    var reason := ExitReasonOf(plan, pos, row);
    assert reason.Some?;
    ClosingBreaches(plan, frozen, now, pos, row, reason.value, GuardFor(raw, guarded));
  }

  lemma ClosingBreaches(plan: Plan, frozen: Frozen, now: Projection, pos: Position, row: Observation, reason: ExitReason, guard: Guard)
    requires now.dailyDate == None && frozen.cycleCostBps == plan.cycleCostBps && pos.funding == 0.0
    requires PricePnl(pos, row, plan.notional) == -Max(frozen.limit - Cost(plan), 0.0)
    ensures var seen := now.(lastTs := Some(row.ts), executed := now.executed + 1, lastBlock := None);
            var closed := CloseOut(plan, frozen, pos, row, reason, guard);
            BookClose(seen, closed, row.ts).dailyNet <= -frozen.limit
  {
    hide PricePnl;
  }

  /** For every plan, base and limit a run reaches the one dangerous death, and that death leaves a breach
      behind. */
  lemma BreachIsReachable(plan: Plan, base: string, limit: real, guarded: bool) returns (s: Sys)
    requires Playable(plan, base, limit)
    ensures Reachable(s) && DiesBeforeKill(s, Die(0, false))
    ensures Reachable(Perform(s, Die(0, false))) && !LossSafeNow(Perform(s, Die(0, false)))
  {
    hide SysInv, Perform, Writes, Decide, Reachable, LossSafeNow, Enter, Breaching, Entered;
    var frozen, raw := FrozenOf(plan, limit), Breaching(plan, base, limit);
    var guard := GuardFor(raw, guarded);
    hide GuardFor;
    var idle := AfterEntry(plan, base, limit, guarded);
    Submitted(frozen, idle, plan, raw, guard);
    SecondBreaches(plan, base, limit, guarded, Latest(History(idle)));
    var op := Start(0, Observe(Some(plan), raw, guard));
    var second := Perform(idle, op);
    TwoEventsIn(frozen, second);
    s := Writes(second, 0, 4);
    ReachStep(idle, op);
    ReachWrites(second, 0, 4);
    ReachStep(s, Die(0, false));
    EveryReachableIsProtected(frozen, s);
    BreachedState(frozen, s);
  }

  /** The files after initialisation and the first observation. */
  lemma AfterEntry(plan: Plan, base: string, limit: real, guarded: bool) returns (idle: Sys)
    requires Playable(plan, base, limit)
    ensures Reachable(idle) && Settled(FrozenOf(plan, limit), idle) && Entered(base, Latest(History(idle)))
  {
    hide SysInv, Perform, Writes, Decide, Reachable, Enter, Opening, Entered;
    var frozen, raw := FrozenOf(plan, limit), Opening(plan, base);
    var guard := GuardFor(raw, guarded);
    hide GuardFor;
    BootedIsReachable(plan, limit);
    BootedSettled(frozen);
    Submitted(frozen, Booted(frozen), plan, raw, guard);
    FirstOpens(plan, base, limit, guarded);
    var op := Start(0, Observe(Some(plan), raw, guard));
    var first := Perform(Booted(frozen), op);
    TwoEventsIn(frozen, first);
    var written := Writes(first, 0, 4);
    FinishSettles(frozen, written);
    idle := Perform(written, Finish(0));
    ReachStep(Booted(frozen), op);
    ReachWrites(first, 0, 4);
    ReachStep(written, Finish(0));
  }

  lemma EveryReachableIsProtected(frozen: Frozen, s: Sys)
    requires Reachable(s) && SysInv(frozen, s)
    ensures KillInv(frozen, s)
  {
    hide SysInv, KillInv, Exec;
    var steps :| Exec(EMPTY, steps) == s;
    LossSafeRuns(steps);
  }

  lemma BreachedState(frozen: Frozen, s: Sys)
    requires SysInv(frozen, s) && KillInv(frozen, s) && DiesBeforeKill(s, Die(0, false))
    ensures !LossSafeNow(Perform(s, Die(0, false)))
  {
    hide Decide;
    assert ProcOk(frozen, s, 0);
    DieKeepsInv(frozen, s, 0, false);
    OnlyProc(frozen, s, 0);
    FrozenIsStored(frozen, Perform(s, Die(0, false)));
  }

  /** For every plan, base and limit a run loses a decided entry: the process dies with its observation
      recorded and the opening still to come, the same observation is refused afterwards, and no position
      exists. */
  lemma EntryIsLost(plan: Plan, base: string, limit: real, guarded: bool, n: nat) returns (first: Sys, dead: Sys)
    requires Playable(plan, base, limit) && (n == 1 || n == 2)
    ensures Reachable(first) && 0 in first.procs
    ensures |first.procs[0].todo| == 2 && first.procs[0].todo[1].details.PositionOpened?
    ensures dead == Perform(Perform(Writes(first, 0, n), Die(0, false)), ClearLock) && Reachable(dead)
    ensures |History(dead)| == |History(first)| + 1 && Latest(History(dead)).positions == map[]
    ensures var raw := Opening(plan, base);
            var retry := Admit(dead.disk, Observe(Some(plan), raw, GuardFor(raw, guarded)));
            retry.Ok? && retry.value.proc.todo == [] && retry.value.verdict.Refused?
  {
    hide SysInv, Perform, Writes, Decide, Reachable, Enter, Admit, Opening, GuardFor;
    var frozen, raw := FrozenOf(plan, limit), Opening(plan, base);
    var guard, booted := GuardFor(raw, guarded), Booted(frozen);
    BootedIsReachable(plan, limit);
    BootedSettled(frozen);
    Submitted(frozen, booted, plan, raw, guard);
    FirstOpens(plan, base, limit, guarded);
    var op := Start(0, Observe(Some(plan), raw, guard));
    first := Perform(booted, op);
    ReachStep(booted, op);
    OneEventIn(frozen, first, n);
    var cut := Writes(first, 0, n);
    ReachWrites(first, 0, n);
    ReachStep(cut, Die(0, false));
    dead := Perform(Perform(cut, Die(0, false)), ClearLock);
    ReachStep(Perform(cut, Die(0, false)), ClearLock);
    AfterDeath(frozen, cut, 0);
    ObservationIsAtMostOnce(frozen, booted, 0, plan, raw, guard, n);
  }

  lemma OneEventIn(frozen: Frozen, s: Sys, n: nat)
    requires SysInv(frozen, s) && 0 in s.procs && !s.procs[0].dirty && |s.procs[0].todo| >= 1 && (n == 1 || n == 2)
    ensures var w := Writes(s, 0, n);
            && SysInv(frozen, w) && 0 in w.procs && |History(w)| == |History(s)| + 1
            && Latest(History(w)) == s.procs[0].todo[0].after
  {
    hide SysInv, Perform;
    WriteEffect(frozen, s, 0);
    assert Writes(s, 0, 0) == s;
    assert Writes(s, 0, 1) == Perform(s, Write(0));
    if n == 2 {
      FirstWriteIsDirty(s);
      WriteEffect(frozen, Perform(s, Write(0)), 0);
    }
  }
}

/** Crash recovery, single-writer exclusion and the kill switch, over all runs. */
module OmsCrash {
  import opened Sequences
  import opened OmsTypes
  import opened OmsDecision
  import opened OmsLedger
  import opened OmsHistory
  import opened OmsMachine
  import opened OmsBoot

  /** At most one process is ever inside an operation, and it is the one named by the lock. */
  lemma SingleWriter(steps: seq<Step>, t: Token, u: Token)
    requires t in Exec(EMPTY, steps).procs && u in Exec(EMPTY, steps).procs
    ensures t == u && Exec(EMPTY, steps).disk.lock == Some(t)
  {
    EveryRunIsConsistent(steps);
    var s := Exec(EMPTY, steps);
    if Alive(s) {
      var frozen :| SysInv(frozen, s);
      assert ProcOk(frozen, s, t) && ProcOk(frozen, s, u);
    } else {
      var frozen, v :| Birthing(frozen, v, s);
    }
  }

  lemma DeathLeavesMemory(frozen: Frozen, s: Sys, t: Token)
    requires SysInv(frozen, s) && t in s.procs
    ensures var dead := Perform(s, Die(t, false));
            && Load(dead.disk) == Ok(Proc(s.procs[t].mem, [], s.procs[t].dirty))
            && Load(WriteOnce(dead.disk, Proc(s.procs[t].mem, [], true)).0) == Ok(Proc(s.procs[t].mem, [], false))
  {
    hide Decide, Coherent;
    assert ProcOk(frozen, s, t);
    var dead := Perform(s, Die(t, false));
    DieKeepsInv(frozen, s, t, false);
    LoadGivesLastState(frozen, dead);
    var whole := dead.(disk := dead.disk.(state := Some(s.procs[t].mem)));
    assert SysInv(frozen, whole);
    LoadGivesLastState(frozen, whole);
  }

  /** A process killed between any two writes loses nothing it appended: once the state file exists, the
      next load of the two files returns exactly its in-memory state, that is, the state its interrupted
      write of the state file would have left. Recovery is needed exactly when that write was pending.
      Before the state file exists no load succeeds. */
  lemma {:induction false} RecoveryRestoresMemory(steps: seq<Step>, t: Token)
    requires t in Exec(EMPTY, steps).procs
    ensures var s := Exec(EMPTY, steps);
            var dead := Perform(s, Die(t, false));
            if s.disk.state.None? then Load(dead.disk) == Err(StateMissing)
            else
              && Load(dead.disk) == Ok(Proc(s.procs[t].mem, [], s.procs[t].dirty))
              && Load(WriteOnce(dead.disk, Proc(s.procs[t].mem, [], true)).0) == Ok(Proc(s.procs[t].mem, [], false))
  {
    hide SysInv, ReadLedger, LoadFrom;
    EveryRunIsConsistent(steps);
    var s := Exec(EMPTY, steps);
    if s.disk.state.Some? {
      var frozen :| SysInv(frozen, s);
      DeathLeavesMemory(frozen, s, t);
    }
  }

  /** What reconciliation compares: the projected fields, the sequence and the last hash. */
  predicate Reconciled(state: State, es: seq<Event>) requires es != [] {
    var last := es[|es| - 1];
    state.now == last.body.after && state.sequence == last.body.sequence && state.lastHash == last.hash
  }

  lemma ReconciledIff(frozen: Frozen, s: Sys)
    requires SysInv(frozen, s) && !IsTorn(s)
    ensures && ReadLedger(s.disk.ledger) == Ok(History(s)) && History(s) != [] && s.disk.state.Some?
            && Load(s.disk).Ok?
            && (Reconciled(s.disk.state.value, History(s)) <==> !Load(s.disk).value.dirty)
            && (Reconciled(s.disk.state.value, History(s)) <==>
                  s.disk.state.value == StateOf(s.disk.state.value.frozen, History(s)))
  {
    hide Decide, Coherent, LegalDetails, ReplayStep;
    FrozenIsStored(frozen, s);
    LoadGivesLastState(frozen, s);
    GrownIsAccepted(frozen, History(s));
    TornMembership(s);
    NoTornEvents(s.disk.ledger.value);
  }

  /** In every run, once the state file exists, reconciliation of an untorn ledger reports a match exactly
      when loading the files needs no recovery; and then every field agrees, not only the compared ones. */
  lemma ReconciliationIsExact(steps: seq<Step>)
    requires var s := Exec(EMPTY, steps); s.disk.state.Some? && !IsTorn(s)
    ensures var s := Exec(EMPTY, steps);
            && ReadLedger(s.disk.ledger) == Ok(History(s)) && History(s) != []
            && Load(s.disk).Ok?
            && (Reconciled(s.disk.state.value, History(s)) <==> !Load(s.disk).value.dirty)
            && (Reconciled(s.disk.state.value, History(s)) <==>
                  s.disk.state.value == StateOf(s.disk.state.value.frozen, History(s)))
  {
    EveryRunIsConsistent(steps);
    var frozen :| SysInv(frozen, Exec(EMPTY, steps));
    ReconciledIff(frozen, Exec(EMPTY, steps));
  }

  // ---- A torn last line ----

  /** After a torn append every read fails, so no run ever touches either file again; the events
      appended before the tear are all still there and the state file agrees with them. */
  lemma {:induction false} TornLedgerFailsClosed(frozen: Frozen, s: Sys, steps: seq<Step>)
    requires SysInv(frozen, s) && IsTorn(s)
    ensures var s' := Exec(s, steps);
            s'.disk.ledger == s.disk.ledger && s'.disk.state == Some(StateOf(frozen, History(s))) && s'.procs == map[]
  {
    if steps != [] {
      TornLedgerFailsClosed(frozen, s, steps[..|steps| - 1]);
      TornMembership(s);
    }
  }

  // ---- Resubmitting an observation ----

  lemma WriteEffect(frozen: Frozen, s: Sys, t: Token)
    requires SysInv(frozen, s) && t in s.procs
    ensures var s', p := Perform(s, Write(t)), s.procs[t];
            && SysInv(frozen, s') && t in s'.procs
            && (if p.dirty || p.todo == [] then s'.procs[t].todo == p.todo && History(s') == History(s)
                else && s'.procs[t].todo == p.todo[1..]
                     && |History(s')| == |History(s)| + 1
                     && Latest(History(s')) == p.todo[0].after)
  {
    hide Decide;
    WriteKeepsInv(frozen, s, t);
    assert ProcOk(frozen, s, t);
    var p := s.procs[t];
    if !p.dirty && p.todo != [] {
      EventsOfAppend(s.disk.ledger.value, Record(MakeEvent(p.mem, p.todo[0])));
    }
  }

  /** How far a writer has got after some durable writes: `m` of its events are in the ledger. */
  ghost predicate Reached(frozen: Frozen, s: Sys, s': Sys, t: Token, m: nat)
    requires t in s.procs
  {
    && SysInv(frozen, s') && t in s'.procs
    && m <= |s.procs[t].todo| && s'.procs[t].todo == s.procs[t].todo[m..]
    && |History(s')| == |History(s)| + m
    && (m == 0 ==> History(s') == History(s))
    && (m > 0 ==> Latest(History(s')) == s.procs[t].todo[m - 1].after)
  }

  lemma {:induction false} WritesFollowTodo(frozen: Frozen, s: Sys, t: Token, n: nat) returns (m: nat)
    requires SysInv(frozen, s) && t in s.procs
    ensures Reached(frozen, s, Writes(s, t, n), t, m)
  {
    hide Decide;
    hide ReplayStep;
    hide LegalDetails;
    if n == 0 {
      m := 0;
    } else {
      m := WritesFollowTodo(frozen, s, t, n - 1);
      var s0 := Writes(s, t, n - 1);
      WriteEffect(frozen, s0, t);
      if !s0.procs[t].dirty && s0.procs[t].todo != [] {
        m := m + 1;
      }
    }
  }

  /** The files after a death and the operator's reset: same ledger, no lock, nobody inside. */
  lemma AfterDeath(frozen: Frozen, s: Sys, t: Token)
    requires SysInv(frozen, s) && t in s.procs
    ensures var dead := Perform(Perform(s, Die(t, false)), ClearLock);
            SysInv(frozen, dead) && !IsTorn(dead) && History(dead) == History(s)
  {
    hide Decide;
    assert ProcOk(frozen, s, t);
    DieKeepsInv(frozen, s, t, false);
    StepKeepsInv(frozen, Perform(s, Die(t, false)), ClearLock);
  }

  /** Every event of one observation carries its timestamp into the state, or halts it. */
  lemma DecisionStampsState(plan: Plan, frozen: Frozen, now: Projection, raw: RawObservation, guard: Guard, k: nat)
    requires k < |Decide(plan, frozen, now, raw, guard).todo|
    ensures raw.ts.Some? && Decide(plan, frozen, now, raw, guard).todo[k].after.lastTs == raw.ts
    ensures Normalize(raw).Some? && raw.base.value in plan.candidates
  {
    hide PassGuard;
    hide Closing;
    var row := Normalize(raw).value;
    var seen := now.(lastTs := Some(row.ts));
    if row.qualityOk {
      if row.base !in seen.positions {
        EnterStamps(plan, frozen, seen, row, guard);
      } else {
        ManageStamps(plan, frozen, seen, seen.positions[row.base], row, guard);
      }
    }
  }

  ghost predicate Stamped(todo: seq<Pending>, ts: int) {
    forall k :: 0 <= k < |todo| ==> todo[k].after.lastTs == Some(ts)
  }

  lemma EnterStamps(plan: Plan, frozen: Frozen, now: Projection, row: Observation, guard: Guard)
    requires now.lastTs == Some(row.ts)
    ensures Stamped(Enter(plan, frozen, now, row, guard).todo, row.ts)
  {
  }

  lemma ExitStamps(plan: Plan, frozen: Frozen, now: Projection, pos: Position, row: Observation, guard: Guard)
    requires now.lastTs == Some(row.ts)
    ensures Stamped(Exit(plan, frozen, now, pos, row, guard).todo, row.ts)
  {
  }

  lemma ManageStamps(plan: Plan, frozen: Frozen, now: Projection, pos: Position, row: Observation, guard: Guard)
    requires now.lastTs == Some(row.ts) && SettlementFault(pos, row).None?
    ensures Stamped(Manage(plan, frozen, now, pos, row, guard).todo, row.ts)
  {
    if row.settlementId.None? {
      ExitStamps(plan, frozen, now, pos, row, guard);
    } else {
      var id, amount := Strip(row.settlementId.value), FundingPnl(pos, row, plan.notional);
      var paid := Settle(pos, id, amount);
      ExitStamps(plan, frozen, now.(positions := now.positions[row.base := paid]), paid, row, guard);
    }
  }

  lemma {:induction false} ResubmittedIsRefused(plan: Plan, frozen: Frozen, now: Projection, raw: RawObservation,
                             guard: Guard, k: nat, again: Guard)
    requires k < |Decide(plan, frozen, now, raw, guard).todo|
    ensures var after := Decide(plan, frozen, now, raw, guard).todo[k].after;
            var retry := Decide(plan, frozen, after, raw, again);
            retry.todo == [] && retry.verdict == Refused(if after.status.Halted? then KillSwitchActive else NotChronological)
  {
    DecisionStampsState(plan, frozen, now, raw, guard, k);
  }

  /** What is reloaded after a process died with `m` of its events in the ledger. */
  lemma {:induction false} DeadMemory(frozen: Frozen, first: Sys, t: Token, n: nat) returns (reloaded: Proc, m: nat)
    requires SysInv(frozen, first) && t in first.procs
    ensures var dead, todo := Perform(Perform(Writes(first, t, n), Die(t, false)), ClearLock), first.procs[t].todo;
            && Load(dead.disk) == Ok(reloaded) && reloaded.todo == [] && reloaded.mem.frozen == frozen
            && m <= |todo|
            && (m == 0 ==> History(dead) == History(first) && reloaded.mem == StateOf(frozen, History(first)))
            && (m > 0 ==> History(dead) != History(first) && reloaded.mem.now == todo[m - 1].after)
  {
    hide Decide;
    m := WritesFollowTodo(frozen, first, t, n);
    var cut := Writes(first, t, n);
    AfterDeath(frozen, cut, t);
    var dead := Perform(Perform(cut, Die(t, false)), ClearLock);
    LoadGivesLastState(frozen, dead);
    reloaded := Load(dead.disk).value;
  }

  lemma RetryOutcome(plan: Plan, before: State, reloaded: Proc, raw: RawObservation, guard: Guard, m: nat)
    requires var todo := AdmitObservation(Proc(before, [], false), plan, raw, guard).proc.todo;
             && m <= |todo| && reloaded.todo == []
             && reloaded.mem.frozen == before.frozen
             && (m == 0 ==> reloaded.mem == before)
             && (m > 0 ==> reloaded.mem.now == todo[m - 1].after)
    ensures var retry := AdmitObservation(reloaded, plan, raw, guard);
            && (m == 0 ==> retry.proc.todo == AdmitObservation(Proc(before, [], false), plan, raw, guard).proc.todo)
            && (m > 0 ==> retry.proc.todo == [] && retry.verdict.Refused?)
  {
    hide Decide;
    if m > 0 {
      ResubmittedIsRefused(plan, before.frozen, before.now, raw, guard, m - 1, guard);
    }
  }

  /** What an admitted observation is going to append. */
  lemma StartAdmits(frozen: Frozen, s: Sys, t: Token, plan: Plan, raw: RawObservation, guard: Guard)
    requires SysInv(frozen, s) && s.disk.lock.None?
    requires t in Perform(s, Start(t, Observe(Some(plan), raw, guard))).procs
    ensures var first := Perform(s, Start(t, Observe(Some(plan), raw, guard)));
            && History(first) == History(s)
            && first.procs[t].todo ==
               AdmitObservation(Proc(StateOf(frozen, History(s)), [], false), plan, raw, guard).proc.todo
  {
    hide Decide;
    LockFreeMeansIdle(frozen, s);
    TornMembership(s);
    LoadGivesLastState(frozen, s);
  }

  /** An observation takes effect at most once. If the process dies before its first append, the
      resubmitted observation is decided exactly as the first time; once anything was appended the
      resubmission is refused and appends nothing, so whatever part was still to come is lost. */
  lemma {:induction false} ObservationIsAtMostOnce(frozen: Frozen, s: Sys, t: Token, plan: Plan, raw: RawObservation, guard: Guard, n: nat)
    requires SysInv(frozen, s) && s.disk.lock.None?
    requires t in Perform(s, Start(t, Observe(Some(plan), raw, guard))).procs
    ensures var first := Perform(s, Start(t, Observe(Some(plan), raw, guard)));
            var dead := Perform(Perform(Writes(first, t, n), Die(t, false)), ClearLock);
            var retry := Admit(dead.disk, Observe(Some(plan), raw, guard));
            && retry.Ok?
            && (History(dead) == History(s) ==> retry.value.proc.todo == first.procs[t].todo)
            && (History(dead) != History(s) ==> retry.value.proc.todo == [] && retry.value.verdict.Refused?)
  {
    hide Decide;
    var op := Observe(Some(plan), raw, guard);
    var first := Perform(s, Start(t, op));
    StartAdmits(frozen, s, t, plan, raw, guard);
    StartKeepsInv(frozen, s, t, op);
    var reloaded, m := DeadMemory(frozen, first, t, n);
    RetryOutcome(plan, StateOf(frozen, History(s)), reloaded, raw, guard, m);
  }

  // ---- The kill switch ----

  /** Once halted, the ledger never grows again: the positions and results are final in every run. */
  lemma {:induction false} HaltIsFinal(frozen: Frozen, s: Sys, steps: seq<Step>)
    requires SysInv(frozen, s) && Latest(History(s)).status.Halted?
    ensures SysInv(frozen, Exec(s, steps)) && History(Exec(s, steps)) == History(s)
  {
    hide Decide;
    if steps != [] {
      HaltIsFinal(frozen, s, steps[..|steps| - 1]);
      var s', step := Exec(s, steps[..|steps| - 1]), steps[|steps| - 1];
      StepKeepsInv(frozen, s', step);
      if step.Write? && step.token in s'.procs {
        assert ProcOk(frozen, s', step.token);
      } else if step.Die? {
        DieKeepsInv(frozen, s', step.token, step.torn);
      }
    }
  }

  /** Trading although the day's realised loss has reached the limit. */
  ghost predicate Breached(frozen: Frozen, p: Projection) { !p.status.Halted? && p.dailyNet <= -frozen.limit }

  ghost predicate NextIsLossKill(todo: seq<Pending>) {
    todo != [] && todo[0].details == KillSwitch(DailyLossLimit, None)
  }

  /** No operation leaves a breach behind: the close that breaches is followed by the kill switch. */
  ghost predicate Protected(frozen: Frozen, todo: seq<Pending>)
    decreases |todo|
  {
    todo == [] ||
    (&& (todo[0].details.PositionClosed? && Breached(frozen, todo[0].after) ==> NextIsLossKill(todo[1..]))
     && Protected(frozen, todo[1..]))
  }

  lemma DecideIsProtected(plan: Plan, frozen: Frozen, now: Projection, raw: RawObservation, guard: Guard)
    ensures Protected(frozen, Decide(plan, frozen, now, raw, guard).todo)
  {
    var normal := Normalize(raw);
    if !now.status.Halted? && normal.Some? {
      var row := normal.value;
      var seen := now.(lastTs := Some(row.ts));
      if row.base in seen.positions && SettlementFault(seen.positions[row.base], row).None? {
        ManageIsProtected(plan, frozen, seen, seen.positions[row.base], row, guard);
      }
    }
  }

  lemma ManageIsProtected(plan: Plan, frozen: Frozen, now: Projection, pos: Position, row: Observation, guard: Guard)
    requires SettlementFault(pos, row).None?
    ensures Protected(frozen, Manage(plan, frozen, now, pos, row, guard).todo)
  {
    if row.settlementId.None? {
      ExitIsProtected(plan, frozen, now, pos, row, guard);
    } else {
      var id, amount := Strip(row.settlementId.value), FundingPnl(pos, row, plan.notional);
      var paid := Settle(pos, id, amount);
      var settled := now.(positions := now.positions[row.base := paid]);
      var exit := Exit(plan, frozen, settled, paid, row, guard);
      ExitIsProtected(plan, frozen, settled, paid, row, guard);
      assert Manage(plan, frozen, now, pos, row, guard).todo[1..] == exit.todo;
    }
  }

  lemma ExitIsProtected(plan: Plan, frozen: Frozen, now: Projection, pos: Position, row: Observation, guard: Guard)
    ensures Protected(frozen, Exit(plan, frozen, now, pos, row, guard).todo)
  {
  }

  ghost predicate KillInv(frozen: Frozen, s: Sys) {
    forall t :: t in s.procs ==> Protected(frozen, s.procs[t].todo)
  }

  /** At every operation boundary the day's loss is inside the limit or trading has stopped; inside
      an operation a breach is only visible while its kill switch is the next append. */
  ghost predicate LossSafe(frozen: Frozen, s: Sys) {
    Breached(frozen, Latest(History(s))) ==> exists t :: t in s.procs && NextIsLossKill(s.procs[t].todo)
  }

  /** The one dangerous step: a process dies with the loss kill switch as its next append. */
  ghost predicate DiesBeforeKill(s: Sys, step: Step) {
    step.Die? && step.token in s.procs && NextIsLossKill(s.procs[step.token].todo)
  }

  /** Whatever an operation is admitted to write is protected: only a loaded state can trade. */
  lemma AdmittedIsProtected(frozen: Frozen, s: Sys, op: Operation)
    requires SysInv(frozen, s) && Admit(s.disk, op).Ok?
    ensures Protected(frozen, Admit(s.disk, op).value.proc.todo)
  {
    hide Decide, Coherent, Grown;
    if op.Observe? {
      var mem := Load(s.disk).value.mem;
      DecideIsProtected(op.chain.value, mem.frozen, mem.now, op.raw, op.guard);
      TornMembership(s);
      LoadGivesLastState(frozen, s);
    }
  }

  lemma {:induction false} StepKeepsKillInv(frozen: Frozen, s: Sys, step: Step)
    requires SysInv(frozen, s) && KillInv(frozen, s)
    ensures KillInv(frozen, Perform(s, step))
  {
    hide SysInv, Admit;
    match step
    case Start(t, op) =>
      hide Protected;
      if Perform(s, step) != s { AdmittedIsProtected(frozen, s, op); }
    case Write(t) =>
    case _ =>
      hide Protected;
  }

  lemma WriteKeepsLossSafe(frozen: Frozen, s: Sys, t: Token)
    requires SysInv(frozen, s) && KillInv(frozen, s) && LossSafe(frozen, s) && t in s.procs
    ensures LossSafe(frozen, Perform(s, Write(t)))
  {
    hide Decide;
    OnlyProc(frozen, s, t);
    WriteEffect(frozen, s, t);
    assert ProcOk(frozen, s, t);
  }

  /** Exactly one step can break loss safety, and it always does. */
  lemma LossSafetyStep(frozen: Frozen, s: Sys, step: Step)
    requires SysInv(frozen, s) && KillInv(frozen, s) && LossSafe(frozen, s)
    ensures LossSafe(frozen, Perform(s, step)) <==> !DiesBeforeKill(s, step)
  {
    hide Decide;
    var s' := Perform(s, step);
    match step
    case Start(t, op) =>
      if s' != s { LockFreeMeansIdle(frozen, s); }
    case Write(t) =>
      if t in s.procs { WriteKeepsLossSafe(frozen, s, t); }
    case Finish(t) =>
      if s' != s { OnlyProc(frozen, s, t); }
    case Die(t, torn) =>
      if t in s.procs {
        OnlyProc(frozen, s, t);
        DieKeepsInv(frozen, s, t, torn);
        assert ProcOk(frozen, s, t);
      }
    case ClearLock =>
  }

  lemma OnlyProc(frozen: Frozen, s: Sys, t: Token)
    requires SysInv(frozen, s) && t in s.procs
    ensures s.procs.Keys == {t} && s.procs - {t} == map[]
  {
    hide Decide;
    assert ProcOk(frozen, s, t);
    forall u | u in s.procs ensures u == t { assert ProcOk(frozen, s, u); }
  }

  /** Loss safety against the limit in the state file; before there is one nothing can be lost. */
  ghost predicate LossSafeNow(s: Sys) { s.disk.state.Some? ==> LossSafe(s.disk.state.value.frozen, s) }

  ghost predicate AlwaysLossSafe(steps: seq<Step>) {
    LossSafeNow(Exec(EMPTY, steps)) && (steps != [] ==> AlwaysLossSafe(steps[..|steps| - 1]))
  }

  ghost predicate NeverDiesBeforeKill(steps: seq<Step>) {
    steps != [] ==>
      && !DiesBeforeKill(Exec(EMPTY, steps[..|steps| - 1]), steps[|steps| - 1])
      && NeverDiesBeforeKill(steps[..|steps| - 1])
  }

  /** Files that were just born hold no event but the initialisation, and their process is done. */
  lemma NewbornIsSafe(frozen: Frozen, s: Sys, t: Token)
    requires frozen.limit > 0.0 && s.procs == map[t := Proc(Newborn(frozen), [], false)]
    requires s.disk == Disk(Some([FirstLine(frozen)]), Some(Newborn(frozen)), Some(t))
    ensures LossSafeNow(s) && KillInv(frozen, s)
  {
    EventsOfAppend([], FirstLine(frozen));
    assert [] + [FirstLine(frozen)] == [FirstLine(frozen)];
  }

  lemma BirthIsSafe(frozen: Frozen, t: Token, s: Sys, step: Step)
    requires Birthing(frozen, t, s)
    ensures !DiesBeforeKill(s, step) && LossSafeNow(Perform(s, step))
    ensures Perform(s, step).disk.state.Some? ==> KillInv(frozen, Perform(s, step)) && SysInv(frozen, Perform(s, step))
  {
    hide SysInv, KillInv, LossSafe;
    var s' := Perform(s, step);
    if s'.disk.state.Some? {
      assert s'.procs == map[t := Proc(Newborn(frozen), [], false)];
      assert s'.disk == Disk(Some([FirstLine(frozen)]), Some(Newborn(frozen)), Some(t));
      BornInv(frozen, t, s');
      hide Perform;
      NewbornIsSafe(frozen, s', t);
    }
  }

  /** A step out of initialisation neither kills a process before its kill switch nor breaks safety. */
  lemma BirthIsLossSafe(s: Sys, step: Step)
    requires RunInv(s) && s.disk.state.None?
    ensures !DiesBeforeKill(s, step) && LossSafeNow(Perform(s, step))
    ensures forall frozen :: SysInv(frozen, Perform(s, step)) ==> KillInv(frozen, Perform(s, step))
  {
    hide SysInv, KillInv, Birthing, LossSafe, Perform, Admit;
    var s' := Perform(s, step);
    NoStateNotAlive(s);
    if !Unborn(s) && !Stillborn(s) {
      var frozen: Frozen, t: Token :| Birthing(frozen, t, s);
      BirthIsSafe(frozen, t, s, step);
      if s'.disk.state.Some? { FrozenIsStored(frozen, s'); }
    } else {
      NothingBorn(s, step);
    }
    forall f | SysInv(f, s') ensures KillInv(f, s') { FrozenIsStored(f, s'); }
  }

  lemma NothingBorn(s: Sys, step: Step)
    requires Unborn(s) || Stillborn(s)
    ensures Perform(s, step).disk.state.None? && !DiesBeforeKill(s, step)
  {
    hide Admit;
  }

  lemma AliveIsProtected(s: Sys, step: Step)
    requires Alive(s) && forall frozen :: SysInv(frozen, s) ==> KillInv(frozen, s)
    ensures forall frozen :: SysInv(frozen, Perform(s, step)) ==> KillInv(frozen, Perform(s, step))
    ensures LossSafeNow(s) ==> (LossSafeNow(Perform(s, step)) <==> !DiesBeforeKill(s, step))
  {
    hide SysInv, KillInv, Perform, DiesBeforeKill, LossSafe;
    var frozen :| SysInv(frozen, s) && frozen.limit > 0.0;
    var s' := Perform(s, step);
    StepKeepsInv(frozen, s, step);
    StepKeepsKillInv(frozen, s, step);
    FrozenIsStored(frozen, s);
    FrozenIsStored(frozen, s');
    forall f | SysInv(f, s') ensures KillInv(f, s') { FrozenIsStored(f, s'); }
    if LossSafeNow(s) { LossSafetyStep(frozen, s, step); }
  }

  /** Over whole runs from nothing: loss safety holds at every point if and only if no process ever dies
      between a breaching close and its kill switch. */
  lemma {:induction false} LossSafeRuns(steps: seq<Step>)
    ensures forall frozen :: SysInv(frozen, Exec(EMPTY, steps)) ==> KillInv(frozen, Exec(EMPTY, steps))
    ensures AlwaysLossSafe(steps) <==> NeverDiesBeforeKill(steps)
  {
    if steps == [] {
      assert Exec(EMPTY, steps) == EMPTY;
    } else {
      hide SysInv, KillInv, Perform, DiesBeforeKill, LossSafeNow;
      var front, step := steps[..|steps| - 1], steps[|steps| - 1];
      var before := Exec(EMPTY, front);
      LossSafeRuns(front);
      EveryRunIsConsistent(front);
      if Alive(before) {
        AliveIsProtected(before, step);
        if AlwaysLossSafe(front) { assert LossSafeNow(before); }
      } else {
        BirthIsLossSafe(before, step);
      }
    }
  }
}

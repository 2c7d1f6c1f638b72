/** When an operation is admitted, what it then starts from, and why it is refused. */
module OmsAdmission {
  import opened Sequences
  import opened OmsTypes
  import opened OmsDecision
  import opened OmsLedger
  import opened OmsHistory
  import opened OmsMachine

  /** What an initialisation starts from: the plan's own hashes and cost, the limit, a flat and empty state, and
      one event to append that says so. */
  ghost predicate StartsFlat(plan: Plan, limit: real, p: Proc) {
    && p.mem.frozen.planHash == plan.planHash && p.mem.frozen.reportHash == plan.reportHash
    && p.mem.frozen.limit == limit && p.mem.frozen.cycleCostBps == plan.cycleCostBps
    && p.mem.sequence == 0 && p.mem.lastHash == Genesis && !p.dirty
    && p.mem.now.status.Flat? && p.mem.now.positions == map[] && p.mem.now.killReason.None?
    && p.mem.now.realized == 0.0 && p.mem.now.dailyDate.None? && p.mem.now.dailyNet == 0.0
    && p.mem.now.lastTs.None? && p.mem.now.executed == 0 && p.mem.now.blocked == 0 && p.mem.now.lastBlock.None?
    && |p.todo| == 1 && p.todo[0] == Pending(Initialized(limit), 0, p.mem.now)
  }

  /** Exactly when an initialisation is admitted: a positive limit, neither file there, the chain ready. */
  lemma InitializesExactlyWhen(disk: Disk, chain: Option<Plan>, limit: real)
    ensures var r := Admit(disk, Init(chain, limit));
            var clear := disk.ledger.None? && disk.state.None?;
            && (r == Err(BadLimit) <==> limit <= 0.0)
            && (r == Err(ArtifactsExist) <==> limit > 0.0 && !clear)
            && (r == Err(ChainNotReady) <==> limit > 0.0 && clear && chain.None?)
            && (r.Ok? <==> limit > 0.0 && clear && chain.Some?)
            && (r.Ok? ==> r.value.verdict.Done? && StartsFlat(chain.value, limit, r.value.proc))
  {
  }

  /** A ledger that can be read: whole lines, at least one, in an unbroken chain. */
  ghost predicate Legible(ledger: Option<seq<Line>>) {
    ledger.Some? && Torn !in ledger.value && ledger.value != [] && Accepted(EventsOf(ledger.value))
  }

  lemma LegibleHasEvents(ledger: Option<seq<Line>>)
    requires Legible(ledger)
    ensures EventsOf(ledger.value) != []
  {
    NoTornEvents(ledger.value);
  }

  /** Exactly when files can be loaded, and to what: the state file when it stands at the last event, else the
      last event's own state, with what was fixed at initialisation kept. */
  lemma LoadsExactlyWhen(disk: Disk)
    ensures var r := Load(disk);
            && (r == Err(StateMissing) <==> disk.state.None?)
            && (r == Err(LedgerMissing) <==> disk.state.Some? && disk.ledger.None?)
            && (r == Err(LedgerEmpty) <==> disk.state.Some? && disk.ledger == Some([]))
            && (r == Err(LedgerCorrupt) <==>
                  disk.state.Some? && disk.ledger.Some? && disk.ledger != Some([]) && !Legible(disk.ledger))
    ensures disk.state.Some? && Legible(disk.ledger) ==>
              var r, s, es := Load(disk), disk.state.value, EventsOf(disk.ledger.value);
              && es != []
              && var last := es[|es| - 1];
                 && (r == Err(StateAhead) <==> s.sequence > last.body.sequence)
                 && (r == Err(LastHashMismatch) <==> s.sequence == last.body.sequence && s.lastHash != last.hash)
                 && (r.Ok? <==> s.sequence < last.body.sequence || (s.sequence == last.body.sequence && s.lastHash == last.hash))
                 && (r.Ok? ==>
                       && r.value.todo == [] && (r.value.dirty <==> s.sequence < last.body.sequence)
                       && r.value.mem == if r.value.dirty then State(s.frozen, last.body.after, last.body.sequence, last.hash) else s)
  {
    hide Accepted;
    assert Accepted([]) by { EmptyIsAccepted(); }
    if Legible(disk.ledger) { LegibleHasEvents(disk.ledger); }
  }

  lemma EmptyIsAccepted()
    ensures Accepted([])
  {
  }

  /** Exactly when an observation is admitted, and that one under another plan or report is refused and
      appends nothing. */
  lemma ObservesExactlyWhen(disk: Disk, chain: Option<Plan>, raw: RawObservation, guard: Guard)
    ensures var r := Admit(disk, Observe(chain, raw, guard));
            && (r == Err(ChainNotReady) <==> chain.None?)
            && (r.Ok? <==> chain.Some? && Load(disk).Ok?)
            && (r.Err? && chain.Some? ==> Load(disk) == Err(r.error))
            && (r.Ok? ==>
                  var loaded, plan := Load(disk).value, chain.value;
                  var same := loaded.mem.frozen.planHash == plan.planHash && loaded.mem.frozen.reportHash == plan.reportHash;
                  && r.value.proc.(todo := []) == loaded
                  && (r.value.verdict == Refused(ProvenanceMismatch) <==> !same)
                  && (!same ==> r.value.proc.todo == [])
                  && (same ==> Outcome(r.value.proc.todo, r.value.verdict) == Decide(plan, loaded.mem.frozen, loaded.mem.now, raw, guard)))
  {
    LoadsExactlyWhen(disk);
    LoadErrors(disk);
    if chain.Some? && Load(disk).Ok? {
      var m := Load(disk).value.mem;
      DecidesNothingElse(chain.value, m.frozen, m.now, raw, guard);
    }
    hide Decide, Load;
  }

  lemma LoadErrors(disk: Disk)
    ensures Load(disk) != Err(ChainNotReady)
    ensures Load(disk).Ok? ==> Load(disk).value.todo == []
  {
  }

  lemma DecidesNothingElse(plan: Plan, frozen: Frozen, now: Projection, raw: RawObservation, guard: Guard)
    ensures Decide(plan, frozen, now, raw, guard).verdict != Refused(ProvenanceMismatch)
  {
    hide Spread, PricePnl;
  }

  /** In every reachable state only observations under the ledger's own plan and report append anything. */
  lemma OnePlanPerLedger(frozen: Frozen, s: Sys, plan: Plan, raw: RawObservation, guard: Guard)
    requires SysInv(frozen, s) && Admit(s.disk, Observe(Some(plan), raw, guard)).Ok?
    requires Admit(s.disk, Observe(Some(plan), raw, guard)).value.proc.todo != []
    ensures plan.planHash == frozen.planHash && plan.reportHash == frozen.reportHash
  {
    ObservesExactlyWhen(s.disk, Some(plan), raw, guard);
    LoadErrors(s.disk);
    TornMembership(s);
    LoadGivesLastState(frozen, s);
    hide Decide, Coherent, Grown;
  }
}

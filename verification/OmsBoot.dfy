/** Runs from no files at all: initialisation, the ways it can be cut short, and every run after it. */
module OmsBoot {
  import opened Sequences
  import opened OmsTypes
  import opened OmsDecision
  import opened OmsLedger
  import opened OmsHistory
  import opened OmsMachine

  // ---- The phases of a run ----

  ghost predicate Unborn(s: Sys) { s.disk.ledger.None? && s.disk.state.None? && s.procs == map[] }

  function FirstLine(frozen: Frozen): Line { Record(MakeEvent(Fresh(frozen), Birth(frozen))) }

  function Newborn(frozen: Frozen): State { Advance(Fresh(frozen), Birth(frozen)) }

  /** An initialisation before its append, or between its append and the first state file. */
  ghost predicate Birthing(frozen: Frozen, t: Token, s: Sys) {
    && frozen.limit > 0.0 && s.disk.state.None? && s.disk.lock == Some(t)
    && (if s.disk.ledger.None? then s.procs == map[t := Proc(Fresh(frozen), [Birth(frozen)], false)]
        else s.disk.ledger == Some([FirstLine(frozen)]) && s.procs == map[t := Proc(Newborn(frozen), [], true)])
  }

  /** A ledger without a state file and nobody left to write one. */
  ghost predicate Stillborn(s: Sys) { s.disk.ledger.Some? && s.disk.state.None? && s.procs == map[] }

  ghost predicate Alive(s: Sys) { exists frozen :: SysInv(frozen, s) && frozen.limit > 0.0 }

  ghost predicate RunInv(s: Sys) {
    Unborn(s) || (exists frozen, t :: Birthing(frozen, t, s)) || Stillborn(s) || Alive(s)
  }

  lemma UnbornStep(s: Sys, step: Step)
    requires Unborn(s)
    ensures RunInv(Perform(s, step))
  {
    hide SysInv;
    var s' := Perform(s, step);
    if s'.procs != map[] {
      var frozen := FrozenOf(step.op.chain.value, step.op.limit);
      assert s'.procs == map[step.token := Proc(Fresh(frozen), [Birth(frozen)], false)];
      assert Birthing(frozen, step.token, s');
    }
  }

  /** The second write of an initialisation gives files and a process that satisfy the invariant. */
  lemma BornInv(frozen: Frozen, t: Token, s: Sys)
    requires frozen.limit > 0.0 && s.disk == Disk(Some([FirstLine(frozen)]), Some(Newborn(frozen)), Some(t))
    requires s.procs == map[t := Proc(Newborn(frozen), [], false)]
    ensures SysInv(frozen, s)
  {
    hide Decide, Coherent, Legal;
    EventsOfAppend([], FirstLine(frozen));
    assert [] + [FirstLine(frozen)] == [FirstLine(frozen)];
    assert ProcOk(frozen, s, t);
  }

  lemma BirthingStep(frozen: Frozen, t: Token, s: Sys, step: Step)
    requires Birthing(frozen, t, s)
    ensures RunInv(Perform(s, step))
    ensures Alive(Perform(s, step)) ==> SysInv(frozen, Perform(s, step)) && Perform(s, step).procs[t].todo == []
  {
    hide SysInv;
    var s' := Perform(s, step);
    NoStateNotAlive(s');
    match step
    case Write(u) =>
      if u == t {
        if s.disk.ledger.None? {
          assert [] + [FirstLine(frozen)] == [FirstLine(frozen)] && [Birth(frozen)][1..] == [];
          assert s'.procs == map[t := Proc(Newborn(frozen), [], true)];
          assert Birthing(frozen, t, s');
        } else {
          assert s'.procs == map[t := Proc(Newborn(frozen), [], false)];
          BornInv(frozen, t, s');
        }
      }
    case Die(u, torn) =>
      if u == t { assert s.procs - {t} == map[]; }
    case _ =>
      assert s' == s;
  }

  lemma NoStateNotAlive(s: Sys)
    ensures s.disk.state.None? ==> !Alive(s)
  {
  }

  lemma StillbornStep(s: Sys, step: Step)
    requires Stillborn(s)
    ensures Stillborn(Perform(s, step))
    ensures var s' := Perform(s, step); s'.disk.ledger == s.disk.ledger
  {
  }

  lemma AliveStep(s: Sys, step: Step)
    requires Alive(s)
    ensures Alive(Perform(s, step))
  {
    hide SysInv, Perform;
    var frozen :| SysInv(frozen, s) && frozen.limit > 0.0;
    StepKeepsInv(frozen, s, step);
  }

  /** Every run from nothing, with any interleaving, crashes, torn writes and operator resets: once a
      state file exists the ledger is legal and the state file at most one event behind it. */
  lemma {:induction false} EveryRunIsConsistent(steps: seq<Step>)
    ensures RunInv(Exec(EMPTY, steps))
    ensures Exec(EMPTY, steps).disk.state.Some? ==> Alive(Exec(EMPTY, steps))
  {
    if steps != [] {
      hide SysInv, Perform;
      var before, step := Exec(EMPTY, steps[..|steps| - 1]), steps[|steps| - 1];
      EveryRunIsConsistent(steps[..|steps| - 1]);
      if Unborn(before) {
        UnbornStep(before, step);
      } else if Stillborn(before) {
        StillbornStep(before, step);
      } else if Alive(before) {
        AliveStep(before, step);
      } else {
        var frozen, t :| Birthing(frozen, t, before);
        BirthingStep(frozen, t, before, step);
      }
    }
  }

  /** The limits and hashes of a running system are those in its state file. */
  lemma FrozenIsStored(frozen: Frozen, s: Sys)
    requires SysInv(frozen, s)
    ensures s.disk.state.Some? && s.disk.state.value.frozen == frozen
  {
  }

  // ---- Initialisation ----

  /** Completed, initialisation ends in the booted files. */
  lemma InitializationBoots(t: Token, plan: Plan, limit: real)
    requires limit > 0.0
    ensures var first := Perform(EMPTY, Start(t, Init(Some(plan), limit)));
            Perform(Writes(first, t, 2), Finish(t)) == Booted(FrozenOf(plan, limit))
  {
    var frozen := FrozenOf(plan, limit);
    BirthWrites(t, plan, limit, 2);
    assert map[t := Proc(Newborn(frozen), [], false)] - {t} == map[];
  }

  /** Where an initialisation stands after `n` writes; after the second there is nothing left to write. */
  lemma {:induction false} BirthWrites(t: Token, plan: Plan, limit: real, n: nat)
    requires limit > 0.0
    ensures var s, frozen := Writes(Perform(EMPTY, Start(t, Init(Some(plan), limit))), t, n), FrozenOf(plan, limit);
            && s.disk.lock == Some(t)
            && s.disk.ledger == (if n == 0 then None else Some([FirstLine(frozen)]))
            && s.disk.state == (if n < 2 then None else Some(Newborn(frozen)))
            && s.procs == map[t := if n == 0 then Proc(Fresh(frozen), [Birth(frozen)], false) else Proc(Newborn(frozen), [], n == 1)]
  {
    var frozen := FrozenOf(plan, limit);
    if n == 0 {
      assert Perform(EMPTY, Start(t, Init(Some(plan), limit))).procs == map[t := Proc(Fresh(frozen), [Birth(frozen)], false)];
    } else {
      BirthWrites(t, plan, limit, n - 1);
      assert [] + [FirstLine(frozen)] == [FirstLine(frozen)] && [Birth(frozen)][1..] == [];
    }
  }

  ghost predicate Usable(s: Sys) { exists op :: Admit(s.disk, op).Ok? }

  /** Exactly which idle, unlocked files still admit some operation: none at all, or a state file with
      an untorn ledger. */
  lemma UsableIff(s: Sys)
    requires RunInv(s) && s.procs == map[]
    ensures Usable(s) <==> s.disk.ledger.None? || (s.disk.state.Some? && !IsTorn(s))
  {
    hide Decide, SysInv;
    if Unborn(s) {
      assert Admit(s.disk, Init(Some(ANY_PLAN), 1.0)).Ok?;
    } else if Alive(s) {
      var frozen :| SysInv(frozen, s);
      AliveFacts(frozen, s);
      if IsTorn(s) {
        assert Load(s.disk).Err?;
      } else {
        LoadGivesLastState(frozen, s);
        assert Admit(s.disk, Observe(Some(ANY_PLAN), ANY_OBSERVATION, NoGuard)).Ok?;
      }
    } else {
      assert Stillborn(s);
    }
  }

  lemma AliveFacts(frozen: Frozen, s: Sys)
    requires SysInv(frozen, s)
    ensures s.disk.ledger.Some? && s.disk.state.Some?
    ensures Torn in s.disk.ledger.value <==> IsTorn(s)
  {
    TornMembership(s);
  }

  const ANY_PLAN := Plan("", "", {}, 0.0, 0.0, 0, 0.0, 0.0)

  const ANY_OBSERVATION :=
    RawObservation(false, None, None, None, None, None, None, None, None, None, None, None, None)

  /** An initialisation that died after `n` writes, its lock cleared by the operator: some operation is
      admitted again if and only if it died untorn before its append, or after its state file. */
  lemma InitializationSurvivesIff(t: Token, plan: Plan, limit: real, n: nat, torn: bool)
    requires limit > 0.0
    ensures var first := Perform(EMPTY, Start(t, Init(Some(plan), limit)));
            var dead := Perform(Perform(Writes(first, t, n), Die(t, torn)), ClearLock);
            && dead.disk.lock.None? && dead.procs == map[] && RunInv(dead)
            && (Usable(dead) <==> (n == 0 && !torn) || n >= 2)
            && (!Usable(dead) <==> Stillborn(dead))
  {
    var first := Perform(EMPTY, Start(t, Init(Some(plan), limit)));
    var s, frozen := Writes(first, t, n), FrozenOf(plan, limit);
    BirthWrites(t, plan, limit, n);
    var died := Perform(s, Die(t, torn));
    var dead := Perform(died, ClearLock);
    hide Admit, SysInv, Writes, StateLagsAtMostOne;
    assert s.procs - {t} == map[];
    if n >= 2 {
      BornInv(frozen, t, s);
      StepKeepsInv(frozen, s, Die(t, torn));
      StepKeepsInv(frozen, died, ClearLock);
      assert Alive(dead);
    }
    UsableIff(dead);
  }

  /** A ledger without a state file is final: no run changes it, creates a state, or starts anything. */
  lemma {:induction false} StillbornIsFinal(s: Sys, steps: seq<Step>)
    requires Stillborn(s)
    ensures Stillborn(Exec(s, steps)) && Exec(s, steps).disk.ledger == s.disk.ledger && !Usable(Exec(s, steps))
  {
    if steps != [] {
      StillbornIsFinal(s, steps[..|steps| - 1]);
      StillbornStep(Exec(s, steps[..|steps| - 1]), steps[|steps| - 1]);
    }
  }
}

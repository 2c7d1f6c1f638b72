/** What one observation is answered with, told from its raw fields and the state before it. */
module OmsAnswer {
  import opened Sequences
  import opened OmsTypes
  import opened OmsDecision

  // ---- The raw fields, venue by venue ----

  function RawTrade(raw: RawObservation, v: Venue): Option<real> { if v.Mexc? then raw.mexcTrade else raw.gateTrade }

  function RawMark(raw: RawObservation, v: Venue): Option<real> { if v.Mexc? then raw.mexcMark else raw.gateMark }

  function RawIndex(raw: RawObservation, v: Venue): Option<real> { if v.Mexc? then raw.mexcIndex else raw.gateIndex }

  function RawRate(raw: RawObservation, v: Venue): Option<real> { if v.Mexc? then raw.mexcRate else raw.gateRate }

  predicate Positive(x: Option<real>) { x.Some? && x.value > 0.0 }

  /** Every required field is there, every price is positive, and no result is handed in. */
  ghost predicate WellFormed(raw: RawObservation) {
    && !raw.manualPnl && raw.ts.Some? && raw.base.Some? && raw.qualityOk.Some?
    && (forall v: Venue :: Positive(RawTrade(raw, v)) && Positive(RawMark(raw, v)) && Positive(RawIndex(raw, v)))
  }

  function Premium(row: Observation, v: Venue): real { if v.Mexc? then MexcBps(row) else GateBps(row) }

  /** The row holds what was handed in, each price and rate at its own venue; a venue's premium is its mark's
      distance from its index in basis points of the index. */
  ghost predicate ReadFrom(row: Observation, raw: RawObservation) {
    && raw.ts == Some(row.ts) && raw.base == Some(row.base) && raw.qualityOk == Some(row.qualityOk)
    && raw.settlementId == row.settlementId
    && (forall v: Venue ::
          && RawTrade(raw, v) == Some(TradePrice(row, v))
          && RawRate(raw, v) == FundingRate(row, v)
          && Positive(RawMark(raw, v)) && Positive(RawIndex(raw, v))
          && Premium(row, v) * RawIndex(raw, v).value == 10_000.0 * (RawMark(raw, v).value - RawIndex(raw, v).value))
  }

  lemma PremiumIsRelative(mark: Price, index: Price)
    ensures PremiumBps(mark, index) * index == 10_000.0 * (mark - index)
  {
    var q := (mark - index) / index;
    assert q * index == mark - index;
  }

  /** Exactly the well-formed observations are read, and nothing is mixed up on the way. */
  lemma NormalizeReads(raw: RawObservation)
    ensures Normalize(raw).Some? <==> WellFormed(raw)
    ensures Normalize(raw).Some? ==> ReadFrom(Normalize(raw).value, raw)
  {
    assert RawTrade(raw, Mexc) == raw.mexcTrade && RawTrade(raw, Gateio) == raw.gateTrade;
    if Normalize(raw).Some? {
      var row := Normalize(raw).value;
      PremiumIsRelative(row.mexcMark, row.mexcIndex);
      PremiumIsRelative(row.gateMark, row.gateIndex);
      assert Premium(row, Mexc) == PremiumBps(row.mexcMark, row.mexcIndex);
      assert Premium(row, Gateio) == PremiumBps(row.gateMark, row.gateIndex);
    }
  }

  // ---- Refused, halted on or recorded ----

  /** The live system takes the observation up: well-formed, in the universe and later than the one before. */
  ghost predicate Timely(plan: Plan, now: Projection, raw: RawObservation) {
    && !now.status.Halted? && WellFormed(raw) && raw.base.value in plan.candidates
    && (now.lastTs.Some? ==> now.lastTs.value < raw.ts.value)
  }

  /** What is wrong with a settlement that names a held position; settlements of other bases are not looked at. */
  ghost predicate SettlementIs(now: Projection, raw: RawObservation, error: OmsError)
    requires WellFormed(raw)
  {
    && raw.base.value in now.positions && raw.settlementId.Some?
    && var id, paid := Strip(raw.settlementId.value), now.positions[raw.base.value].settlementIds;
       match error
       case BlankSettlement => id == ""
       case DuplicateSettlement => id != "" && id in paid
       case MissingRates => id != "" && id !in paid && !(forall v: Venue :: RawRate(raw, v).Some?)
       case _ => false
  }

  ghost predicate BadSettlement(now: Projection, raw: RawObservation)
    requires WellFormed(raw)
  {
    SettlementIs(now, raw, BlankSettlement) || SettlementIs(now, raw, DuplicateSettlement) || SettlementIs(now, raw, MissingRates)
  }

  /** Answers that the system cannot use: no answer of the right shape, or an approval without two positive prices. */
  predicate Unusable(guard: Guard) {
    guard.Malformed? || (guard.Approved? && !(Positive(guard.mexc) && Positive(guard.gateio)))
  }

  lemma FaultIsBadSettlement(now: Projection, raw: RawObservation)
    requires Normalize(raw).Some? && Normalize(raw).value.base in now.positions
    ensures WellFormed(raw)
    ensures var fault := SettlementFault(now.positions[raw.base.value], Normalize(raw).value);
            && (fault.None? <==> !BadSettlement(now, raw))
            && (forall error :: fault == Some(error) <==> SettlementIs(now, raw, error))
  {
    NormalizeReads(raw);
    var row := Normalize(raw).value;
    assert RawRate(raw, Mexc) == FundingRate(row, Mexc) && RawRate(raw, Gateio) == FundingRate(row, Gateio);
  }

  /** The part of the observation that may trade, told from the raw fields. */
  lemma TradableIsTimely(plan: Plan, now: Projection, raw: RawObservation)
    ensures Tradable(plan, now, raw) <==> Timely(plan, now, raw) && raw.qualityOk == Some(true) && !BadSettlement(now, raw)
  {
    NormalizeReads(raw);
    if Normalize(raw).Some? && raw.base.value in now.positions { FaultIsBadSettlement(now, raw); }
  }

  /** The observation asks for a trade: an entry of a base not held, or an exit of the one held. */
  ghost predicate WantsTrade(plan: Plan, now: Projection, raw: RawObservation)
    requires Normalize(raw).Some?
  {
    WantsEntry(plan, now, Normalize(raw).value) || WantsExit(plan, now, Normalize(raw).value)
  }

  lemma EnterVerdict(plan: Plan, frozen: Frozen, now: Projection, row: Observation, guard: Guard)
    ensures var out := Enter(plan, frozen, now, row, guard);
            out.verdict == if Spread(row) >= plan.entryBps && Unusable(guard) then Refused(GuardFault) else Done
  {
  }

  lemma ManageVerdict(plan: Plan, frozen: Frozen, now: Projection, pos: Position, row: Observation, guard: Guard)
    requires SettlementFault(pos, row).None?
    ensures var out := Manage(plan, frozen, now, pos, row, guard);
            out.verdict == if ExitReasonOf(plan, pos, row).Some? && Unusable(guard) then Refused(GuardFault) else Done
  {
  }

  lemma SoundVerdict(plan: Plan, frozen: Frozen, now: Projection, raw: RawObservation, guard: Guard)
    requires Timely(plan, now, raw) && raw.qualityOk == Some(true)
    ensures Normalize(raw).Some?
    ensures var v := Decide(plan, frozen, now, raw, guard).verdict;
            if BadSettlement(now, raw) then v.Refused? && SettlementIs(now, raw, v.error)
            else v == if WantsTrade(plan, now, raw) && Unusable(guard) then Refused(GuardFault) else Done
  {
    hide Enter, Manage, Spread, SettlementFault, SettlementIs, BadSettlement;
    NormalizeReads(raw);
    var row := Normalize(raw).value;
    var seen := now.(lastTs := Some(row.ts));
    if row.base !in now.positions {
      EnterVerdict(plan, frozen, seen, row, guard);
      assert !BadSettlement(now, raw) by { NotHeld(now, raw); }
    } else {
      FaultIsBadSettlement(now, raw);
      if !BadSettlement(now, raw) { ManageVerdict(plan, frozen, seen, seen.positions[row.base], row, guard); }
    }
  }

  lemma NotHeld(now: Projection, raw: RawObservation)
    requires WellFormed(raw) && raw.base.value !in now.positions
    ensures !BadSettlement(now, raw)
  {
  }

  /** Exactly when an observation is refused, and as what; everything else is taken up. */
  lemma RefusedExactlyWhen(plan: Plan, frozen: Frozen, now: Projection, raw: RawObservation, guard: Guard)
    ensures var v := Decide(plan, frozen, now, raw, guard).verdict;
            var live := !now.status.Halted?;
            var sound := Timely(plan, now, raw) && raw.qualityOk == Some(true);
            && (v == Refused(KillSwitchActive) <==> !live)
            && (v == Refused(BadObservation) <==> live && !WellFormed(raw))
            && (v == Refused(OutsideUniverse) <==> live && WellFormed(raw) && raw.base.value !in plan.candidates)
            && (v == Refused(NotChronological) <==>
                  && live && WellFormed(raw) && raw.base.value in plan.candidates
                  && now.lastTs.Some? && raw.ts.value <= now.lastTs.value)
            && (forall e :: e in {BlankSettlement, DuplicateSettlement, MissingRates} ==>
                  (v == Refused(e) <==> sound && SettlementIs(now, raw, e)))
            && (v == Refused(GuardFault) <==> Tradable(plan, now, raw) && WantsTrade(plan, now, raw) && Unusable(guard))
            && (v.Done? <==>
                  && Timely(plan, now, raw)
                  && (sound ==> !BadSettlement(now, raw) && !(WantsTrade(plan, now, raw) && Unusable(guard))))
  {
    hide Enter, Manage, Spread, ReadFrom, SettlementFault;
    NormalizeReads(raw);
    TradableIsTimely(plan, now, raw);
    if Timely(plan, now, raw) && raw.qualityOk == Some(true) {
      SoundVerdict(plan, frozen, now, raw, guard);
    }
  }

  ghost predicate Records(todo: seq<Pending>) { exists p :: p in todo && p.details.Observed? }

  ghost predicate QualityKills(todo: seq<Pending>) {
    exists p :: p in todo && p.details.KillSwitch? && p.details.reason.DataQualityFailure?
  }

  /** The one event of an unsound observation: a kill switch with the observation's time and the row as its
      cause; positions, sums and counters stay, and the state is halted for data quality. */
  ghost predicate HaltsForQuality(now: Projection, raw: RawObservation, todo: seq<Pending>) {
    && |todo| == 1 && raw.ts == Some(todo[0].ts)
    && todo[0].details.KillSwitch? && todo[0].details.reason.DataQualityFailure?
    && todo[0].details.cause.Some? && ReadFrom(todo[0].details.cause.value, raw)
    && todo[0].after.status.Halted? && todo[0].after.killReason == Some(DataQualityFailure)
    && todo[0].after.lastTs == raw.ts
    && todo[0].after.(status := now.status, killReason := now.killReason, lastTs := now.lastTs) == now
  }

  /** Beyond its record, an observation only trades, settles, is blocked or halts on the loss. */
  ghost predicate Quiet(todo: seq<Pending>) { !Records(todo) && !QualityKills(todo) }

  lemma EnterIsQuiet(plan: Plan, frozen: Frozen, now: Projection, row: Observation, guard: Guard)
    ensures Quiet(Enter(plan, frozen, now, row, guard).todo)
  {
  }

  lemma ManageIsQuiet(plan: Plan, frozen: Frozen, now: Projection, pos: Position, row: Observation, guard: Guard)
    requires SettlementFault(pos, row).None?
    ensures Quiet(Manage(plan, frozen, now, pos, row, guard).todo)
  {
  }

  /** What a recorded observation leaves first: the row, both premiums and their distance, at its own time;
      only the last time moves. */
  ghost predicate RecordsFirst(now: Projection, raw: RawObservation, todo: seq<Pending>) {
    && todo != [] && todo[0].details.Observed? && ReadFrom(todo[0].details.row, raw)
    && raw.ts == Some(todo[0].ts) && todo[0].after.lastTs == raw.ts
    && todo[0].after.(lastTs := now.lastTs) == now
    && todo[0].details.mexcBps == Premium(todo[0].details.row, Mexc)
    && todo[0].details.gateBps == Premium(todo[0].details.row, Gateio)
    && todo[0].details.spread == Abs(todo[0].details.gateBps - todo[0].details.mexcBps)
    && Quiet(todo[1..])
  }

  /** A tradable observation is recorded first, and the rest of its events are quiet. */
  lemma TradableIsRecorded(plan: Plan, frozen: Frozen, now: Projection, raw: RawObservation, guard: Guard)
    requires Tradable(plan, now, raw)
    ensures RecordsFirst(now, raw, Decide(plan, frozen, now, raw, guard).todo)
  {
    hide Enter, Manage, Spread, MexcBps, GateBps, SettlementFault, ReadFrom, Quiet;
    NormalizeReads(raw);
    var row := Normalize(raw).value;
    OpensAgainstTheSpread(row);
    var seen := now.(lastTs := Some(row.ts));
    var todo := Decide(plan, frozen, now, raw, guard).todo;
    ReadFromTime(row, raw);
    if row.base !in now.positions {
      EnterIsQuiet(plan, frozen, seen, row, guard);
      assert todo[1..] == Enter(plan, frozen, seen, row, guard).todo;
    } else {
      ManageIsQuiet(plan, frozen, seen, seen.positions[row.base], row, guard);
      assert todo[1..] == Manage(plan, frozen, seen, seen.positions[row.base], row, guard).todo;
    }
  }

  lemma ReadFromTime(row: Observation, raw: RawObservation)
    requires ReadFrom(row, raw)
    ensures raw.ts == Some(row.ts) && raw.base == Some(row.base) && raw.qualityOk == Some(row.qualityOk)
  {
  }

  /** Exactly when an observation is recorded, once and before anything else it does. */
  lemma RecordedExactlyWhen(plan: Plan, frozen: Frozen, now: Projection, raw: RawObservation, guard: Guard)
    ensures var todo := Decide(plan, frozen, now, raw, guard).todo;
            && (Records(todo) <==> Timely(plan, now, raw) && raw.qualityOk == Some(true) && !BadSettlement(now, raw))
            && (Records(todo) ==> RecordsFirst(now, raw, todo))
  {
    hide Enter, Manage, Spread, MexcBps, GateBps, SettlementFault, RecordsFirst;
    TradableIsTimely(plan, now, raw);
    if Tradable(plan, now, raw) {
      TradableIsRecorded(plan, frozen, now, raw, guard);
      RecordsFirstRecords(now, raw, Decide(plan, frozen, now, raw, guard).todo);
    }
  }

  lemma RecordsFirstRecords(now: Projection, raw: RawObservation, todo: seq<Pending>)
    requires RecordsFirst(now, raw, todo)
    ensures Records(todo) && !QualityKills(todo)
  {
    assert todo[0] in todo;
    assert todo == [todo[0]] + todo[1..];
  }

  /** Exactly when an observation halts the system for its data quality, and all that it then does. */
  lemma QualityKillExactlyWhen(plan: Plan, frozen: Frozen, now: Projection, raw: RawObservation, guard: Guard)
    ensures var out := Decide(plan, frozen, now, raw, guard);
            && (QualityKills(out.todo) <==> Timely(plan, now, raw) && raw.qualityOk == Some(false))
            && (QualityKills(out.todo) ==> out.verdict.Done? && HaltsForQuality(now, raw, out.todo))
  {
    hide Enter, Manage, Spread, MexcBps, GateBps, SettlementFault, ReadFrom, RecordsFirst;
    NormalizeReads(raw);
    TradableIsTimely(plan, now, raw);
    if Tradable(plan, now, raw) {
      TradableIsRecorded(plan, frozen, now, raw, guard);
      RecordsFirstRecords(now, raw, Decide(plan, frozen, now, raw, guard).todo);
    } else if Timely(plan, now, raw) {
      ReadFromTime(Normalize(raw).value, raw);
    }
  }

  /** Nothing is appended exactly for the refusals that come before the record: all but a guard's fault. */
  lemma WritesNothingIff(plan: Plan, frozen: Frozen, now: Projection, raw: RawObservation, guard: Guard)
    ensures var out := Decide(plan, frozen, now, raw, guard);
            out.todo == [] <==> out.verdict.Refused? && out.verdict != Refused(GuardFault)
  {
    hide Enter, Manage, Spread, MexcBps, GateBps, RecordsFirst;
    RefusedExactlyWhen(plan, frozen, now, raw, guard);
    TradableIsTimely(plan, now, raw);
    if Tradable(plan, now, raw) {
      TradableIsRecorded(plan, frozen, now, raw, guard);
      RecordsFirstRecords(now, raw, Decide(plan, frozen, now, raw, guard).todo);
    } else {
      UnrecordedWrites(plan, frozen, now, raw, guard);
    }
  }

  lemma UnrecordedWrites(plan: Plan, frozen: Frozen, now: Projection, raw: RawObservation, guard: Guard)
    requires !Tradable(plan, now, raw)
    ensures var out := Decide(plan, frozen, now, raw, guard); out.todo == [] <==> out.verdict.Refused?
  {
    hide Enter, Manage, Spread, MexcBps, GateBps, Prepend;
  }
}

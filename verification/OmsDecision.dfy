/** What one observation does to the paper trading state: the events it appends, in order. */
module OmsDecision {
  import opened Sequences
  import opened OmsTypes

  // ---- Normalisation of an observation ----

  function PositivePrice(x: Option<real>): Option<Price> {
    if x.Some? && x.value > 0.0 then Some(x.value) else None
  }

  function Normalize(raw: RawObservation): Option<Observation> {
    var mexcTrade, gateTrade := PositivePrice(raw.mexcTrade), PositivePrice(raw.gateTrade);
    var mexcMark, mexcIndex := PositivePrice(raw.mexcMark), PositivePrice(raw.mexcIndex);
    var gateMark, gateIndex := PositivePrice(raw.gateMark), PositivePrice(raw.gateIndex);
    if raw.manualPnl || raw.ts.None? || raw.base.None? || raw.qualityOk.None?
       || mexcTrade.None? || gateTrade.None? || mexcMark.None? || mexcIndex.None?
       || gateMark.None? || gateIndex.None?
    then None
    else Some(Observation(raw.ts.value, raw.base.value, mexcTrade.value, gateTrade.value,
                          mexcMark.value, mexcIndex.value, gateMark.value, gateIndex.value,
                          raw.qualityOk.value, raw.mexcRate, raw.gateRate, raw.settlementId))
  }

  // ---- Prices, basis and profit ----

  function PremiumBps(mark: Price, index: Price): real { (mark - index) / index * 10_000.0 }

  function MexcBps(row: Observation): real { PremiumBps(row.mexcMark, row.mexcIndex) }

  function GateBps(row: Observation): real { PremiumBps(row.gateMark, row.gateIndex) }

  function Spread(row: Observation): real {
    if MexcBps(row) <= GateBps(row) then GateBps(row) - MexcBps(row) else MexcBps(row) - GateBps(row)
  }

  function LowerVenue(row: Observation): Venue { if MexcBps(row) <= GateBps(row) then Mexc else Gateio }

  function HigherVenue(row: Observation): Venue { if MexcBps(row) <= GateBps(row) then Gateio else Mexc }

  function TradePrice(row: Observation, venue: Venue): Price {
    if venue.Mexc? then row.mexcTrade else row.gateTrade
  }

  function FundingRate(row: Observation, venue: Venue): Option<real> {
    if venue.Mexc? then row.mexcRate else row.gateRate
  }

  function FundingPnl(pos: Position, row: Observation, notional: real): real
    requires row.mexcRate.Some? && row.gateRate.Some?
  {
    -notional * FundingRate(row, pos.longVenue).value + notional * FundingRate(row, pos.shortVenue).value
  }

  function PricePnl(pos: Position, row: Observation, notional: real): real {
    var longExit, shortExit := TradePrice(row, pos.longVenue), TradePrice(row, pos.shortVenue);
    (longExit - pos.longEntry) * (notional / pos.longEntry)
    + (pos.shortEntry - shortExit) * (notional / pos.shortEntry)
  }

  // ---- The execution guard ----

  function BlockReason(why: Option<string>): string {
    if why.Some? && why.value != "" then why.value else "execution_guard_rejected"
  }

  datatype Gate = Fault | Stopped(event: Pending) | Passed(now: Projection, row: Observation)

  function PassGuard(now: Projection, row: Observation, transition: Transition, guard: Guard): Gate {
    var counted := now.(executed := now.executed + 1, lastBlock := None);
    match guard
    case NoGuard => Passed(counted, row)
    case Malformed => Fault
    case Rejected(why) =>
      Stopped(Pending(ExecutionBlocked(transition, why), row.ts,
                      now.(blocked := now.blocked + 1, lastBlock := Some(BlockReason(why)))))
    case Approved(mexc, gateio) =>
      if PositivePrice(mexc).Some? && PositivePrice(gateio).Some?
      then Passed(counted, row.(mexcTrade := PositivePrice(mexc).value, gateTrade := PositivePrice(gateio).value))
      else Fault
  }

  // ---- One observation ----

  function OpenPosition(planHash: string, row: Observation, priced: Observation, guard: Guard): Position {
    Position(PositionId(planHash, row.base, row.ts), row.base, row.ts, LowerVenue(row), HigherVenue(row),
             TradePrice(priced, LowerVenue(row)), TradePrice(priced, HigherVenue(row)), Spread(row), 0.0, [], guard)
  }

  function Enter(plan: Plan, frozen: Frozen, now: Projection, row: Observation, guard: Guard): Outcome {
    if Spread(row) < plan.entryBps then Outcome([], Done)
    else
      match PassGuard(now, row, OpenLegs(row.base, LowerVenue(row), HigherVenue(row), plan.notional), guard)
      case Fault => Outcome([], Refused(GuardFault))
      case Stopped(event) => Outcome([event], Done)
      case Passed(counted, priced) =>
        var pos := OpenPosition(frozen.planHash, row, priced, guard);
        var entered := counted.(positions := counted.positions[row.base := pos], status := Open);
        Outcome([Pending(PositionOpened(pos), row.ts, entered)], Done)
  }

  function ExitReasonOf(plan: Plan, pos: Position, row: Observation): Option<ExitReason> {
    if Spread(row) <= plan.exitBps then Some(Convergence)
    else if row.ts - pos.entryTs >= plan.maxHoldHours * 3600 then Some(MaxHold)
    else None
  }

  function CloseOut(plan: Plan, frozen: Frozen, pos: Position, priced: Observation,
                    reason: ExitReason, guard: Guard): ClosedPosition {
    var pricePnl := PricePnl(pos, priced, plan.notional);
    var cost := plan.notional * frozen.cycleCostBps / 10_000.0;
    ClosedPosition(pos.id, priced.base, pos.entryTs, priced.ts, reason, pricePnl, pos.funding, cost,
                   pricePnl + pos.funding - cost, guard)
  }

  /** Books a realised result on the UTC day of the close, starting that day from zero if it is new. */
  function BookClose(now: Projection, closed: ClosedPosition, ts: int): Projection {
    var positions := now.positions - {closed.base};
    var carried := if now.dailyDate == Some(UtcDate(ts)) then now.dailyNet else 0.0;
    now.(positions := positions, status := if positions != map[] then Open else Flat,
         realized := now.realized + closed.net,
         dailyDate := Some(UtcDate(ts)), dailyNet := carried + closed.net)
  }

  /** A close, followed by the kill switch when it takes the day's loss to the limit. */
  function Closing(frozen: Frozen, now: Projection, closed: ClosedPosition, ts: int): seq<Pending> {
    var booked := BookClose(now, closed, ts);
    [Pending(PositionClosed(closed), ts, booked)]
    + if booked.dailyNet > -frozen.limit then []
      else [Pending(KillSwitch(DailyLossLimit, None), ts,
                    booked.(status := Halted, killReason := Some(DailyLossLimit)))]
  }

  function Exit(plan: Plan, frozen: Frozen, now: Projection, pos: Position, row: Observation, guard: Guard): Outcome {
    var reason := ExitReasonOf(plan, pos, row);
    if reason.None? then Outcome([], Done)
    else
      var legs := CloseLegs(row.base, pos.id, pos.longVenue, pos.shortVenue, plan.notional, reason.value);
      match PassGuard(now, row, legs, guard)
      case Fault => Outcome([], Refused(GuardFault))
      case Stopped(event) => Outcome([event], Done)
      case Passed(counted, priced) =>
        var closed := CloseOut(plan, frozen, pos, priced, reason.value, guard);
        Outcome(Closing(frozen, counted, closed, row.ts), Done)
  }

  function Prepend(event: Pending, rest: Outcome): Outcome { Outcome([event] + rest.todo, rest.verdict) }

  function Settle(pos: Position, settlementId: string, amount: real): Position {
    pos.(funding := pos.funding + amount, settlementIds := pos.settlementIds + [settlementId])
  }

  function Manage(plan: Plan, frozen: Frozen, now: Projection, pos: Position, row: Observation, guard: Guard): Outcome
    requires SettlementFault(pos, row).None?
  {
    if row.settlementId.None? then Exit(plan, frozen, now, pos, row, guard)
    else
      var id := Strip(row.settlementId.value);
      var amount := FundingPnl(pos, row, plan.notional);
      var paid := Settle(pos, id, amount);
      var settled := now.(positions := now.positions[row.base := paid]);
      Prepend(Pending(FundingSettled(pos.id, id, amount), row.ts, settled),
              Exit(plan, frozen, settled, paid, row, guard))
  }

  function SettlementFault(pos: Position, row: Observation): Option<OmsError> {
    if row.settlementId.None? then None
    else if Strip(row.settlementId.value) == "" then Some(BlankSettlement)
    else if Strip(row.settlementId.value) in pos.settlementIds then Some(DuplicateSettlement)
    else if row.mexcRate.None? || row.gateRate.None? then Some(MissingRates)
    else None
  }

  function Decide(plan: Plan, frozen: Frozen, now: Projection, raw: RawObservation, guard: Guard): Outcome {
    if now.status.Halted? then Outcome([], Refused(KillSwitchActive))
    else
      var normal := Normalize(raw);
      if normal.None? then Outcome([], Refused(BadObservation))
      else
        var row := normal.value;
        if row.base !in plan.candidates then Outcome([], Refused(OutsideUniverse))
        else if now.lastTs.Some? && row.ts <= now.lastTs.value then Outcome([], Refused(NotChronological))
        else
          var seen := now.(lastTs := Some(row.ts));
          if !row.qualityOk then
            Outcome([Pending(KillSwitch(DataQualityFailure, Some(row)), row.ts,
                             seen.(status := Halted, killReason := Some(DataQualityFailure)))], Done)
          else
            var note := Pending(Observed(row, MexcBps(row), GateBps(row), Spread(row)), row.ts, seen);
            if row.base !in seen.positions then Prepend(note, Enter(plan, frozen, seen, row, guard))
            else
              var pos := seen.positions[row.base];
              var fault := SettlementFault(pos, row);
              if fault.Some? then Outcome([], Refused(fault.value))
              else Prepend(note, Manage(plan, frozen, seen, pos, row, guard))
  }

  // ---- Economics of the two-leg position ----

  /** Longs the venue with the smaller premium: the spread it captures is never negative. */
  lemma OpensAgainstTheSpread(row: Observation)
    ensures LowerVenue(row) != HigherVenue(row) && Spread(row) >= 0.0
    ensures Spread(row) == Abs(GateBps(row) - MexcBps(row))
    ensures LowerVenue(row).Gateio? <==> GateBps(row) < MexcBps(row)
  {
  }

  /** The pair is market neutral: a move of both legs by the same ratio makes no price profit,
      and any other move earns the notional on the difference of the two legs' returns. */
  lemma PairIsMarketNeutral(pos: Position, row: Observation, notional: real)
    ensures PricePnl(pos, row, notional)
         == notional * (TradePrice(row, pos.longVenue) / pos.longEntry
                        - TradePrice(row, pos.shortVenue) / pos.shortEntry)
  {
    LegPnl(TradePrice(row, pos.longVenue), pos.longEntry, notional);
    LegPnl(TradePrice(row, pos.shortVenue), pos.shortEntry, notional);
    var l, s := TradePrice(row, pos.longVenue) / pos.longEntry, TradePrice(row, pos.shortVenue) / pos.shortEntry;
    assert (pos.shortEntry - TradePrice(row, pos.shortVenue)) * (notional / pos.shortEntry) == notional * (1.0 - s);
    assert notional * (l - 1.0) + notional * (1.0 - s) == notional * (l - s);
  }

  lemma LegPnl(exit: Price, entry: Price, notional: real)
    ensures (exit - entry) * (notional / entry) == notional * (exit / entry - 1.0)
    ensures (entry - exit) * (notional / entry) == notional * (1.0 - exit / entry)
  {
    var r := exit / entry;
    var q := notional / entry;
    assert exit == r * entry;
    assert notional == q * entry;
    assert (exit - entry) * q == (r - 1.0) * entry * q;
    assert (r - 1.0) * entry * q == (r - 1.0) * (q * entry);
  }

  /** Funding is earned on the difference of the two venues' rates: paid by the long leg, received by
      the short one, and nothing when the rates agree. */
  lemma FundingIsTheRateDifference(pos: Position, row: Observation, notional: real)
    requires row.mexcRate.Some? && row.gateRate.Some? && pos.longVenue != pos.shortVenue
    ensures FundingPnl(pos, row, notional)
         == (if pos.shortVenue.Gateio? then 1.0 else -1.0) * notional * (row.gateRate.value - row.mexcRate.value)
  {
  }

  // ---- When one observation trades, read off the events it appends ----

  predicate GuardPasses(guard: Guard) {
    guard.NoGuard?
    || (guard.Approved? && guard.mexc.Some? && guard.gateio.Some? && guard.mexc.value > 0.0 && guard.gateio.value > 0.0)
  }

  /** The price a leg trades at: the guard's when it gives one, else the observed trade price. */
  function ExecutedPrice(guard: Guard, row: Observation, venue: Venue): Price
    requires GuardPasses(guard)
  {
    match guard
    case Approved(mexc, gateio) => if venue.Mexc? then mexc.value else gateio.value
    case _ => TradePrice(row, venue)
  }

  /** Accepted into trading: the state is live, the observation sound, in the universe and newer. */
  predicate Tradable(plan: Plan, now: Projection, raw: RawObservation) {
    && !now.status.Halted? && Normalize(raw).Some?
    && var row := Normalize(raw).value;
       && row.qualityOk && row.base in plan.candidates
       && (now.lastTs.Some? ==> now.lastTs.value < row.ts)
       && (row.base in now.positions ==> SettlementFault(now.positions[row.base], row).None?)
  }

  predicate WantsEntry(plan: Plan, now: Projection, row: Observation) {
    row.base !in now.positions && Spread(row) >= plan.entryBps
  }

  predicate WantsExit(plan: Plan, now: Projection, row: Observation) {
    && row.base in now.positions
    && (Spread(row) <= plan.exitBps || row.ts - now.positions[row.base].entryTs >= plan.maxHoldHours * 3600)
  }

  ghost predicate Opens(todo: seq<Pending>) { exists p :: p in todo && p.details.PositionOpened? }

  ghost predicate Closes(todo: seq<Pending>) { exists p :: p in todo && p.details.PositionClosed? }

  /** What the appended open says: the cheaper premium is bought, the dearer sold, at executed prices. */
  ghost predicate OpenedRight(row: Observation, guard: Guard, todo: seq<Pending>)
    requires GuardPasses(guard)
  {
    forall p :: p in todo && p.details.PositionOpened? ==>
      var pos := p.details.position;
      && pos.base == row.base && pos.longVenue != pos.shortVenue
      && (pos.longVenue.Gateio? <==> GateBps(row) < MexcBps(row))
      && pos.longEntry == ExecutedPrice(guard, row, pos.longVenue)
      && pos.shortEntry == ExecutedPrice(guard, row, pos.shortVenue)
      && pos.entrySpread == Spread(row)
  }

  lemma EnterTradesWhen(plan: Plan, frozen: Frozen, now: Projection, row: Observation, guard: Guard)
    requires row.base !in now.positions
    ensures var todo := Enter(plan, frozen, now, row, guard).todo;
            && (Opens(todo) <==> WantsEntry(plan, now, row) && GuardPasses(guard))
            && !Closes(todo) && (GuardPasses(guard) ==> OpenedRight(row, guard, todo))
  {
    OpensAgainstTheSpread(row);
    var todo := Enter(plan, frozen, now, row, guard).todo;
    if WantsEntry(plan, now, row) && GuardPasses(guard) {
      assert todo[0].details.PositionOpened?;
      assert todo[0] in todo;
    }
  }

  lemma ExitTradesWhen(plan: Plan, frozen: Frozen, now: Projection, pos: Position, row: Observation, guard: Guard)
    ensures var todo := Exit(plan, frozen, now, pos, row, guard).todo;
            && (Closes(todo) <==> ExitReasonOf(plan, pos, row).Some? && GuardPasses(guard))
            && !Opens(todo)
  {
    var todo := Exit(plan, frozen, now, pos, row, guard).todo;
    if ExitReasonOf(plan, pos, row).Some? && GuardPasses(guard) {
      assert todo[0].details.PositionClosed?;
      assert todo[0] in todo;
    }
  }

  lemma PrependTrades(event: Pending, rest: Outcome)
    requires !event.details.PositionOpened? && !event.details.PositionClosed?
    ensures Opens(Prepend(event, rest).todo) <==> Opens(rest.todo)
    ensures Closes(Prepend(event, rest).todo) <==> Closes(rest.todo)
    ensures forall p :: p in Prepend(event, rest).todo && p.details.PositionOpened? ==> p in rest.todo
  {
    assert forall p :: p in [event] + rest.todo <==> p == event || p in rest.todo;
  }

  /** Exactly when one observation opens a position and when it closes one; it never does both, and
      what it opens is the pair that the spread calls for, at the executed prices. */
  lemma TradesExactlyWhen(plan: Plan, frozen: Frozen, now: Projection, raw: RawObservation, guard: Guard)
    ensures var todo := Decide(plan, frozen, now, raw, guard).todo;
            && (Opens(todo) <==>
                  Tradable(plan, now, raw) && GuardPasses(guard) && WantsEntry(plan, now, Normalize(raw).value))
            && (Closes(todo) <==>
                  Tradable(plan, now, raw) && GuardPasses(guard) && WantsExit(plan, now, Normalize(raw).value))
            && (Opens(todo) ==> OpenedRight(Normalize(raw).value, guard, todo))
  {
    hide Enter, Exit, Prepend, Opens, Closes, OpenedRight;
    if Tradable(plan, now, raw) {
      var row := Normalize(raw).value;
      var seen := now.(lastTs := Some(row.ts));
      var note := Pending(Observed(row, MexcBps(row), GateBps(row), Spread(row)), row.ts, seen);
      if row.base !in now.positions {
        EnterTradesWhen(plan, frozen, seen, row, guard);
        PrependTrades(note, Enter(plan, frozen, seen, row, guard));
        if GuardPasses(guard) { OpenedRightAfter(row, guard, note, Enter(plan, frozen, seen, row, guard)); }
      } else {
        PrependTrades(note, Manage(plan, frozen, seen, seen.positions[row.base], row, guard));
        ManageTradesWhen(plan, frozen, seen, row, guard);
      }
    } else {
      NothingTraded(plan, frozen, now, raw, guard);
    }
  }

  lemma OpenedRightAfter(row: Observation, guard: Guard, event: Pending, rest: Outcome)
    requires GuardPasses(guard) && OpenedRight(row, guard, rest.todo) && !event.details.PositionOpened?
    ensures OpenedRight(row, guard, Prepend(event, rest).todo)
  {
  }

  lemma ManageTradesWhen(plan: Plan, frozen: Frozen, now: Projection, row: Observation, guard: Guard)
    requires row.base in now.positions && SettlementFault(now.positions[row.base], row).None?
    ensures var todo := Manage(plan, frozen, now, now.positions[row.base], row, guard).todo;
            && (Closes(todo) <==> WantsExit(plan, now, row) && GuardPasses(guard))
            && !Opens(todo)
  {
    hide Exit, Prepend, Opens, Closes;
    var pos := now.positions[row.base];
    if row.settlementId.None? {
      ExitTradesWhen(plan, frozen, now, pos, row, guard);
    } else {
      var id, amount := Strip(row.settlementId.value), FundingPnl(pos, row, plan.notional);
      var paid := Settle(pos, id, amount);
      var settled := now.(positions := now.positions[row.base := paid]);
      ExitTradesWhen(plan, frozen, settled, paid, row, guard);
      PrependTrades(Pending(FundingSettled(pos.id, id, amount), row.ts, settled),
                    Exit(plan, frozen, settled, paid, row, guard));
    }
  }

  lemma NothingTraded(plan: Plan, frozen: Frozen, now: Projection, raw: RawObservation, guard: Guard)
    requires !Tradable(plan, now, raw)
    ensures !Opens(Decide(plan, frozen, now, raw, guard).todo) && !Closes(Decide(plan, frozen, now, raw, guard).todo)
  {
    hide Enter, Exit, Manage, Prepend;
  }

  // ---- When one observation settles funding ----

  ghost predicate Settles(todo: seq<Pending>) { exists p :: p in todo && p.details.FundingSettled? }

  /** What the appended settlement says: the trimmed id, and the notional on the difference of the rates,
      received by the short leg. */
  ghost predicate SettledRight(pos: Position, row: Observation, notional: real, todo: seq<Pending>) {
    forall p :: p in todo && p.details.FundingSettled? ==>
      && row.settlementId.Some? && row.mexcRate.Some? && row.gateRate.Some?
      && p.details.id == pos.id && p.details.settlementId == Strip(row.settlementId.value)
      && p.details.amount == (if pos.shortVenue.Gateio? then 1.0 else -1.0) * notional * (row.gateRate.value - row.mexcRate.value)
  }

  lemma NoSettlementIn(plan: Plan, frozen: Frozen, now: Projection, pos: Position, row: Observation, guard: Guard)
    ensures !Settles(Exit(plan, frozen, now, pos, row, guard).todo)
  {
  }

  lemma PrependSettlement(event: Pending, rest: Outcome)
    ensures Settles(Prepend(event, rest).todo) <==> event.details.FundingSettled? || Settles(rest.todo)
    ensures forall p :: p in Prepend(event, rest).todo <==> p == event || p in rest.todo
  {
    assert event in Prepend(event, rest).todo;
    assert forall p :: p in [event] + rest.todo <==> p == event || p in rest.todo;
  }

  lemma ManageSettlesWhen(plan: Plan, frozen: Frozen, now: Projection, pos: Position, row: Observation, guard: Guard)
    requires SettlementFault(pos, row).None? && pos.longVenue != pos.shortVenue
    ensures var todo := Manage(plan, frozen, now, pos, row, guard).todo;
            (Settles(todo) <==> row.settlementId.Some?) && SettledRight(pos, row, plan.notional, todo)
  {
    hide Exit, Prepend;
    if row.settlementId.None? {
      NoSettlementIn(plan, frozen, now, pos, row, guard);
    } else {
      var id, amount := Strip(row.settlementId.value), FundingPnl(pos, row, plan.notional);
      var paid := Settle(pos, id, amount);
      var settled := now.(positions := now.positions[row.base := paid]);
      FundingIsTheRateDifference(pos, row, plan.notional);
      NoSettlementIn(plan, frozen, settled, paid, row, guard);
      PrependSettlement(Pending(FundingSettled(pos.id, id, amount), row.ts, settled),
                        Exit(plan, frozen, settled, paid, row, guard));
    }
  }

  /** Exactly when one observation settles funding, and what it books: once, for the held position, before
      any exit, whether or not the exit is then blocked. */
  lemma SettlesExactlyWhen(plan: Plan, frozen: Frozen, now: Projection, raw: RawObservation, guard: Guard)
    requires forall b :: b in now.positions ==> now.positions[b].longVenue != now.positions[b].shortVenue
    ensures var todo := Decide(plan, frozen, now, raw, guard).todo;
            && (Settles(todo) <==>
                  && Tradable(plan, now, raw) && Normalize(raw).value.base in now.positions
                  && Normalize(raw).value.settlementId.Some?)
            && (Settles(todo) ==>
                  SettledRight(now.positions[Normalize(raw).value.base], Normalize(raw).value, plan.notional, todo))
  {
    hide Enter, Exit, Manage, Prepend, Settles;
    if Tradable(plan, now, raw) {
      var row := Normalize(raw).value;
      var seen := now.(lastTs := Some(row.ts));
      var note := Pending(Observed(row, MexcBps(row), GateBps(row), Spread(row)), row.ts, seen);
      if row.base !in now.positions {
        NoSettlement(plan, frozen, seen, row, guard);
        PrependSettlement(note, Enter(plan, frozen, seen, row, guard));
      } else {
        ManageSettlesWhen(plan, frozen, seen, seen.positions[row.base], row, guard);
        PrependSettlement(note, Manage(plan, frozen, seen, seen.positions[row.base], row, guard));
      }
    } else {
      NothingSettled(plan, frozen, now, raw, guard);
    }
  }

  lemma NoSettlement(plan: Plan, frozen: Frozen, now: Projection, row: Observation, guard: Guard)
    ensures !Settles(Enter(plan, frozen, now, row, guard).todo)
  {
  }

  lemma NothingSettled(plan: Plan, frozen: Frozen, now: Projection, raw: RawObservation, guard: Guard)
    requires !Tradable(plan, now, raw)
    ensures !Settles(Decide(plan, frozen, now, raw, guard).todo)
  {
    hide Enter, Exit, Manage, Prepend;
  }
}

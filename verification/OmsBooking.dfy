/** What the trade of one observation says and books: the open, the blocked transition, the close and the
    kill switch behind it. */
module OmsBooking {
  import opened Sequences
  import opened OmsTypes
  import opened OmsDecision
  import opened OmsAnswer

  // ---- Closed ----

  /** The settlement that the same observation pays a held position: short leg's rate less the long leg's. */
  function PaidNow(pos: Position, row: Observation, notional: real): real {
    if row.settlementId.None? || FundingRate(row, pos.longVenue).None? || FundingRate(row, pos.shortVenue).None? then 0.0
    else notional * (FundingRate(row, pos.shortVenue).value - FundingRate(row, pos.longVenue).value)
  }

  /** The closed position: its own entry, the exit's time and reason, the price result of the pair at the
      executed prices, all funding paid so far, the cycle cost on the notional, and the net of these. */
  ghost predicate ClosedRight(plan: Plan, frozen: Frozen, pos: Position, funding: real, row: Observation, guard: Guard,
                              c: ClosedPosition)
    requires GuardPasses(guard)
  {
    && c.id == pos.id && c.base == row.base && c.entryTs == pos.entryTs && c.exitTs == row.ts && c.execution == guard
    && (c.reason.Convergence? <==> Spread(row) <= plan.exitBps)
    && c.pricePnl == plan.notional * (ExecutedPrice(guard, row, pos.longVenue) / pos.longEntry
                                      - ExecutedPrice(guard, row, pos.shortVenue) / pos.shortEntry)
    && c.funding == funding
    && c.cost * 10_000.0 == plan.notional * frozen.cycleCostBps
    && c.net == c.pricePnl + c.funding - c.cost
  }

  /** The state after a close: one position less, the net added to the realised result and to its UTC day,
      which starts from zero when it is new. */
  ghost predicate BookedRight(now: Projection, ts: int, c: ClosedPosition, after: Projection) {
    && after.positions == now.positions - {c.base}
    && after.status == (if exists b :: b in now.positions && b != c.base then Open else Flat)
    && after.realized == now.realized + c.net
    && after.dailyDate.Some?
    && after.dailyDate.value * 86_400 <= ts < after.dailyDate.value * 86_400 + 86_400
    && after.dailyNet == c.net + (if now.dailyDate == after.dailyDate then now.dailyNet else 0.0)
    && after.executed == now.executed + 1 && after.blocked == now.blocked && after.lastBlock == None
    && after.lastTs == Some(ts) && after.killReason == now.killReason
  }

  /** The close, and the kill switch behind it exactly when the day's result is at or below the limit. */
  ghost predicate ClosesRight(plan: Plan, frozen: Frozen, now: Projection, pos: Position, funding: real, row: Observation,
                              guard: Guard, todo: seq<Pending>)
    requires GuardPasses(guard)
  {
    && todo != [] && todo[0].details.PositionClosed? && todo[0].ts == row.ts
    && ClosedRight(plan, frozen, pos, funding, row, guard, todo[0].details.closed)
    && BookedRight(now, row.ts, todo[0].details.closed, todo[0].after)
    && (if todo[0].after.dailyNet <= -frozen.limit
        then todo == [todo[0], Pending(KillSwitch(DailyLossLimit, None), row.ts,
                                       todo[0].after.(status := Halted, killReason := Some(DailyLossLimit)))]
        else todo == [todo[0]])
  }

  lemma UtcDateIsADay(ts: int)
    ensures UtcDate(ts) * 86_400 <= ts < UtcDate(ts) * 86_400 + 86_400
  {
  }

  lemma LeftOver(positions: map<string, Position>, base: string)
    ensures positions - {base} != map[] <==> exists b :: b in positions && b != base
  {
    if exists b :: b in positions && b != base {
      var b :| b in positions && b != base;
      assert b in positions - {base};
    } else {
      assert (positions - {base}).Keys == {};
    }
  }

  lemma CloseOutIsRight(plan: Plan, frozen: Frozen, pos: Position, row: Observation, priced: Observation, guard: Guard)
    requires GuardPasses(guard) && ExitReasonOf(plan, pos, row).Some?
    requires priced.ts == row.ts && priced.base == row.base
    requires forall v: Venue :: TradePrice(priced, v) == ExecutedPrice(guard, row, v)
    ensures ClosedRight(plan, frozen, pos, pos.funding, row, guard,
                        CloseOut(plan, frozen, pos, priced, ExitReasonOf(plan, pos, row).value, guard))
  {
    hide Spread, PricePnl, TradePrice, ExecutedPrice;
    PairIsMarketNeutral(pos, priced, plan.notional);
  }

  lemma BookCloseIsRight(now: Projection, c: ClosedPosition, ts: int)
    requires now.lastTs == Some(ts)
    ensures BookedRight(now, ts, c, BookClose(now.(executed := now.executed + 1, lastBlock := None), c, ts))
  {
    UtcDateIsADay(ts);
    LeftOver(now.positions, c.base);
  }

  /** What a guard that passes leaves: one more executed transition, and the prices to trade at. */
  lemma PassingGuard(now: Projection, row: Observation, transition: Transition, guard: Guard)
    requires GuardPasses(guard)
    ensures var gate := PassGuard(now, row, transition, guard);
            && gate.Passed? && gate.now == now.(executed := now.executed + 1, lastBlock := None)
            && gate.row.ts == row.ts && gate.row.base == row.base
            && (forall v: Venue :: TradePrice(gate.row, v) == ExecutedPrice(guard, row, v))
  {
  }

  lemma ExitBooks(plan: Plan, frozen: Frozen, now: Projection, pos: Position, row: Observation, guard: Guard)
    requires GuardPasses(guard) && ExitReasonOf(plan, pos, row).Some? && now.lastTs == Some(row.ts)
    ensures ClosesRight(plan, frozen, now, pos, pos.funding, row, guard, Exit(plan, frozen, now, pos, row, guard).todo)
  {
    hide PassGuard, BookClose, BookedRight, ClosedRight, ExitReasonOf, ExecutedPrice, TradePrice, GuardPasses, CloseOut;
    var reason := ExitReasonOf(plan, pos, row).value;
    var legs := CloseLegs(row.base, pos.id, pos.longVenue, pos.shortVenue, plan.notional, reason);
    PassingGuard(now, row, legs, guard);
    var priced := PassGuard(now, row, legs, guard).row;
    CloseOutIsRight(plan, frozen, pos, row, priced, guard);
    BookCloseIsRight(now, CloseOut(plan, frozen, pos, priced, reason, guard), row.ts);
  }

  /** A settlement of the closed base moves no sum: only the position's own funding, which the close reads. */
  lemma SettledBooksTheSame(now: Projection, before: Projection, ts: int, c: ClosedPosition, after: Projection, paid: Position)
    requires c.base in now.positions && before == now.(lastTs := Some(ts), positions := now.positions[c.base := paid])
    requires BookedRight(before, ts, c, after)
    ensures BookedRight(now, ts, c, after)
  {
    assert before.positions - {c.base} == now.positions - {c.base};
    assert forall b :: b in before.positions <==> b in now.positions;
  }

  lemma SeenBooksTheSame(now: Projection, ts: int, c: ClosedPosition, after: Projection)
    requires BookedRight(now.(lastTs := Some(ts)), ts, c, after)
    ensures BookedRight(now, ts, c, after)
  {
  }

  lemma PaidIsTheRateDifference(pos: Position, row: Observation, notional: real)
    requires SettlementFault(pos, row).None? && row.settlementId.Some?
    ensures FundingPnl(pos, row, notional) == PaidNow(pos, row, notional)
  {
  }

  lemma ManageBooks(plan: Plan, frozen: Frozen, now: Projection, row: Observation, guard: Guard)
    requires GuardPasses(guard) && now.lastTs == Some(row.ts) && WantsExit(plan, now, row)
    requires SettlementFault(now.positions[row.base], row).None?
    ensures var pos := now.positions[row.base];
            var todo := Manage(plan, frozen, now, pos, row, guard).todo;
            var k := if row.settlementId.Some? then 1 else 0;
            k <= |todo| && ClosesRight(plan, frozen, now, pos, pos.funding + PaidNow(pos, row, plan.notional), row, guard, todo[k..])
  {
    hide Exit, Spread, BookedRight, ExecutedPrice, GuardPasses, FundingPnl;
    var pos := now.positions[row.base];
    if row.settlementId.None? {
      ExitBooks(plan, frozen, now, pos, row, guard);
      assert Manage(plan, frozen, now, pos, row, guard).todo[0..] == Exit(plan, frozen, now, pos, row, guard).todo;
    } else {
      PaidIsTheRateDifference(pos, row, plan.notional);
      var id, amount := Strip(row.settlementId.value), FundingPnl(pos, row, plan.notional);
      var paid := Settle(pos, id, amount);
      var settled := now.(positions := now.positions[row.base := paid]);
      ExitBooks(plan, frozen, settled, paid, row, guard);
      var tail := Exit(plan, frozen, settled, paid, row, guard).todo;
      assert Manage(plan, frozen, now, pos, row, guard).todo[1..] == tail;
      SettledBooksTheSame(now, settled, row.ts, tail[0].details.closed, tail[0].after, paid);
    }
  }

  /** How many events an observation records before it trades. */
  function Before(now: Projection, row: Observation): nat {
    if row.base in now.positions && row.settlementId.Some? then 2 else 1
  }

  /** Exactly when an observation closes a position, what the close says and books, and that the kill
      switch follows it exactly when the day's result has reached the limit. */
  lemma ClosesExactlyWhen(plan: Plan, frozen: Frozen, now: Projection, raw: RawObservation, guard: Guard)
    ensures var todo := Decide(plan, frozen, now, raw, guard).todo;
            && (Closes(todo) <==>
                  Tradable(plan, now, raw) && GuardPasses(guard) && WantsExit(plan, now, Normalize(raw).value))
            && (Closes(todo) ==>
                  var row := Normalize(raw).value;
                  var pos, k := now.positions[row.base], Before(now, row);
                  && k < |todo|
                  && ClosesRight(plan, frozen, now, pos, pos.funding + PaidNow(pos, row, plan.notional), row, guard, todo[k..]))
  {
    hide Closes, Enter, Manage, ClosedRight, BookedRight, GuardPasses, ExecutedPrice, Spread, PaidNow;
    TradesExactlyWhen(plan, frozen, now, raw, guard);
    var todo := Decide(plan, frozen, now, raw, guard).todo;
    if Closes(todo) {
      var row := Normalize(raw).value;
      var pos, k := now.positions[row.base], Before(now, row);
      var seen := now.(lastTs := Some(row.ts));
      ManageBooks(plan, frozen, seen, row, guard);
      var rest := Manage(plan, frozen, seen, pos, row, guard).todo;
      assert todo[k..] == rest[k - 1..];
      SeenBooksTheSame(now, row.ts, todo[k].details.closed, todo[k].after);
    }
  }

  ghost predicate LossKills(todo: seq<Pending>) {
    exists p :: p in todo && p.details.KillSwitch? && p.details.reason.DailyLossLimit?
  }

  ghost predicate Breaches(frozen: Frozen, todo: seq<Pending>) {
    exists p :: p in todo && p.details.PositionClosed? && p.after.dailyNet <= -frozen.limit
  }

  lemma ExitKillsWhen(plan: Plan, frozen: Frozen, now: Projection, pos: Position, row: Observation, guard: Guard)
    ensures var todo := Exit(plan, frozen, now, pos, row, guard).todo; LossKills(todo) <==> Breaches(frozen, todo)
  {
    hide PricePnl, Spread;
    var todo := Exit(plan, frozen, now, pos, row, guard).todo;
    if |todo| == 2 {
      assert todo[0] in todo && todo[1] in todo;
    }
  }

  lemma PrependKills(frozen: Frozen, event: Pending, rest: Outcome)
    requires !event.details.PositionClosed? && !(event.details.KillSwitch? && event.details.reason.DailyLossLimit?)
    ensures LossKills(Prepend(event, rest).todo) <==> LossKills(rest.todo)
    ensures Breaches(frozen, Prepend(event, rest).todo) <==> Breaches(frozen, rest.todo)
  {
    assert forall p :: p in [event] + rest.todo <==> p == event || p in rest.todo;
  }

  /** The loss switch is thrown exactly by a close that takes its day to the limit. */
  lemma LossKillExactlyWhen(plan: Plan, frozen: Frozen, now: Projection, raw: RawObservation, guard: Guard)
    ensures var todo := Decide(plan, frozen, now, raw, guard).todo; LossKills(todo) <==> Breaches(frozen, todo)
  {
    hide Enter, Exit, Prepend, LossKills, Breaches, Spread;
    if Tradable(plan, now, raw) {
      var row := Normalize(raw).value;
      var seen := now.(lastTs := Some(row.ts));
      var note := Pending(Observed(row, MexcBps(row), GateBps(row), Spread(row)), row.ts, seen);
      if row.base !in now.positions {
        EntryKillsNothing(plan, frozen, seen, row, guard);
        PrependKills(frozen, note, Enter(plan, frozen, seen, row, guard));
      } else {
        var pos := seen.positions[row.base];
        PrependKills(frozen, note, Manage(plan, frozen, seen, pos, row, guard));
        if row.settlementId.None? {
          ExitKillsWhen(plan, frozen, seen, pos, row, guard);
        } else {
          var id, amount := Strip(row.settlementId.value), FundingPnl(pos, row, plan.notional);
          var paid := Settle(pos, id, amount);
          var settled := seen.(positions := seen.positions[row.base := paid]);
          ExitKillsWhen(plan, frozen, settled, paid, row, guard);
          PrependKills(frozen, Pending(FundingSettled(pos.id, id, amount), row.ts, settled),
                       Exit(plan, frozen, settled, paid, row, guard));
        }
      }
    } else {
      UntradedKillsNothing(plan, frozen, now, raw, guard);
    }
  }

  lemma EntryKillsNothing(plan: Plan, frozen: Frozen, now: Projection, row: Observation, guard: Guard)
    ensures var todo := Enter(plan, frozen, now, row, guard).todo; !LossKills(todo) && !Breaches(frozen, todo)
  {
  }

  lemma UntradedKillsNothing(plan: Plan, frozen: Frozen, now: Projection, raw: RawObservation, guard: Guard)
    requires !Tradable(plan, now, raw)
    ensures var todo := Decide(plan, frozen, now, raw, guard).todo; !LossKills(todo) && !Breaches(frozen, todo)
  {
    hide Enter, Exit, Manage, Prepend, Spread;
  }

  // ---- Opened or blocked ----

  /** The opened position: derived id, the pair and prices of `OpenedRight`, no funding yet; and the state
      with it in, open, and one more transition executed. */
  ghost predicate OpensRight(frozen: Frozen, now: Projection, row: Observation, guard: Guard, p: Pending)
    requires GuardPasses(guard)
  {
    && p.details.PositionOpened? && p.ts == row.ts && OpenedRight(row, guard, [p])
    && var pos := p.details.position;
       && pos.id == PositionId(frozen.planHash, row.base, row.ts) && pos.entryTs == row.ts
       && pos.funding == 0.0 && pos.settlementIds == [] && pos.execution == guard
       && p.after == now.(positions := now.positions[row.base := pos], status := Open, lastTs := Some(row.ts),
                          executed := now.executed + 1, lastBlock := None)
  }

  /** The transition that an observation asks for: the pair the spread calls for, or the held one back. */
  ghost predicate AsksFor(plan: Plan, now: Projection, row: Observation, t: Transition) {
    && t.base == row.base && t.notional == plan.notional
    && (t.OpenLegs? <==> row.base !in now.positions)
    && (if t.OpenLegs?
        then t.longVenue != t.shortVenue && (t.longVenue.Gateio? <==> GateBps(row) < MexcBps(row))
        else
          && t.id == now.positions[row.base].id
          && t.longVenue == now.positions[row.base].longVenue && t.shortVenue == now.positions[row.base].shortVenue
          && (t.reason.Convergence? <==> Spread(row) <= plan.exitBps))
  }

  ghost predicate Blocks(todo: seq<Pending>) { exists p :: p in todo && p.details.ExecutionBlocked? }

  /** A blocked transition changes nothing but its own counter and reason. */
  ghost predicate BlocksRight(plan: Plan, now: Projection, held: map<string, Position>, row: Observation, guard: Guard, p: Pending) {
    && p.details.ExecutionBlocked? && p.ts == row.ts && guard.Rejected? && p.details.why == guard.reason
    && AsksFor(plan, now, row, p.details.transition)
    && p.after == now.(positions := held, lastTs := Some(row.ts), blocked := now.blocked + 1, lastBlock := p.after.lastBlock)
    && p.after.lastBlock.Some? && p.after.lastBlock.value != ""
    && (guard.reason.Some? && guard.reason.value != "" ==> p.after.lastBlock == guard.reason)
  }

  lemma EnterOpens(plan: Plan, frozen: Frozen, now: Projection, row: Observation, guard: Guard)
    requires row.base !in now.positions && now.lastTs == Some(row.ts) && WantsEntry(plan, now, row)
    ensures var todo := Enter(plan, frozen, now, row, guard).todo;
            && (GuardPasses(guard) ==> |todo| == 1 && OpensRight(frozen, now, row, guard, todo[0]))
            && (guard.Rejected? ==> |todo| == 1 && BlocksRight(plan, now, now.positions, row, guard, todo[0]))
  {
    hide Spread;
  }

  lemma ExitBlocks(plan: Plan, frozen: Frozen, now: Projection, pos: Position, row: Observation, why: Option<string>)
    requires row.base in now.positions && now.positions[row.base] == pos && now.lastTs == Some(row.ts) && WantsExit(plan, now, row)
    ensures var todo := Exit(plan, frozen, now, pos, row, Rejected(why)).todo;
            |todo| == 1 && BlocksRight(plan, now, now.positions, row, Rejected(why), todo[0])
  {
    hide Spread;
  }

  /** What an observation opens stands behind its record, alone. */
  lemma OpensExactlyWhen(plan: Plan, frozen: Frozen, now: Projection, raw: RawObservation, guard: Guard)
    ensures var todo := Decide(plan, frozen, now, raw, guard).todo;
            && (Opens(todo) <==>
                  Tradable(plan, now, raw) && GuardPasses(guard) && WantsEntry(plan, now, Normalize(raw).value))
            && (Opens(todo) ==> |todo| == 2 && OpensRight(frozen, now, Normalize(raw).value, guard, todo[1]))
  {
    hide Opens, Enter, Manage, GuardPasses, Spread, OpenedRight, OpensRight;
    TradesExactlyWhen(plan, frozen, now, raw, guard);
    var todo := Decide(plan, frozen, now, raw, guard).todo;
    if Opens(todo) {
      var row := Normalize(raw).value;
      var seen := now.(lastTs := Some(row.ts));
      EnterOpens(plan, frozen, seen, row, guard);
      assert todo[1] == Enter(plan, frozen, seen, row, guard).todo[0];
      SeenOpensTheSame(frozen, now, row, guard, todo[1]);
    }
  }

  lemma SeenOpensTheSame(frozen: Frozen, now: Projection, row: Observation, guard: Guard, p: Pending)
    requires GuardPasses(guard) && OpensRight(frozen, now.(lastTs := Some(row.ts)), row, guard, p)
    ensures OpensRight(frozen, now, row, guard, p)
  {
  }

  lemma ExitBlocksWhen(plan: Plan, frozen: Frozen, now: Projection, pos: Position, row: Observation, guard: Guard)
    ensures var todo := Exit(plan, frozen, now, pos, row, guard).todo;
            Blocks(todo) <==> ExitReasonOf(plan, pos, row).Some? && guard.Rejected?
  {
    hide Spread, PricePnl;
    var todo := Exit(plan, frozen, now, pos, row, guard).todo;
    if ExitReasonOf(plan, pos, row).Some? && guard.Rejected? { assert todo[0] in todo; }
  }

  lemma EnterBlocksWhen(plan: Plan, frozen: Frozen, now: Projection, row: Observation, guard: Guard)
    requires row.base !in now.positions
    ensures Blocks(Enter(plan, frozen, now, row, guard).todo) <==> WantsEntry(plan, now, row) && guard.Rejected?
  {
    hide Spread;
    var todo := Enter(plan, frozen, now, row, guard).todo;
    if WantsEntry(plan, now, row) && guard.Rejected? { assert todo[0] in todo; }
  }

  lemma PrependBlocks(event: Pending, rest: Outcome)
    requires !event.details.ExecutionBlocked?
    ensures Blocks(Prepend(event, rest).todo) <==> Blocks(rest.todo)
  {
    assert forall p :: p in [event] + rest.todo <==> p == event || p in rest.todo;
  }

  lemma SettledBlocksTheSame(plan: Plan, now: Projection, before: Projection, row: Observation, guard: Guard, p: Pending)
    requires BlocksRight(plan, before, before.positions, row, guard, p)
    requires before == now.(lastTs := Some(row.ts), positions := before.positions)
    requires row.base in now.positions && row.base in before.positions
    requires before.positions[row.base] == now.positions[row.base].(funding := before.positions[row.base].funding,
                                                                   settlementIds := before.positions[row.base].settlementIds)
    ensures BlocksRight(plan, now, before.positions, row, guard, p)
  {
    hide Spread;
  }

  /** Exactly when an observation is blocked, and that it then changes the counter and the reason only; a
      settlement of the same observation stays. */
  lemma BlocksExactlyWhen(plan: Plan, frozen: Frozen, now: Projection, raw: RawObservation, guard: Guard)
    ensures var todo := Decide(plan, frozen, now, raw, guard).todo;
            && (Blocks(todo) <==> Tradable(plan, now, raw) && WantsTrade(plan, now, raw) && guard.Rejected?)
            && (Blocks(todo) ==>
                  var row := Normalize(raw).value;
                  var k := Before(now, row);
                  && |todo| == k + 1
                  && BlocksRight(plan, now, if k == 2 then todo[1].after.positions else now.positions, row, guard, todo[k]))
  {
    hide Blocks, Enter, Exit, Prepend, BlocksRight, Spread;
    if Tradable(plan, now, raw) {
      var row := Normalize(raw).value;
      var seen := now.(lastTs := Some(row.ts));
      var note := Pending(Observed(row, MexcBps(row), GateBps(row), Spread(row)), row.ts, seen);
      if row.base !in now.positions {
        EnterBlocksWhen(plan, frozen, seen, row, guard);
        PrependBlocks(note, Enter(plan, frozen, seen, row, guard));
        if Blocks(Decide(plan, frozen, now, raw, guard).todo) { EntryBlocked(plan, frozen, now, row, note, guard); }
      } else {
        HeldBlocked(plan, frozen, now, row, note, guard);
      }
    } else {
      UntradedBlocksNothing(plan, frozen, now, raw, guard);
    }
  }

  lemma EntryBlocked(plan: Plan, frozen: Frozen, now: Projection, row: Observation, note: Pending, guard: Guard)
    requires row.base !in now.positions && WantsEntry(plan, now, row) && guard.Rejected?
    ensures var todo := Prepend(note, Enter(plan, frozen, now.(lastTs := Some(row.ts)), row, guard)).todo;
            |todo| == 2 && BlocksRight(plan, now, now.positions, row, guard, todo[1])
  {
    hide Spread, Enter;
    EnterOpens(plan, frozen, now.(lastTs := Some(row.ts)), row, guard);
  }

  lemma HeldBlocked(plan: Plan, frozen: Frozen, now: Projection, row: Observation, note: Pending, guard: Guard)
    requires row.base in now.positions && SettlementFault(now.positions[row.base], row).None? && !note.details.ExecutionBlocked?
    ensures var seen := now.(lastTs := Some(row.ts));
            var todo := Prepend(note, Manage(plan, frozen, seen, now.positions[row.base], row, guard)).todo;
            var k := Before(now, row);
            && (Blocks(todo) <==> WantsExit(plan, now, row) && guard.Rejected?)
            && (Blocks(todo) ==>
                  |todo| == k + 1
                  && BlocksRight(plan, now, if k == 2 then todo[1].after.positions else now.positions, row, guard, todo[k]))
  {
    hide Blocks, Exit, BlocksRight, Spread, FundingPnl;
    var pos, seen := now.positions[row.base], now.(lastTs := Some(row.ts));
    PrependBlocks(note, Manage(plan, frozen, seen, pos, row, guard));
    if row.settlementId.None? {
      ExitBlocksWhen(plan, frozen, seen, pos, row, guard);
      if WantsExit(plan, now, row) && guard.Rejected? {
        ExitBlocks(plan, frozen, seen, pos, row, guard.reason);
        SettledBlocksTheSame(plan, now, seen, row, guard, Exit(plan, frozen, seen, pos, row, guard).todo[0]);
      }
    } else {
      var id, amount := Strip(row.settlementId.value), FundingPnl(pos, row, plan.notional);
      var paid := Settle(pos, id, amount);
      var settled := seen.(positions := seen.positions[row.base := paid]);
      var rest := Exit(plan, frozen, settled, paid, row, guard);
      PrependBlocks(Pending(FundingSettled(pos.id, id, amount), row.ts, settled), rest);
      ExitBlocksWhen(plan, frozen, settled, paid, row, guard);
      if WantsExit(plan, now, row) && guard.Rejected? {
        ExitBlocks(plan, frozen, settled, paid, row, guard.reason);
        SettledBlocksTheSame(plan, now, settled, row, guard, rest.todo[0]);
      }
    }
  }

  lemma UntradedBlocksNothing(plan: Plan, frozen: Frozen, now: Projection, raw: RawObservation, guard: Guard)
    requires !Tradable(plan, now, raw)
    ensures !Blocks(Decide(plan, frozen, now, raw, guard).todo)
  {
    hide Enter, Exit, Manage, Prepend, Spread;
  }
}

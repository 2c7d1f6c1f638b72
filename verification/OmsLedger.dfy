/** The append-only, hash-chained ledger: what it commits to and what can be read back from it. */
module OmsLedger {
  import opened Sequences
  import opened OmsTypes
  import opened OmsDecision

  // ---- The hash chain ----

  function PreviousHash(es: seq<Event>): Hash { if es == [] then Genesis else es[|es| - 1].hash }

  /** What the reader checks of each line: consecutive sequence numbers, the previous hash, the own hash. */
  ghost predicate Accepted(es: seq<Event>) {
    forall i {:trigger es[i]} :: 0 <= i < |es| ==>
      && es[i].body.sequence == i + 1
      && es[i].body.previous == PreviousHash(es[..i])
      && es[i].hash == Digest(es[i].body)
  }

  lemma AcceptedPrefix(es: seq<Event>, n: nat)
    requires Accepted(es) && n <= |es|
    ensures Accepted(es[..n])
  {
    forall i {:trigger es[..n][i]} | 0 <= i < n
      ensures es[..n][i].body.previous == PreviousHash(es[..n][..i])
    {
      assert es[..n][i] == es[i];
      assert es[..n][..i] == es[..i];
    }
  }

  /** One more line is accepted exactly when it continues the chain. */
  lemma AcceptedSnoc(events: seq<Event>, event: Event)
    requires Accepted(events)
    ensures Accepted(events + [event]) <==>
            && event.body.sequence == |events| + 1
            && event.body.previous == PreviousHash(events)
            && event.hash == Digest(event.body)
  {
    var longer := events + [event];
    assert longer[|events|] == event && longer[..|events|] == events;
    forall k {:trigger longer[k]} | 0 <= k < |events|
      ensures longer[k] == events[k] && longer[..k] == events[..k]
    {
    }
  }

  /** The hash chain commits to the whole history: the last hash alone determines every event. */
  lemma {:induction false} LastHashFixesTheLedger(a: seq<Event>, b: seq<Event>)
    requires Accepted(a) && Accepted(b)
    requires PreviousHash(a) == PreviousHash(b)
    ensures a == b
    decreases |a|
  {
    assert a != [] ==> a[|a| - 1].hash == Digest(a[|a| - 1].body);
    assert b != [] ==> b[|b| - 1].hash == Digest(b[|b| - 1].body);
    if a != [] && b != [] {
      var n, m := |a| - 1, |b| - 1;
      assert a[n].body == b[m].body;
      assert n == m;
      AcceptedPrefix(a, n);
      AcceptedPrefix(b, n);
      LastHashFixesTheLedger(a[..n], b[..n]);
      assert a == a[..n] + [a[n]] && b == b[..n] + [b[n]];
    }
  }

  // ---- Building a ledger ----

  function MakeEvent(state: State, p: Pending): Event {
    var body := Body(state.sequence + 1, p.details, p.ts, state.frozen.planHash, state.frozen.reportHash,
                     state.lastHash, p.after);
    Event(body, Digest(body))
  }

  function Advance(state: State, p: Pending): State {
    State(state.frozen, p.after, state.sequence + 1, MakeEvent(state, p).hash)
  }

  function PendingOf(e: Event): Pending { Pending(e.body.details, e.body.ts, e.body.after) }

  const BLANK := Projection(Flat, map[], 0.0, None, 0.0, None, None, 0, 0, None)

  function Fresh(frozen: Frozen): State { State(frozen, BLANK, 0, Genesis) }

  function Birth(frozen: Frozen): Pending { Pending(Initialized(frozen.limit), 0, BLANK) }

  /** The in-memory state of a writer whose last append was the last event of `es`. */
  function StateOf(frozen: Frozen, es: seq<Event>): State {
    if es == [] then Fresh(frozen) else State(frozen, es[|es| - 1].body.after, |es|, es[|es| - 1].hash)
  }

  // ---- Event sourcing: the state rebuilt from the events' own details ----

  function ReplayStep(p: Projection, details: Details, ts: int): Projection {
    match details
    case Initialized(_) => BLANK
    case Observed(_, _, _, _) => p.(lastTs := Some(ts))
    case KillSwitch(why, _) => p.(lastTs := Some(ts), status := Halted, killReason := Some(why))
    case ExecutionBlocked(_, why) => p.(blocked := p.blocked + 1, lastBlock := Some(BlockReason(why)))
    case PositionOpened(pos) =>
      p.(positions := p.positions[pos.base := pos], status := Open, executed := p.executed + 1, lastBlock := None)
    case FundingSettled(id, settlementId, amount) =>
      if id.base !in p.positions then p
      else p.(positions := p.positions[id.base := Settle(p.positions[id.base], settlementId, amount)])
    case PositionClosed(closed) => BookClose(p.(executed := p.executed + 1, lastBlock := None), closed, ts)
  }

  /** The fold over the ledger's own event details; it never looks at `state_after`. */
  function Replay(es: seq<Event>): Projection {
    if es == [] then BLANK else ReplayStep(Replay(es[..|es| - 1]), es[|es| - 1].body.details, es[|es| - 1].body.ts)
  }

  // ---- Which events may follow a state ----

  ghost predicate LegalDetails(frozen: Frozen, p: Projection, details: Details, ts: int) {
    match details
    case Initialized(_) => false
    case Observed(row, _, _, _) => ts == row.ts && row.qualityOk && (p.lastTs.Some? ==> p.lastTs.value < ts)
    case KillSwitch(DataQualityFailure, cause) =>
      && cause.Some? && cause.value.ts == ts && !cause.value.qualityOk
      && (p.lastTs.Some? ==> p.lastTs.value < ts)
    case KillSwitch(DailyLossLimit, _) => p.lastTs == Some(ts) && p.dailyNet <= -frozen.limit
    case ExecutionBlocked(_, _) => p.lastTs == Some(ts)
    case PositionOpened(pos) =>
      && p.lastTs == Some(ts)
      && pos.base !in p.positions
      && pos.entryTs == ts && pos.id == PositionId(frozen.planHash, pos.base, ts)
      && pos.longVenue != pos.shortVenue
      && pos.funding == 0.0 && pos.settlementIds == []
    case FundingSettled(id, settlementId, _) =>
      && p.lastTs == Some(ts)
      && id.base in p.positions && p.positions[id.base].id == id
      && id.entryTs < ts
      && settlementId !in p.positions[id.base].settlementIds
    case PositionClosed(closed) =>
      && p.lastTs == Some(ts)
      && closed.base in p.positions && p.positions[closed.base].id == closed.id
      && closed.id.entryTs < ts
      && closed.funding == p.positions[closed.base].funding
      && closed.net == closed.pricePnl + closed.funding - closed.cost
  }

  ghost predicate Legal(frozen: Frozen, p: Projection, next: Pending) {
    && !p.status.Halted?
    && LegalDetails(frozen, p, next.details, next.ts)
    && next.after == ReplayStep(p, next.details, next.ts)
  }

  /** Consistency of the projected state itself. */
  ghost predicate Coherent(frozen: Frozen, p: Projection) {
    && (forall b {:trigger p.positions[b]} :: b in p.positions ==>
          && p.positions[b].base == b && p.positions[b].longVenue != p.positions[b].shortVenue
          && p.positions[b].id == PositionId(frozen.planHash, b, p.positions[b].entryTs)
          && p.lastTs.Some? && p.positions[b].entryTs <= p.lastTs.value)
    && (p.status.Halted? <==> p.killReason.Some?)
    && (!p.status.Halted? ==> (p.status.Open? <==> p.positions != map[]))
    && (p.dailyDate.Some? ==> p.lastTs.Some? && p.dailyDate.value <= UtcDate(p.lastTs.value))
    && (p.dailyDate.None? ==> p.dailyNet == 0.0)
  }

  lemma LegalKeepsCoherent(frozen: Frozen, p: Projection, next: Pending)
    requires Coherent(frozen, p) && Legal(frozen, p, next)
    ensures Coherent(frozen, next.after)
    ensures next.after.lastTs == Some(next.ts)
    ensures p.lastTs.Some? ==> p.lastTs.value <= next.ts
  {
    if next.details.PositionClosed? {
      var closed := next.details.closed;
      assert p.positions[closed.base].base == closed.base;
    } else if next.details.PositionOpened? {
      assert next.details.position.base in next.after.positions;
    } else if next.details.FundingSettled? {
      assert next.details.id.base in next.after.positions;
    }
  }

  ghost predicate LegalRun(frozen: Frozen, p: Projection, todo: seq<Pending>)
    decreases |todo|
  {
    todo == [] || (Legal(frozen, p, todo[0]) && LegalRun(frozen, todo[0].after, todo[1..]))
  }

  /** Every observation appends only legal events, each with the state that its details replay to. */
  lemma DecideIsLegal(plan: Plan, frozen: Frozen, now: Projection, raw: RawObservation, guard: Guard)
    requires Coherent(frozen, now)
    ensures LegalRun(frozen, now, Decide(plan, frozen, now, raw, guard).todo)
  {
    var normal := Normalize(raw);
    if !now.status.Halted? && normal.Some? {
      var row := normal.value;
      var seen := now.(lastTs := Some(row.ts));
      if row.base in plan.candidates && (now.lastTs.Some? ==> now.lastTs.value < row.ts) && row.qualityOk {
        assert Coherent(frozen, seen) by {
          if now.lastTs.Some? { UtcDateMonotone(now.lastTs.value, row.ts); }
        }
        if row.base !in seen.positions {
          EnterIsLegal(plan, frozen, seen, row, guard);
        } else if SettlementFault(seen.positions[row.base], row).None? {
          ManageIsLegal(plan, frozen, seen, row, guard);
        }
      }
    }
  }

  lemma EnterIsLegal(plan: Plan, frozen: Frozen, now: Projection, row: Observation, guard: Guard)
    requires !now.status.Halted? && now.lastTs == Some(row.ts) && row.base !in now.positions
    ensures LegalRun(frozen, now, Enter(plan, frozen, now, row, guard).todo)
  {
  }

  lemma ExitIsLegal(plan: Plan, frozen: Frozen, now: Projection, pos: Position, row: Observation, guard: Guard)
    requires !now.status.Halted? && now.lastTs == Some(row.ts)
    requires row.base in now.positions && now.positions[row.base] == pos
    requires pos.base == row.base && pos.id.entryTs < row.ts
    ensures LegalRun(frozen, now, Exit(plan, frozen, now, pos, row, guard).todo)
  {
  }

  lemma ManageIsLegal(plan: Plan, frozen: Frozen, now: Projection, row: Observation, guard: Guard)
    requires Coherent(frozen, now) && !now.status.Halted? && now.lastTs == Some(row.ts)
    requires row.base in now.positions && SettlementFault(now.positions[row.base], row).None?
    requires now.positions[row.base].entryTs < row.ts
    ensures LegalRun(frozen, now, Manage(plan, frozen, now, now.positions[row.base], row, guard).todo)
  {
    var pos := now.positions[row.base];
    if row.settlementId.None? {
      ExitIsLegal(plan, frozen, now, pos, row, guard);
    } else {
      var id, amount := Strip(row.settlementId.value), FundingPnl(pos, row, plan.notional);
      var paid := Settle(pos, id, amount);
      var settled := now.(positions := now.positions[row.base := paid]);
      ExitIsLegal(plan, frozen, settled, paid, row, guard);
    }
  }
}

/** What every reachable ledger says about the state: event sourcing, funding and daily results. */
module OmsHistory {
  import opened Sequences
  import opened OmsTypes
  import opened OmsDecision
  import opened OmsLedger

  /** Ledgers that start with initialisation and grow only by legal events. */
  ghost predicate Grown(frozen: Frozen, es: seq<Event>) {
    if |es| == 0 then false
    else if |es| == 1 then es[0] == MakeEvent(Fresh(frozen), Birth(frozen))
    else
      var before, e := es[..|es| - 1], es[|es| - 1];
      && Grown(frozen, before)
      && Legal(frozen, Latest(before), PendingOf(e))
      && e == MakeEvent(StateOf(frozen, before), PendingOf(e))
  }

  function Latest(es: seq<Event>): Projection { if es == [] then BLANK else es[|es| - 1].body.after }

  lemma {:induction false} GrownStep(frozen: Frozen, es: seq<Event>, next: Pending)
    requires Grown(frozen, es) && Legal(frozen, Latest(es), next)
    ensures Grown(frozen, es + [MakeEvent(StateOf(frozen, es), next)])
  {
    var e := MakeEvent(StateOf(frozen, es), next);
    assert (es + [e])[..|es|] == es;
    assert PendingOf(e) == next;
  }

  /** A reachable ledger passes every check of the reader. */
  lemma {:induction false} GrownIsAccepted(frozen: Frozen, es: seq<Event>)
    requires Grown(frozen, es)
    ensures Accepted(es)
    ensures Coherent(frozen, Latest(es))
  {
    if |es| > 1 {
      hide LegalDetails, ReplayStep, Coherent, Accepted;
      var n := |es| - 1;
      GrownIsAccepted(frozen, es[..n]);
      LegalKeepsCoherent(frozen, Latest(es[..n]), PendingOf(es[n]));
      AcceptedSnoc(es[..n], es[n]);
      assert es[..n] + [es[n]] == es;
    }
  }

  /** Event sourcing: the projected state is the fold of the ledger's own event details. */
  lemma {:induction false} LedgerReplaysToState(frozen: Frozen, es: seq<Event>)
    requires Grown(frozen, es)
    ensures Latest(es) == Replay(es)
  {
    if |es| > 1 {
      LedgerReplaysToState(frozen, es[..|es| - 1]);
    }
  }

  // ---- Independent readings of the ledger ----

  function CountOpened(es: seq<Event>): nat {
    if es == [] then 0
    else CountOpened(es[..|es| - 1]) + if es[|es| - 1].body.details.PositionOpened? then 1 else 0
  }

  function CountClosed(es: seq<Event>): nat {
    if es == [] then 0
    else CountClosed(es[..|es| - 1]) + if es[|es| - 1].body.details.PositionClosed? then 1 else 0
  }

  function CountBlocked(es: seq<Event>): nat {
    if es == [] then 0
    else CountBlocked(es[..|es| - 1]) + if es[|es| - 1].body.details.ExecutionBlocked? then 1 else 0
  }

  function NetClosed(es: seq<Event>): real {
    if es == [] then 0.0
    else
      var d := es[|es| - 1].body.details;
      NetClosed(es[..|es| - 1]) + if d.PositionClosed? then d.closed.net else 0.0
  }

  function NetClosedOn(es: seq<Event>, day: int): real {
    if es == [] then 0.0
    else
      var b := es[|es| - 1].body;
      NetClosedOn(es[..|es| - 1], day)
      + if b.details.PositionClosed? && UtcDate(b.ts) == day then b.details.closed.net else 0.0
  }

  function FundingPaid(es: seq<Event>, id: PositionId): real {
    if es == [] then 0.0
    else
      var d := es[|es| - 1].body.details;
      FundingPaid(es[..|es| - 1], id) + if d.FundingSettled? && d.id == id then d.amount else 0.0
  }

  function SettlementsPaid(es: seq<Event>, id: PositionId): seq<string> {
    if es == [] then []
    else
      var d := es[|es| - 1].body.details;
      SettlementsPaid(es[..|es| - 1], id) + if d.FundingSettled? && d.id == id then [d.settlementId] else []
  }

  /** Initialisation never comes back, and a close carries the timestamp of the observation before it. */
  lemma LegalTiming(frozen: Frozen, p: Projection, next: Pending)
    requires Legal(frozen, p, next)
    ensures !next.details.Initialized?
    ensures next.details.PositionClosed? ==> p.lastTs == Some(next.ts)
  {
  }

  lemma PositionCountStep(frozen: Frozen, p: Projection, next: Pending)
    requires Coherent(frozen, p) && Legal(frozen, p, next)
    ensures |next.after.positions| == |p.positions|
      + (if next.details.PositionOpened? then 1 else 0) - (if next.details.PositionClosed? then 1 else 0)
  {
    hide Coherent;
    match next.details
    case PositionOpened(pos) => assert next.after.positions.Keys == p.positions.Keys + {pos.base};
    case FundingSettled(id, _, _) => assert next.after.positions.Keys == p.positions.Keys;
    case PositionClosed(closed) => assert next.after.positions.Keys == p.positions.Keys - {closed.base};
    case _ =>
  }

  /** The counters and the realised result equal what the ledger shows, and the number of open
      positions is the number opened and not yet closed. */
  lemma {:induction false} CountersMatchLedger(frozen: Frozen, es: seq<Event>)
    requires Grown(frozen, es)
    ensures Latest(es).executed == CountOpened(es) + CountClosed(es)
    ensures Latest(es).blocked == CountBlocked(es)
    ensures Latest(es).realized == NetClosed(es)
    ensures |Latest(es).positions| == CountOpened(es) - CountClosed(es)
  {
    hide Accepted;
    hide LegalDetails;
    if |es| == 1 {
      assert es[..0] == [];
    } else {
      var before := es[..|es| - 1];
      CountersMatchLedger(frozen, before);
      GrownIsAccepted(frozen, before);
      LegalTiming(frozen, Latest(before), PendingOf(es[|es| - 1]));
      PositionCountStep(frozen, Latest(before), PendingOf(es[|es| - 1]));
    }
  }

  /** An id whose entry time has only just been reached has been paid nothing yet. */
  lemma {:induction false} NoPaymentBeforeOpening(frozen: Frozen, es: seq<Event>, id: PositionId)
    requires Grown(frozen, es)
    requires Latest(es).lastTs.Some? ==> Latest(es).lastTs.value <= id.entryTs
    ensures FundingPaid(es, id) == 0.0 && SettlementsPaid(es, id) == []
  {
    if |es| == 1 {
      assert es[..0] == [];
    } else {
      var before := es[..|es| - 1];
      GrownIsAccepted(frozen, before);
      LegalKeepsCoherent(frozen, Latest(before), PendingOf(es[|es| - 1]));
      NoPaymentBeforeOpening(frozen, before, id);
    }
  }

  ghost predicate Distinct(s: seq<string>) { forall i, j :: 0 <= i < j < |s| ==> s[i] != s[j] }

  /** One event changes the funding of a position that stays open exactly when it settles it. */
  lemma FundingStep(frozen: Frozen, p: Projection, next: Pending, base: string)
    requires Coherent(frozen, p) && Legal(frozen, p, next) && base in next.after.positions
    requires !(next.details.PositionOpened? && next.details.position.base == base)
    ensures var was, pos, d := p.positions[base], next.after.positions[base], next.details;
            if d.FundingSettled? && d.id == was.id
            then pos == Settle(was, d.settlementId, d.amount) && d.settlementId !in was.settlementIds
            else pos == was
  {
  }

  /** An open position's funding is exactly the sum of its own FUNDING_SETTLED events, and no
      settlement is paid to it twice. */
  lemma {:induction false} FundingMatchesLedger(frozen: Frozen, es: seq<Event>, base: string)
    requires Grown(frozen, es) && base in Latest(es).positions
    ensures var pos := Latest(es).positions[base];
            && pos.funding == FundingPaid(es, pos.id)
            && pos.settlementIds == SettlementsPaid(es, pos.id)
            && Distinct(pos.settlementIds)
  {
    hide ReplayStep;
    hide LegalDetails;
    if |es| > 1 {
      var before, e := es[..|es| - 1], es[|es| - 1];
      var p, next := Latest(before), PendingOf(e);
      GrownIsAccepted(frozen, before);
      if e.body.details.PositionOpened? && e.body.details.position.base == base {
        OpenedStep(frozen, p, next);
        NoPaymentBeforeOpening(frozen, before, e.body.details.position.id);
      } else {
        StillTheSamePosition(frozen, p, next, base);
        FundingMatchesLedger(frozen, before, base);
        FundingStep(frozen, p, next, base);
      }
    }
  }

  lemma OpenedStep(frozen: Frozen, p: Projection, next: Pending)
    requires Coherent(frozen, p) && Legal(frozen, p, next) && next.details.PositionOpened?
    ensures var pos := next.details.position;
            && pos.base in next.after.positions && next.after.positions[pos.base] == pos
            && pos.funding == 0.0 && pos.settlementIds == []
            && p.lastTs == Some(pos.id.entryTs)
  {
  }

  /** A closed position is charged the funding its settlements paid, no more and no less. */
  lemma ClosedFundingMatchesLedger(frozen: Frozen, es: seq<Event>)
    requires Grown(frozen, es) && es[|es| - 1].body.details.PositionClosed?
    ensures var closed := es[|es| - 1].body.details.closed;
            && closed.funding == FundingPaid(es, closed.id)
            && closed.net == closed.pricePnl + FundingPaid(es, closed.id) - closed.cost
  {
    var before := es[..|es| - 1];
    FundingMatchesLedger(frozen, before, es[|es| - 1].body.details.closed.base);
  }

  lemma {:induction false} NoCloseAfterLastDay(frozen: Frozen, es: seq<Event>, day: int)
    requires Grown(frozen, es)
    requires Latest(es).dailyDate.Some? ==> Latest(es).dailyDate.value < day
    ensures NetClosedOn(es, day) == 0.0
  {
    if |es| == 1 {
      assert es[..0] == [];
    } else {
      var before, e := es[..|es| - 1], es[|es| - 1];
      GrownIsAccepted(frozen, before);
      LegalKeepsCoherent(frozen, Latest(before), PendingOf(e));
      if e.body.details.PositionClosed? && Latest(before).dailyDate.Some? {
        UtcDateMonotone(Latest(before).lastTs.value, e.body.ts);
      }
      NoCloseAfterLastDay(frozen, before, day);
    }
  }

  /** The daily result is the sum of the closes on its UTC day. Strict chronology across all
      bases is what keeps an earlier day from coming back. */
  lemma {:induction false} DailyResultMatchesLedger(frozen: Frozen, es: seq<Event>)
    requires Grown(frozen, es)
    ensures Latest(es).dailyDate.Some? ==> Latest(es).dailyNet == NetClosedOn(es, Latest(es).dailyDate.value)
    ensures Latest(es).dailyDate.None? ==> CountClosed(es) == 0
  {
    hide Accepted;
    hide LegalDetails;
    if |es| == 1 {
      assert es[..0] == [];
    } else {
      var before, e := es[..|es| - 1], es[|es| - 1];
      var p := Latest(before);
      GrownIsAccepted(frozen, before);
      DailyResultMatchesLedger(frozen, before);
      LegalTiming(frozen, p, PendingOf(e));
      if e.body.details.PositionClosed? && p.dailyDate != Some(UtcDate(e.body.ts)) {
        if p.dailyDate.Some? { UtcDateMonotone(p.lastTs.value, e.body.ts); }
        NoCloseAfterLastDay(frozen, before, UtcDate(e.body.ts));
      }
    }
  }

  lemma {:induction false} TimestampsDoNotDecrease(frozen: Frozen, es: seq<Event>, i: nat)
    requires Grown(frozen, es) && 0 < i < |es|
    ensures Latest(es).lastTs.Some? && es[i].body.ts <= Latest(es).lastTs.value
  {
    GrownIsAccepted(frozen, es[..|es| - 1]);
    LegalKeepsCoherent(frozen, Latest(es[..|es| - 1]), PendingOf(es[|es| - 1]));
    if i < |es| - 1 {
      TimestampsDoNotDecrease(frozen, es[..|es| - 1], i);
      assert es[..|es| - 1][i] == es[i];
    }
  }

  /** Life of a position: an id is opened at most once, and once closed it is never open again. */
  lemma {:induction false} ClosedStaysClosed(frozen: Frozen, es: seq<Event>, i: nat, base: string)
    requires Grown(frozen, es) && i < |es| && es[i].body.details.PositionClosed?
    requires base in Latest(es).positions
    ensures Latest(es).positions[base].id != es[i].body.details.closed.id
  {
    var before, e := es[..|es| - 1], es[|es| - 1];
    GrownIsAccepted(frozen, before);
    if i == |es| - 1 {
      assert Latest(before).positions[base].id.base == base;
    } else {
      assert before[i] == es[i];
      if e.body.details.PositionOpened? && e.body.details.position.base == base {
        ClosedNamesEarlierEntry(frozen, before, i);
        TimestampsDoNotDecrease(frozen, before, i);
      } else {
        StillTheSamePosition(frozen, Latest(before), PendingOf(e), base);
        ClosedStaysClosed(frozen, before, i, base);
      }
    }
  }

  lemma StillTheSamePosition(frozen: Frozen, p: Projection, next: Pending, base: string)
    requires Legal(frozen, p, next) && base in next.after.positions
    requires !(next.details.PositionOpened? && next.details.position.base == base)
    ensures base in p.positions && p.positions[base].id == next.after.positions[base].id
  {
  }

  lemma {:induction false} ClosedNamesEarlierEntry(frozen: Frozen, es: seq<Event>, i: nat)
    requires Grown(frozen, es) && i < |es| && es[i].body.details.PositionClosed?
    ensures i > 0 && es[i].body.details.closed.id.entryTs < es[i].body.ts
  {
    if i < |es| - 1 {
      assert es[..|es| - 1][i] == es[i];
      ClosedNamesEarlierEntry(frozen, es[..|es| - 1], i);
    }
  }

  /** No position is closed twice. */
  lemma ClosedAtMostOnce(frozen: Frozen, es: seq<Event>, i: nat, j: nat)
    requires Grown(frozen, es) && i < j < |es|
    requires es[i].body.details.PositionClosed? && es[j].body.details.PositionClosed?
    ensures es[i].body.details.closed.id != es[j].body.details.closed.id
  {
    GrownPrefix(frozen, es, j + 1);
    var upTo := es[..j + 1];
    assert upTo[..|upTo| - 1] == es[..j];
    assert es[..j][i] == es[i];
    ClosedStaysClosed(frozen, es[..j], i, es[j].body.details.closed.base);
  }

  lemma {:induction false} GrownPrefix(frozen: Frozen, es: seq<Event>, n: nat)
    requires Grown(frozen, es) && 0 < n <= |es|
    ensures Grown(frozen, es[..n])
  {
    if n == |es| {
      assert es[..n] == es;
    } else {
      assert es[..|es| - 1][..n] == es[..n];
      GrownPrefix(frozen, es[..|es| - 1], n);
    }
  }

  /** What justifies a kill switch: a row of failed quality at its own time, or a day's result at the limit. */
  ghost predicate Justified(frozen: Frozen, next: Pending) {
    match next.details
    case KillSwitch(DataQualityFailure, cause) => cause.Some? && !cause.value.qualityOk && cause.value.ts == next.ts
    case KillSwitch(DailyLossLimit, _) => next.after.dailyNet <= -frozen.limit
    case _ => false
  }

  /** Only a kill switch halts, only a live state takes events, and a switch is justified. */
  lemma HaltStep(frozen: Frozen, p: Projection, next: Pending)
    requires Legal(frozen, p, next)
    ensures !p.status.Halted?
    ensures next.after.status.Halted? <==> next.details.KillSwitch?
    ensures next.details.KillSwitch? ==> Justified(frozen, next) && next.after.killReason == Some(next.details.reason)
    ensures next.details.Observed? ==> next.details.row.qualityOk && next.details.row.ts == next.ts
  {
  }

  /** A reachable ledger is halted exactly when it ends in a kill switch: the switch is its last event,
      justified and named in the state, and every observation recorded before it was sound. */
  lemma {:induction false} HaltSaysWhy(frozen: Frozen, es: seq<Event>, i: nat)
    requires Grown(frozen, es) && i < |es|
    ensures Latest(es).status.Halted? <==> es[|es| - 1].body.details.KillSwitch?
    ensures es[i].body.details.KillSwitch? ==>
              i == |es| - 1 && Justified(frozen, PendingOf(es[i])) && Latest(es).killReason == Some(es[i].body.details.reason)
    ensures es[i].body.details.Observed? ==> es[i].body.details.row.qualityOk && es[i].body.details.row.ts == es[i].body.ts
  {
    if |es| > 1 {
      var before, last := es[..|es| - 1], es[|es| - 1];
      HaltStep(frozen, Latest(before), PendingOf(last));
      HaltSaysWhy(frozen, before, if i < |before| then i else 0);
      assert i < |before| ==> before[i] == es[i];
      hide Legal, Justified;
    }
  }

  /** Every event of a reachable ledger carries its place, the hashes of the one plan and report that it was
      initialised with, and the state that the details up to it replay to. */
  lemma {:induction false} EventsCarryProvenance(frozen: Frozen, es: seq<Event>, i: nat)
    requires Grown(frozen, es) && i < |es|
    ensures es[i].body.sequence == i + 1
    ensures es[i].body.planHash == frozen.planHash && es[i].body.reportHash == frozen.reportHash
    ensures es[i].body.details.Initialized? <==> i == 0
    ensures es[i].body.after == Replay(es[..i + 1])
  {
    if i == |es| - 1 {
      assert es[..i + 1] == es;
      LedgerReplaysToState(frozen, es);
      if |es| > 1 { LegalTiming(frozen, Latest(es[..i]), PendingOf(es[i])); }
    } else {
      assert es[..|es| - 1][i] == es[i] && es[..|es| - 1][..i + 1] == es[..i + 1];
      EventsCarryProvenance(frozen, es[..|es| - 1], i);
    }
  }
}

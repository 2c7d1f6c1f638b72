/** What the trades of a study earn, from the bars they are entered and left at. */
module CapitulationReturns {
  import opened Sequences
  import opened CapitulationSignals
  import opened CapitulationBuilder
  import opened CapitulationVerdicts
  import opened CapitulationExecution
  import opened CapitulationGreedy

  /** The gross result is the price change relative to the entry price, in basis points; each net result is
      that less its cost, and each quote result the net on the notional. */
  ghost predicate Earns(t: Trade, plan: Plan) {
    && IsReturn(t.grossBps, t.c.entryPrice, t.c.exitPrice)
    && t.normalNetBps == t.grossBps - plan.normalCostBps
    && t.stressNetBps == t.grossBps - plan.stressCostBps
    && t.normalNetQuote * 10_000.0 == t.normalNetBps * plan.notional
    && t.stressNetQuote * 10_000.0 == t.stressNetBps * plan.notional
  }

  lemma TradeEarns(c: Candidate, plan: Plan)
    ensures Earns(MakeTrade(c, plan), plan) && MakeTrade(c, plan).c == c
  {
    var ratio := c.exitPrice / c.entryPrice;
    assert ratio * c.entryPrice == c.exitPrice;
  }

  lemma {:induction false} AllEarn(cs: seq<Candidate>, plan: Plan)
    ensures forall t :: t in ProcessAll(cs, plan).trades ==> Earns(t, plan) && t.c in cs
  {
    if cs != [] {
      hide Earns, MakeTrade;
      var front, c := cs[..|cs| - 1], cs[|cs| - 1];
      AllEarn(front, plan);
      TradeEarns(c, plan);
      assert cs == front + [c];
    }
  }

  /** The bars of a trade: entered at the open of the bar after the signal's, left at the close of the last
      bar held, with no bar missing between. */
  ghost predicate TradesBars(h: History, plan: Plan, k: nat, index: nat, c: Candidate) {
    && k < |h| && index + 1 <= index + plan.hold < |h[k].bars| && c.base == h[k].base
    && var bars := h[k].bars;
       && Unbroken(bars, index - plan.volumeLookback, index + plan.hold, plan.barSec)
       && c.signalTs == bars[index].ts + plan.barSec == c.entryTs == bars[index + 1].ts
       && c.entryPrice == bars[index + 1].open
       && c.exitPrice == bars[index + plan.hold].close
       && c.exitTs == bars[index + plan.hold].ts + plan.barSec
  }

  lemma SignalTradesBars(h: History, plan: Plan, ts: int, j: nat, c: Candidate)
    requires ValidPlan(plan) && SignalsAt(h, plan, ts, j, c)
    ensures var r := ReturnsAt(h, plan, ts)[j]; TradesBars(h, plan, r.series, r.index, c)
  {
    hide ReturnsAt, Peers;
    var r := ReturnsAt(h, plan, ts)[j];
    var bars, peers := h[r.series].bars, Peers(ReturnsAt(h, plan, ts), j);
    assert !Fails(bars, r.index, r.bps, peers, plan, VolumeHistory);
    assert !Fails(bars, r.index, r.bps, peers, plan, MissingExecutionBars);
  }

  /** Every trade that a study executes stands on a signal of the cross section and earns exactly what the
      bars of its base say. */
  lemma TradesEarn(h: History, plan: Plan, i: nat) returns (ts: int, j: nat)
    requires ValidPlan(plan) && i < |Execute(BuildCandidates(h, plan), plan).trades|
    ensures var t := Execute(BuildCandidates(h, plan), plan).trades[i];
            && Earns(t, plan) && SignalsAt(h, plan, ts, j, t.c)
            && var r := ReturnsAt(h, plan, ts)[j]; TradesBars(h, plan, r.series, r.index, t.c)
  {
    hide Earns, SignalsAt, TradesBars, BuildCandidates, ProcessAll, Schedule;
    var cs := BuildCandidates(h, plan);
    var t := Execute(cs, plan).trades[i];
    AllEarn(Schedule(cs), plan);
    ScheduleMembers(cs);
    assert t in Execute(cs, plan).trades;
    CandidatesAreTheSignals(h, plan, t.c);
    ts, j :| SignalsAt(h, plan, ts, j, t.c);
    SignalTradesBars(h, plan, ts, j, t.c);
  }
}

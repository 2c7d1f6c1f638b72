/** The scheduler's running variables against a definition by the accepted trades alone. */
module CapitulationGreedy {
  import opened Sequences
  import opened StableSort
  import opened Timeline
  import opened CapitulationSignals
  import opened CapitulationBuilder
  import opened CapitulationExecution

  /** An accepted trade of the same base signalled less than the cooldown ago. */
  ghost predicate Cooling(trades: seq<Trade>, c: Candidate, plan: Plan) {
    exists i :: 0 <= i < |trades| && trades[i].c.base == c.base
                && c.signalTs - trades[i].c.signalTs < plan.cooldownBars * plan.barSec
  }

  /** Greedy acceptance without running variables: a candidate is traded unless its base is cooling or
      the trades accepted so far fill every position at its entry. */
  ghost function Greedy(cs: seq<Candidate>, plan: Plan): seq<Trade> {
    if cs == [] then []
    else
      var before, c := Greedy(cs[..|cs| - 1], plan), cs[|cs| - 1];
      if Cooling(before, c, plan) || Holding(before, c.entryTs) >= plan.maxPositions then before
      else before + [MakeTrade(c, plan)]
  }

  /** The dict holds the latest signal of each base, and of no other. */
  ghost predicate SignalsTraded(b: Book) {
    forall base :: base in b.lastSignal ==> Traded(b.trades, base, b.lastSignal[base])
  }

  ghost predicate Traded(trades: seq<Trade>, base: string, signalTs: int) {
    exists i :: 0 <= i < |trades| && trades[i].c.base == base && trades[i].c.signalTs == signalTs
  }

  ghost predicate EnteredBy(trades: seq<Trade>, now: int) {
    forall i :: 0 <= i < |trades| ==> trades[i].c.entryTs <= now
  }

  lemma TradedStays(trades: seq<Trade>, t: Trade, base: string, signalTs: int)
    requires Traded(trades, base, signalTs)
    ensures Traded(trades + [t], base, signalTs)
  {
    var i :| 0 <= i < |trades| && trades[i].c.base == base && trades[i].c.signalTs == signalTs;
    assert (trades + [t])[i] == trades[i];
  }

  lemma BookStep(b: Book, c: Candidate, plan: Plan)
    requires SignalsTraded(b) && EnteredBy(b.trades, c.entryTs)
    ensures SignalsTraded(Process(b, c, plan)) && EnteredBy(Process(b, c, plan).trades, c.entryTs)
  {
    hide StillOpen, Traded;
    var b', t := Process(b, c, plan), MakeTrade(c, plan);
    assert t.c == c;
    if b'.trades != b.trades {
      forall base | base in b'.lastSignal ensures Traded(b'.trades, base, b'.lastSignal[base]) {
        if base == c.base { NewlyTraded(b.trades, t); } else { TradedStays(b.trades, t, base, b.lastSignal[base]); }
      }
    }
  }

  lemma NewlyTraded(trades: seq<Trade>, t: Trade)
    ensures Traded(trades + [t], t.c.base, t.c.signalTs)
  {
    assert (trades + [t])[|trades|] == t;
  }

  lemma {:induction false} BookFacts(cs: seq<Candidate>, plan: Plan)
    requires Orderly(cs)
    ensures SignalsTraded(ProcessAll(cs, plan))
    ensures cs != [] ==> EnteredBy(ProcessAll(cs, plan).trades, cs[|cs| - 1].entryTs)
    ensures cs == [] ==> ProcessAll(cs, plan).trades == []
  {
    if cs != [] {
      hide Process;
      var front, c := cs[..|cs| - 1], cs[|cs| - 1];
      assert forall d :: d in front ==> d in cs;
      BookFacts(front, plan);
      if front != [] {
        assert front[|front| - 1] in cs && c in cs && cs[|cs| - 2] == front[|front| - 1];
      }
      BookStep(ProcessAll(front, plan), c, plan);
    }
  }

  /** The list of pending exits, pruned at an entry, is as long as the positions held there. */
  lemma {:induction false} HoldingIsStillOpen(trades: seq<Trade>, now: int)
    requires EnteredBy(trades, now)
    ensures Holding(trades, now) == |StillOpen(Exits(trades), now)|
  {
    if trades != [] {
      HoldingIsStillOpen(trades[..|trades| - 1], now);
      var front := Exits(trades[..|trades| - 1]);
      assert (front + [trades[|trades| - 1].c.exitTs])[..|front|] == front;
    }
  }

  /** The lookup in the dict decides exactly whether the base is cooling. */
  lemma CoolingByLastSignal(b: Book, c: Candidate, plan: Plan)
    requires SignalsTraded(b) && LastSignalsKnown(b)
    requires c.signalTs - LONG_AGO >= plan.cooldownBars * plan.barSec
    ensures Cooling(b.trades, c, plan) <==> c.signalTs - LastSignal(b.lastSignal, c.base) < plan.cooldownBars * plan.barSec
  {
    if c.base in b.lastSignal {
      assert Traded(b.trades, c.base, b.lastSignal[c.base]);
    }
  }

  lemma GreedyStep(b: Book, c: Candidate, plan: Plan, now: int)
    requires SignalsTraded(b) && LastSignalsKnown(b) && EnteredBy(b.trades, c.entryTs)
    requires b.active == StillOpen(Exits(b.trades), now) && now <= c.entryTs
    requires c.signalTs - LONG_AGO >= plan.cooldownBars * plan.barSec
    ensures Process(b, c, plan).trades
         == if Cooling(b.trades, c, plan) || Holding(b.trades, c.entryTs) >= plan.maxPositions then b.trades
            else b.trades + [MakeTrade(c, plan)]
  {
    CoolingByLastSignal(b, c, plan);
    StillOpenTwice(Exits(b.trades), now, c.entryTs);
    HoldingIsStillOpen(b.trades, c.entryTs);
    hide Cooling, LastSignalsKnown, SignalsTraded, EnteredBy, StillOpen, Exits, Holding, MakeTrade;
  }

  /** What the running variables say just before the last candidate is tried. */
  lemma BookBefore(front: seq<Candidate>, c: Candidate, plan: Plan) returns (now: int)
    requires Orderly(front + [c])
    ensures var b := ProcessAll(front, plan);
            && SignalsTraded(b) && LastSignalsKnown(b) && EnteredBy(b.trades, c.entryTs)
            && b.active == StillOpen(Exits(b.trades), now) && now <= c.entryTs
    ensures Orderly(front)
  {
    hide Process, Cooled, WithinCapacity, Holding, LastSignalsKnown, SignalsTraded, StillOpen;
    assert forall i :: 0 <= i < |front| ==> (front + [c])[i] == front[i];
    assert forall d :: d in front ==> d in front + [c];
    assert c in front + [c] && (front + [c])[|front|] == c;
    BookFacts(front, plan);
    CooldownHolds(front, plan);
    now := c.entryTs;
    if front == [] {
      NothingOpen(now);
    } else {
      CapacityHolds(front, plan);
      now := front[|front| - 1].entryTs;
      assert front[|front| - 1] in front + [c] && (front + [c])[|front| - 1].signalTs <= (front + [c])[|front|].signalTs;
    }
  }

  lemma NothingOpen(now: int)
    ensures OPENING.active == StillOpen(Exits(OPENING.trades), now)
  {
  }

  /** The scheduler with its pruned list and its dict refines the simple greedy rule. */
  lemma {:induction false} ExecutionIsGreedy(cs: seq<Candidate>, plan: Plan)
    requires Orderly(cs)
    requires forall c :: c in cs ==> c.signalTs - LONG_AGO >= plan.cooldownBars * plan.barSec
    ensures ProcessAll(cs, plan).trades == Greedy(cs, plan)
  {
    if cs != [] {
      hide Orderly, Process, Cooling, LastSignalsKnown, SignalsTraded, EnteredBy, Holding, StillOpen, Exits;
      var front, c := cs[..|cs| - 1], cs[|cs| - 1];
      assert cs == front + [c];
      var now := BookBefore(front, c, plan);
      ExecutionIsGreedy(front, plan);
      GreedyStep(ProcessAll(front, plan), c, plan, now);
    }
  }

  /** The whole study trades greedily: from bars to trades, a candidate is left out only when its base
      is cooling or every position is taken at its entry. */
  lemma {:induction false} StudyIsGreedy(h: History, plan: Plan)
    requires ValidPlan(plan) && Chronicle(h)
    requires forall c :: c in BuildCandidates(h, plan) ==> c.signalTs - LONG_AGO >= plan.cooldownBars * plan.barSec
    ensures Execute(BuildCandidates(h, plan), plan).trades == Greedy(Schedule(BuildCandidates(h, plan)), plan)
  {
    hide ProcessAll, Greedy, Judge;
    var cs := BuildCandidates(h, plan);
    StudyIsOrderly(h, plan);
    ScheduleMembers(cs);
    ExecutionIsGreedy(Schedule(cs), plan);
  }

  lemma {:induction false} ScheduleOverMembers(cs: seq<Candidate>, times: seq<int>)
    ensures forall c :: c in ScheduleOver(cs, times) ==> c in cs
  {
    if times != [] {
      ScheduleOverMembers(cs, times[..|times| - 1]);
      SortMembers(OfTime(cs, times[|times| - 1]), MoreNegativeFirst);
      OfTimeFacts(cs, times[|times| - 1]);
    }
  }

  lemma ScheduleMembers(cs: seq<Candidate>)
    ensures forall c :: c in Schedule(cs) ==> c in cs
  {
    ScheduleOverMembers(cs, SortedDistinct(SignalTimes(cs)));
  }
}

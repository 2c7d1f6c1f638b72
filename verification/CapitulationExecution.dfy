/** Greedy execution of the candidates under a cooldown per base and a limit on open positions. */
module CapitulationExecution {
  import opened Sequences
  import opened StableSort
  import opened Timeline
  import opened CapitulationSignals
  import opened CapitulationBuilder

  datatype Trade = Trade(
    c: Candidate, grossBps: real, normalNetBps: real, stressNetBps: real, normalNetQuote: real, stressNetQuote: real)

  /** Running variables of the loop; `lastSignal` and `active` are the program's dict and list. */
  datatype Book = Book(
    active: seq<int>, lastSignal: map<string, int>, trades: seq<Trade>, cooldownSkips: nat, capacitySkips: nat)

  const LONG_AGO := -1_000_000_000_000_000_000

  predicate MoreNegativeFirst(a: Candidate, b: Candidate) {
    a.residual < b.residual || (a.residual == b.residual && TextNotAbove(a.base, b.base))
  }

  function SignalTimes(cs: seq<Candidate>): seq<int> {
    if cs == [] then [] else SignalTimes(cs[..|cs| - 1]) + [cs[|cs| - 1].signalTs]
  }

  function OfTime(cs: seq<Candidate>, ts: int): seq<Candidate> {
    if cs == [] then []
    else OfTime(cs[..|cs| - 1], ts) + if cs[|cs| - 1].signalTs == ts then [cs[|cs| - 1]] else []
  }

  /** The candidates of one signal time in the order they are tried. */
  function Group(cs: seq<Candidate>, ts: int): seq<Candidate> { Sort(OfTime(cs, ts), MoreNegativeFirst) }

  function ScheduleOver(cs: seq<Candidate>, times: seq<int>): seq<Candidate> {
    if times == [] then []
    else ScheduleOver(cs, times[..|times| - 1]) + Group(cs, times[|times| - 1])
  }

  /** The order of processing: by signal time, then most negative residual, then base. */
  function Schedule(cs: seq<Candidate>): seq<Candidate> { ScheduleOver(cs, SortedDistinct(SignalTimes(cs))) }

  function StillOpen(exits: seq<int>, now: int): seq<int> {
    if exits == [] then []
    else StillOpen(exits[..|exits| - 1], now) + if exits[|exits| - 1] > now then [exits[|exits| - 1]] else []
  }

  function LastSignal(last: map<string, int>, base: string): int { if base in last then last[base] else LONG_AGO }

  function MakeTrade(c: Candidate, plan: Plan): Trade {
    var gross := (c.exitPrice / c.entryPrice - 1.0) * 10_000.0;
    var normal, stress := gross - plan.normalCostBps, gross - plan.stressCostBps;
    Trade(c, gross, normal, stress, normal / 10_000.0 * plan.notional, stress / 10_000.0 * plan.notional)
  }

  function Process(b: Book, c: Candidate, plan: Plan): Book {
    var active := StillOpen(b.active, c.entryTs);
    if c.signalTs - LastSignal(b.lastSignal, c.base) < plan.cooldownBars * plan.barSec
    then b.(active := active, cooldownSkips := b.cooldownSkips + 1)
    else if |active| >= plan.maxPositions then b.(active := active, capacitySkips := b.capacitySkips + 1)
    else Book(active + [c.exitTs], b.lastSignal[c.base := c.signalTs], b.trades + [MakeTrade(c, plan)],
              b.cooldownSkips, b.capacitySkips)
  }

  const OPENING := Book([], map[], [], 0, 0)

  function ProcessAll(cs: seq<Candidate>, plan: Plan): Book {
    if cs == [] then OPENING else Process(ProcessAll(cs[..|cs| - 1], plan), cs[|cs| - 1], plan)
  }

  function Execute(cs: seq<Candidate>, plan: Plan): Book { ProcessAll(Schedule(cs), plan) }

  method PruneExits(exits: seq<int>, now: int) returns (open: seq<int>)
    ensures open == StillOpen(exits, now)
  {
    open := [];
    for i := 0 to |exits|
      invariant open == StillOpen(exits[..i], now)
    {
      assert exits[..i + 1][..i] == exits[..i];
      if exits[i] > now {
        open := open + [exits[i]];
      }
    }
    assert exits[..|exits|] == exits;
  }

  method ExecuteGroup(rows: seq<Candidate>, plan: Plan, book0: Book) returns (book: Book)
    ensures forall done :: book0 == ProcessAll(done, plan) ==> book == ProcessAll(done + rows, plan)
  {
    var cooldownSec := plan.cooldownBars * plan.barSec;
    var active, lastSignal, trades := book0.active, book0.lastSignal, book0.trades;
    var cooldownSkips, capacitySkips := book0.cooldownSkips, book0.capacitySkips;
    ghost var now := book0;
    for j := 0 to |rows|
      invariant now == Book(active, lastSignal, trades, cooldownSkips, capacitySkips) == Continue(book0, rows[..j], plan)
    {
      assert rows[..j + 1][..j] == rows[..j];
      var c := rows[j];
      active := PruneExits(active, c.entryTs);
      var last := if c.base in lastSignal then lastSignal[c.base] else LONG_AGO;
      if c.signalTs - last < cooldownSec {
        cooldownSkips := cooldownSkips + 1;
      } else if |active| >= plan.maxPositions {
        capacitySkips := capacitySkips + 1;
      } else {
        trades := trades + [MakeTrade(c, plan)];
        active := active + [c.exitTs];
        lastSignal := lastSignal[c.base := c.signalTs];
      }
      now := Process(now, c, plan);
    }
    assert rows[..|rows|] == rows;
    book := Book(active, lastSignal, trades, cooldownSkips, capacitySkips);
    forall done | book0 == ProcessAll(done, plan) ensures book == ProcessAll(done + rows, plan) {
      ContinueIsProcessAll(done, rows, plan);
    }
  }

  function Continue(b: Book, rows: seq<Candidate>, plan: Plan): Book {
    if rows == [] then b else Process(Continue(b, rows[..|rows| - 1], plan), rows[|rows| - 1], plan)
  }

  lemma {:induction false} ContinueIsProcessAll(done: seq<Candidate>, rows: seq<Candidate>, plan: Plan)
    ensures Continue(ProcessAll(done, plan), rows, plan) == ProcessAll(done + rows, plan)
  {
    hide Process;
    if rows == [] {
      assert done + rows == done;
    } else {
      assert (done + rows)[..|done + rows| - 1] == done + rows[..|rows| - 1];
      ContinueIsProcessAll(done, rows[..|rows| - 1], plan);
    }
  }

  method ExecuteCandidates(cs: seq<Candidate>, plan: Plan) returns (book: Book)
    ensures book == Execute(cs, plan)
  {
    hide Process;
    hide Group;
    var times := SortedDistinct(SignalTimes(cs));
    book := OPENING;
    for i := 0 to |times|
      invariant book == ProcessAll(ScheduleOver(cs, times[..i]), plan)
    {
      assert times[..i + 1][..i] == times[..i];
      book := ExecuteGroup(Group(cs, times[i]), plan, book);
    }
    assert times[..|times|] == times;
  }

  /** Every candidate is traded or counted as skipped, once. */
  lemma {:induction false} EveryCandidateCounted(cs: seq<Candidate>, plan: Plan)
    ensures var b := ProcessAll(cs, plan); |b.trades| + b.cooldownSkips + b.capacitySkips == |cs|
  {
    if cs != [] {
      EveryCandidateCounted(cs[..|cs| - 1], plan);
    }
  }

  // ---- Causality of the execution ----

  lemma {:induction false} ProcessIsCausal(cs: seq<Candidate>, later: seq<Candidate>, plan: Plan)
    ensures ProcessAll(cs, plan).trades <= ProcessAll(cs + later, plan).trades
  {
    if later == [] {
      assert cs + later == cs;
    } else {
      assert (cs + later)[..|cs + later| - 1] == cs + later[..|later| - 1];
      ProcessIsCausal(cs, later[..|later| - 1], plan);
    }
  }

  lemma {:induction false} SignalTimesFacts(cs: seq<Candidate>)
    ensures forall t :: t in SignalTimes(cs) <==> exists c :: c in cs && c.signalTs == t
  {
    if cs != [] {
      var front, c := cs[..|cs| - 1], cs[|cs| - 1];
      SignalTimesFacts(front);
      assert cs == front + [c];
      assert c in cs;
    }
  }

  lemma {:induction false} SignalTimesConcat(a: seq<Candidate>, b: seq<Candidate>)
    ensures SignalTimes(a + b) == SignalTimes(a) + SignalTimes(b)
  {
    if b == [] {
      assert a + b == a;
    } else {
      assert (a + b)[..|a + b| - 1] == a + b[..|b| - 1];
      SignalTimesConcat(a, b[..|b| - 1]);
    }
  }

  lemma {:induction false} OfTimeConcat(a: seq<Candidate>, b: seq<Candidate>, ts: int)
    ensures OfTime(a + b, ts) == OfTime(a, ts) + OfTime(b, ts)
  {
    if b == [] {
      assert a + b == a;
    } else {
      assert (a + b)[..|a + b| - 1] == a + b[..|b| - 1];
      OfTimeConcat(a, b[..|b| - 1], ts);
    }
  }

  lemma {:induction false} OfTimeFacts(cs: seq<Candidate>, ts: int)
    ensures forall c :: c in OfTime(cs, ts) ==> c in cs && c.signalTs == ts
    ensures (forall c :: c in cs ==> c.signalTs != ts) ==> OfTime(cs, ts) == []
  {
    if cs != [] {
      var front, c := cs[..|cs| - 1], cs[|cs| - 1];
      OfTimeFacts(front, ts);
      assert cs == front + [c];
    }
  }

  lemma {:induction false} ScheduleOverConcat(cs: seq<Candidate>, a: seq<int>, b: seq<int>)
    ensures ScheduleOver(cs, a + b) == ScheduleOver(cs, a) + ScheduleOver(cs, b)
  {
    if b == [] {
      assert a + b == a;
    } else {
      hide Group;
      var front, last := b[..|b| - 1], b[|b| - 1];
      assert (a + b)[..|a + b| - 1] == a + front && (a + b)[|a + b| - 1] == last;
      ScheduleOverConcat(cs, a, front);
      ConcatAssociative(ScheduleOver(cs, a), ScheduleOver(cs, front), Group(cs, last));
    }
  }

  lemma {:induction false} ScheduleOverSame(cs: seq<Candidate>, ds: seq<Candidate>, times: seq<int>)
    requires forall t :: t in times ==> OfTime(cs, t) == OfTime(ds, t)
    ensures ScheduleOver(cs, times) == ScheduleOver(ds, times)
  {
    if times != [] {
      assert times == times[..|times| - 1] + [times[|times| - 1]];
      ScheduleOverSame(cs, ds, times[..|times| - 1]);
    }
  }

  /** Candidates that all signal later are all processed later. */
  lemma ScheduleConcat(a: seq<Candidate>, b: seq<Candidate>)
    requires forall c, d :: c in a && d in b ==> c.signalTs < d.signalTs
    ensures Schedule(a + b) == Schedule(a) + Schedule(b)
  {
    var ta, tb := SignalTimes(a), SignalTimes(b);
    SignalTimesFacts(a);
    SignalTimesFacts(b);
    SignalTimesConcat(a, b);
    SortedDistinctFacts(ta);
    SortedDistinctFacts(tb);
    SortedDistinctConcat(ta, tb, ta + tb);
    ScheduleOverConcat(a + b, SortedDistinct(ta), SortedDistinct(tb));
    forall t | t in SortedDistinct(ta) ensures OfTime(a + b, t) == OfTime(a, t) {
      OfTimeConcat(a, b, t);
      OfTimeFacts(b, t);
    }
    forall t | t in SortedDistinct(tb) ensures OfTime(a + b, t) == OfTime(b, t) {
      OfTimeConcat(a, b, t);
      OfTimeFacts(a, t);
    }
    ScheduleOverSame(a + b, a, SortedDistinct(ta));
    ScheduleOverSame(a + b, b, SortedDistinct(tb));
  }

  /** Signal-to-trade causality, through candidate generation and greedy execution: bars that all
      come after `asOf` leave the executed trades as a prefix of the new ones. */
  lemma {:induction false} TradesAreCausal(h: History, h2: History, plan: Plan, asOf: int)
    requires ValidPlan(plan) && Extends(h, h2, asOf)
    ensures Execute(BuildCandidates(h, plan), plan).trades <= Execute(BuildCandidates(h2, plan), plan).trades
  {
    var rest := CandidatesAreCausal(h, h2, plan, asOf);
    ScheduleConcat(BuildCandidates(h, plan), rest);
    ProcessIsCausal(Schedule(BuildCandidates(h, plan)), Schedule(rest), plan);
  }

  // ---- Capacity and cooldown ----

  /** Candidates in the order of their entries, each entered when it signals and left later. */
  ghost predicate Orderly(cs: seq<Candidate>) {
    && (forall i, j :: 0 <= i < j < |cs| ==> cs[i].signalTs <= cs[j].signalTs)
    && (forall c :: c in cs ==> c.entryTs == c.signalTs && c.exitTs > c.entryTs)
  }

  function Exits(trades: seq<Trade>): seq<int> {
    if trades == [] then [] else Exits(trades[..|trades| - 1]) + [trades[|trades| - 1].c.exitTs]
  }

  /** How many trades hold a position at time `t`: entered at or before it, left after it. */
  function Holding(trades: seq<Trade>, t: int): nat {
    if trades == [] then 0
    else
      var c := trades[|trades| - 1].c;
      Holding(trades[..|trades| - 1], t) + if c.entryTs <= t < c.exitTs then 1 else 0
  }

  lemma {:induction false} StillOpenTwice(exits: seq<int>, a: int, b: int)
    requires a <= b
    ensures StillOpen(StillOpen(exits, a), b) == StillOpen(exits, b)
  {
    if exits != [] {
      StillOpenTwice(exits[..|exits| - 1], a, b);
      var kept := StillOpen(exits[..|exits| - 1], a);
      assert (kept + [exits[|exits| - 1]])[..|kept|] == kept;
      assert kept + [] == kept && StillOpen(kept, b) + [] == StillOpen(kept, b);
    }
  }

  lemma {:induction false} HoldingBound(trades: seq<Trade>, t: int, now: int)
    requires now <= t
    ensures Holding(trades, t) <= |StillOpen(Exits(trades), now)|
  {
    if trades != [] {
      HoldingBound(trades[..|trades| - 1], t, now);
      var front := Exits(trades[..|trades| - 1]);
      assert (front + [trades[|trades| - 1].c.exitTs])[..|front|] == front;
    }
  }

  ghost predicate WithinCapacity(trades: seq<Trade>, plan: Plan) {
    forall t :: Holding(trades, t) <= plan.maxPositions
  }

  lemma CapacityStep(b: Book, c: Candidate, plan: Plan, now: int)
    requires now <= c.entryTs < c.exitTs
    requires b.active == StillOpen(Exits(b.trades), now) && WithinCapacity(b.trades, plan)
    ensures var b' := Process(b, c, plan);
            b'.active == StillOpen(Exits(b'.trades), c.entryTs) && WithinCapacity(b'.trades, plan)
  {
    StillOpenTwice(Exits(b.trades), now, c.entryTs);
    var b', t := Process(b, c, plan), MakeTrade(c, plan);
    if b'.trades != b.trades {
      assert (b.trades + [t])[..|b.trades|] == b.trades;
      assert (Exits(b.trades) + [c.exitTs])[..|Exits(b.trades)|] == Exits(b.trades);
      forall u ensures Holding(b'.trades, u) <= plan.maxPositions {
        if c.entryTs <= u { HoldingBound(b.trades, u, c.entryTs); }
      }
    }
  }

  lemma {:induction false} CapacityHolds(cs: seq<Candidate>, plan: Plan)
    requires Orderly(cs)
    ensures WithinCapacity(ProcessAll(cs, plan).trades, plan)
    ensures cs != [] ==>
              ProcessAll(cs, plan).active == StillOpen(Exits(ProcessAll(cs, plan).trades), cs[|cs| - 1].entryTs)
  {
    if cs != [] {
      var front, c := cs[..|cs| - 1], cs[|cs| - 1];
      CapacityHolds(front, plan);
      assert c in cs && forall d :: d in front ==> d in cs;
      if front == [] {
        CapacityStep(OPENING, c, plan, c.entryTs);
      } else {
        assert front[|front| - 1] in cs;
        CapacityStep(ProcessAll(front, plan), c, plan, front[|front| - 1].entryTs);
      }
    }
  }

  /** Accepted signals of one base are at least the cooldown apart. */
  ghost predicate Cooled(trades: seq<Trade>, plan: Plan) {
    forall i, j :: 0 <= i < j < |trades| && trades[i].c.base == trades[j].c.base ==>
      trades[j].c.signalTs - trades[i].c.signalTs >= plan.cooldownBars * plan.barSec
  }

  ghost predicate LastSignalsKnown(b: Book) {
    forall i :: 0 <= i < |b.trades| ==>
      b.trades[i].c.base in b.lastSignal && b.trades[i].c.signalTs <= b.lastSignal[b.trades[i].c.base]
  }

  ghost predicate SignalsBy(last: map<string, int>, now: int) { forall base :: base in last ==> last[base] <= now }

  lemma CooldownStep(b: Book, c: Candidate, plan: Plan)
    requires Cooled(b.trades, plan) && LastSignalsKnown(b) && SignalsBy(b.lastSignal, c.signalTs)
    ensures var b' := Process(b, c, plan);
            Cooled(b'.trades, plan) && LastSignalsKnown(b') && SignalsBy(b'.lastSignal, c.signalTs)
  {
    hide StillOpen;
    assert MakeTrade(c, plan).c == c;
    hide MakeTrade;
  }

  lemma {:induction false} CooldownHolds(cs: seq<Candidate>, plan: Plan)
    requires Orderly(cs)
    ensures var b := ProcessAll(cs, plan);
            Cooled(b.trades, plan) && LastSignalsKnown(b) && (cs != [] ==> SignalsBy(b.lastSignal, cs[|cs| - 1].signalTs))
  {
    if cs != [] {
      hide Process;
      hide Cooled;
      hide LastSignalsKnown;
      var front, c := cs[..|cs| - 1], cs[|cs| - 1];
      assert forall d :: d in front ==> d in cs;
      CooldownHolds(front, plan);
      assert SignalsBy(ProcessAll(front, plan).lastSignal, c.signalTs);
      CooldownStep(ProcessAll(front, plan), c, plan);
    }
  }

  lemma {:induction false} ScheduleIsOrderly(cs: seq<Candidate>, times: seq<int>)
    requires Increasing(times)
    requires forall c :: c in cs ==> c.entryTs == c.signalTs && c.exitTs > c.entryTs
    ensures Orderly(ScheduleOver(cs, times))
    ensures forall c :: c in ScheduleOver(cs, times) ==> c.signalTs in times
  {
    if times != [] {
      var front, ts := times[..|times| - 1], times[|times| - 1];
      ScheduleIsOrderly(cs, front);
      SortMembers(OfTime(cs, ts), MoreNegativeFirst);
      OfTimeFacts(cs, ts);
      var a: seq<Candidate>, b: seq<Candidate> := ScheduleOver(cs, front), Group(cs, ts);
      assert times == front + [ts];
      var joined: seq<Candidate> := a + b;
      forall i, j | 0 <= i < j < |joined| ensures joined[i].signalTs <= joined[j].signalTs {
        if j >= |a| {
          assert joined[j] in b;
          assert if i < |a| then joined[i] in a else joined[i] in b;
        }
      }
    }
  }

  /** The study's schedule is in order: contiguous bars put every entry at its own signal time. */
  lemma {:induction false} StudyIsOrderly(h: History, plan: Plan)
    requires ValidPlan(plan) && Chronicle(h)
    ensures Orderly(Schedule(BuildCandidates(h, plan)))
  {
    var cs := BuildCandidates(h, plan);
    TimedOver(h, plan, SortedDistinct(ReturnTimes(h, plan)));
    forall c | c in cs ensures c.entryTs == c.signalTs && c.exitTs > c.entryTs {
      assert Timed(c, c.signalTs - plan.barSec, plan);
      assert plan.hold * plan.barSec > 0;
    }
    SortedDistinctFacts(SignalTimes(cs));
    ScheduleIsOrderly(cs, SortedDistinct(SignalTimes(cs)));
  }

  /** Over the whole study: at every instant at most the allowed number of positions is open, and
      accepted signals of a base keep the cooldown. */
  lemma {:induction false} StudyRespectsLimits(h: History, plan: Plan)
    requires ValidPlan(plan) && Chronicle(h)
    ensures WithinCapacity(Execute(BuildCandidates(h, plan), plan).trades, plan)
    ensures Cooled(Execute(BuildCandidates(h, plan), plan).trades, plan)
  {
    StudyIsOrderly(h, plan);
    CapacityHolds(Schedule(BuildCandidates(h, plan)), plan);
    CooldownHolds(Schedule(BuildCandidates(h, plan)), plan);
  }
}

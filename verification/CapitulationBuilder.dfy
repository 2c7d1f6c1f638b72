/** The candidate builder as the program runs it, and what its counters and candidates satisfy. */
module CapitulationBuilder {
  import opened Sequences
  import opened Timeline
  import opened CapitulationSignals

  /** The terminal counter of an observation: one of the filters, or the fixed signals. */
  datatype Counter = Filtered(reason: Reason) | FixedSignals

  function CounterOf(v: Verdict): Counter { if v.Kept? then FixedSignals else Filtered(v.reason) }

  function Count(verdicts: seq<Verdict>, c: Counter): nat {
    if verdicts == [] then 0
    else Count(verdicts[..|verdicts| - 1], c) + if CounterOf(verdicts[|verdicts| - 1]) == c then 1 else 0
  }

  function CountFiltered(verdicts: seq<Verdict>): nat {
    Count(verdicts, Filtered(PeerCount)) + Count(verdicts, Filtered(BaseReturn)) + Count(verdicts, Filtered(Residual))
    + Count(verdicts, Filtered(VolumeHistory)) + Count(verdicts, Filtered(CurrentVolume))
    + Count(verdicts, Filtered(TrailingVolume)) + Count(verdicts, Filtered(VolumeRatio))
    + Count(verdicts, Filtered(CloseLocation)) + Count(verdicts, Filtered(MissingExecutionBars))
  }

  lemma CountSnoc(verdicts: seq<Verdict>, v: Verdict, c: Counter)
    ensures Count(verdicts + [v], c) == Count(verdicts, c) + if CounterOf(v) == c then 1 else 0
  {
    assert (verdicts + [v])[..|verdicts|] == verdicts;
  }

  lemma CountFilteredSnoc(verdicts: seq<Verdict>, v: Verdict)
    ensures CountFiltered(verdicts + [v]) == CountFiltered(verdicts) + if v.Kept? then 0 else 1
  {
    forall c ensures Count(verdicts + [v], c) == Count(verdicts, c) + if CounterOf(v) == c then 1 else 0 {
      CountSnoc(verdicts, v, c);
    }
    hide Count;
    if v.Dropped? {
      match v.reason
      case PeerCount => case BaseReturn => case Residual =>
      case VolumeHistory => case CurrentVolume => case TrailingVolume =>
      case VolumeRatio => case CloseLocation => case MissingExecutionBars =>
    }
  }

  /** Every return observation lands in exactly one terminal counter: the ten counters add up. */
  lemma {:induction false} CountersPartition(verdicts: seq<Verdict>)
    ensures CountFiltered(verdicts) + Count(verdicts, FixedSignals) == |verdicts|
    ensures Count(verdicts, FixedSignals) == |Candidates(verdicts)|
  {
    if verdicts != [] {
      hide CountFiltered;
      var front, v := verdicts[..|verdicts| - 1], verdicts[|verdicts| - 1];
      CountersPartition(front);
      CountFilteredSnoc(front, v);
      assert verdicts == front + [v];
    }
  }

  ghost predicate Counts(counters: map<Counter, nat>, verdicts: seq<Verdict>) {
    forall c {:trigger Count(verdicts, c)} :: (if c in counters then counters[c] else 0) == Count(verdicts, c)
  }

  function Bump(counters: map<Counter, nat>, c: Counter): map<Counter, nat> {
    counters[c := (if c in counters then counters[c] else 0) + 1]
  }

  lemma CountsSnoc(counters: map<Counter, nat>, verdicts: seq<Verdict>, v: Verdict)
    requires Counts(counters, verdicts)
    ensures Counts(Bump(counters, CounterOf(v)), verdicts + [v])
  {
    forall c ensures Count(verdicts + [v], c) == Count(verdicts, c) + if CounterOf(v) == c then 1 else 0 {
      CountSnoc(verdicts, v, c);
    }
    hide Count;
  }

  lemma CountsStart()
    ensures Counts(map[], [])
  {
  }

  method BuildAll(h: History, plan: Plan)
    returns (candidates: seq<Candidate>, observations: nat, counters: map<Counter, nat>)
    requires ValidPlan(plan)
    ensures candidates == BuildCandidates(h, plan)
    ensures observations == |AllVerdicts(h, plan)|
    ensures Counts(counters, AllVerdicts(h, plan))
  {
    hide JudgeFirst;
    hide ReturnsAt;
    hide Counts;
    hide Count;
    CountsStart();
    var times := SortedDistinct(ReturnTimes(h, plan));
    candidates, observations, counters := [], 0, map[];
    ghost var seen: seq<Verdict> := [];
    for i := 0 to |times|
      invariant seen == VerdictsOver(h, plan, times[..i])
      invariant candidates == Candidates(seen) && observations == |seen| && Counts(counters, seen)
    {
      assert times[..i + 1][..i] == times[..i];
      if times[i] >= plan.analysisStart {
        candidates, observations, counters, seen := BuildAt(h, plan, times[i], candidates, observations, counters, seen);
      } else {
        assert seen + [] == seen;
      }
    }
    assert times[..|times|] == times;
  }

  method BuildAt(h: History, plan: Plan, ts: int, candidates0: seq<Candidate>, observations0: nat,
                 counters0: map<Counter, nat>, ghost seen0: seq<Verdict>)
    returns (candidates: seq<Candidate>, observations: nat, counters: map<Counter, nat>, ghost seen: seq<Verdict>)
    requires ValidPlan(plan) && ts >= plan.analysisStart
    requires candidates0 == Candidates(seen0) && observations0 == |seen0| && Counts(counters0, seen0)
    ensures seen == seen0 + VerdictsAt(h, plan, ts)
    ensures candidates == Candidates(seen) && observations == |seen| && Counts(counters, seen)
  {
    hide Judge;
    hide ReturnsAt;
    hide Counts;
    candidates, observations, counters, seen := candidates0, observations0, counters0, seen0;
    var found := ReturnsAt(h, plan, ts);
    ReturnsInRange(h, plan, ts);
    for j := 0 to |found|
      invariant seen == seen0 + JudgeFirst(h, plan, ts, j)
      invariant candidates == Candidates(seen) && observations == |seen| && Counts(counters, seen)
    {
      assert found[j] in found;
      observations := observations + 1;
      var verdict := Judge(h, plan, found, j);
      CountsSnoc(counters, seen, verdict);
      counters := Bump(counters, CounterOf(verdict));
      if verdict.Kept? {
        candidates := candidates + [verdict.candidate];
      }
      assert (seen + [verdict])[..|seen|] == seen;
      assert seen0 + JudgeFirst(h, plan, ts, j + 1) == seen + [verdict];
      seen := seen + [verdict];
    }
  }

  // ---- Shape of a candidate ----

  ghost predicate Chronicle(h: History) { forall k :: 0 <= k < |h| ==> Chronological(h[k].bars) }

  /** A candidate for the bar at `ts` is entered when that bar closes, the moment the signal becomes
      observable, and is left after `hold` bars. */
  ghost predicate Timed(c: Candidate, ts: int, plan: Plan) {
    && c.entryTs == c.signalTs == ts + plan.barSec
    && c.exitTs == c.entryTs + plan.hold * plan.barSec
    && plan.barSec > 0
  }

  lemma JudgedIsTimed(s: Series, index: nat, residual: real, plan: Plan)
    requires ValidPlan(plan) && index < |s.bars| && Chronological(s.bars)
    requires JudgeBars(s, index, residual, plan).Kept?
    ensures Timed(JudgeBars(s, index, residual, plan).candidate, s.bars[index].ts, plan)
  {
    ContiguousTime(s.bars, index, index + plan.hold, plan.barSec);
    assert s.bars[index + 1].ts - s.bars[index + 1 - 1].ts == plan.barSec;
    assert s.bars[index].ts < s.bars[index + 1].ts;
  }

  lemma {:induction false} TimedAt(h: History, plan: Plan, ts: int, n: nat)
    requires ValidPlan(plan) && Chronicle(h) && n <= |ReturnsAt(h, plan, ts)|
    ensures forall c :: c in Candidates(JudgeFirst(h, plan, ts, n)) ==> Timed(c, ts, plan)
  {
    hide Median;
    hide Peers;
    hide JudgeBars;
    if n > 0 {
      TimedAt(h, plan, ts, n - 1);
      ReturnsInRange(h, plan, ts);
      var found := ReturnsAt(h, plan, ts);
      var r := found[n - 1];
      assert r in found;
      if Judge(h, plan, found, n - 1).Kept? {
        JudgedIsTimed(h[r.series], r.index, r.bps - Median(Peers(found, n - 1)), plan);
      }
    }
  }

  lemma {:induction false} CandidatesConcat(a: seq<Verdict>, b: seq<Verdict>)
    ensures Candidates(a + b) == Candidates(a) + Candidates(b)
  {
    if b == [] {
      assert a + b == a;
    } else {
      assert (a + b)[..|a + b| - 1] == a + b[..|b| - 1];
      CandidatesConcat(a, b[..|b| - 1]);
    }
  }

  lemma {:induction false} TimedOver(h: History, plan: Plan, times: seq<int>)
    requires ValidPlan(plan) && Chronicle(h)
    ensures forall c :: c in Candidates(VerdictsOver(h, plan, times)) ==> Timed(c, c.signalTs - plan.barSec, plan)
  {
    if times != [] {
      var front, ts := times[..|times| - 1], times[|times| - 1];
      TimedOver(h, plan, front);
      TimedAt(h, plan, ts, |ReturnsAt(h, plan, ts)|);
      CandidatesConcat(VerdictsOver(h, plan, front), VerdictsAt(h, plan, ts));
      assert Candidates([]) == [];
    }
  }

  // ---- Causality of the builder ----

  /** `h2` is `h` with bars added: everything in `h` is at or before `asOf`, everything new after it. */
  ghost predicate Extends(h: History, h2: History, asOf: int) {
    |h| == |h2| && forall k :: 0 <= k < |h| ==> h[k].base == h2[k].base && BarsExtend(h[k].bars, h2[k].bars, asOf)
  }

  ghost predicate BarsExtend(bars: seq<Bar>, more: seq<Bar>, asOf: int) {
    && Chronological(bars) && Chronological(more) && bars <= more
    && AllBy(bars, asOf)
    && (forall i :: |bars| <= i < |more| ==> more[i].ts > asOf)
  }

  ghost predicate AllBy(bars: seq<Bar>, asOf: int) { forall i :: 0 <= i < |bars| ==> bars[i].ts <= asOf }

  lemma {:induction false} ReturnsUnchanged(h: History, h2: History, plan: Plan, asOf: int, ts: int)
    requires Extends(h, h2, asOf) && ts <= asOf
    ensures ReturnsAt(h2, plan, ts) == ReturnsAt(h, plan, ts)
  {
    hide Contiguous;
    hide BarsExtend;
    if h != [] {
      var k := |h| - 1;
      assert Extends(h[..k], h2[..k], asOf);
      ReturnsUnchanged(h[..k], h2[..k], plan, asOf, ts);
      IndexUnchanged(h[k].bars, h2[k].bars, asOf, ts);
      var i := IndexAt(h[k].bars, ts);
      if i.Some? {
        IndexAtSound(h[k].bars, ts);
        ExtendKeepsBars(h[k].bars, h2[k].bars, asOf);
        ContiguousUnchanged(h[k].bars, h2[k].bars, i.value - plan.lookback, i.value, plan.barSec);
      }
    }
  }

  lemma ExtendKeepsBars(bars: seq<Bar>, more: seq<Bar>, asOf: int)
    requires BarsExtend(bars, more, asOf)
    ensures bars <= more && forall i :: 0 <= i < |bars| ==> more[i] == bars[i]
  {
  }

  lemma IndexUnchanged(bars: seq<Bar>, more: seq<Bar>, asOf: int, ts: int)
    requires BarsExtend(bars, more, asOf) && ts <= asOf
    ensures IndexAt(more, ts) == IndexAt(bars, ts)
  {
    IndexAtFacts(bars, ts);
    IndexAtFacts(more, ts);
  }

  lemma ContiguousUnchanged(bars: seq<Bar>, more: seq<Bar>, start: int, end: int, barSec: int)
    requires bars <= more && end < |bars|
    ensures Contiguous(more, start, end, barSec) == Contiguous(bars, start, end, barSec)
    ensures Contiguous(bars, start, end, barSec) ==> 0 <= start
  {
    assert forall i :: 0 <= i < |bars| ==> more[i] == bars[i];
  }

  /** The hold of a signal at `ts` is over by `asOf`. */
  ghost predicate Mature(ts: int, plan: Plan, asOf: int) { ts + plan.hold * plan.barSec <= asOf }

  /** On mature times the new bars change no verdict: a gap that hid the execution bars cannot be
      filled by bars that all come after `asOf`. */
  lemma {:induction false} JudgeBarsUnchanged(s: Series, s2: Series, index: nat, residual: real, plan: Plan, asOf: int)
    requires ValidPlan(plan) && s.base == s2.base && BarsExtend(s.bars, s2.bars, asOf) && index < |s.bars|
    requires Mature(s.bars[index].ts, plan, asOf)
    ensures JudgeBars(s2, index, residual, plan) == JudgeBars(s, index, residual, plan)
  {
    hide Median;
    hide Contiguous;
    hide BarsExtend;
    var bars, more, from := s.bars, s2.bars, index - plan.volumeLookback;
    ExtendKeepsBars(bars, more, asOf);
    ContiguousUnchanged(bars, more, from, index, plan.barSec);
    if from >= 0 { assert more[from..index] == bars[from..index]; }
    ExecutionUnchanged(bars, more, index, plan, asOf);
  }

  lemma ExecutionUnchanged(bars: seq<Bar>, more: seq<Bar>, index: nat, plan: Plan, asOf: int)
    requires BarsExtend(bars, more, asOf) && index < |bars| && Mature(bars[index].ts, plan, asOf)
    ensures Contiguous(more, index, index + plan.hold, plan.barSec) == Contiguous(bars, index, index + plan.hold, plan.barSec)
    ensures Contiguous(bars, index, index + plan.hold, plan.barSec) ==> index + plan.hold < |bars|
  {
    var exit := index + plan.hold;
    if exit < |bars| {
      ContiguousUnchanged(bars, more, index, exit, plan.barSec);
    } else if Contiguous(more, index, exit, plan.barSec) {
      ContiguousTime(more, index, exit, plan.barSec);
    }
  }

  lemma {:induction false} JudgeFirstUnchanged(h: History, h2: History, plan: Plan, asOf: int, ts: int, n: nat)
    requires ValidPlan(plan) && Extends(h, h2, asOf) && ts <= asOf && Mature(ts, plan, asOf)
    requires n <= |ReturnsAt(h, plan, ts)| && ReturnsAt(h2, plan, ts) == ReturnsAt(h, plan, ts)
    ensures JudgeFirst(h2, plan, ts, n) == JudgeFirst(h, plan, ts, n)
  {
    hide Median;
    hide Peers;
    hide JudgeBars;
    hide BarsExtend;
    if n > 0 {
      JudgeFirstUnchanged(h, h2, plan, asOf, ts, n - 1);
      ReturnsInRange(h, plan, ts);
      var found := ReturnsAt(h, plan, ts);
      var r := found[n - 1];
      assert r in found;
      if |Peers(found, n - 1)| >= plan.minPeers {
        JudgeBarsUnchanged(h[r.series], h2[r.series], r.index, r.bps - Median(Peers(found, n - 1)), plan, asOf);
      }
    }
  }

  /** A history has no candidate whose hold reaches past its last bar. */
  lemma ImmatureHasNone(h: History, plan: Plan, asOf: int, ts: int)
    requires ValidPlan(plan) && Chronicle(h) && !Mature(ts, plan, asOf)
    requires forall k :: 0 <= k < |h| ==> AllBy(h[k].bars, asOf)
    ensures Candidates(VerdictsAt(h, plan, ts)) == []
  {
    if ts >= plan.analysisStart {
      ImmatureFirst(h, plan, asOf, ts, |ReturnsAt(h, plan, ts)|);
    }
  }

  lemma KeptNeedsHold(s: Series, index: nat, residual: real, plan: Plan, asOf: int)
    requires ValidPlan(plan) && index < |s.bars| && AllBy(s.bars, asOf)
    requires JudgeBars(s, index, residual, plan).Kept?
    ensures Mature(s.bars[index].ts, plan, asOf)
  {
    ContiguousTime(s.bars, index, index + plan.hold, plan.barSec);
  }

  lemma ImmatureIsDropped(h: History, plan: Plan, asOf: int, ts: int, j: nat)
    requires ValidPlan(plan) && Chronicle(h) && !Mature(ts, plan, asOf) && j < |ReturnsAt(h, plan, ts)|
    requires forall k :: 0 <= k < |h| ==> AllBy(h[k].bars, asOf)
    ensures var found := ReturnsAt(h, plan, ts);
            && found[j].series < |h| && found[j].index < |h[found[j].series].bars|
            && !Judge(h, plan, found, j).Kept?
  {
    hide IndexAt, Chronological, HasReturn, Median, Peers, JudgeBars, Mature, AllBy, ReturnsAt;
    ReturnsInRange(h, plan, ts);
    var found := ReturnsAt(h, plan, ts);
    var r := found[j];
    assert r in found;
    if Judge(h, plan, found, j).Kept? {
      KeptNeedsHold(h[r.series], r.index, r.bps - Median(Peers(found, j)), plan, asOf);
    }
  }

  lemma {:induction false} ImmatureFirst(h: History, plan: Plan, asOf: int, ts: int, n: nat)
    requires ValidPlan(plan) && Chronicle(h) && !Mature(ts, plan, asOf) && n <= |ReturnsAt(h, plan, ts)|
    requires forall k :: 0 <= k < |h| ==> AllBy(h[k].bars, asOf)
    ensures Candidates(JudgeFirst(h, plan, ts, n)) == []
  {
    hide IndexAt, Chronological, HasReturn, Mature, AllBy, ReturnsAt, Judge;
    if n > 0 {
      ImmatureFirst(h, plan, asOf, ts, n - 1);
      ImmatureIsDropped(h, plan, asOf, ts, n - 1);
    }
  }

  // ---- Return times of an extended history ----

  lemma {:induction false} SeriesTimesFacts(bars: seq<Bar>, plan: Plan, n: nat)
    requires n <= |bars|
    ensures forall t :: t in SeriesTimes(bars, plan, n) <==> exists i: nat :: i < n && HasReturn(bars, i, plan) && bars[i].ts == t
  {
    hide HasReturn;
    if n > 0 {
      SeriesTimesFacts(bars, plan, n - 1);
    }
  }

  /** New bars add return times, all later than `asOf`, and remove none. */
  lemma {:induction false} ReturnTimesGrow(h: History, h2: History, plan: Plan, asOf: int) returns (added: seq<int>)
    requires Extends(h, h2, asOf)
    ensures forall t :: t in ReturnTimes(h, plan) ==> t <= asOf
    ensures forall t :: t in added ==> t > asOf
    ensures forall t :: t in ReturnTimes(h2, plan) <==> t in ReturnTimes(h, plan) || t in added
  {
    added := [];
    if h != [] {
      hide BarsExtend;
      var k := |h| - 1;
      var first := ReturnTimesGrow(h[..k], h2[..k], plan, asOf);
      var own := SeriesTimesGrow(h[k].bars, h2[k].bars, plan, asOf);
      added := first + own;
    }
  }

  lemma {:induction false} SeriesTimesGrow(bars: seq<Bar>, more: seq<Bar>, plan: Plan, asOf: int) returns (added: seq<int>)
    requires BarsExtend(bars, more, asOf)
    ensures forall t :: t in SeriesTimes(bars, plan, |bars|) ==> t <= asOf
    ensures forall t :: t in added ==> t > asOf
    ensures SeriesTimes(more, plan, |more|) == SeriesTimes(bars, plan, |bars|) + added
  {
    SeriesTimesFacts(bars, plan, |bars|);
    PrefixTimes(bars, more, plan, |bars|);
    added := LaterTimes(bars, more, plan, asOf, |more|);
  }

  lemma {:induction false} PrefixTimes(bars: seq<Bar>, more: seq<Bar>, plan: Plan, n: nat)
    requires bars <= more && n <= |bars|
    ensures SeriesTimes(more, plan, n) == SeriesTimes(bars, plan, n)
  {
    if n > 0 {
      PrefixTimes(bars, more, plan, n - 1);
      ContiguousUnchanged(bars, more, n - 1 - plan.lookback, n - 1, plan.barSec);
    }
  }

  lemma {:induction false} LaterTimes(bars: seq<Bar>, more: seq<Bar>, plan: Plan, asOf: int, n: nat) returns (added: seq<int>)
    requires BarsExtend(bars, more, asOf) && |bars| <= n <= |more|
    ensures forall t :: t in added ==> t > asOf
    ensures SeriesTimes(more, plan, n) == SeriesTimes(more, plan, |bars|) + added
  {
    hide HasReturn;
    added := [];
    if n > |bars| {
      var before := LaterTimes(bars, more, plan, asOf, n - 1);
      added := before + if HasReturn(more, n - 1, plan) then [more[n - 1].ts] else [];
    }
  }

  // ---- Candidates of an extended history ----

  /** What the builder does at old times after the extension: mature times give the same candidates,
      the rest gives only candidates that the shorter history could not have had yet. */
  lemma {:induction false} OldTimesAgree(h: History, h2: History, plan: Plan, asOf: int, times: seq<int>)
    returns (rest: seq<Candidate>)
    requires ValidPlan(plan) && Extends(h, h2, asOf) && Increasing(times)
    requires forall t :: t in times ==> t <= asOf
    ensures Candidates(VerdictsOver(h2, plan, times)) == Candidates(VerdictsOver(h, plan, times)) + rest
    ensures forall c :: c in rest ==> !Mature(c.signalTs - plan.barSec, plan, asOf)
    ensures forall c :: c in Candidates(VerdictsOver(h, plan, times)) ==> Mature(c.signalTs - plan.barSec, plan, asOf)
    ensures (forall t :: t in times ==> Mature(t, plan, asOf)) ==> rest == []
  {
    hide Extends;
    hide Chronicle;
    hide Mature;
    hide VerdictsAt;
    hide Increasing;
    rest := [];
    if times != [] {
      var front, ts := times[..|times| - 1], times[|times| - 1];
      assert times == front + [ts];
      assert ts in times && forall t :: t in front ==> t in times;
      IncreasingFront(times);
      var before := OldTimesAgree(h, h2, plan, asOf, front);
      CandidatesConcat(VerdictsOver(h, plan, front), VerdictsAt(h, plan, ts));
      CandidatesConcat(VerdictsOver(h2, plan, front), VerdictsAt(h2, plan, ts));
      hide VerdictsOver, Candidates;
      if Mature(ts, plan, asOf) {
        EarlierIsMature(front, ts, plan, asOf);
        MatureTimeAgrees(h, h2, plan, asOf, ts);
      } else {
        ImmatureTimeAdds(h, h2, plan, asOf, ts);
        rest := before + Candidates(VerdictsAt(h2, plan, ts));
      }
    }
  }

  lemma MatureTimeAgrees(h: History, h2: History, plan: Plan, asOf: int, ts: int)
    requires ValidPlan(plan) && Extends(h, h2, asOf) && ts <= asOf && Mature(ts, plan, asOf)
    ensures Candidates(VerdictsAt(h2, plan, ts)) == Candidates(VerdictsAt(h, plan, ts))
    ensures forall c :: c in Candidates(VerdictsAt(h, plan, ts)) ==> Mature(c.signalTs - plan.barSec, plan, asOf)
  {
    hide Extends, Chronicle, Mature, VerdictsAt, Candidates;
    ExtendsMeansChronicle(h, h2, asOf);
    TimedVerdicts(h, plan, asOf, ts);
    SameVerdicts(h, h2, plan, asOf, ts);
  }

  lemma ImmatureTimeAdds(h: History, h2: History, plan: Plan, asOf: int, ts: int)
    requires ValidPlan(plan) && Extends(h, h2, asOf) && !Mature(ts, plan, asOf)
    ensures Candidates(VerdictsAt(h, plan, ts)) == []
    ensures forall c :: c in Candidates(VerdictsAt(h2, plan, ts)) ==> !Mature(c.signalTs - plan.barSec, plan, asOf)
  {
    hide Extends, Chronicle, Mature, VerdictsAt, Candidates;
    ExtendsMeansChronicle(h, h2, asOf);
    TimedVerdicts(h2, plan, asOf, ts);
    ImmatureHasNone(h, plan, asOf, ts);
  }

  lemma ExtendsMeansChronicle(h: History, h2: History, asOf: int)
    requires Extends(h, h2, asOf)
    ensures Chronicle(h) && Chronicle(h2) && forall k :: 0 <= k < |h| ==> AllBy(h[k].bars, asOf)
  {
  }

  lemma IncreasingFront(times: seq<int>)
    requires Increasing(times) && times != []
    ensures Increasing(times[..|times| - 1])
  {
  }

  lemma EarlierIsMature(front: seq<int>, ts: int, plan: Plan, asOf: int)
    requires Increasing(front + [ts]) && Mature(ts, plan, asOf)
    ensures forall t :: t in front ==> Mature(t, plan, asOf)
  {
    var times := front + [ts];
    forall i | 0 <= i < |front| ensures Mature(front[i], plan, asOf) {
      assert times[i] < times[|front|];
    }
  }

  lemma TimedVerdicts(h: History, plan: Plan, asOf: int, ts: int)
    requires ValidPlan(plan) && Chronicle(h)
    ensures forall c :: c in Candidates(VerdictsAt(h, plan, ts)) ==>
              (Mature(c.signalTs - plan.barSec, plan, asOf) <==> Mature(ts, plan, asOf))
  {
    TimedAt(h, plan, ts, |ReturnsAt(h, plan, ts)|);
    assert Candidates([]) == [];
  }

  lemma SameVerdicts(h: History, h2: History, plan: Plan, asOf: int, ts: int)
    requires ValidPlan(plan) && Extends(h, h2, asOf) && ts <= asOf && Mature(ts, plan, asOf)
    ensures VerdictsAt(h2, plan, ts) == VerdictsAt(h, plan, ts)
  {
    ReturnsUnchanged(h, h2, plan, asOf, ts);
    JudgeFirstUnchanged(h, h2, plan, asOf, ts, |ReturnsAt(h, plan, ts)|);
  }

  lemma {:induction false} VerdictsOverConcat(h: History, plan: Plan, a: seq<int>, b: seq<int>)
    requires ValidPlan(plan)
    ensures VerdictsOver(h, plan, a + b) == VerdictsOver(h, plan, a) + VerdictsOver(h, plan, b)
  {
    if b == [] {
      assert a + b == a;
    } else {
      hide VerdictsAt;
      var front, last := b[..|b| - 1], b[|b| - 1];
      assert (a + b)[..|a + b| - 1] == a + front && (a + b)[|a + b| - 1] == last;
      VerdictsOverConcat(h, plan, a, front);
      ConcatAssociative(VerdictsOver(h, plan, a), VerdictsOver(h, plan, front), VerdictsAt(h, plan, last));
    }
  }

  lemma NewTimeImmature(h: History, plan: Plan, asOf: int, ts: int)
    requires ValidPlan(plan) && Chronicle(h) && ts > asOf
    ensures forall c :: c in Candidates(VerdictsAt(h, plan, ts)) ==> !Mature(c.signalTs - plan.barSec, plan, asOf)
  {
    TimedAt(h, plan, ts, |ReturnsAt(h, plan, ts)|);
    assert Candidates([]) == [];
    forall c | c in Candidates(VerdictsAt(h, plan, ts)) ensures !Mature(c.signalTs - plan.barSec, plan, asOf) {
      assert Timed(c, ts, plan);
      assert plan.hold * plan.barSec >= 0;
    }
  }

  /** New times are too late to be mature at `asOf`. */
  lemma {:induction false} NewTimesImmature(h: History, plan: Plan, asOf: int, times: seq<int>)
    requires ValidPlan(plan) && Chronicle(h)
    requires forall t :: t in times ==> t > asOf
    ensures forall c :: c in Candidates(VerdictsOver(h, plan, times)) ==> !Mature(c.signalTs - plan.barSec, plan, asOf)
  {
    if times != [] {
      hide VerdictsAt;
      hide Chronicle;
      hide Mature;
      var front, ts := times[..|times| - 1], times[|times| - 1];
      assert times == front + [ts];
      assert ts in times && forall t :: t in front ==> t in times;
      NewTimesImmature(h, plan, asOf, front);
      NewTimeImmature(h, plan, asOf, ts);
      CandidatesConcat(VerdictsOver(h, plan, front), VerdictsAt(h, plan, ts));
    }
  }

  /** Signal causality: bars that all come after `asOf` leave the candidates as a prefix, and every
      new candidate signals strictly later than every old one. */
  lemma CandidatesAreCausal(h: History, h2: History, plan: Plan, asOf: int) returns (rest: seq<Candidate>)
    requires ValidPlan(plan) && Extends(h, h2, asOf)
    ensures BuildCandidates(h2, plan) == BuildCandidates(h, plan) + rest
    ensures forall c, d :: c in BuildCandidates(h, plan) && d in rest ==> c.signalTs < d.signalTs
  {
    hide Extends;
    hide Chronicle;
    hide Increasing;
    hide VerdictsOver;
    hide Candidates;
    hide ReturnTimes;
    hide SortedDistinct;
    ExtendsMeansChronicle(h, h2, asOf);
    var times := SortedDistinct(ReturnTimes(h, plan));
    SortedDistinctFacts(ReturnTimes(h, plan));
    var added := ReturnTimesGrow(h, h2, plan, asOf);
    SortedDistinctFacts(added);
    SortedDistinctConcat(ReturnTimes(h, plan), added, ReturnTimes(h2, plan));
    var late := SortedDistinct(added);
    VerdictsOverConcat(h2, plan, times, late);
    CandidatesConcat(VerdictsOver(h2, plan, times), VerdictsOver(h2, plan, late));
    var pending := OldTimesAgree(h, h2, plan, asOf, times);
    NewTimesImmature(h2, plan, asOf, late);
    rest := pending + Candidates(VerdictsOver(h2, plan, late));
    assert BuildCandidates(h2, plan) == (BuildCandidates(h, plan) + pending) + Candidates(VerdictsOver(h2, plan, late));
    forall c, d | c in BuildCandidates(h, plan) && d in rest ensures c.signalTs < d.signalTs {
      assert Mature(c.signalTs - plan.barSec, plan, asOf);
      assert !Mature(d.signalTs - plan.barSec, plan, asOf);
    }
  }
}

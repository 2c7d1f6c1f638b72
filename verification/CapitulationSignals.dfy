/** Signals of the cross-sectional capitulation study: from bar histories to trade candidates. */
module CapitulationSignals {
  import opened Sequences
  import opened StableSort
  import opened Timeline

  datatype Bar = Bar(ts: int, open: Price, high: Price, low: Price, close: Price, volume: real)

  /** One base with its bars; the program's dict keeps the bases in one fixed order. */
  datatype Series = Series(base: string, bars: seq<Bar>)

  type History = seq<Series>

  datatype Plan = Plan(
    barSec: int, lookback: nat, volumeLookback: nat, hold: nat, analysisStart: int, minPeers: nat,
    baseReturnMax: real, residualMax: real, minVolume: real, minTrailingVolume: real, minVolumeRatio: real,
    closeLocationMin: real, cooldownBars: nat, maxPositions: nat,
    normalCostBps: real, stressCostBps: real, notional: real)

  /** The part of the plan validation that the builder relies on. */
  predicate ValidPlan(p: Plan) {
    && p.lookback > 0 && p.volumeLookback > 0 && p.hold > 0 && p.minPeers > 0
    && p.cooldownBars > 0 && p.maxPositions > 0
  }

  datatype Candidate = Candidate(
    base: string, signalTs: int, entryTs: int, exitTs: int, entryPrice: Price, exitPrice: Price, residual: real)

  /** A base with a return at some time: its position in the history, the bar's index, the return. */
  datatype Return = Return(series: nat, index: nat, bps: real)

  datatype Reason =
    | PeerCount | BaseReturn | Residual | VolumeHistory | CurrentVolume | TrailingVolume
    | VolumeRatio | CloseLocation | MissingExecutionBars

  datatype Verdict = Dropped(reason: Reason) | Kept(candidate: Candidate)

  // ---- Bars ----

  predicate BarNotLater(a: Bar, b: Bar) { a.ts <= b.ts }

  predicate Chronological(bars: seq<Bar>) { forall i, j :: 0 <= i < j < |bars| ==> bars[i].ts < bars[j].ts }

  predicate Contiguous(bars: seq<Bar>, start: int, end: int, barSec: int) {
    0 <= start <= end < |bars| && forall i :: start < i <= end ==> bars[i].ts - bars[i - 1].ts == barSec
  }

  lemma {:induction false} ContiguousTime(bars: seq<Bar>, start: int, end: int, barSec: int)
    requires Contiguous(bars, start, end, barSec)
    ensures bars[end].ts == bars[start].ts + (end - start) * barSec
    decreases end - start
  {
    if start < end {
      ContiguousTime(bars, start, end - 1, barSec);
      assert (end - start) * barSec == (end - 1 - start) * barSec + barSec;
    }
  }

  function BarsAt(bars: seq<Bar>, ts: int): seq<Bar> {
    if bars == [] then []
    else BarsAt(bars[..|bars| - 1], ts) + if bars[|bars| - 1].ts == ts then [bars[|bars| - 1]] else []
  }

  /** Dropping every bar that repeats the timestamp of the one kept before it. */
  function Dedupe(sorted: seq<Bar>): seq<Bar> {
    if sorted == [] then []
    else
      var kept, bar := Dedupe(sorted[..|sorted| - 1]), sorted[|sorted| - 1];
      if kept != [] && kept[|kept| - 1].ts == bar.ts then kept else kept + [bar]
  }

  method SortAndDedupe(rows: seq<Bar>) returns (bars: seq<Bar>, duplicates: nat)
    ensures bars == Dedupe(Sort(rows, BarNotLater))
    ensures |bars| + duplicates == |rows|
  {
    var sorted := Sort(rows, BarNotLater);
    bars, duplicates := [], 0;
    for i := 0 to |sorted|
      invariant |bars| + duplicates == i
      invariant bars == Dedupe(sorted[..i])
    {
      assert sorted[..i + 1][..i] == sorted[..i];
      if bars != [] && sorted[i].ts == bars[|bars| - 1].ts {
        duplicates := duplicates + 1;
      } else {
        bars := bars + [sorted[i]];
      }
    }
    assert sorted[..|sorted|] == sorted;
  }

  lemma {:induction false} InsertBarsAt(s: seq<Bar>, x: Bar, ts: int)
    requires Sorted(s, BarNotLater)
    ensures BarsAt(Insert(s, x, BarNotLater), ts) == BarsAt(s, ts) + if x.ts == ts then [x] else []
  {
    if s == [] || BarNotLater(s[|s| - 1], x) {
      assert (s + [x])[..|s|] == s;
    } else {
      var front, last := s[..|s| - 1], s[|s| - 1];
      InsertBarsAt(front, x, ts);
      assert (Insert(front, x, BarNotLater) + [last])[..|s|] == Insert(front, x, BarNotLater);
    }
  }

  lemma {:induction false} SortKeepsBarsAt(rows: seq<Bar>, ts: int)
    ensures Sorted(Sort(rows, BarNotLater), BarNotLater)
    ensures BarsAt(Sort(rows, BarNotLater), ts) == BarsAt(rows, ts)
  {
    SortIsOrderedPermutation(rows, BarNotLater);
    if rows != [] {
      SortKeepsBarsAt(rows[..|rows| - 1], ts);
      InsertBarsAt(Sort(rows[..|rows| - 1], BarNotLater), rows[|rows| - 1], ts);
    }
  }

  lemma {:induction false} DedupeChronological(s: seq<Bar>)
    requires Sorted(s, BarNotLater)
    ensures Chronological(Dedupe(s)) && (s != [] ==> Dedupe(s) != [] && Dedupe(s)[|Dedupe(s)| - 1].ts == s[|s| - 1].ts)
  {
    if s != [] {
      SortedEnds(s);
      hide Sorted;
      DedupeChronological(s[..|s| - 1]);
    }
  }

  lemma {:induction false} DedupeKeepsFirst(s: seq<Bar>, ts: int)
    requires Sorted(s, BarNotLater)
    ensures BarsAt(Dedupe(s), ts) == if BarsAt(s, ts) == [] then [] else [BarsAt(s, ts)[0]]
  {
    if s != [] {
      var front, bar := s[..|s| - 1], s[|s| - 1];
      DedupeKeepsFirst(front, ts);
      DedupeChronological(front);
      var kept := Dedupe(front);
      hide Sorted;
      hide Chronological;
      if kept == [] || kept[|kept| - 1].ts != bar.ts {
        assert (kept + [bar])[..|kept|] == kept;
        assert BarsAt(front, bar.ts) == [] by {
          if front != [] {
            assert BarNotLater(front[|front| - 1], bar) by { assert Sorted(s, BarNotLater); SortedEnds(s); }
            NoBarsAbove(front, bar.ts);
          }
        }
      }
    }
  }

  lemma SortedEnds(s: seq<Bar>)
    requires Sorted(s, BarNotLater)
    ensures |s| >= 2 ==> BarNotLater(s[|s| - 2], s[|s| - 1])
    ensures s != [] ==> Sorted(s[..|s| - 1], BarNotLater)
  {
  }

  lemma {:induction false} NoBarsAbove(s: seq<Bar>, ts: int)
    requires Sorted(s, BarNotLater) && (s != [] ==> s[|s| - 1].ts < ts)
    ensures BarsAt(s, ts) == []
  {
    if s != [] {
      NoBarsAbove(s[..|s| - 1], ts);
    }
  }

  /** Loaded bars are strictly chronological, and for every timestamp the one kept is the first that
      the file gives for it, wherever in the file it stands. */
  lemma LoadingKeepsFirstBars(rows: seq<Bar>, ts: int)
    ensures Chronological(Dedupe(Sort(rows, BarNotLater)))
    ensures BarsAt(Dedupe(Sort(rows, BarNotLater)), ts) == if BarsAt(rows, ts) == [] then [] else [BarsAt(rows, ts)[0]]
  {
    SortKeepsBarsAt(rows, ts);
    DedupeChronological(Sort(rows, BarNotLater));
    DedupeKeepsFirst(Sort(rows, BarNotLater), ts);
  }

  function IndexAt(bars: seq<Bar>, ts: int): Option<nat> {
    if bars == [] then None
    else if bars[|bars| - 1].ts == ts then Some(|bars| - 1)
    else IndexAt(bars[..|bars| - 1], ts)
  }

  lemma {:induction false} IndexAtFacts(bars: seq<Bar>, ts: int)
    requires Chronological(bars)
    ensures var i := IndexAt(bars, ts);
            && (i.Some? ==> i.value < |bars| && bars[i.value].ts == ts)
            && (forall k :: 0 <= k < |bars| && bars[k].ts == ts ==> i == Some(k))
  {
    if bars != [] && bars[|bars| - 1].ts != ts {
      IndexAtFacts(bars[..|bars| - 1], ts);
      assert forall k :: 0 <= k < |bars| - 1 ==> bars[..|bars| - 1][k] == bars[k];
    }
  }

  // ---- Returns ----

  predicate HasReturn(bars: seq<Bar>, i: nat, plan: Plan) {
    i >= plan.lookback && Contiguous(bars, i - plan.lookback, i, plan.barSec)
  }

  function ReturnBps(bars: seq<Bar>, i: nat, plan: Plan): real
    requires HasReturn(bars, i, plan)
  {
    (bars[i].close / bars[i - plan.lookback].close - 1.0) * 10_000.0
  }

  /** The returns of one timestamp, in the order of the bases. */
  function ReturnsAt(h: History, plan: Plan, ts: int): seq<Return> {
    if h == [] then []
    else
      var k := |h| - 1;
      var i := IndexAt(h[k].bars, ts);
      ReturnsAt(h[..k], plan, ts)
      + if i.Some? && HasReturn(h[k].bars, i.value, plan) then [Return(k, i.value, ReturnBps(h[k].bars, i.value, plan))] else []
  }

  predicate NotAbove(a: real, b: real) { a <= b }

  function Median(values: seq<real>): real
    requires values != []
  {
    var s := Sort(values, NotAbove);
    if |s| % 2 == 1 then s[|s| / 2] else (s[|s| / 2 - 1] + s[|s| / 2]) / 2.0
  }

  function Bps(found: seq<Return>): seq<real> {
    if found == [] then [] else Bps(found[..|found| - 1]) + [found[|found| - 1].bps]
  }

  function Peers(found: seq<Return>, j: nat): seq<real>
    requires j < |found|
  {
    Bps(found[..j] + found[j + 1..])
  }

  function Volumes(bars: seq<Bar>): (r: seq<real>)
    ensures |r| == |bars|
  {
    if bars == [] then [] else Volumes(bars[..|bars| - 1]) + [bars[|bars| - 1].volume]
  }

  // ---- One return observation ----

  /** The filters behind the two return tests; they look at one base only. */
  function JudgeBars(s: Series, index: nat, residual: real, plan: Plan): Verdict
    requires ValidPlan(plan) && index < |s.bars|
  {
    var bars, from := s.bars, index - plan.volumeLookback;
    if !Contiguous(bars, from, index, plan.barSec) then Dropped(VolumeHistory)
    else
      var current, trailing := bars[index], Median(Volumes(bars[from..index]));
      if current.volume < plan.minVolume then Dropped(CurrentVolume)
      else if trailing < plan.minTrailingVolume then Dropped(TrailingVolume)
      else if trailing > 0.0 && current.volume / trailing < plan.minVolumeRatio then Dropped(VolumeRatio)
      else if CloseLocationOf(current) < plan.closeLocationMin then Dropped(CloseLocation)
      else if !Contiguous(bars, index, index + plan.hold, plan.barSec) then Dropped(MissingExecutionBars)
      else
        var exit := bars[index + plan.hold];
        Kept(Candidate(s.base, current.ts + plan.barSec, bars[index + 1].ts, exit.ts + plan.barSec,
                       bars[index + 1].open, exit.close, residual))
  }

  function CloseLocationOf(b: Bar): real {
    if b.high - b.low > 0.0 then (b.close - b.low) / (b.high - b.low) else 0.0
  }

  function Judge(h: History, plan: Plan, found: seq<Return>, j: nat): Verdict
    requires ValidPlan(plan) && j < |found|
    requires found[j].series < |h| && found[j].index < |h[found[j].series].bars|
  {
    var peers := Peers(found, j);
    if |peers| < plan.minPeers then Dropped(PeerCount)
    else
      var residual := found[j].bps - Median(peers);
      if found[j].bps > plan.baseReturnMax then Dropped(BaseReturn)
      else if residual > plan.residualMax then Dropped(Residual)
      else JudgeBars(h[found[j].series], found[j].index, residual, plan)
  }

  lemma {:induction false} ReturnsInRange(h: History, plan: Plan, ts: int)
    ensures forall r :: r in ReturnsAt(h, plan, ts) ==>
              r.series < |h| && r.index < |h[r.series].bars| && h[r.series].bars[r.index].ts == ts
  {
    if h != [] {
      ReturnsInRange(h[..|h| - 1], plan, ts);
      IndexAtSound(h[|h| - 1].bars, ts);
    }
  }

  lemma {:induction false} IndexAtSound(bars: seq<Bar>, ts: int)
    ensures IndexAt(bars, ts).Some? ==> IndexAt(bars, ts).value < |bars| && bars[IndexAt(bars, ts).value].ts == ts
  {
    if bars != [] && bars[|bars| - 1].ts != ts {
      IndexAtSound(bars[..|bars| - 1], ts);
    }
  }

  // ---- All observations, in the program's order ----

  function JudgeFirst(h: History, plan: Plan, ts: int, n: nat): seq<Verdict>
    requires ValidPlan(plan) && n <= |ReturnsAt(h, plan, ts)|
  {
    if n == 0 then []
    else
      ReturnsInRange(h, plan, ts);
      assert ReturnsAt(h, plan, ts)[n - 1] in ReturnsAt(h, plan, ts);
      JudgeFirst(h, plan, ts, n - 1) + [Judge(h, plan, ReturnsAt(h, plan, ts), n - 1)]
  }

  function VerdictsAt(h: History, plan: Plan, ts: int): seq<Verdict>
    requires ValidPlan(plan)
  {
    if ts < plan.analysisStart then [] else JudgeFirst(h, plan, ts, |ReturnsAt(h, plan, ts)|)
  }

  function VerdictsOver(h: History, plan: Plan, times: seq<int>): seq<Verdict>
    requires ValidPlan(plan)
  {
    if times == [] then []
    else VerdictsOver(h, plan, times[..|times| - 1]) + VerdictsAt(h, plan, times[|times| - 1])
  }

  function SeriesTimes(bars: seq<Bar>, plan: Plan, n: nat): seq<int>
    requires n <= |bars|
  {
    if n == 0 then []
    else SeriesTimes(bars, plan, n - 1) + if HasReturn(bars, n - 1, plan) then [bars[n - 1].ts] else []
  }

  function ReturnTimes(h: History, plan: Plan): seq<int> {
    if h == [] then [] else ReturnTimes(h[..|h| - 1], plan) + SeriesTimes(h[|h| - 1].bars, plan, |h[|h| - 1].bars|)
  }

  function AllVerdicts(h: History, plan: Plan): seq<Verdict>
    requires ValidPlan(plan)
  {
    VerdictsOver(h, plan, SortedDistinct(ReturnTimes(h, plan)))
  }

  function Candidates(verdicts: seq<Verdict>): seq<Candidate> {
    if verdicts == [] then []
    else Candidates(verdicts[..|verdicts| - 1])
         + if verdicts[|verdicts| - 1].Kept? then [verdicts[|verdicts| - 1].candidate] else []
  }

  function BuildCandidates(h: History, plan: Plan): seq<Candidate>
    requires ValidPlan(plan)
  {
    Candidates(AllVerdicts(h, plan))
  }
}

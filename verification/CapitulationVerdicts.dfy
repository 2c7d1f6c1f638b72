/** What each verdict on a return observation means, told from the bars. */
module CapitulationVerdicts {
  import opened Sequences
  import opened StableSort
  import opened Timeline
  import opened CapitulationSignals
  import opened CapitulationBuilder
  import opened CapitulationMedian

  // ---- The returns of one time ----

  /** Bars one bar length apart from `first` to `last`, all of them there. */
  ghost predicate Unbroken(bars: seq<Bar>, first: int, last: int, barSec: int) {
    && 0 <= first <= last < |bars|
    && forall i :: first <= i < last ==> bars[i + 1].ts == bars[i].ts + barSec
  }

  lemma ContiguousIsUnbroken(bars: seq<Bar>, first: int, last: int, barSec: int)
    ensures Contiguous(bars, first, last, barSec) <==> Unbroken(bars, first, last, barSec)
  {
    if Contiguous(bars, first, last, barSec) {
      forall i | first <= i < last ensures bars[i + 1].ts == bars[i].ts + barSec {
        assert bars[i + 1].ts - bars[i + 1 - 1].ts == barSec;
      }
    }
  }

  /** The base has a return at `ts`: a bar of that time behind an unbroken lookback. */
  ghost predicate Observed(bars: seq<Bar>, i: nat, ts: int, plan: Plan) {
    i < |bars| && bars[i].ts == ts && Unbroken(bars, i - plan.lookback, i, plan.barSec)
  }

  /** In basis points, the change of the close over the lookback relative to the earlier close: a fall is
      negative. */
  ghost predicate IsReturn(bps: real, was: Price, close: Price) { bps * was == 10_000.0 * (close - was) }

  lemma ReturnIsRelative(bars: seq<Bar>, i: nat, plan: Plan)
    requires HasReturn(bars, i, plan)
    ensures IsReturn(ReturnBps(bars, i, plan), bars[i - plan.lookback].close, bars[i].close)
  {
    var was, ratio := bars[i - plan.lookback].close, bars[i].close / bars[i - plan.lookback].close;
    assert ratio * was == bars[i].close;
  }

  ghost predicate RightReturn(bars: seq<Bar>, r: Return, ts: int, plan: Plan) {
    && Observed(bars, r.index, ts, plan)
    && IsReturn(r.bps, bars[r.index - plan.lookback].close, bars[r.index].close)
  }

  ghost predicate HasObserved(bars: seq<Bar>, ts: int, plan: Plan) { exists i: nat :: Observed(bars, i, ts, plan) }

  ghost predicate Covered(found: seq<Return>, k: nat) { exists j :: 0 <= j < |found| && found[j].series == k }

  /** One return for each base that has one, in the order of the bases, and no other. */
  ghost predicate IsCrossSection(h: History, plan: Plan, ts: int, found: seq<Return>) {
    && (forall j :: 0 <= j < |found| ==>
          found[j].series < |h| && RightReturn(h[found[j].series].bars, found[j], ts, plan))
    && (forall i, j :: 0 <= i < j < |found| ==> found[i].series < found[j].series)
    && (forall k :: 0 <= k < |h| && HasObserved(h[k].bars, ts, plan) ==> Covered(found, k))
  }

  /** The return of one base, if it has one. */
  function OwnReturn(bars: seq<Bar>, k: nat, plan: Plan, ts: int): seq<Return> {
    var i := IndexAt(bars, ts);
    if i.Some? && HasReturn(bars, i.value, plan) then [Return(k, i.value, ReturnBps(bars, i.value, plan))] else []
  }

  lemma OwnReturnIsRight(bars: seq<Bar>, k: nat, plan: Plan, ts: int)
    requires Chronological(bars)
    ensures var own := OwnReturn(bars, k, plan, ts);
            && (own == [] ==> !HasObserved(bars, ts, plan))
            && (own != [] ==> |own| == 1 && own[0].series == k && RightReturn(bars, own[0], ts, plan))
  {
    IndexAtFacts(bars, ts);
    hide Chronological, IndexAt, ReturnBps;
    var i := IndexAt(bars, ts);
    if i.Some? {
      ContiguousIsUnbroken(bars, i.value - plan.lookback, i.value, plan.barSec);
      hide Contiguous, Unbroken;
      if HasReturn(bars, i.value, plan) { ReturnIsRelative(bars, i.value, plan); }
    }
  }

  lemma SectionSnoc(h: History, s: Series, plan: Plan, ts: int, before: seq<Return>, own: seq<Return>)
    requires IsCrossSection(h, plan, ts, before)
    requires own == [] ==> !HasObserved(s.bars, ts, plan)
    requires own != [] ==> |own| == 1 && own[0].series == |h| && RightReturn(s.bars, own[0], ts, plan)
    ensures IsCrossSection(h + [s], plan, ts, before + own)
  {
    hide RightReturn, HasObserved;
    var longer, found := h + [s], before + own;
    forall k | 0 <= k < |longer| && HasObserved(longer[k].bars, ts, plan) ensures Covered(found, k) {
      if k < |h| {
        assert Covered(before, k);
        var j :| 0 <= j < |before| && before[j].series == k;
        assert found[j].series == k;
      } else {
        assert found[|before|].series == k;
      }
    }
  }

  lemma {:induction false} ReturnsAreTheCrossSection(h: History, plan: Plan, ts: int)
    requires Chronicle(h)
    ensures IsCrossSection(h, plan, ts, ReturnsAt(h, plan, ts))
  {
    if h != [] {
      var k := |h| - 1;
      ReturnsAreTheCrossSection(h[..k], plan, ts);
      assert h == h[..k] + [h[k]];
      assert Chronological(h[k].bars);
      hide Chronological, IsCrossSection, HasReturn, IndexAt;
      OwnReturnIsRight(h[k].bars, k, plan, ts);
      SectionSnoc(h[..k], h[k], plan, ts, ReturnsAt(h[..k], plan, ts), OwnReturn(h[k].bars, k, plan, ts));
    }
  }

  /** The peers of an observation are the other returns of its time, in their order. */
  lemma PeersAreTheOthers(found: seq<Return>, j: nat)
    requires j < |found|
    ensures |Peers(found, j)| == |found| - 1
    ensures forall i :: 0 <= i < |found| - 1 ==> Peers(found, j)[i] == found[if i < j then i else i + 1].bps
  {
    BpsAt(found[..j] + found[j + 1..]);
  }

  lemma {:induction false} BpsAt(found: seq<Return>)
    ensures |Bps(found)| == |found| && forall i :: 0 <= i < |found| ==> Bps(found)[i] == found[i].bps
  {
    if found != [] { BpsAt(found[..|found| - 1]); }
  }

  lemma {:induction false} VolumesAt(bars: seq<Bar>)
    ensures forall i :: 0 <= i < |bars| ==> Volumes(bars)[i] == bars[i].volume
  {
    if bars != [] { VolumesAt(bars[..|bars| - 1]); }
  }

  // ---- The filters ----

  /** Their order. */
  function Rank(r: Reason): nat {
    match r
    case PeerCount => 0 case BaseReturn => 1 case Residual => 2 case VolumeHistory => 3 case CurrentVolume => 4
    case TrailingVolume => 5 case VolumeRatio => 6 case CloseLocation => 7 case MissingExecutionBars => 8
  }

  function TrailingVolumes(bars: seq<Bar>, index: nat, plan: Plan): (r: seq<real>)
    requires plan.volumeLookback <= index <= |bars|
    ensures |r| == plan.volumeLookback && forall i :: 0 <= i < |r| ==> r[i] == bars[index - plan.volumeLookback + i].volume
  {
    VolumesAt(bars[index - plan.volumeLookback..index]);
    Volumes(bars[index - plan.volumeLookback..index])
  }

  /** What it takes to fail a filter, with `own` the base's return and `peers` those of the others. */
  ghost predicate Fails(bars: seq<Bar>, index: nat, own: real, peers: seq<real>, plan: Plan, r: Reason)
    requires ValidPlan(plan) && index < |bars|
  {
    match r
    case PeerCount => |peers| < plan.minPeers
    case BaseReturn => own > plan.baseReturnMax
    case Residual => peers != [] && own - Median(peers) > plan.residualMax
    case VolumeHistory => !Unbroken(bars, index - plan.volumeLookback, index, plan.barSec)
    case CurrentVolume => bars[index].volume < plan.minVolume
    case TrailingVolume =>
      plan.volumeLookback <= index && Median(TrailingVolumes(bars, index, plan)) < plan.minTrailingVolume
    case VolumeRatio =>
      && plan.volumeLookback <= index
      && var trailing := Median(TrailingVolumes(bars, index, plan));
         trailing > 0.0 && bars[index].volume < plan.minVolumeRatio * trailing
    case CloseLocation =>
      var range := bars[index].high - bars[index].low;
      if range > 0.0 then bars[index].close - bars[index].low < plan.closeLocationMin * range else 0.0 < plan.closeLocationMin
    case MissingExecutionBars => !Unbroken(bars, index, index + plan.hold, plan.barSec)
  }

  lemma BelowRatio(a: real, b: real, ratio: real)
    requires b > 0.0
    ensures a / b < ratio <==> a < ratio * b
  {
    var q := a / b;
    assert q * b == a;
    if q < ratio { assert (ratio - q) * b > 0.0; } else { assert (q - ratio) * b >= 0.0; }
  }

  /** The first filter that an observation fails, if it fails one. */
  ghost predicate FailsFirst(bars: seq<Bar>, index: nat, own: real, peers: seq<real>, plan: Plan, r: Reason)
    requires ValidPlan(plan) && index < |bars|
  {
    && Fails(bars, index, own, peers, plan, r)
    && forall q: Reason :: Rank(q) < Rank(r) ==> !Fails(bars, index, own, peers, plan, q)
  }

  ghost predicate FailsNone(bars: seq<Bar>, index: nat, own: real, peers: seq<real>, plan: Plan)
    requires ValidPlan(plan) && index < |bars|
  {
    forall q: Reason :: !Fails(bars, index, own, peers, plan, q)
  }

  /** The signal of an observation that fails nothing: seen when its bar closes, entered at the next open,
      left at the close of the last bar held. */
  ghost predicate Signals(s: Series, index: nat, own: real, peers: seq<real>, plan: Plan, c: Candidate)
    requires peers != [] && index + plan.hold < |s.bars| && plan.hold > 0
  {
    && c.base == s.base && c.residual == own - Median(peers)
    && c.signalTs == s.bars[index].ts + plan.barSec
    && c.entryTs == s.bars[index + 1].ts && c.entryPrice == s.bars[index + 1].open
    && c.exitTs == s.bars[index + plan.hold].ts + plan.barSec && c.exitPrice == s.bars[index + plan.hold].close
  }

  lemma BarFilters(s: Series, index: nat, own: real, peers: seq<real>, residual: real, plan: Plan)
    requires ValidPlan(plan) && index < |s.bars| && peers != [] && residual == own - Median(peers)
    ensures match JudgeBars(s, index, residual, plan)
            case Dropped(r) =>
              && 3 <= Rank(r) && Fails(s.bars, index, own, peers, plan, r)
              && forall q: Reason :: 3 <= Rank(q) < Rank(r) ==> !Fails(s.bars, index, own, peers, plan, q)
            case Kept(c) =>
              && (forall q: Reason :: 3 <= Rank(q) ==> !Fails(s.bars, index, own, peers, plan, q))
              && index + plan.hold < |s.bars| && Signals(s, index, own, peers, plan, c)
  {
    hide Median, Contiguous, Unbroken;
    var bars := s.bars;
    ContiguousIsUnbroken(bars, index - plan.volumeLookback, index, plan.barSec);
    ContiguousIsUnbroken(bars, index, index + plan.hold, plan.barSec);
    UnbrokenFits(bars, index - plan.volumeLookback, index, plan.barSec);
    UnbrokenFits(bars, index, index + plan.hold, plan.barSec);
    if Unbroken(bars, index - plan.volumeLookback, index, plan.barSec) {
      var trailing := Median(TrailingVolumes(bars, index, plan));
      if trailing > 0.0 { BelowRatio(bars[index].volume, trailing, plan.minVolumeRatio); }
      var range := bars[index].high - bars[index].low;
      if range > 0.0 { BelowRatio(bars[index].close - bars[index].low, range, plan.closeLocationMin); }
    }
  }

  lemma UnbrokenFits(bars: seq<Bar>, first: int, last: int, barSec: int)
    ensures Unbroken(bars, first, last, barSec) ==> 0 <= first <= last < |bars|
  {
  }

  /** Every observation is dropped for the first filter it fails, in the stated order, and one that fails
      none signals: the verdict says no more and no less than that. */
  lemma JudgedByFirstFailure(h: History, plan: Plan, found: seq<Return>, j: nat)
    requires ValidPlan(plan) && j < |found| && found[j].series < |h| && found[j].index < |h[found[j].series].bars|
    ensures var s, index, own, peers := h[found[j].series], found[j].index, found[j].bps, Peers(found, j);
            match Judge(h, plan, found, j)
            case Dropped(r) => FailsFirst(s.bars, index, own, peers, plan, r)
            case Kept(c) =>
              && FailsNone(s.bars, index, own, peers, plan)
              && peers != [] && index + plan.hold < |s.bars| && Signals(s, index, own, peers, plan, c)
  {
    hide Median, JudgeBars, Unbroken, Signals, Peers;
    var s, index, own, peers := h[found[j].series], found[j].index, found[j].bps, Peers(found, j);
    if |peers| >= plan.minPeers { BarFilters(s, index, own, peers, own - Median(peers), plan); }
  }

  // ---- The candidates ----

  /** An observation of time `ts` that signals `c`. */
  ghost predicate SignalsAt(h: History, plan: Plan, ts: int, j: nat, c: Candidate)
    requires ValidPlan(plan)
  {
    var found := ReturnsAt(h, plan, ts);
    && ts >= plan.analysisStart && j < |found| && found[j].series < |h|
    && var s, index, peers := h[found[j].series], found[j].index, Peers(found, j);
       && index < |s.bars| && s.bars[index].ts == ts
       && FailsNone(s.bars, index, found[j].bps, peers, plan)
       && peers != [] && index + plan.hold < |s.bars| && Signals(s, index, found[j].bps, peers, plan, c)
  }

  lemma {:induction false} KeptAreCandidates(verdicts: seq<Verdict>, c: Candidate)
    ensures c in Candidates(verdicts) <==> Kept(c) in verdicts
  {
    if verdicts != [] {
      KeptAreCandidates(verdicts[..|verdicts| - 1], c);
      assert verdicts == verdicts[..|verdicts| - 1] + [verdicts[|verdicts| - 1]];
    }
  }

  ghost predicate IsJudged(h: History, plan: Plan, ts: int, j: nat, v: Verdict)
    requires ValidPlan(plan)
  {
    var found := ReturnsAt(h, plan, ts);
    && j < |found| && found[j].series < |h| && found[j].index < |h[found[j].series].bars|
    && v == Judge(h, plan, found, j)
  }

  lemma {:induction false} JudgedFirst(h: History, plan: Plan, ts: int, n: nat, v: Verdict)
    requires ValidPlan(plan) && n <= |ReturnsAt(h, plan, ts)|
    ensures v in JudgeFirst(h, plan, ts, n) <==>
              exists j: nat :: j < n && IsJudged(h, plan, ts, j, v)
  {
    hide Judge, ReturnsAt;
    if n > 0 {
      JudgedFirst(h, plan, ts, n - 1, v);
      ReturnsInRange(h, plan, ts);
      var found := ReturnsAt(h, plan, ts);
      assert found[n - 1] in found;
      assert IsJudged(h, plan, ts, n - 1, v) <==> v == Judge(h, plan, found, n - 1);
      assert v in JudgeFirst(h, plan, ts, n) <==> v in JudgeFirst(h, plan, ts, n - 1) || v == Judge(h, plan, found, n - 1);
    }
  }

  lemma {:induction false} VerdictTimes(h: History, plan: Plan, times: seq<int>, v: Verdict)
    requires ValidPlan(plan)
    ensures v in VerdictsOver(h, plan, times) <==> exists ts :: ts in times && v in VerdictsAt(h, plan, ts)
  {
    if times != [] {
      hide VerdictsAt;
      VerdictTimes(h, plan, times[..|times| - 1], v);
      assert times == times[..|times| - 1] + [times[|times| - 1]];
    }
  }

  lemma {:induction false} ReturnsHaveTimes(h: History, plan: Plan, ts: int)
    ensures ReturnsAt(h, plan, ts) != [] ==> ts in ReturnTimes(h, plan)
  {
    if h != [] {
      var k := |h| - 1;
      ReturnsHaveTimes(h[..k], plan, ts);
      var i := IndexAt(h[k].bars, ts);
      if i.Some? {
        IndexAtSound(h[k].bars, ts);
        SeriesTimesFacts(h[k].bars, plan, |h[k].bars|);
      }
    }
  }

  lemma KeptSignals(h: History, plan: Plan, ts: int, j: nat, c: Candidate)
    requires ValidPlan(plan) && ts >= plan.analysisStart && j < |ReturnsAt(h, plan, ts)|
    ensures var found := ReturnsAt(h, plan, ts);
            && found[j].series < |h| && found[j].index < |h[found[j].series].bars|
            && (Judge(h, plan, found, j) == Kept(c) <==> SignalsAt(h, plan, ts, j, c))
  {
    hide ReturnsAt, Judge, FailsNone, FailsFirst, Peers, Median, Unbroken;
    ReturnsInRange(h, plan, ts);
    var found := ReturnsAt(h, plan, ts);
    assert found[j] in found;
    JudgedByFirstFailure(h, plan, found, j);
    FirstOrNone(h[found[j].series].bars, found[j].index, found[j].bps, Peers(found, j), plan);
  }

  lemma SignalIsJudged(h: History, plan: Plan, ts: int, j: nat, c: Candidate)
    requires ValidPlan(plan) && SignalsAt(h, plan, ts, j, c)
    ensures ts >= plan.analysisStart && IsJudged(h, plan, ts, j, Kept(c))
  {
    hide ReturnsAt, Judge;
    KeptSignals(h, plan, ts, j, c);
  }

  lemma FirstOrNone(bars: seq<Bar>, index: nat, own: real, peers: seq<real>, plan: Plan)
    requires ValidPlan(plan) && index < |bars|
    ensures FailsNone(bars, index, own, peers, plan) ==> forall r: Reason :: !FailsFirst(bars, index, own, peers, plan, r)
  {
    hide Fails;
  }

  /** The candidates of a study are exactly the signals of its observations from the start of the analysis on. */
  lemma CandidatesAreTheSignals(h: History, plan: Plan, c: Candidate)
    requires ValidPlan(plan)
    ensures c in BuildCandidates(h, plan) <==> exists ts, j: nat :: SignalsAt(h, plan, ts, j, c)
  {
    hide ReturnsAt, Judge, SignalsAt, VerdictsOver, Candidates, ReturnTimes, SortedDistinct;
    var times := SortedDistinct(ReturnTimes(h, plan));
    KeptAreCandidates(VerdictsOver(h, plan, times), c);
    VerdictTimes(h, plan, times, Kept(c));
    if c in BuildCandidates(h, plan) {
      var ts :| ts in times && Kept(c) in VerdictsAt(h, plan, ts);
      JudgedFirst(h, plan, ts, |ReturnsAt(h, plan, ts)|, Kept(c));
      var j: nat :| j < |ReturnsAt(h, plan, ts)| && IsJudged(h, plan, ts, j, Kept(c));
      KeptSignals(h, plan, ts, j, c);
    }
    if ts, j: nat :| SignalsAt(h, plan, ts, j, c) {
      SignalIsJudged(h, plan, ts, j, c);
      JudgedFirst(h, plan, ts, |ReturnsAt(h, plan, ts)|, Kept(c));
      ReturnsHaveTimes(h, plan, ts);
      SortedDistinctFacts(ReturnTimes(h, plan));
      assert ts in times && Kept(c) in VerdictsAt(h, plan, ts);
    }
  }
}

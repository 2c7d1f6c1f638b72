/** What the peer median of a capitulation signal means (cross_sectional_capitulation.py). */
module CapitulationMedian {
  import opened Sequences
  import opened StableSort
  import opened CapitulationSignals

  function AtMost(values: seq<real>, bound: real): nat {
    if values == [] then 0
    else AtMost(values[..|values| - 1], bound) + if values[|values| - 1] <= bound then 1 else 0
  }

  function AtLeast(values: seq<real>, bound: real): nat {
    if values == [] then 0
    else AtLeast(values[..|values| - 1], bound) + if values[|values| - 1] >= bound then 1 else 0
  }

  lemma {:induction false} CountsConcat(a: seq<real>, b: seq<real>, bound: real)
    ensures AtMost(a + b, bound) == AtMost(a, bound) + AtMost(b, bound)
    ensures AtLeast(a + b, bound) == AtLeast(a, bound) + AtLeast(b, bound)
  {
    if b == [] {
      assert a + b == a;
    } else {
      assert (a + b)[..|a + b| - 1] == a + b[..|b| - 1];
      CountsConcat(a, b[..|b| - 1], bound);
    }
  }

  lemma {:induction false} CountsOfInsert(s: seq<real>, x: real, bound: real)
    ensures AtMost(Insert(s, x, NotAbove), bound) == AtMost(s, bound) + if x <= bound then 1 else 0
    ensures AtLeast(Insert(s, x, NotAbove), bound) == AtLeast(s, bound) + if x >= bound then 1 else 0
  {
    if s == [] || NotAbove(s[|s| - 1], x) {
      assert (s + [x])[..|s|] == s;
    } else {
      var rest := Insert(s[..|s| - 1], x, NotAbove);
      CountsOfInsert(s[..|s| - 1], x, bound);
      assert (rest + [s[|s| - 1]])[..|rest|] == rest;
    }
  }

  /** Counting does not depend on the order. */
  lemma {:induction false} CountsOfSort(values: seq<real>, bound: real)
    ensures AtMost(Sort(values, NotAbove), bound) == AtMost(values, bound)
    ensures AtLeast(Sort(values, NotAbove), bound) == AtLeast(values, bound)
  {
    if values != [] {
      CountsOfSort(values[..|values| - 1], bound);
      CountsOfInsert(Sort(values[..|values| - 1], NotAbove), values[|values| - 1], bound);
    }
  }

  lemma {:induction false} AllAtMost(values: seq<real>, bound: real)
    requires forall i :: 0 <= i < |values| ==> values[i] <= bound
    ensures AtMost(values, bound) == |values|
  {
    if values != [] { AllAtMost(values[..|values| - 1], bound); }
  }

  lemma {:induction false} AllAtLeast(values: seq<real>, bound: real)
    requires forall i :: 0 <= i < |values| ==> values[i] >= bound
    ensures AtLeast(values, bound) == |values|
  {
    if values != [] { AllAtLeast(values[..|values| - 1], bound); }
  }

  /** In order, everything up to a position is at most its value and everything from it at least. */
  lemma LowPart(s: seq<real>, k: nat, bound: real)
    requires Sorted(s, NotAbove) && 0 < k <= |s| && s[k - 1] <= bound
    ensures AtMost(s, bound) >= k
  {
    assert s == s[..k] + s[k..];
    CountsConcat(s[..k], s[k..], bound);
    hide AtMost, AtLeast;
    forall i | 0 <= i < k ensures s[i] <= bound {
      if i < k - 1 { assert NotAbove(s[i], s[k - 1]); }
    }
    AllAtMost(s[..k], bound);
  }

  lemma HighPart(s: seq<real>, k: nat, bound: real)
    requires Sorted(s, NotAbove) && k < |s| && s[k] >= bound
    ensures AtLeast(s, bound) >= |s| - k
  {
    assert s == s[..k] + s[k..];
    CountsConcat(s[..k], s[k..], bound);
    hide AtMost, AtLeast;
    forall i | k <= i < |s| ensures s[i] >= bound {
      if k < i { assert NotAbove(s[k], s[i]); }
    }
    AllAtLeast(s[k..], bound);
  }

  lemma OddIsCentral(s: seq<real>, h: nat)
    requires Sorted(s, NotAbove) && |s| == 2 * h + 1
    ensures 2 * AtMost(s, s[h]) >= |s| && 2 * AtLeast(s, s[h]) >= |s|
  {
    hide AtMost, AtLeast, Sorted;
    LowPart(s, h + 1, s[h]);
    HighPart(s, h, s[h]);
  }

  lemma EvenIsCentral(s: seq<real>, h: nat, m: real)
    requires Sorted(s, NotAbove) && h > 0 && |s| == 2 * h && m == (s[h - 1] + s[h]) / 2.0
    ensures 2 * AtMost(s, m) >= |s| && 2 * AtLeast(s, m) >= |s|
  {
    assert NotAbove(s[h - 1], s[h]);
    hide AtMost, AtLeast, Sorted;
    LowPart(s, h, m);
    HighPart(s, h, m);
  }

  lemma MedianShape(values: seq<real>)
    requires values != []
    ensures var s, h := Sort(values, NotAbove), |values| / 2;
            && |s| == |values|
            && if |values| == 2 * h + 1 then Median(values) == s[h]
               else |values| == 2 * h && h > 0 && Median(values) == (s[h - 1] + s[h]) / 2.0
  {
    hide Sort;
  }

  /** The median is central: at least half of the values are at most it, half at least it. */
  lemma {:induction false} MedianIsCentral(values: seq<real>)
    requires values != []
    ensures 2 * AtMost(values, Median(values)) >= |values| && 2 * AtLeast(values, Median(values)) >= |values|
  {
    hide Sort, AtMost, AtLeast, Median, Sorted;
    var s, h := Sort(values, NotAbove), |values| / 2;
    SortIsOrderedPermutation(values, NotAbove);
    CountsOfSort(values, Median(values));
    MedianShape(values);
    if |values| == 2 * h + 1 { OddIsCentral(s, h); } else { EvenIsCentral(s, h, Median(values)); }
  }

  /** The median is the midpoint of the lower and the upper median, two of the values themselves: each has at
      least half of them on either side, the lower one more than half above or at it, the upper one below. */
  lemma {:induction false} MedianIsMidpoint(values: seq<real>) returns (lower: real, upper: real)
    requires values != []
    ensures lower in values && upper in values && 2.0 * Median(values) == lower + upper
    ensures 2 * AtMost(values, lower) >= |values| && 2 * AtLeast(values, lower) > |values|
    ensures 2 * AtMost(values, upper) > |values| && 2 * AtLeast(values, upper) >= |values|
  {
    hide Sort, AtMost, AtLeast, Median, Sorted;
    var s, h := Sort(values, NotAbove), |values| / 2;
    SortIsOrderedPermutation(values, NotAbove);
    SortMembers(values, NotAbove);
    MedianShape(values);
    lower, upper := s[|s| - 1 - h], s[h];
    assert lower in s && upper in s;
    CountsOfSort(values, lower);
    CountsOfSort(values, upper);
    LowPart(s, |s| - h, lower);
    HighPart(s, |s| - 1 - h, lower);
    LowPart(s, h + 1, upper);
    HighPart(s, h, upper);
  }

  lemma {:induction false} AtLeastMonotone(values: seq<real>, low: real, high: real)
    requires low <= high
    ensures AtLeast(values, low) >= AtLeast(values, high)
  {
    if values != [] { AtLeastMonotone(values[..|values| - 1], low, high); }
  }

  /** What a signal says about the cross section: the base has enough peers in the same bar, its own
      return is low enough, and at least half of the peers did better by the demanded margin. */
  lemma KeptMeansUnderperformer(h: History, plan: Plan, found: seq<Return>, j: nat)
    requires ValidPlan(plan) && j < |found| && found[j].series < |h| && found[j].index < |h[found[j].series].bars|
    requires Judge(h, plan, found, j).Kept?
    ensures var peers := Peers(found, j);
            && |peers| == |found| - 1 >= plan.minPeers
            && found[j].bps <= plan.baseReturnMax
            && 2 * AtLeast(peers, found[j].bps - plan.residualMax) >= |peers|
  {
    var peers := Peers(found, j);
    BpsLength(found[..j] + found[j + 1..]);
    hide JudgeBars, Median;
    if peers != [] {
      MedianIsCentral(peers);
      AtLeastMonotone(peers, found[j].bps - plan.residualMax, Median(peers));
    }
  }

  /** What a signal says about the bar itself: enough volume, at least the demanded multiple of half of
      the trailing volumes, a close high enough in the bar's range, and unbroken bars around it. */
  lemma KeptMeansVolumeSpike(s: Series, index: nat, residual: real, plan: Plan)
    requires ValidPlan(plan) && index < |s.bars| && plan.minVolume >= 0.0 && plan.minVolumeRatio > 0.0
    requires JudgeBars(s, index, residual, plan).Kept?
    ensures plan.volumeLookback <= index && index + plan.hold < |s.bars|
    ensures var bar, window := s.bars[index], Volumes(s.bars[index - plan.volumeLookback..index]);
            && bar.volume >= plan.minVolume
            && 2 * AtMost(window, bar.volume / plan.minVolumeRatio) >= |window| == plan.volumeLookback
            && (bar.high > bar.low ==> bar.close - bar.low >= plan.closeLocationMin * (bar.high - bar.low))
    ensures Contiguous(s.bars, index - plan.volumeLookback, index + plan.hold, plan.barSec)
  {
    hide Median, Volumes, AtMost;
    var bar, window := s.bars[index], Volumes(s.bars[index - plan.volumeLookback..index]);
    var trailing := Median(window);
    MedianIsCentral(window);
    if trailing > 0.0 {
      Quotient(bar.volume, trailing, plan.minVolumeRatio);
    } else {
      assert bar.volume / plan.minVolumeRatio >= 0.0;
    }
    AtMostMonotone(window, trailing, bar.volume / plan.minVolumeRatio);
    if bar.high > bar.low { Scale(bar.close - bar.low, bar.high - bar.low, plan.closeLocationMin); }
  }

  lemma Quotient(a: real, b: real, ratio: real)
    requires b > 0.0 && ratio > 0.0 && a / b >= ratio
    ensures b <= a / ratio
  {
    Scale(a, b, ratio);
    assert (a / ratio) * ratio == a;
  }

  lemma Scale(a: real, b: real, ratio: real)
    requires b > 0.0 && a / b >= ratio
    ensures a >= ratio * b
  {
    assert a == (a / b) * b;
    assert (a / b - ratio) * b >= 0.0;
  }

  lemma {:induction false} AtMostMonotone(values: seq<real>, low: real, high: real)
    requires low <= high
    ensures AtMost(values, high) >= AtMost(values, low)
  {
    if values != [] { AtMostMonotone(values[..|values| - 1], low, high); }
  }

  lemma {:induction false} BpsLength(found: seq<Return>)
    ensures |Bps(found)| == |found|
  {
    if found != [] { BpsLength(found[..|found| - 1]); }
  }
}

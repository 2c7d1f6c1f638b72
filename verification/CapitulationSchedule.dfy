/** The order in which candidates are tried: a permutation of them, sorted by one key. */
module CapitulationSchedule {
  import opened Sequences
  import opened StableSort
  import opened Timeline
  import opened CapitulationSignals
  import opened CapitulationExecution

  /** Signal time first, then the most negative residual, then the base. */
  predicate TriedBefore(a: Candidate, b: Candidate) {
    a.signalTs < b.signalTs || (a.signalTs == b.signalTs && MoreNegativeFirst(a, b))
  }

  lemma PriorityIsPreorder()
    ensures TotalPreorder(MoreNegativeFirst)
  {
    forall x: Candidate, y: Candidate ensures MoreNegativeFirst(x, y) || MoreNegativeFirst(y, x) {
      TextTotal(x.base, y.base);
    }
    forall x: Candidate, y: Candidate, z: Candidate | MoreNegativeFirst(x, y) && MoreNegativeFirst(y, z)
      ensures MoreNegativeFirst(x, z)
    {
      if x.residual == y.residual == z.residual { TextTransitive(x.base, y.base, z.base); }
    }
  }

  lemma {:induction false} OfTimeCount(cs: seq<Candidate>, ts: int, c: Candidate)
    ensures multiset(OfTime(cs, ts))[c] == if c.signalTs == ts then multiset(cs)[c] else 0
  {
    if cs != [] {
      assert cs == cs[..|cs| - 1] + [cs[|cs| - 1]];
      OfTimeCount(cs[..|cs| - 1], ts, c);
    }
  }

  lemma {:induction false} ScheduleOverCount(cs: seq<Candidate>, times: seq<int>, c: Candidate)
    requires Increasing(times)
    ensures multiset(ScheduleOver(cs, times))[c] == if c.signalTs in times then multiset(cs)[c] else 0
  {
    if times != [] {
      var front, ts := times[..|times| - 1], times[|times| - 1];
      assert times == front + [ts];
      ScheduleOverCount(cs, front, c);
      SortContents(OfTime(cs, ts), MoreNegativeFirst);
      OfTimeCount(cs, ts, c);
    }
  }

  /** No candidate is lost or tried twice. */
  lemma ScheduleIsPermutation(cs: seq<Candidate>)
    ensures multiset(Schedule(cs)) == multiset(cs)
  {
    var times := SortedDistinct(SignalTimes(cs));
    SortedDistinctFacts(SignalTimes(cs));
    SignalTimesFacts(cs);
    forall c: Candidate ensures multiset(Schedule(cs))[c] == multiset(cs)[c] {
      ScheduleOverCount(cs, times, c);
      if c in multiset(cs) { assert c in cs && c.signalTs in times; }
    }
  }

  lemma IncreasingEnds(times: seq<int>)
    requires Increasing(times) && times != []
    ensures Increasing(times[..|times| - 1]) && forall i :: 0 <= i < |times| - 1 ==> times[i] < times[|times| - 1]
  {
  }

  lemma GroupSorted(cs: seq<Candidate>, ts: int)
    ensures Sorted(Group(cs, ts), MoreNegativeFirst) && forall c :: c in Group(cs, ts) ==> c.signalTs == ts
  {
    hide MoreNegativeFirst, OfTime, Sorted, Sort, TotalPreorder;
    PriorityIsPreorder();
    SortIsOrderedPermutation(OfTime(cs, ts), MoreNegativeFirst);
    SortMembers(OfTime(cs, ts), MoreNegativeFirst);
    OfTimeFacts(cs, ts);
  }

  lemma {:induction false} ScheduleOverSorted(cs: seq<Candidate>, times: seq<int>)
    requires Increasing(times)
    ensures Sorted(ScheduleOver(cs, times), TriedBefore)
    ensures forall c :: c in ScheduleOver(cs, times) ==> c.signalTs in times
  {
    if times != [] {
      hide Increasing, Sorted, Group;
      var front, ts := times[..|times| - 1], times[|times| - 1];
      IncreasingEnds(times);
      ScheduleOverSorted(cs, front);
      GroupSorted(cs, ts);
      assert times == front + [ts];
      JoinSorted(ScheduleOver(cs, front), Group(cs, ts), ts);
    }
  }

  lemma JoinSorted(a: seq<Candidate>, b: seq<Candidate>, ts: int)
    requires Sorted(a, TriedBefore) && Sorted(b, MoreNegativeFirst)
    requires (forall c :: c in a ==> c.signalTs < ts) && (forall c :: c in b ==> c.signalTs == ts)
    ensures Sorted(a + b, TriedBefore)
  {
    hide MoreNegativeFirst;
    var joined := a + b;
    forall i, j | 0 <= i < j < |joined| ensures TriedBefore(joined[i], joined[j]) {
      if j >= |a| {
        assert joined[j] in b;
        if i < |a| { assert joined[i] in a; } else { assert joined[i] in b && MoreNegativeFirst(b[i - |a|], b[j - |a|]); }
      }
    }
  }

  /** The schedule is the candidates, each as often as it was built, sorted by the one key. */
  lemma ScheduleIsSorted(cs: seq<Candidate>)
    ensures var tried := Schedule(cs);
            && multiset(tried) == multiset(cs)
            && forall i, j :: 0 <= i < j < |tried| ==>
                 || tried[i].signalTs < tried[j].signalTs
                 || (tried[i].signalTs == tried[j].signalTs && tried[i].residual < tried[j].residual)
                 || (tried[i].signalTs == tried[j].signalTs && tried[i].residual == tried[j].residual
                     && TextNotAbove(tried[i].base, tried[j].base))
  {
    ScheduleIsPermutation(cs);
    SortedDistinctFacts(SignalTimes(cs));
    ScheduleOverSorted(cs, SortedDistinct(SignalTimes(cs)));
    var tried := Schedule(cs);
    hide Schedule, TextNotAbove;
    assert forall i, j :: 0 <= i < j < |tried| ==> TriedBefore(tried[i], tried[j]);
  }
}

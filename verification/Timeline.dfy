/** Sorted lists of distinct timestamps, as Python's `sorted` gives them for the keys of a dict. */
module Timeline {
  import opened Sequences

  ghost predicate Increasing(s: seq<int>) { forall i, j :: 0 <= i < j < |s| ==> s[i] < s[j] }

  function InsertDistinct(s: seq<int>, x: int): seq<int> {
    if s == [] || s[|s| - 1] < x then s + [x]
    else if s[|s| - 1] == x then s
    else InsertDistinct(s[..|s| - 1], x) + [s[|s| - 1]]
  }

  function SortedDistinct(s: seq<int>): seq<int> {
    if s == [] then [] else InsertDistinct(SortedDistinct(s[..|s| - 1]), s[|s| - 1])
  }

  lemma {:induction false} InsertDistinctFacts(s: seq<int>, x: int)
    requires Increasing(s)
    ensures Increasing(InsertDistinct(s, x))
    ensures forall y :: y in InsertDistinct(s, x) <==> y in s || y == x
  {
    if s == [] || s[|s| - 1] < x {
    } else {
      var front, last := s[..|s| - 1], s[|s| - 1];
      assert forall y :: y in s <==> y in front || y == last;
      if last != x {
        InsertDistinctFacts(front, x);
        var r := InsertDistinct(front, x);
        forall i | 0 <= i < |r| ensures r[i] < last {
          assert r[i] in r;
          assert r[i] in front || r[i] == x;
        }
      }
    }
  }

  lemma {:induction false} SortedDistinctFacts(s: seq<int>)
    ensures Increasing(SortedDistinct(s))
    ensures forall y :: y in SortedDistinct(s) <==> y in s
  {
    if s != [] {
      SortedDistinctFacts(s[..|s| - 1]);
      InsertDistinctFacts(SortedDistinct(s[..|s| - 1]), s[|s| - 1]);
      assert forall y :: y in s <==> y in s[..|s| - 1] || y == s[|s| - 1];
    }
  }

  /** A strictly increasing list is determined by its elements. */
  lemma {:induction false} IncreasingUnique(a: seq<int>, b: seq<int>)
    requires Increasing(a) && Increasing(b)
    requires forall x :: x in a <==> x in b
    ensures a == b
  {
    assert a != [] ==> a[0] in a;
    assert b != [] ==> b[0] in b;
    if a != [] {
      var x, y := a[|a| - 1], b[|b| - 1];
      assert x in b && y in a;
      assert x == y;
      var a', b' := a[..|a| - 1], b[..|b| - 1];
      forall z ensures z in a' <==> z in b' {
        assert z in a <==> z in a' || z == x;
        assert z in b <==> z in b' || z == y;
      }
      IncreasingUnique(a', b');
      assert a == a' + [x] && b == b' + [y];
    }
  }

  /** Sorting distinct keys splits where every later key is above every earlier one. */
  lemma SortedDistinctConcat(a: seq<int>, b: seq<int>, c: seq<int>)
    requires forall x, y :: x in a && y in b ==> x < y
    requires forall x :: x in c <==> x in a || x in b
    ensures SortedDistinct(c) == SortedDistinct(a) + SortedDistinct(b)
  {
    SortedDistinctFacts(a);
    SortedDistinctFacts(b);
    SortedDistinctFacts(c);
    var joined := SortedDistinct(a) + SortedDistinct(b);
    assert Increasing(joined) by {
      forall i, j | 0 <= i < j < |joined| ensures joined[i] < joined[j] {
        if i < |SortedDistinct(a)| <= j {
          assert joined[i] in SortedDistinct(a) && joined[j] in SortedDistinct(b);
        }
      }
    }
    forall x ensures x in joined <==> x in SortedDistinct(c) {
      assert x in joined <==> x in SortedDistinct(a) || x in SortedDistinct(b);
    }
    IncreasingUnique(joined, SortedDistinct(c));
  }
}

/** Small pieces shared by every other module: optional values, sums and the stable sort. */
module Sequences {

  datatype Option<+T> = None | Some(value: T)

  datatype Result<+T, +E> = Ok(value: T) | Err(error: E)

  /** A strictly positive quantity: every price the programs divide by. */
  type Price = x: real | x > 0.0 witness 1.0

  function Max(a: real, b: real): real { if a >= b then a else b }

  function Abs(a: real): real { if a >= 0.0 then a else -a }

  /** Text order by code point. */
  predicate TextNotAbove(a: string, b: string) {
    if a == "" then true
    else if b == "" then false
    else if a[0] != b[0] then a[0] < b[0]
    else TextNotAbove(a[1..], b[1..])
  }

  lemma {:induction false} TextTotal(a: string, b: string)
    ensures TextNotAbove(a, b) || TextNotAbove(b, a)
  {
    if a != "" && b != "" { TextTotal(a[1..], b[1..]); }
  }

  lemma {:induction false} TextTransitive(a: string, b: string, c: string)
    requires TextNotAbove(a, b) && TextNotAbove(b, c)
    ensures TextNotAbove(a, c)
  {
    if a != "" && b != "" && c != "" && a[0] == b[0] == c[0] { TextTransitive(a[1..], b[1..], c[1..]); }
  }

  /** The order of the first difference; a proper beginning comes first. */
  lemma {:induction false} TextIsLexicographic(a: string, b: string)
    ensures TextNotAbove(a, b) <==> a <= b || exists i :: 0 <= i < |a| && i < |b| && a[..i] == b[..i] && a[i] < b[i]
  {
    if a != "" && b != "" {
      if a[0] != b[0] {
        assert a[0] < b[0] ==> a[..0] == b[..0];
      } else {
        TextIsLexicographic(a[1..], b[1..]);
        SameHead(a, b);
      }
    }
  }

  lemma SameHead(a: string, b: string)
    requires a != "" && b != "" && a[0] == b[0]
    ensures a <= b <==> a[1..] <= b[1..]
    ensures (exists i :: 0 <= i < |a| && i < |b| && a[..i] == b[..i] && a[i] < b[i])
       <==> exists i :: 0 <= i < |a[1..]| && i < |b[1..]| && a[1..][..i] == b[1..][..i] && a[1..][i] < b[1..][i]
  {
    var x, y := a[1..], b[1..];
    assert a == [a[0]] + x && b == [a[0]] + y;
    if i :| 0 <= i < |a| && i < |b| && a[..i] == b[..i] && a[i] < b[i] {
      assert x[..i - 1] == a[..i][1..] && y[..i - 1] == b[..i][1..];
      assert x[i - 1] < y[i - 1];
    }
    if i :| 0 <= i < |x| && i < |y| && x[..i] == y[..i] && x[i] < y[i] {
      assert a[..i + 1] == [a[0]] + x[..i] && b[..i + 1] == [a[0]] + y[..i];
      assert a[i + 1] < b[i + 1];
    }
  }

  predicate IsSpace(c: char) { c == ' ' || '\t' <= c <= '\r' || '\U{1C}' <= c <= '\U{1F}' }

  function Strip(s: string): string {
    if s == "" then s
    else if IsSpace(s[0]) then Strip(s[1..])
    else if IsSpace(s[|s| - 1]) then Strip(s[..|s| - 1])
    else s
  }

  predicate Blank(s: string) { forall i :: 0 <= i < |s| ==> IsSpace(s[i]) }

  lemma BlankParts(a: string, b: string)
    ensures Blank(a + b) <==> Blank(a) && Blank(b)
  {
    hide IsSpace;
    assert forall i :: 0 <= i < |a| ==> (a + b)[i] == a[i];
    assert forall i :: 0 <= i < |b| ==> b[i] == (a + b)[|a| + i];
  }

  lemma Cut(c: char, left: string, rest: string, right: string)
    ensures [c] + (left + rest + right) == ([c] + left) + rest + right
    ensures (left + rest + right) + [c] == left + rest + (right + [c])
  {
  }

  /** One character is cut at a time, the first ones before the last ones. */
  lemma StripStep(s: string)
    ensures s == "" || (!IsSpace(s[0]) && !IsSpace(s[|s| - 1])) ==> Strip(s) == s
    ensures s != "" && IsSpace(s[0]) ==> Strip(s) == Strip(s[1..])
    ensures s != "" && !IsSpace(s[0]) && IsSpace(s[|s| - 1]) ==> Strip(s) == Strip(s[..|s| - 1])
  {
    hide IsSpace;
  }

  lemma Ends(s: string)
    ensures s != "" ==> s == [s[0]] + s[1..] && s == s[..|s| - 1] + [s[|s| - 1]]
  {
  }

  /** What is cut off at either end is white space, and what is left has none there. */
  lemma {:induction false} StripTrims(s: string) returns (left: string, right: string)
    ensures s == left + Strip(s) + right && Blank(left) && Blank(right)
    ensures Strip(s) != "" ==> !IsSpace(Strip(s)[0]) && !IsSpace(Strip(s)[|Strip(s)| - 1])
  {
    hide IsSpace, Blank, Strip;
    StripStep(s);
    Ends(s);
    if s != "" && IsSpace(s[0]) {
      left, right := StripTrims(s[1..]);
      BlankOne(s[0]);
      Cut(s[0], left, Strip(s), right);
      BlankParts([s[0]], left);
      left := [s[0]] + left;
    } else if s != "" && IsSpace(s[|s| - 1]) {
      left, right := StripTrims(s[..|s| - 1]);
      BlankOne(s[|s| - 1]);
      Cut(s[|s| - 1], left, Strip(s), right);
      BlankParts(right, [s[|s| - 1]]);
      right := right + [s[|s| - 1]];
    } else {
      left, right := "", "";
      BlankEmpty();
      assert "" + s + "" == s;
    }
  }

  lemma BlankEmpty()
    ensures Blank("")
  {
  }

  lemma BlankOne(c: char)
    requires IsSpace(c)
    ensures Blank([c])
  {
  }

  function Take<T>(s: seq<T>, n: nat): seq<T> { if |s| <= n then s else s[..n] }

  lemma ConcatAssociative<T>(a: seq<T>, b: seq<T>, c: seq<T>)
    ensures (a + b) + c == a + (b + c)
  {
  }

  function SumReals(s: seq<real>): real {
    if s == [] then 0.0 else SumReals(s[..|s| - 1]) + s[|s| - 1]
  }
}

/** The behaviour of Python's `sorted` and `list.sort`: a stable sort by an order `le`. */
module StableSort {
  import opened Sequences

  ghost predicate TotalPreorder<T(!new)>(le: (T, T) -> bool) {
    && (forall x, y :: le(x, y) || le(y, x))
    && (forall x, y, z :: le(x, y) && le(y, z) ==> le(x, z))
  }

  ghost predicate Sorted<T>(s: seq<T>, le: (T, T) -> bool) {
    forall i, j :: 0 <= i < j < |s| ==> le(s[i], s[j])
  }

  /** Puts `x` behind every element that is not above it, which is what makes the sort stable. */
  function Insert<T>(s: seq<T>, x: T, le: (T, T) -> bool): (r: seq<T>)
    ensures |r| == |s| + 1
  {
    if s == [] || le(s[|s| - 1], x) then s + [x] else Insert(s[..|s| - 1], x, le) + [s[|s| - 1]]
  }

  function Sort<T>(s: seq<T>, le: (T, T) -> bool): (r: seq<T>)
    ensures |r| == |s|
  {
    if s == [] then [] else Insert(Sort(s[..|s| - 1], le), s[|s| - 1], le)
  }

  lemma {:induction false} InsertContents<T>(s: seq<T>, x: T, le: (T, T) -> bool)
    ensures multiset(Insert(s, x, le)) == multiset(s) + multiset{x}
  {
    if s == [] || le(s[|s| - 1], x) {
    } else {
      InsertContents(s[..|s| - 1], x, le);
      assert s == s[..|s| - 1] + [s[|s| - 1]];
    }
  }

  lemma {:induction false} InsertKeepsSorted<T(!new)>(s: seq<T>, x: T, le: (T, T) -> bool)
    requires TotalPreorder(le) && Sorted(s, le)
    ensures Sorted(Insert(s, x, le), le)
  {
    if s == [] || le(s[|s| - 1], x) {
    } else {
      var front, last := s[..|s| - 1], s[|s| - 1];
      InsertKeepsSorted(front, x, le);
      InsertContents(front, x, le);
      forall y | y in Insert(front, x, le) ensures le(y, last) {
        assert y in multiset(Insert(front, x, le));
        assert y == x || y in front;
      }
    }
  }

  lemma {:induction false} SortContents<T>(s: seq<T>, le: (T, T) -> bool)
    ensures multiset(Sort(s, le)) == multiset(s)
  {
    if s != [] {
      SortContents(s[..|s| - 1], le);
      InsertContents(Sort(s[..|s| - 1], le), s[|s| - 1], le);
      assert s == s[..|s| - 1] + [s[|s| - 1]];
    }
  }

  /** Sorting reorders and nothing else, and the result is in order. */
  lemma {:induction false} SortIsOrderedPermutation<T(!new)>(s: seq<T>, le: (T, T) -> bool)
    requires TotalPreorder(le)
    ensures Sorted(Sort(s, le), le)
    ensures multiset(Sort(s, le)) == multiset(s)
  {
    SortContents(s, le);
    if s != [] {
      hide Sorted;
      SortIsOrderedPermutation(s[..|s| - 1], le);
      InsertKeepsSorted(Sort(s[..|s| - 1], le), s[|s| - 1], le);
    } else {
      assert Sort(s, le) == [];
    }
  }

  lemma {:induction false} SortMembers<T(!new)>(s: seq<T>, le: (T, T) -> bool)
    ensures forall x :: x in Sort(s, le) <==> x in s
  {
    SortContents(s, le);
    forall x ensures x in Sort(s, le) <==> x in s {
      assert x in multiset(Sort(s, le)) <==> x in multiset(s);
    }
  }

  /** The elements that the order does not tell from `x`, in their order. */
  function Ties<T>(s: seq<T>, x: T, le: (T, T) -> bool): seq<T> {
    if s == [] then []
    else
      var y := s[|s| - 1];
      Ties(s[..|s| - 1], x, le) + if le(x, y) && le(y, x) then [y] else []
  }

  lemma {:induction false} InsertTies<T(!new)>(s: seq<T>, y: T, x: T, le: (T, T) -> bool)
    requires TotalPreorder(le)
    ensures Ties(Insert(s, y, le), x, le) == Ties(s, x, le) + if le(x, y) && le(y, x) then [y] else []
  {
    if s == [] || le(s[|s| - 1], y) {
      assert (s + [y])[..|s|] == s;
    } else {
      var front, last := s[..|s| - 1], s[|s| - 1];
      InsertTies(front, y, x, le);
      assert (Insert(front, y, le) + [last])[..|s|] == Insert(front, y, le);
    }
  }

  /** Sorting leaves elements that are told apart by nothing in the order they came in. */
  lemma {:induction false} SortIsStable<T(!new)>(s: seq<T>, x: T, le: (T, T) -> bool)
    requires TotalPreorder(le)
    ensures Ties(Sort(s, le), x, le) == Ties(s, x, le)
  {
    if s != [] {
      SortIsStable(s[..|s| - 1], x, le);
      InsertTies(Sort(s[..|s| - 1], le), s[|s| - 1], x, le);
    } else {
      assert Sort(s, le) == [];
    }
  }

  lemma {:induction false} SortOfSorted<T>(s: seq<T>, le: (T, T) -> bool)
    requires Sorted(s, le)
    ensures Sort(s, le) == s
  {
    if s != [] {
      SortOfSorted(s[..|s| - 1], le);
    }
  }

  lemma {:induction false} InsertAbove<T(!new)>(a: seq<T>, b: seq<T>, x: T, le: (T, T) -> bool)
    requires forall y :: y in a ==> le(y, x)
    ensures Insert(a + b, x, le) == a + Insert(b, x, le)
  {
    if b == [] {
      assert a + b == a;
    } else if !le(b[|b| - 1], x) {
      assert (a + b)[..|a + b| - 1] == a + b[..|b| - 1];
      InsertAbove(a, b[..|b| - 1], x, le);
    }
  }

  /** When everything in `b` is at or above everything in `a`, the two halves sort separately. */
  lemma {:induction false} SortConcat<T(!new)>(a: seq<T>, b: seq<T>, le: (T, T) -> bool)
    requires forall x, y :: x in a && y in b ==> le(x, y)
    ensures Sort(a + b, le) == Sort(a, le) + Sort(b, le)
  {
    if b == [] {
      assert a + b == a;
    } else {
      assert (a + b)[..|a + b| - 1] == a + b[..|b| - 1];
      SortConcat(a, b[..|b| - 1], le);
      SortMembers(a, le);
      assert b[|b| - 1] in b;
      InsertAbove(Sort(a, le), Sort(b[..|b| - 1], le), b[|b| - 1], le);
    }
  }

  /** The head of a sorted list after an insertion depends only on its head before. */
  lemma {:induction false} InsertHead<T(!new)>(s: seq<T>, x: T, n: nat, le: (T, T) -> bool)
    requires TotalPreorder(le) && Sorted(s, le)
    ensures Take(Insert(s, x, le), n) == Take(Insert(Take(s, n), x, le), n)
  {
    if |s| <= n {
    } else {
      var front, last := s[..|s| - 1], s[|s| - 1];
      if le(last, x) {
        assert Take(s + [x], n) == s[..n];
        assert n == 0 || le(s[n - 1], x);
      } else {
        InsertHead(front, x, n, le);
        assert Take(Insert(s, x, le), n) == Take(Insert(front, x, le), n);
        assert Take(front, n) == Take(s, n);
      }
    }
  }
}

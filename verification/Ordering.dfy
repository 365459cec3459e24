/** Sorting of ring positions, and why a sorted sequence is determined by its multiset. */
module Ordering {

  predicate Sorted(s: seq<nat>) {
    forall i, j :: 0 <= i < j < |s| ==> s[i] <= s[j]
  }

  function Count(s: seq<nat>, x: nat): nat {
    multiset(s)[x]
  }

  lemma SortedCons(x: nat, s: seq<nat>)
    requires Sorted(s) && forall y :: y in s ==> x <= y
    ensures Sorted([x] + s)
  {
    forall i, j | 0 <= i < j < |s| + 1
      ensures ([x] + s)[i] <= ([x] + s)[j]
    {
      assert s[j - 1] in s;
    }
  }

  lemma SortedSnoc(s: seq<nat>, x: nat)
    requires Sorted(s) && forall y :: y in s ==> y <= x
    ensures Sorted(s + [x])
  {
    forall i, j | 0 <= i < j < |s| + 1
      ensures (s + [x])[i] <= (s + [x])[j]
    {
      assert s[i] in s;
    }
  }

  function Insert(x: nat, s: seq<nat>): (r: seq<nat>)
    ensures multiset(r) == multiset(s) + multiset{x}
  {
    if s == [] || x <= s[0] then
      [x] + s
    else
      assert s == [s[0]] + s[1..];
      [s[0]] + Insert(x, s[1..])
  }

  lemma {:induction false} InsertSorted(x: nat, s: seq<nat>)
    requires Sorted(s)
    ensures Sorted(Insert(x, s))
  {
    if s != [] && x > s[0] {
      InsertSorted(x, s[1..]);
      var r := Insert(x, s[1..]);
      forall y | y in r
        ensures s[0] <= y
      {
        assert y in multiset(r);
        assert y == x || y in s[1..];
      }
      SortedCons(s[0], r);
    }
  }

  /** slices.Sort */
  function Sort(s: seq<nat>): (r: seq<nat>)
    ensures multiset(r) == multiset(s)
  {
    if s == [] then [] else
      assert s == s[..|s| - 1] + [s[|s| - 1]];
      Insert(s[|s| - 1], Sort(s[..|s| - 1]))
  }

  lemma {:induction false} SortSorts(s: seq<nat>)
    ensures Sorted(Sort(s))
  {
    if s != [] {
      SortSorts(s[..|s| - 1]);
      InsertSorted(s[|s| - 1], Sort(s[..|s| - 1]));
    }
  }

  lemma SameHead(a: seq<nat>, b: seq<nat>)
    requires Sorted(a) && Sorted(b) && multiset(a) == multiset(b) && a != [] && b != []
    ensures a[0] == b[0]
  {
    assert a[0] in multiset(a) && b[0] in multiset(b);
    assert a[0] in b && b[0] in a;
  }

  lemma {:induction false} SortedIsUnique(a: seq<nat>, b: seq<nat>)
    requires Sorted(a) && Sorted(b) && multiset(a) == multiset(b)
    ensures a == b
    decreases |a|
  {
    assert |multiset(a)| == |a| && |multiset(b)| == |b|;
    if a != [] {
      SameHead(a, b);
      assert a == [a[0]] + a[1..] && b == [b[0]] + b[1..];
      assert multiset(a[1..]) == multiset(a) - multiset{a[0]};
      assert multiset(b[1..]) == multiset(b) - multiset{b[0]};
      SortedIsUnique(a[1..], b[1..]);
    }
  }

  /** The elements outside `drop`, in order. */
  function Without(s: seq<nat>, drop: set<nat>): seq<nat> {
    if s == [] then [] else
      var r := Without(s[..|s| - 1], drop);
      if s[|s| - 1] in drop then r else r + [s[|s| - 1]]
  }

  lemma {:induction false} WithoutElements(s: seq<nat>, drop: set<nat>)
    ensures forall y :: y in Without(s, drop) <==> y in s && y !in drop
  {
    if s != [] {
      var init, last := s[..|s| - 1], s[|s| - 1];
      assert s == init + [last];
      WithoutElements(init, drop);
    }
  }

  lemma {:induction false} WithoutSorted(s: seq<nat>, drop: set<nat>)
    requires Sorted(s)
    ensures Sorted(Without(s, drop))
  {
    if s != [] {
      var init := s[..|s| - 1];
      WithoutSorted(init, drop);
      WithoutElements(init, drop);
      SortedSnoc(Without(init, drop), s[|s| - 1]);
    }
  }

  lemma {:induction false} WithoutCount(s: seq<nat>, drop: set<nat>, x: nat)
    ensures Count(Without(s, drop), x) == if x in drop then 0 else Count(s, x)
  {
    if s != [] {
      assert s == s[..|s| - 1] + [s[|s| - 1]];
      WithoutCount(s[..|s| - 1], drop, x);
    }
  }

  lemma WithoutCounts(s: seq<nat>, drop: set<nat>)
    ensures forall x: nat :: multiset(Without(s, drop))[x] == if x in drop then 0 else multiset(s)[x]
  {
    forall x: nat
      ensures multiset(Without(s, drop))[x] == if x in drop then 0 else multiset(s)[x]
    {
      WithoutCount(s, drop, x);
    }
  }

  lemma SameCounts(a: seq<nat>, b: seq<nat>)
    requires forall x: nat :: Count(a, x) == Count(b, x)
    ensures multiset(a) == multiset(b)
  {
    forall x: nat
      ensures x in multiset(a) ==> multiset(a)[x] == multiset(b)[x]
      ensures x in multiset(b) ==> multiset(a)[x] == multiset(b)[x]
    {
      assert Count(a, x) == Count(b, x);
    }
  }

  lemma AppendCount(a: seq<nat>, b: seq<nat>, x: nat)
    ensures Count(a + b, x) == Count(a, x) + Count(b, x)
  {
  }

  lemma CountZero(s: seq<nat>, x: nat)
    ensures Count(s, x) == 0 <==> x !in s
  {
    assert x in s <==> x in multiset(s);
  }

  lemma FewerCounts(a: seq<nat>, b: seq<nat>)
    requires forall x: nat :: Count(a, x) <= Count(b, x)
    ensures |a| <= |b|
  {
    forall x: nat
      ensures multiset(a)[x] <= multiset(b)[x]
    {
      assert Count(a, x) <= Count(b, x);
    }
    assert multiset(b) == multiset(a) + (multiset(b) - multiset(a));
    assert |multiset(a)| == |a| && |multiset(b)| == |b|;
  }
}

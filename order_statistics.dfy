/**
  Order statistics on timing samples: the element of a given rank (what
  std::nth_element places at its position), the median as the element of
  rank n/2, and the lowest index of a minimum.
*/
module OrderStatistics {

  /** The number of elements of s below m. */
  function CountLess(s: seq<int>, m: int): (n: nat)
    ensures n <= |s|
  {
    if s == [] then 0 else (if s[0] < m then 1 else 0) + CountLess(s[1..], m)
  }

  /**
    m is an element of rank k of v (counting from 0 in ascending order): at
    most k elements lie below m and more than k lie at or below it.
  */
  predicate IsOrderStatistic(v: seq<int>, m: int, k: nat) {
    CountLess(v, m) <= k < CountLess(v, m + 1)
  }

  /** m is the median of v in the sense of the autotuner: the element of rank |v| / 2. */
  predicate IsMedian(v: seq<int>, m: int) {
    IsOrderStatistic(v, m, |v| / 2)
  }

  lemma {:induction false} CountLessAppend(a: seq<int>, b: seq<int>, m: int)
    ensures CountLess(a + b, m) == CountLess(a, m) + CountLess(b, m)
  {
    if a == [] {
      assert a + b == b;
    } else {
      assert (a + b)[1..] == a[1..] + b;
      CountLessAppend(a[1..], b, m);
    }
  }

  lemma {:induction false} CountLessMonotone(s: seq<int>, m1: int, m2: int)
    requires m1 <= m2
    ensures CountLess(s, m1) <= CountLess(s, m2)
  {
    if s != [] {
      CountLessMonotone(s[1..], m1, m2);
    }
  }

  /** When every element lies below m, all of them are counted. */
  lemma {:induction false} CountLessAll(s: seq<int>, m: int)
    requires forall i :: 0 <= i < |s| ==> s[i] < m
    ensures CountLess(s, m) == |s|
  {
    if s != [] {
      CountLessAll(s[1..], m);
    }
  }

  /** When no element lies below m, none is counted. */
  lemma {:induction false} CountLessNone(s: seq<int>, m: int)
    requires forall i :: 0 <= i < |s| ==> m <= s[i]
    ensures CountLess(s, m) == 0
  {
    if s != [] {
      CountLessNone(s[1..], m);
    }
  }

  /** Counting depends only on the multiset of elements, not on their order. */
  lemma {:induction false} CountLessPermutation(s: seq<int>, t: seq<int>, m: int)
    requires multiset(s) == multiset(t)
    ensures CountLess(s, m) == CountLess(t, m)
    decreases |s|
  {
    if s == [] {
      EmptyPermutation(s, t);
    } else {
      var j := MatchFirst(s, t);
      CountLessPermutation(s[1..], t[..j] + t[j + 1..], m);
      CountLessFirstMatched(s, t, j, m);
    }
  }

  lemma EmptyPermutation(s: seq<int>, t: seq<int>)
    requires multiset(s) == multiset(t) && s == []
    ensures t == []
  {
    assert |t| == |multiset(t)| == 0;
  }

  /**
    The first element of a non-empty s occurs in a permutation t at some
    position j, and the rests of both are again permutations of each other.
  */
  lemma MatchFirst(s: seq<int>, t: seq<int>) returns (j: nat)
    requires multiset(s) == multiset(t) && s != []
    ensures j < |t| && t[j] == s[0]
    ensures multiset(s[1..]) == multiset(t[..j] + t[j + 1..])
  {
    var x := s[0];
    assert x in multiset(t) by {
      assert x in multiset(s);
    }
    j := IndexOf(t, x);
    assert multiset(s) == multiset(s[1..]) + multiset{x} by {
      assert s == [x] + s[1..];
    }
    SplitAt(t, j);
    MultisetCancel(multiset(s[1..]), multiset(t[..j] + t[j + 1..]), x);
  }

  /** Splitting t around position j: the multiset is that of the rest plus t[j]. */
  lemma SplitAt(t: seq<int>, j: nat)
    requires j < |t|
    ensures multiset(t) == multiset(t[..j] + t[j + 1..]) + multiset{t[j]}
  {
    assert t == t[..j] + [t[j]] + t[j + 1..];
  }

  lemma MultisetCancel(a: multiset<int>, b: multiset<int>, x: int)
    requires a + multiset{x} == b + multiset{x}
    ensures a == b
  {
    forall y
      ensures a[y] == b[y]
    {
      assert (a + multiset{x})[y] == (b + multiset{x})[y];
    }
  }

  /** The first position of x in t. */
  function IndexOf(t: seq<int>, x: int): (j: nat)
    requires x in multiset(t)
    ensures j < |t| && t[j] == x
    ensures forall i :: 0 <= i < j ==> t[i] != x
  {
    if t[0] == x then 0
    else
      assert t == [t[0]] + t[1..];
      1 + IndexOf(t[1..], x)
  }

  /** Matching the first element of s with t[j] reduces counting s and t to the rest of both. */
  lemma CountLessFirstMatched(s: seq<int>, t: seq<int>, j: nat, m: int)
    requires s != [] && j < |t| && t[j] == s[0]
    requires CountLess(s[1..], m) == CountLess(t[..j] + t[j + 1..], m)
    ensures CountLess(s, m) == CountLess(t, m)
  {
    CountLessWithout(t, j, m);
  }

  /** Dropping position j removes t[j] from the count when it lies below m. */
  lemma CountLessWithout(t: seq<int>, j: nat, m: int)
    requires j < |t|
    ensures CountLess(t, m) == CountLess(t[..j] + t[j + 1..], m) + (if t[j] < m then 1 else 0)
  {
    assert t == t[..j] + [t[j]] + t[j + 1..];
    CountLessAppend(t[..j] + [t[j]], t[j + 1..], m);
    CountLessAppend(t[..j], [t[j]], m);
    CountLessAppend(t[..j], t[j + 1..], m);
  }

  /** An element of rank k occurs in v. */
  lemma {:induction false} OrderStatisticIsElement(v: seq<int>, m: int, k: nat)
    requires IsOrderStatistic(v, m, k)
    ensures m in v
  {
    ElementBetweenCounts(v, m);
  }

  lemma {:induction false} ElementBetweenCounts(v: seq<int>, m: int)
    requires CountLess(v, m) < CountLess(v, m + 1)
    ensures m in v
  {
    if v[0] != m {
      ElementBetweenCounts(v[1..], m);
    }
  }

  /** The element of a given rank is unique: rank determines the value. */
  lemma OrderStatisticUnique(v: seq<int>, m1: int, m2: int, k: nat)
    requires IsOrderStatistic(v, m1, k) && IsOrderStatistic(v, m2, k)
    ensures m1 == m2
  {
    if m1 < m2 {
      CountLessMonotone(v, m1 + 1, m2);
    } else if m2 < m1 {
      CountLessMonotone(v, m2 + 1, m1);
    }
  }

  /**
    The partition nth_element leaves behind: nothing before position n is
    larger than s[n] and nothing after it is smaller, so s[n] has rank n.
  */
  lemma PartitionedIsOrderStatistic(s: seq<int>, n: nat)
    requires n < |s|
    requires forall i :: 0 <= i < n ==> s[i] <= s[n]
    requires forall j :: n < j < |s| ==> s[n] <= s[j]
    ensures IsOrderStatistic(s, s[n], n)
  {
    var m := s[n];
    assert s == s[..n] + [m] + s[n + 1..];
    CountLessAppend(s[..n] + [m], s[n + 1..], m);
    CountLessAppend(s[..n], [m], m);
    CountLessNone(s[n + 1..], m);
    CountLessAppend(s[..n] + [m], s[n + 1..], m + 1);
    CountLessAppend(s[..n], [m], m + 1);
    CountLessAll(s[..n], m + 1);
  }

  /** The index of a smallest element of a[k..]. */
  method MinIndexFrom(a: array<int>, k: nat) returns (m: nat)
    requires k < a.Length
    ensures k <= m < a.Length
    ensures forall j :: k <= j < a.Length ==> a[m] <= a[j]
  {
    m := k;
    var j := k + 1;
    while j < a.Length
      invariant k <= m < j <= a.Length
      invariant forall i :: k <= i < j ==> a[m] <= a[i]
    {
      if a[j] < a[m] {
        m := j;
      }
      j := j + 1;
    }
  }

  /**
    Partial selection in place, with the guarantee of std::nth_element: the
    elements are permuted so that nothing before position n is larger than
    a[n] and nothing after it is smaller.
  */
  method NthElement(a: array<int>, n: nat)
    requires n < a.Length
    modifies a
    ensures multiset(a[..]) == old(multiset(a[..]))
    ensures forall i :: 0 <= i < n ==> a[i] <= a[n]
    ensures forall j :: n < j < a.Length ==> a[n] <= a[j]
  {
    var k := 0;
    while k <= n
      invariant 0 <= k <= n + 1
      invariant multiset(a[..]) == old(multiset(a[..]))
      invariant forall i, j :: 0 <= i < k && i < j < a.Length ==> a[i] <= a[j]
    {
      var m := MinIndexFrom(a, k);
      Swap(a, k, m);
      k := k + 1;
    }
  }

  /** Exchanges a[i] and a[j]. */
  method Swap(a: array<int>, i: nat, j: nat)
    requires i < a.Length && j < a.Length
    modifies a
    ensures a[..] == old(a[..])[i := old(a[j])][j := old(a[i])]
    ensures multiset(a[..]) == old(multiset(a[..]))
  {
    a[i], a[j] := a[j], a[i];
  }

  /**
    The median of v, computed as the autotuner does: on a copy, place the
    element of rank |v| / 2 with nth_element and read it.
  */
  method Median(v: seq<int>) returns (m: int)
    requires |v| > 0
    ensures IsMedian(v, m)
    ensures m in v
  {
    var a := new int[|v|](i requires 0 <= i < |v| => v[i]);
    assert a[..] == v;
    var n := |v| / 2;
    NthElement(a, n);
    m := a[n];
    PartitionedIsOrderStatistic(a[..], n);
    CountLessPermutation(a[..], v, m);
    CountLessPermutation(a[..], v, m + 1);
    OrderStatisticIsElement(v, m, n);
  }

  /** k is the lowest index of a minimal element of s. */
  predicate IsLowestArgMin(s: seq<int>, k: nat) {
    && k < |s|
    && (forall j :: 0 <= j < |s| ==> s[k] <= s[j])
    && (forall j :: 0 <= j < k ==> s[k] < s[j])
  }

  /** The lowest index of a minimal element, scanning left to right and moving only on a strictly smaller one. */
  function LowestArgMin(s: seq<int>): (k: nat)
    requires |s| > 0
    ensures IsLowestArgMin(s, k)
  {
    if |s| == 1 then 0
    else
      var k := LowestArgMin(s[..|s| - 1]);
      if s[|s| - 1] < s[k] then |s| - 1 else k
  }

  /** There is only one lowest index of a minimum. */
  lemma LowestArgMinUnique(s: seq<int>, k1: nat, k2: nat)
    requires IsLowestArgMin(s, k1) && IsLowestArgMin(s, k2)
    ensures k1 == k2
  {
    assert s[k1] <= s[k2] && s[k2] <= s[k1];
  }

  /**
    The selection loop of the autotuner: keep the first index whose value is
    strictly smaller than every value seen before.
  */
  method LowestMinIndex(s: seq<int>) returns (k: nat)
    requires |s| > 0
    ensures IsLowestArgMin(s, k)
    ensures k == LowestArgMin(s)
  {
    k := 0;
    var min := s[0];
    var i := 1;
    while i < |s|
      invariant 1 <= i <= |s|
      invariant IsLowestArgMin(s[..i], k) && min == s[k]
    {
      if s[i] < min {
        min := s[i];
        k := i;
      }
      i := i + 1;
    }
    assert s[..i] == s;
    LowestArgMinUnique(s, k, LowestArgMin(s));
  }
}

/** Sequence vocabulary shared by the models: exact sums, integer ranges and sortedness. */
module Seqs {

  /** The exact sum of `s`, accumulated left to right as a `foreach` loop does. */
  function Sum(s: seq<int>): int {
    if s == [] then 0 else Sum(s[..|s| - 1]) + s[|s| - 1]
  }

  /** Summing a concatenation sums the parts. */
  lemma {:induction false} SumAppend(a: seq<int>, b: seq<int>)
    ensures Sum(a + b) == Sum(a) + Sum(b)
    decreases |b|
  {
    if b == [] {
      assert a + b == a;
    } else {
      var last := |b| - 1;
      assert (a + b)[..|a + b| - 1] == a + b[..last];
      SumAppend(a, b[..last]);
    }
  }

  /** The sum of non-negative elements is non-negative and at least each prefix sum. */
  lemma {:induction false} SumPrefixBound(s: seq<int>, k: nat)
    requires k <= |s|
    requires forall i :: 0 <= i < |s| ==> s[i] >= 0
    ensures 0 <= Sum(s[..k]) <= Sum(s)
    decreases |s|
  {
    if k < |s| {
      assert s[..|s| - 1][..k] == s[..k];
      SumPrefixBound(s[..|s| - 1], k);
    } else if s != [] {
      assert s[..k] == s;
      SumPrefixBound(s[..|s| - 1], k - 1);
      assert s[..|s| - 1][..k - 1] == s[..|s| - 1];
    }
  }

  /** `count` consecutive integers starting at `start`, like `Enumerable.Range(start, count)`. */
  function Range(start: int, count: nat): (r: seq<int>)
    ensures |r| == count
    ensures count > 0 ==> r[0] == start
    ensures forall i, j :: 0 <= i <= j < |r| ==> r[j] - r[i] == j - i
  {
    seq(count, i => start + i)
  }

  /** A range holds exactly the integers from `start` up to, not including, `start + count`. */
  lemma RangeMembers(start: int, count: nat, x: int)
    ensures x in Range(start, count) <==> start <= x < start + count
  {
    if start <= x < start + count {
      assert Range(start, count)[x - start] == x;
    }
  }

  /** Extending a range by one appends the next integer. */
  lemma RangeSnoc(start: int, count: nat)
    ensures Range(start, count + 1) == Range(start, count) + [start + count]
  {
  }

  /** Gauss: 0 + 1 + ... + (n - 1) == n * (n - 1) / 2. */
  lemma {:induction false} SumRange(n: nat)
    ensures Sum(Range(0, n)) == n * (n - 1) / 2
  {
    if n > 0 {
      RangeSnoc(0, n - 1);
      assert Range(0, n)[..n - 1] == Range(0, n - 1);
      SumRange(n - 1);
    }
  }

  /** Ascending order, with equal neighbours allowed. */
  predicate Sorted(s: seq<int>) {
    forall i, j :: 0 <= i < j < |s| ==> s[i] <= s[j]
  }

  /** The first element of a sorted sequence is below every element it holds. */
  lemma SortedHeadIsLeast(s: seq<int>, v: int)
    requires Sorted(s) && v in multiset(s)
    ensures s != [] && s[0] <= v
  {
    var i :| 0 <= i < |s| && s[i] == v;
  }

  lemma MultisetTail(s: seq<int>)
    requires s != []
    ensures multiset(s[1..]) == multiset(s) - multiset{s[0]}
  {
    assert s == [s[0]] + s[1..];
    assert multiset(s) == multiset{s[0]} + multiset(s[1..]);
  }

  lemma SortedTail(s: seq<int>)
    requires Sorted(s) && s != []
    ensures Sorted(s[1..])
  {
    forall i, j | 0 <= i < j < |s| - 1 ensures s[1..][i] <= s[1..][j] {
      assert s[1..][i] == s[i + 1] && s[1..][j] == s[j + 1];
    }
  }

  /** A multiset has one ascending arrangement: sorted permutations of each other coincide. */
  lemma {:induction false} SortedUnique(x: seq<int>, y: seq<int>)
    requires Sorted(x) && Sorted(y)
    requires multiset(x) == multiset(y)
    ensures x == y
    decreases |x|
  {
    if x == [] {
      assert |y| == |multiset(y)| == 0;
    } else {
      assert x[0] in multiset(x);
      SortedHeadIsLeast(y, x[0]);
      assert y[0] in multiset(y);
      SortedHeadIsLeast(x, y[0]);
      MultisetTail(x);
      MultisetTail(y);
      SortedTail(x);
      SortedTail(y);
      assert x[0] == y[0];
      SortedUnique(x[1..], y[1..]);
      assert |x| == |y|;
      assert forall i :: 0 <= i < |x| ==> x[i] == y[i] by {
        forall i | 0 <= i < |x| ensures x[i] == y[i] {
          if i > 0 { assert x[i] == x[1..][i - 1] && y[i] == y[1..][i - 1]; }
        }
      }
    }
  }
}

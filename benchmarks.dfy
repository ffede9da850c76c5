/**
 * `PerformanceBenchmarks` of the .NET 10 performance demo: the data each benchmark builds and the
 * value it returns. Timing, memory diagnostics and the benchmark runner are not modelled.
 */
module PerformanceDemo {
  import opened Wrappers
  import opened Int32Arith
  import opened Text
  import opened Seqs
  import opened ArrayOps
  import opened Linq

  const Iterations: nat := 1000000
  const DictIterations: nat := 100000
  const LinqItems: nat := 10000

  /** The dictionary value stored under key `i`: the interpolated string $"Value_{i}". */
  function ValueText(i: int): string {
    "Value_" + IntToString(i)
  }

  /** Distinct keys get distinct values. */
  lemma ValueTextInjective(i: int, j: int)
    requires ValueText(i) == ValueText(j)
    ensures i == j
  {
    assert IntToString(i) == ValueText(i)[6..];
    assert IntToString(j) == ValueText(j)[6..];
    IntToStringInjective(i, j);
  }

  /** A dictionary holding $"Value_{i}" under every key `i` in `0..n - 1`, and nothing else. */
  function ValueMap(n: nat): map<int, string> {
    map i | 0 <= i < n :: ValueText(i)
  }

  /** The empty dictionary is `ValueMap(0)`, and inserting key `n` extends `ValueMap(n)` to `ValueMap(n + 1)`. */
  lemma ValueMapGrows(n: nat)
    ensures ValueMap(0) == map[]
    ensures ValueMap(n)[n := ValueText(n)] == ValueMap(n + 1)
  {
    assert ValueMap(0).Keys == {};
  }

  /** `dictionary.TryGetValue(key, out value)`: whether the key is present, and its value. */
  function TryGetValue(m: map<int, string>, key: int): (r: (bool, Option<string>))
    ensures r.0 <==> key in m
    ensures r.0 ==> r.1 == Some(m[key])
    ensures !r.0 ==> r.1 == None
  {
    if key in m then (true, Some(m[key])) else (false, None)
  }

  /** A lookup in the pre-filled dictionary succeeds exactly for the keys 0..n - 1 and finds the key's own text. */
  lemma ValueMapLookup(n: nat, key: int)
    ensures TryGetValue(ValueMap(n), key).0 <==> 0 <= key < n
    ensures 0 <= key < n ==> TryGetValue(ValueMap(n), key).1 == Some(ValueText(key))
    ensures forall other :: other in ValueMap(n) && ValueMap(n)[other] == ValueText(key) ==> other == key
  {
    forall other | other in ValueMap(n) && ValueMap(n)[other] == ValueText(key) ensures other == key {
      ValueTextInjective(other, key);
    }
  }

  // ---------------------------------------------------------------- LinqOperations

  /** The `Where` lambda `x => x % 2 == 0`; C#'s truncating `%` and Dafny's agree on this test. */
  predicate IsEven(x: int) {
    x % 2 == 0
  }

  /** The `Select` lambda `x => x * 2`, an unchecked `int` multiplication. */
  function Doubled(x: int): Int32 {
    Wrap(x * 2)
  }

  /** `numbers.Where(x => x % 2 == 0).Select(x => x * 2).Sum()`. */
  function FilterMapSum(numbers: seq<Int32>): Result<Int32, OverflowException> {
    CheckedSum(Select(Where<int>(numbers, IsEven), Doubled))
  }

  /** 2, 4, ..., 2m. */
  function Evens(m: nat): seq<int> {
    seq(m, k => 2 * k + 2)
  }

  /** The even numbers of 1..2m are 2, 4, ..., 2m. */
  lemma {:induction false} EvensOfRange(m: nat)
    ensures Where(Range(1, 2 * m), IsEven) == Evens(m)
  {
    if m > 0 {
      EvensOfRange(m - 1);
      WhereRangeStep(m);
      EvensSnoc(m);
    }
  }

  /** Extending 1..2m - 2 by the odd 2m - 1 and the even 2m adds 2m to the filtered result. */
  lemma WhereRangeStep(m: nat)
    requires m > 0
    ensures Where(Range(1, 2 * m), IsEven) == Where(Range(1, 2 * m - 2), IsEven) + [2 * m]
  {
    var front := Range(1, 2 * m - 2);
    RangeSnoc(1, 2 * m - 2);
    RangeSnoc(1, 2 * m - 1);
    assert Range(1, 2 * m) == front + [2 * m - 1] + [2 * m];
    assert !IsEven(2 * m - 1) by { assert 2 * m - 1 == 2 * (m - 1) + 1; }
    WhereDropKeep<int>(front, 2 * m - 1, 2 * m, IsEven);
  }

  lemma EvensSnoc(m: nat)
    requires m > 0
    ensures Evens(m) == Evens(m - 1) + [2 * m]
  {
    var e, f := Evens(m), Evens(m - 1) + [2 * m];
    assert |e| == |f|;
    forall k | 0 <= k < m ensures e[k] == f[k] {
      if k < m - 1 { assert f[k] == Evens(m - 1)[k]; }
    }
  }

  /** 4 + 8 + ... + 4m == 2m(m + 1). */
  lemma {:induction false} SumMultiplesOfFour(m: nat)
    ensures Sum(seq(m, k => 4 * k + 4)) == 2 * m * (m + 1)
  {
    if m > 0 {
      var s := seq(m, k => 4 * k + 4);
      assert s[..m - 1] == seq(m - 1, k => 4 * k + 4);
      SumMultiplesOfFour(m - 1);
    }
  }

  /**
   * Over the numbers 1..2m the pipeline keeps 2, 4, ..., 2m, doubles them, and sums them to
   * 2m(m + 1) without overflow while that total fits in an `int`.
   */
  lemma FilterMapSumOfRange(m: nat)
    requires 2 * m * (m + 1) <= MaxValue
    ensures FilterMapSum(Range(1, 2 * m)) == Ok(2 * m * (m + 1))
  {
    EvensOfRange(m);
    DoubledEvens(m);
    var doubled := Select(Evens(m), Doubled);
    SumMultiplesOfFour(m);
    assert forall i :: 0 <= i < |doubled| ==> doubled[i] >= 0;
    CheckedSumNonNegative(doubled);
  }

  /** Doubling 2, 4, ..., 2m gives 4, 8, ..., 4m, with no wrap-around while the total fits. */
  lemma DoubledEvens(m: nat)
    requires 2 * m * (m + 1) <= MaxValue
    ensures Select(Evens(m), Doubled) == seq(m, k => 4 * k + 4)
  {
    assert 4 * m <= 2 * m * (m + 1) by {
      if m > 0 {
        assert m * (m + 1) >= m * 2;
      }
    }
    var doubled := Select(Evens(m), Doubled);
    forall k | 0 <= k < m ensures doubled[k] == 4 * k + 4 {
      assert Doubled(2 * k + 2) == 4 * k + 4;
    }
  }

  // ---------------------------------------------------------------- ArrayFillSortSearch

  /** n, n - 1, ..., 1: the array that `ArrayFillSortSearch` fills. */
  function Descending(n: nat): seq<int> {
    seq(n, i => n - i)
  }

  /** The descending and the ascending sequence of 1..n hold the same values. */
  lemma {:induction false} DescendingPermutesRange(n: nat)
    ensures multiset(Descending(n)) == multiset(Range(1, n))
  {
    if n > 0 {
      DescendingPermutesRange(n - 1);
      assert Descending(n) == [n] + Descending(n - 1);
      assert Range(1, n) == Range(1, n - 1) + [n];
    }
  }

  /** Sorting n, ..., 1 yields 1, ..., n. */
  lemma SortedDescending(n: nat, sorted: seq<int>)
    requires Sorted(sorted) && multiset(sorted) == multiset(Descending(n))
    ensures sorted == Range(1, n)
  {
    DescendingPermutesRange(n);
    SortedUnique(sorted, Range(1, n));
  }

  // ---------------------------------------------------------------- the benchmark class

  class PerformanceBenchmarks {
    var list: seq<int>
    var dict: map<int, string>
    var numbers: seq<Int32>
    var testString: string
    var arr: array<int>

    /** The state `Setup` leaves: every pre-filled collection in place. */
    ghost predicate Valid()
      reads this, arr
    {
      && list == Range(0, Iterations)
      && arr.Length == Iterations && arr[..] == list
      && dict == ValueMap(DictIterations)
      && numbers == Range(1, LinqItems)
    }

    /** Before `Setup` the fields hold C#'s `null!`; the model holds empty collections. */
    constructor ()
      ensures list == [] && dict == map[] && numbers == [] && testString == "" && arr.Length == 0
    {
      list, dict, numbers, testString := [], map[], [], "";
      arr := new int[0];
    }

    /**
     * `Setup` (the `[GlobalSetup]` method): `list` and `arr` get 0..Iterations - 1 with `i`
     * at index `i`, `dict` maps every key 0..DictIterations - 1 to $"Value_{i}" and holds no
     * other key, and `numbers` is `Enumerable.Range(1, LinqItems)`.
     */
    method Setup()
      modifies this
      ensures Valid() && fresh(arr)
      ensures testString == "Hello 123 World 456 Test 789"
    {
      var l: seq<int> := [];
      var a := new int[Iterations];
      for i := 0 to Iterations
        invariant |l| == i
        invariant forall j :: 0 <= j < i ==> l[j] == j && a[j] == j
      {
        l := l + [i];
        a[i] := i;
      }
      assert l == Range(0, Iterations);
      assert a[..] == l;
      var d: map<int, string> := map[];
      ValueMapGrows(0);
      for i := 0 to DictIterations
        invariant d == ValueMap(i)
        invariant a[..] == l
      {
        ValueMapGrows(i);
        d := d[i := ValueText(i)];
      }
      list, arr, dict := l, a, d;
      numbers := Range(1, LinqItems);
      testString := "Hello 123 World 456 Test 789";
    }

    /**
     * `LinqOperations` after `Setup`: the doubled evens of 1..10000 sum to 50 010 000 without
     * overflow, so `Sum` does not throw.
     */
    method LinqOperations() returns (r: Result<Int32, OverflowException>)
      requires Valid()
      ensures r == Ok(50_010_000)
    {
      FilterMapSumOfRange(LinqItems / 2);
      r := FilterMapSum(numbers);
    }

    /**
     * `StringConcatenation`: every iteration overwrites `result`, so only the last one,
     * "Hello World!999", is returned.
     */
    method StringConcatenation() returns (result: string)
      ensures result == "Hello World!999"
    {
      result := "";
      for i := 0 to 1000
        invariant i > 0 ==> result == "Hello World!" + IntToString(i - 1)
      {
        result := "Hello" + " " + "World" + "!" + IntToString(i);
      }
      assert IntToString(999) == "999";
    }

    /** `ListAddAndSum`: the list 0..9999 in insertion order, summed with unchecked `+=`: 49 995 000. */
    method ListAddAndSum() returns (sum: Int32)
      ensures sum == 49_995_000
    {
      var list: seq<Int32> := [];
      for i := 0 to 10000
        invariant list == Range(0, i)
      {
        list := list + [i];
      }
      sum := 0;
      for i := 0 to |list|
        invariant sum == Wrap(Sum(list[..i]))
      {
        assert list[..i + 1][..i] == list[..i];
        WrapAdd(Sum(list[..i]), list[i]);
        sum := Add(sum, list[i]);
      }
      assert list[..|list|] == list;
      SumRange(10000);
    }

    /**
     * `DictionaryOperations`: inserts $"Value_{i}" for the keys 0..999, then looks each of them up;
     * every lookup succeeds, so the last one, for 999, returns true.
     */
    method DictionaryOperations() returns (found: bool)
      ensures found
    {
      var dict: map<int, string> := map[];
      ValueMapGrows(0);
      for i := 0 to 1000
        invariant dict == ValueMap(i)
      {
        ValueMapGrows(i);
        dict := dict[i := ValueText(i)];
      }
      found := false;
      for i := 0 to 1000
        invariant i > 0 ==> found
      {
        ValueMapLookup(1000, i);
        found := TryGetValue(dict, i).0;
      }
    }

    /**
     * `ArrayFillSortSearch`: fills 10000, 9999, ..., 1, sorts it into 1, ..., 10000 and finds
     * 5000 at index 4999.
     */
    method ArrayFillSortSearch() returns (r: int)
      ensures r == 4999
    {
      var values := new int[10000];
      for i := 0 to 10000
        invariant forall j :: 0 <= j < i ==> values[j] == 10000 - j
      {
        values[i] := 10000 - i;
      }
      assert values[..] == Descending(10000);
      ArraySort(values);
      SortedDescending(10000, values[..]);
      assert values[4999] == 5000;
      r := BinarySearch(values, 5000);
    }

    /**
     * `SpanOperations`: fills a 1024-byte buffer with `i % 256` for i in 0..99 and looks for 128
     * after each fill; 128 is never there, so the result is -1.
     */
    method SpanOperations() returns (result: int)
      ensures result == -1
    {
      var buffer := new Byte[1024];
      result := 0;
      for i := 0 to 100
        invariant i > 0 ==> result == -1
      {
        Fill(buffer, i % 256);
        assert buffer.Length > 0 && forall k :: 0 <= k < buffer.Length ==> buffer[k] != 128;
        result := IndexOf(buffer, 128);
      }
    }
  }
}

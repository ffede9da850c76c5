/**
 * The runtime library calls the benchmarks rely on, each written out with its documented
 * contract: `Array.Sort`, `Array.BinarySearch`, `Span<byte>.Fill` and `Span<byte>.IndexOf`.
 */
module ArrayOps {
  import opened Seqs

  /** The values a C# `byte` can hold. */
  type Byte = x: int | 0 <= x < 256

  // ---------------------------------------------------------------- Array.Sort

  /** Inserts `x` into a sorted sequence at the first place that keeps it sorted. */
  function Insert(x: int, s: seq<int>): (r: seq<int>)
    requires Sorted(s)
    ensures Sorted(r)
    ensures multiset(r) == multiset(s) + multiset{x}
    ensures |r| == |s| + 1
  {
    if s == [] || x <= s[0] then
      [x] + s
    else
      SortedTail(s);
      var rest := Insert(x, s[1..]);
      assert s == [s[0]] + s[1..];
      HeadBelowInserted(s, x, rest);
      [s[0]] + rest
  }

  /** The head of a sorted `s` is below every element of its tail with a larger `x` added. */
  lemma HeadBelowInserted(s: seq<int>, x: int, rest: seq<int>)
    requires Sorted(s) && s != [] && s[0] < x
    requires Sorted(rest) && multiset(rest) == multiset(s[1..]) + multiset{x}
    ensures Sorted([s[0]] + rest)
  {
    forall k | 0 <= k < |rest| ensures s[0] <= rest[k] {
      var v := rest[k];
      assert v in multiset(rest);
      if v != x {
        assert v in multiset(s[1..]);
        var j :| 0 <= j < |s[1..]| && s[1..][j] == v;
        assert s[j + 1] == v;
      }
    }
    var t := [s[0]] + rest;
    forall i, j | 0 <= i < j < |t| ensures t[i] <= t[j] {
      if i > 0 { assert t[i] == rest[i - 1] && t[j] == rest[j - 1]; }
      else { assert t[j] == rest[j - 1]; }
    }
  }

  /** An ascending arrangement of `s`: sorted, and a permutation of `s`. */
  function SortedPermutation(s: seq<int>): (r: seq<int>)
    ensures Sorted(r)
    ensures multiset(r) == multiset(s)
  {
    if s == [] then []
    else
      assert s == [s[0]] + s[1..];
      Insert(s[0], SortedPermutation(s[1..]))
  }

  /**
   * `Array.Sort(array)`: rearranges the elements in place into ascending order. The result is
   * sorted and a permutation of the input, which determines it uniquely (`Seqs.SortedUnique`).
   */
  method ArraySort(a: array<int>)
    modifies a
    ensures Sorted(a[..])
    ensures multiset(a[..]) == multiset(old(a[..]))
  {
    var sorted := SortedPermutation(a[..]);
    assert |sorted| == |multiset(sorted)| == a.Length;
    forall i | 0 <= i < a.Length {
      a[i] := sorted[i];
    }
    assert a[..] == sorted;
  }

  // ---------------------------------------------------------------- Array.BinarySearch

  /** C#'s `~x` on an `int`: the bitwise complement, which equals `-x - 1`. */
  function Complement(x: int): int {
    -x - 1
  }

  /**
   * `Array.BinarySearch(array, value)` on a sorted array: the index of an element equal to
   * `value`, or the bitwise complement of the index of the first element greater than `value`
   * (the array's length when there is none), which is negative.
   */
  method BinarySearch(a: array<int>, value: int) returns (r: int)
    requires Sorted(a[..])
    ensures 0 <= r ==> r < a.Length && a[r] == value
    ensures r < 0 ==> 0 <= Complement(r) <= a.Length
    ensures r < 0 ==> forall i :: 0 <= i < Complement(r) ==> a[i] < value
    ensures r < 0 ==> forall i :: Complement(r) <= i < a.Length ==> value < a[i]
    ensures r < 0 <==> value !in a[..]
  {
    var lo, hi := 0, a.Length - 1;
    while lo <= hi
      invariant 0 <= lo <= hi + 1 <= a.Length
      invariant forall i :: 0 <= i < lo ==> a[i] < value
      invariant forall i :: hi < i < a.Length ==> value < a[i]
    {
      var mid := lo + (hi - lo) / 2;
      if a[mid] == value {
        return mid;
      } else if a[mid] < value {
        lo := mid + 1;
      } else {
        hi := mid - 1;
      }
    }
    r := Complement(lo);
  }

  // ---------------------------------------------------------------- Span<byte>.Fill and IndexOf

  /** `span.Fill(value)`: every element becomes `value`. */
  method Fill(buffer: array<Byte>, value: Byte)
    modifies buffer
    ensures forall i :: 0 <= i < buffer.Length ==> buffer[i] == value
  {
    for i := 0 to buffer.Length
      invariant forall k :: 0 <= k < i ==> buffer[k] == value
    {
      buffer[i] := value;
    }
  }

  /** `span.IndexOf(value)`: the first index holding `value`, or -1 when there is none. */
  method IndexOf(buffer: array<Byte>, value: Byte) returns (r: int)
    ensures -1 <= r < buffer.Length
    ensures r == -1 <==> value !in buffer[..]
    ensures 0 <= r ==> buffer[r] == value && forall k :: 0 <= k < r ==> buffer[k] != value
  {
    for i := 0 to buffer.Length
      invariant forall k :: 0 <= k < i ==> buffer[k] != value
    {
      if buffer[i] == value {
        return i;
      }
    }
    r := -1;
  }
}

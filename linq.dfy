/**
 * The LINQ operators of the filter-map-sum benchmark: `Where`, `Select` and `Enumerable.Sum`
 * over `int`, which (unlike the `+` operator) adds in a checked context and throws
 * `OverflowException` when a running total leaves the range of `int`.
 */
module Linq {
  import opened Wrappers
  import opened Int32Arith
  import Seqs

  datatype OverflowException = OverflowException

  /** `source.Where(keep)`: the elements that satisfy `keep`, in source order. */
  function Where<T>(source: seq<T>, keep: T -> bool): (r: seq<T>)
    ensures |r| <= |source|
    ensures forall i :: 0 <= i < |r| ==> keep(r[i]) && r[i] in source
    decreases |source|
  {
    if source == [] then []
    else
      var rest := Where(source[..|source| - 1], keep);
      var last := source[|source| - 1];
      assert forall x :: x in source[..|source| - 1] ==> x in source;
      if keep(last) then rest + [last] else rest
  }

  /** `Where` over a concatenation filters each part. */
  lemma {:induction false} WhereAppend<T>(a: seq<T>, b: seq<T>, keep: T -> bool)
    ensures Where(a + b, keep) == Where(a, keep) + Where(b, keep)
    decreases |b|
  {
    if b == [] {
      assert a + b == a;
    } else {
      assert (a + b)[..|a + b| - 1] == a + b[..|b| - 1];
      WhereAppend(a, b[..|b| - 1], keep);
    }
  }

  lemma WhereSingleton<T>(x: T, keep: T -> bool)
    ensures Where([x], keep) == if keep(x) then [x] else []
  {
    assert [x][..0] == [];
  }

  /** `Where` drops a rejected element and keeps an accepted one after a prefix. */
  lemma WhereDropKeep<T>(front: seq<T>, dropped: T, kept: T, keep: T -> bool)
    requires !keep(dropped) && keep(kept)
    ensures Where(front + [dropped] + [kept], keep) == Where(front, keep) + [kept]
  {
    WhereAppend(front + [dropped], [kept], keep);
    WhereAppend(front, [dropped], keep);
    WhereSingleton(dropped, keep);
    WhereSingleton(kept, keep);
  }

  /** `source.Select(selector)`: `selector` applied to each element, in source order. */
  function Select<T, U>(source: seq<T>, selector: T -> U): (r: seq<U>)
    ensures |r| == |source|
  {
    seq(|source|, i requires 0 <= i < |source| => selector(source[i]))
  }

  /**
   * `Enumerable.Sum` over `int`: adds left to right, starting from 0, and throws as soon as a
   * running total leaves the range of `int`.
   */
  function CheckedSum(source: seq<Int32>): (r: Result<Int32, OverflowException>)
    ensures r.Ok? ==> r.value == Seqs.Sum(source)
    ensures r.Ok? <==> forall k :: 0 <= k <= |source| ==> InRange(Seqs.Sum(source[..k]))
    decreases |source|
  {
    if source == [] then Ok(0)
    else
      var prefix := source[..|source| - 1];
      assert forall k :: 0 <= k <= |prefix| ==> source[..k] == prefix[..k];
      assert source[..|source|] == source;
      match CheckedSum(prefix)
      case Err(e) => Err(e)
      case Ok(total) =>
        var next := total + source[|source| - 1];
        if InRange(next) then Ok(next) else Err(OverflowException)
  }

  /** With no negative element, `Sum` succeeds exactly when the total fits in an `int`. */
  lemma {:induction false} CheckedSumNonNegative(source: seq<Int32>)
    requires forall i :: 0 <= i < |source| ==> source[i] >= 0
    ensures CheckedSum(source).Ok? <==> Seqs.Sum(source) <= MaxValue
  {
    if source != [] {
      var prefix := source[..|source| - 1];
      Seqs.SumPrefixBound(source, |source| - 1);
      CheckedSumNonNegative(prefix);
      if Seqs.Sum(source) <= MaxValue {
        assert CheckedSum(prefix).Ok?;
      }
    }
  }
}

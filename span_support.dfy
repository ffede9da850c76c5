/**
 * First-class span support from the language-feature tour: range slicing of a read-only span
 * (`span[..k]`, `span[k..]`) and `SpanToString`, which joins the items' texts with ", ".
 */
module SpanSupport {
  import opened Wrappers
  import opened Text
  import opened Linq

  /** The exception a slice with a range outside the span throws. */
  datatype ArgumentOutOfRangeException = ArgumentOutOfRangeException

  /** `span[..end]`: the first `end` items, or an exception when `end` is outside `0..Length`. */
  function SliceTo<T>(span: seq<T>, end: int): (r: Result<seq<T>, ArgumentOutOfRangeException>)
    ensures r.Ok? <==> 0 <= end <= |span|
    ensures r.Ok? ==> |r.value| == end && forall i :: 0 <= i < end ==> r.value[i] == span[i]
  {
    if 0 <= end <= |span| then Ok(span[..end]) else Err(ArgumentOutOfRangeException)
  }

  /** `span[start..]`: the items from index `start` on, or an exception when `start` is outside `0..Length`. */
  function SliceFrom<T>(span: seq<T>, start: int): (r: Result<seq<T>, ArgumentOutOfRangeException>)
    ensures r.Ok? <==> 0 <= start <= |span|
    ensures r.Ok? ==> |r.value| == |span| - start && forall i :: 0 <= i < |r.value| ==> r.value[i] == span[start + i]
  {
    if 0 <= start <= |span| then Ok(span[start..]) else Err(ArgumentOutOfRangeException)
  }

  /** Splitting a span at `k` gives parts of lengths `k` and `n - k` that concatenate to the span. */
  lemma SliceHalves<T>(span: seq<T>, k: int)
    requires 0 <= k <= |span|
    ensures SliceTo(span, k).Ok? && SliceFrom(span, k).Ok?
    ensures |SliceTo(span, k).value| == k && |SliceFrom(span, k).value| == |span| - k
    ensures SliceTo(span, k).value + SliceFrom(span, k).value == span
  {
    var front, back := SliceTo(span, k).value, SliceFrom(span, k).value;
    assert forall i :: 0 <= i < |span| ==> (front + back)[i] == span[i] by {
      forall i | 0 <= i < |span| ensures (front + back)[i] == span[i] {
        if i >= k {
          assert (front + back)[i] == back[i - k];
        }
      }
    }
  }

  /**
   * `SpanToString(span)`: appends each item's `ToString()` to a list, then
   * `string.Join(", ", items)`. `show` is the items' `ToString`, and the texts collected are `Select(span, show)`; span items are never null here.
   */
  method SpanToString<T>(span: seq<T>, show: T -> string) returns (r: string)
    ensures r == Join(", ", Select(span, show))
    ensures span == [] ==> r == ""
  {
    var items: seq<string> := [];
    for i := 0 to |span|
      invariant |items| == i
      invariant forall j :: 0 <= j < i ==> items[j] == show(span[j])
    {
      items := items + [show(span[i])];
    }
    assert items == Select(span, show);
    r := Join(", ", items);
  }

  lemma {:induction false} CountCharAbsent(c: char, s: string)
    requires forall i :: 0 <= i < |s| ==> s[i] != c
    ensures CountChar(c, s) == 0
  {
    if s != [] {
      CountCharAbsent(c, s[1..]);
    }
  }

  /** No integer prints with a comma. */
  lemma IntToStringHasNoComma(i: int)
    ensures CountChar(',', IntToString(i)) == 0
  {
    var s := IntToString(i);
    if i < 0 {
      assert forall k :: 1 <= k < |s| ==> s[k] == NatToString(-i)[k - 1];
    }
    CountCharAbsent(',', s);
  }

  /**
   * For a non-empty span of integers, the joined text holds exactly `count - 1` commas, one per
   * ", " separator, and is as long as the items' texts plus two characters per separator.
   */
  lemma IntSpanSeparators(span: seq<int>)
    requires |span| > 0
    ensures CountChar(',', Join(", ", Select(span, IntToString))) == |span| - 1
    ensures |Join(", ", Select(span, IntToString))| == TotalLength(Select(span, IntToString)) + 2 * (|span| - 1)
  {
    var items := Select(span, IntToString);
    forall k | 0 <= k < |items| ensures CountChar(", "[0], items[k]) == 0 {
      IntToStringHasNoComma(span[k]);
    }
    assert CountChar(", "[0], ", ") == 1 by {
      var sep := ", ";
      assert sep[0] == ',' && sep[1..] == " ";
      assert CountChar(',', " ") == 0 by {
        assert " "[1..] == [];
      }
    }
    JoinSeparatorCount(", ", items);
    JoinLength(", ", items);
  }

  /** The texts of the items 1..5. */
  lemma LowIntTexts()
    ensures Select([1, 2, 3, 4, 5], IntToString) == ["1", "2", "3", "4", "5"]
  {
    var r := Select([1, 2, 3, 4, 5], IntToString);
    assert r[0] == IntToString(1) == [DigitChar(1)] == "1";
    assert r[1] == IntToString(2) == [DigitChar(2)] == "2";
    assert r[2] == IntToString(3) == [DigitChar(3)] == "3";
    assert r[3] == IntToString(4) == [DigitChar(4)] == "4";
    assert r[4] == IntToString(5) == [DigitChar(5)] == "5";
  }

  /** The texts of the items 6..10; 10 prints with two digits. */
  lemma HighIntTexts()
    ensures Select([6, 7, 8, 9, 10], IntToString) == ["6", "7", "8", "9", "10"]
  {
    assert IntToString(10) == "10" by {
      assert NatToString(10 / 10) == "1";
    }
    var r := Select([6, 7, 8, 9, 10], IntToString);
    assert r[0] == IntToString(6) == [DigitChar(6)] == "6";
    assert r[1] == IntToString(7) == [DigitChar(7)] == "7";
    assert r[2] == IntToString(8) == [DigitChar(8)] == "8";
    assert r[3] == IntToString(9) == [DigitChar(9)] == "9";
    assert r[4] == IntToString(10);
  }

  /** Five texts joined with ", ". */
  lemma JoinFive(a: string, b: string, c: string, d: string, e: string)
    ensures Join(", ", [a, b, c, d, e]) == a + ", " + b + ", " + c + ", " + d + ", " + e
  {
    calc {
      Join(", ", [a, b, c, d, e]);
      { assert [a, b, c, d, e][1..] == [b, c, d, e]; }
      a + ", " + Join(", ", [b, c, d, e]);
      { assert [b, c, d, e][1..] == [c, d, e]; }
      a + ", " + (b + ", " + Join(", ", [c, d, e]));
      { assert [c, d, e][1..] == [d, e]; }
      a + ", " + (b + ", " + (c + ", " + Join(", ", [d, e])));
      { assert [d, e][1..] == [e]; }
      a + ", " + (b + ", " + (c + ", " + (d + ", " + e)));
      a + ", " + b + ", " + c + ", " + d + ", " + e;
    }
  }

  /** The text `SpanToString` prints for 1..5. */
  lemma FirstHalfText()
    ensures Join(", ", Select([1, 2, 3, 4, 5], IntToString)) == "1, 2, 3, 4, 5"
  {
    LowIntTexts();
    JoinFive("1", "2", "3", "4", "5");
  }

  /** The text `SpanToString` prints for 6..10. */
  lemma LastHalfText()
    ensures Join(", ", Select([6, 7, 8, 9, 10], IntToString)) == "6, 7, 8, 9, 10"
  {
    HighIntTexts();
    JoinFive("6", "7", "8", "9", "10");
  }

  /** The text `SpanToString` prints for 1..10: the two halves' texts joined by ", ". */
  lemma WholeText()
    ensures Join(", ", Select([1, 2, 3, 4, 5, 6, 7, 8, 9, 10], IntToString)) == "1, 2, 3, 4, 5, 6, 7, 8, 9, 10"
  {
    var low, high := Select([1, 2, 3, 4, 5], IntToString), Select([6, 7, 8, 9, 10], IntToString);
    assert Select([1, 2, 3, 4, 5, 6, 7, 8, 9, 10], IntToString) == low + high;
    JoinAppend(", ", low, high);
    FirstHalfText();
    LastHalfText();
  }

  /**
   * The tour's scenario: the span 1..10 split at 5 into 1..5 and 6..10, the three texts it
   * prints for them, and the first five characters of "Hello, World!".
   */
  method SpanSupportRun() returns (firstHalf: seq<int>, lastHalf: seq<int>, shown: string, firstText: string, lastText: string, textLength: nat, prefix: string)
    ensures firstHalf == [1, 2, 3, 4, 5] && lastHalf == [6, 7, 8, 9, 10]
    ensures shown == "1, 2, 3, 4, 5, 6, 7, 8, 9, 10"
    ensures firstText == "1, 2, 3, 4, 5" && lastText == "6, 7, 8, 9, 10"
    ensures textLength == 13 && prefix == "Hello"
  {
    var numbers := [1, 2, 3, 4, 5, 6, 7, 8, 9, 10];
    shown := SpanToString(numbers, IntToString);
    SliceHalves(numbers, 5);
    firstHalf := SliceTo(numbers, 5).value;
    lastHalf := SliceFrom(numbers, 5).value;
    assert firstHalf == [1, 2, 3, 4, 5] && lastHalf == [6, 7, 8, 9, 10];
    firstText := SpanToString(firstHalf, IntToString);
    lastText := SpanToString(lastHalf, IntToString);
    WholeText();
    FirstHalfText();
    LastHalfText();
    var text := "Hello, World!";
    textLength := |text|;
    prefix := SliceTo(text, 5).value;
  }
}

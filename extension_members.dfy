/**
 * The extension methods of the language-feature tour: `ListExtensions.Sum`,
 * `StringExtensions.WordCount` and `StringExtensions.ReverseString`.
 */
module ExtensionMembers {
  import opened Wrappers
  import opened Int32Arith
  import opened Text
  import Seqs
  import Linq

  // ---------------------------------------------------------------- ListExtensions.Sum

  /**
   * `list.Sum()`: a `foreach` accumulator with unchecked `+=`, so the result is the exact sum
   * wrapped into 32 bits; it is the exact sum whenever that fits, and 0 for an empty list.
   */
  method Sum(list: seq<Int32>) returns (sum: Int32)
    ensures sum == Wrap(Seqs.Sum(list))
    ensures InRange(Seqs.Sum(list)) ==> sum == Seqs.Sum(list)
  {
    sum := 0;
    for i := 0 to |list|
      invariant sum == Wrap(Seqs.Sum(list[..i]))
    {
      assert list[..i + 1][..i] == list[..i];
      WrapAdd(Seqs.Sum(list[..i]), list[i]);
      sum := Add(sum, list[i]);
    }
    assert list[..|list|] == list;
  }

  // ---------------------------------------------------------------- StringExtensions.WordCount

  /** The separators passed to `Split`: space, tab and line feed, and nothing else. */
  predicate IsSeparator(c: char) {
    c == ' ' || c == '\t' || c == '\n'
  }

  predicate NoSeparator(s: string) {
    forall i :: 0 <= i < |s| ==> !IsSeparator(s[i])
  }

  /** The longest prefix of `s` that holds no separator. */
  function TakeWord(s: string): (w: string)
    ensures |w| <= |s| && w == s[..|w|] && NoSeparator(w)
    ensures |w| < |s| ==> IsSeparator(s[|w|])
  {
    if s == [] || IsSeparator(s[0]) then [] else [s[0]] + TakeWord(s[1..])
  }

  /**
   * `s.Split(separators)` without options: the pieces between separators, including the empty
   * ones before, after and between adjacent separators.
   */
  function SplitFields(s: string): (r: seq<string>)
    ensures |r| > 0
    decreases |s|
  {
    var w := TakeWord(s);
    if |w| == |s| then [w] else [w] + SplitFields(s[|w| + 1..])
  }

  /** `StringSplitOptions.RemoveEmptyEntries`. */
  function RemoveEmptyEntries(fields: seq<string>): (r: seq<string>)
    ensures |r| <= |fields|
  {
    if fields == [] then []
    else if fields[0] == [] then RemoveEmptyEntries(fields[1..])
    else [fields[0]] + RemoveEmptyEntries(fields[1..])
  }

  /** `s.Split([' ', '\t', '\n'], StringSplitOptions.RemoveEmptyEntries)`. */
  function Words(s: string): seq<string> {
    RemoveEmptyEntries(SplitFields(s))
  }

  lemma {:induction false} SplitFieldsHaveNoSeparator(s: string)
    ensures forall i :: 0 <= i < |SplitFields(s)| ==> NoSeparator(SplitFields(s)[i])
    decreases |s|
  {
    var w := TakeWord(s);
    if |w| < |s| {
      SplitFieldsHaveNoSeparator(s[|w| + 1..]);
    }
  }

  /** A field `RemoveEmptyEntries` keeps. */
  predicate NonEmptyField(f: string) {
    f != []
  }

  /**
   * `RemoveEmptyEntries` keeps exactly the non-empty fields, in their order: it is `Where` with
   * the non-empty test, every entry it returns is a non-empty field, and every non-empty field
   * appears in it.
   */
  lemma {:induction false} RemoveEmptyEntriesKeeps(fields: seq<string>)
    ensures RemoveEmptyEntries(fields) == Linq.Where(fields, NonEmptyField)
    ensures forall i :: 0 <= i < |RemoveEmptyEntries(fields)| ==>
      RemoveEmptyEntries(fields)[i] != [] && RemoveEmptyEntries(fields)[i] in fields
    ensures forall f :: f in fields && f != [] ==> f in RemoveEmptyEntries(fields)
  {
    if fields != [] {
      var rest := fields[1..];
      RemoveEmptyEntriesKeeps(rest);
      assert fields == [fields[0]] + rest;
      Linq.WhereAppend([fields[0]], rest, NonEmptyField);
      Linq.WhereSingleton(fields[0], NonEmptyField);
      forall f | f in fields && f != [] ensures f in RemoveEmptyEntries(fields) {
        if f != fields[0] {
          assert f in rest;
        }
      }
    }
  }

  /** Every word is non-empty and free of separators. */
  lemma WordsAreWords(s: string)
    ensures forall i :: 0 <= i < |Words(s)| ==> Words(s)[i] != [] && NoSeparator(Words(s)[i])
  {
    var fields := SplitFields(s);
    SplitFieldsHaveNoSeparator(s);
    RemoveEmptyEntriesKeeps(fields);
    forall i | 0 <= i < |Words(s)| ensures NoSeparator(Words(s)[i]) {
      var k :| 0 <= k < |fields| && fields[k] == Words(s)[i];
    }
  }

  /**
   * `text.WordCount()`: 0 when `string.IsNullOrWhiteSpace(text)`, otherwise the number of
   * non-empty pieces that `Split` leaves.
   */
  function WordCount(text: Option<string>): (r: nat)
    ensures IsNullOrWhiteSpace(text) ==> r == 0
  {
    if IsNullOrWhiteSpace(text) then 0 else |Words(text.value)|
  }

  /** Number of separators in `s`. */
  function SeparatorCount(s: string): nat {
    if s == [] then 0 else (if IsSeparator(s[0]) then 1 else 0) + SeparatorCount(s[1..])
  }

  lemma {:induction false} SeparatorCountAppend(a: string, b: string)
    ensures SeparatorCount(a + b) == SeparatorCount(a) + SeparatorCount(b)
    decreases |a|
  {
    if a == [] {
      assert a + b == b;
    } else {
      assert (a + b)[1..] == a[1..] + b;
      SeparatorCountAppend(a[1..], b);
    }
  }

  lemma {:induction false} NoSeparatorCount(s: string)
    requires NoSeparator(s)
    ensures SeparatorCount(s) == 0
    decreases |s|
  {
    if s != [] {
      NoSeparatorCount(s[1..]);
    }
  }

  /** `Split` without options yields one more piece than there are separators. */
  lemma {:induction false} SplitFieldsCount(s: string)
    ensures |SplitFields(s)| == SeparatorCount(s) + 1
    decreases |s|
  {
    var w := TakeWord(s);
    NoSeparatorCount(w);
    if |w| < |s| {
      var t := s[|w| + 1..];
      assert s == w + [s[|w|]] + t;
      SeparatorCountAppend(w + [s[|w|]], t);
      SeparatorCountAppend(w, [s[|w|]]);
      SplitFieldsCount(t);
    } else {
      assert s == w;
    }
  }

  lemma {:induction false} RemoveEmptyAppend(a: seq<string>, b: seq<string>)
    ensures RemoveEmptyEntries(a + b) == RemoveEmptyEntries(a) + RemoveEmptyEntries(b)
    decreases |a|
  {
    if a == [] {
      assert a + b == b;
    } else {
      assert (a + b)[1..] == a[1..] + b;
      RemoveEmptyAppend(a[1..], b);
    }
  }

  /** A string without separators is one word, or none when it is empty. */
  lemma WordsWithoutSeparator(s: string)
    requires NoSeparator(s)
    ensures Words(s) == if s == [] then [] else [s]
  {
    var w := TakeWord(s);
    assert |w| == |s| && w == s;
  }

  /** The prefix before the first separator is unaffected by what follows that separator. */
  lemma {:induction false} TakeWordAppend(a: string, b: string)
    ensures |TakeWord(a)| < |a| ==> TakeWord(a + b) == TakeWord(a)
    ensures |TakeWord(a)| == |a| ==> TakeWord(a + b) == a + TakeWord(b)
    decreases |a|
  {
    if a == [] {
      assert a + b == b;
    } else {
      assert (a + b)[1..] == a[1..] + b;
      TakeWordAppend(a[1..], b);
    }
  }

  /** When the text before a separator holds none, it is the first piece of the split. */
  lemma SplitAtFirstSeparator(a: string, c: char, b: string)
    requires IsSeparator(c) && NoSeparator(a)
    ensures SplitFields(a + [c] + b) == [a] + SplitFields(b)
  {
    var s := a + [c] + b;
    TakeWordAppend(a, [c] + b);
    assert s == a + ([c] + b);
    assert TakeWord(a) == a;
    assert TakeWord([c] + b) == [];
    assert s[|a| + 1..] == b;
  }

  /** A separator after the first piece leaves that piece first and splits the rest. */
  lemma SplitAfterFirstPiece(a: string, c: char, b: string)
    requires |TakeWord(a)| < |a|
    ensures var w := TakeWord(a);
      && SplitFields(a + [c] + b) == [w] + SplitFields(a[|w| + 1..] + [c] + b)
      && SplitFields(a) == [w] + SplitFields(a[|w| + 1..])
  {
    var w := TakeWord(a);
    var rest := [c] + b;
    var s := a + rest;
    assert a + [c] + b == s;
    TakeWordAppend(a, rest);
    assert TakeWord(s) == w;
    assert s[|w| + 1..] == a[|w| + 1..] + rest;
    assert a[|w| + 1..] + rest == a[|w| + 1..] + [c] + b;
    assert SplitFields(s) == [w] + SplitFields(s[|w| + 1..]);
    assert SplitFields(a) == [w] + SplitFields(a[|w| + 1..]);
  }

  /** A separator splits the words cleanly: the words around it are kept, in order. */
  lemma {:induction false} WordsAroundSeparator(a: string, c: char, b: string)
    requires IsSeparator(c)
    ensures Words(a + [c] + b) == Words(a) + Words(b)
    decreases |a|
  {
    var w := TakeWord(a);
    if |w| == |a| {
      assert w == a;
      SplitAtFirstSeparator(a, c, b);
      RemoveEmptyAppend([a], SplitFields(b));
      WordsWithoutSeparator(a);
      assert SplitFields(a) == [a];
    } else {
      var t := a[|w| + 1..];
      var head := RemoveEmptyEntries([w]);
      calc {
        Words(a + [c] + b);
      == { SplitAfterFirstPiece(a, c, b); RemoveEmptyAppend([w], SplitFields(t + [c] + b)); }
        head + Words(t + [c] + b);
      == { WordsAroundSeparator(t, c, b); }
        head + (Words(t) + Words(b));
      ==
        (head + Words(t)) + Words(b);
      == { SplitAfterFirstPiece(a, c, b); RemoveEmptyAppend([w], SplitFields(t)); }
        Words(a) + Words(b);
      }
    }
  }

  /** Leading, trailing and repeated separators do not change the words. */
  lemma SeparatorsAreIgnored(a: string, c: char, b: string)
    requires IsSeparator(c)
    ensures Words([c] + b) == Words(b)
    ensures Words(a + [c]) == Words(a)
    ensures Words(a + [c, c] + b) == Words(a + [c] + b)
  {
    WordsAroundSeparator([], c, b);
    assert [] + [c] + b == [c] + b;
    WordsAroundSeparator(a, c, []);
    assert a + [c] + [] == a + [c];
    WordsAroundSeparator(a + [c], c, b);
    assert a + [c] + [c] + b == a + [c, c] + b;
    WordsAroundSeparator(a, c, b);
  }

  /** Index `i` begins a word: a non-separator at the start or right after a separator. */
  predicate IsWordStart(s: string, i: int) {
    0 <= i < |s| && !IsSeparator(s[i]) && (i == 0 || IsSeparator(s[i - 1]))
  }

  /** The number of word starts below index `n`: the maximal runs of non-separators that begin there. */
  function WordStartsBelow(s: string, n: nat): nat
    requires n <= |s|
  {
    if n == 0 then 0 else WordStartsBelow(s, n - 1) + (if IsWordStart(s, n - 1) then 1 else 0)
  }

  lemma {:induction false} WordStartsBelowBound(s: string, n: nat)
    requires n <= |s|
    ensures WordStartsBelow(s, n) <= n
  {
    if n > 0 {
      WordStartsBelowBound(s, n - 1);
    }
  }

  lemma {:induction false} WordStartsBelowSnoc(s: string, c: char, n: nat)
    requires n <= |s|
    ensures WordStartsBelow(s + [c], n) == WordStartsBelow(s, n)
  {
    if n > 0 {
      assert IsWordStart(s + [c], n - 1) == IsWordStart(s, n - 1);
      WordStartsBelowSnoc(s, c, n - 1);
    }
  }

  /** Appending a non-separator adds a word exactly when it begins a new run. */
  lemma {:induction false} WordsSnocLetter(s: string, c: char)
    requires !IsSeparator(c)
    ensures |Words(s + [c])| == |Words(s)| + (if s == [] || IsSeparator(s[|s| - 1]) then 1 else 0)
    decreases |s|
  {
    var w := TakeWord(s);
    if |w| == |s| {
      assert w == s;
      assert NoSeparator(s + [c]);
      WordsWithoutSeparator(s);
      WordsWithoutSeparator(s + [c]);
    } else {
      var t := s[|w| + 1..];
      var d := s[|w|];
      assert s == w + [d] + t;
      assert s + [c] == w + [d] + (t + [c]);
      WordsAroundSeparator(w, d, t);
      WordsAroundSeparator(w, d, t + [c]);
      WordsSnocLetter(t, c);
      if t != [] {
        assert s[|s| - 1] == t[|t| - 1];
      }
    }
  }

  /** The split with empty entries removed counts exactly the maximal runs of non-separators. */
  lemma {:induction false} WordsCountRuns(s: string)
    ensures |Words(s)| == WordStartsBelow(s, |s|)
    decreases |s|
  {
    if s != [] {
      var p := s[..|s| - 1];
      var c := s[|s| - 1];
      assert s == p + [c];
      WordsCountRuns(p);
      WordStartsBelowSnoc(p, c, |p|);
      if IsSeparator(c) {
        WordsAroundSeparator(p, c, []);
        assert p + [c] + [] == s;
        assert Words([]) == [];
      } else {
        WordsSnocLetter(p, c);
      }
    }
  }

  /**
   * `WordCount` in full: 0 for null or white-space-only text, otherwise the number of maximal
   * runs of characters other than ' ', '\t' and '\n', which is at most the length of the text.
   */
  lemma WordCountIsRunCount(text: Option<string>)
    ensures text.None? ==> WordCount(text) == 0
    ensures text.Some? ==> WordCount(text) <= |text.value|
    ensures text.Some? && !IsNullOrWhiteSpace(text) ==> WordCount(text) == WordStartsBelow(text.value, |text.value|)
  {
    if text.Some? {
      WordsCountRuns(text.value);
      WordStartsBelowBound(text.value, |text.value|);
    }
  }

  /** Separators added before, after or next to another separator leave the count unchanged. */
  lemma WordCountIgnoresSeparators(a: string, c: char, b: string)
    requires IsSeparator(c)
    ensures WordCount(Some([c] + b)) == WordCount(Some(b))
    ensures WordCount(Some(a + [c])) == WordCount(Some(a))
    ensures WordCount(Some(a + [c, c] + b)) == WordCount(Some(a + [c] + b))
  {
    SeparatorsAreIgnored(a, c, b);
    assert IsWhiteSpace(c);
    var cb := [c] + b;
    assert IsNullOrWhiteSpace(Some(cb)) == IsNullOrWhiteSpace(Some(b)) by {
      assert forall i :: 0 < i < |cb| ==> cb[i] == b[i - 1];
    }
    var ac := a + [c];
    assert IsNullOrWhiteSpace(Some(ac)) == IsNullOrWhiteSpace(Some(a)) by {
      assert forall i :: 0 <= i < |a| ==> ac[i] == a[i];
    }
    DoubledSeparatorWhiteSpace(a, c, b);
  }

  lemma DoubledSeparatorWhiteSpace(a: string, c: char, b: string)
    requires IsWhiteSpace(c)
    ensures IsNullOrWhiteSpace(Some(a + [c, c] + b)) == IsNullOrWhiteSpace(Some(a + [c] + b))
  {
    var long, short := a + [c, c] + b, a + [c] + b;
    assert forall i :: 0 <= i <= |a| ==> long[i] == short[i];
    assert forall i :: |a| < i < |short| ==> long[i + 1] == short[i];
    if IsNullOrWhiteSpace(Some(short)) {
      forall i | 0 <= i < |long| ensures IsWhiteSpace(long[i]) {
        if i > |a| { assert long[i] == short[i - 1]; }
      }
    }
  }

  /**
   * `IsNullOrWhiteSpace` tests a wider set than `Split`: "\r" counts no words through the
   * short-circuit, although `Split` would return one piece for it; inside a word "\r" splits nothing.
   */
  lemma WhiteSpaceWiderThanSeparators()
    ensures WordCount(Some("\r")) == 0 && |Words("\r")| == 1
    ensures WordCount(Some("a\rb")) == 1
  {
    assert IsWhiteSpace("\r"[0]);
    assert TakeWord("\r") == "\r";
    assert !IsWhiteSpace("a\rb"[0]);
    assert TakeWord("a\rb") == "a\rb";
  }

  /** When every white-space character of the text is a separator, the short-circuit agrees with the split count. */
  lemma ShortCircuitAgreesOnSeparators(s: string)
    requires forall i :: 0 <= i < |s| ==> (IsWhiteSpace(s[i]) <==> IsSeparator(s[i]))
    ensures WordCount(Some(s)) == WordStartsBelow(s, |s|)
  {
    WordsCountRuns(s);
    if IsNullOrWhiteSpace(Some(s)) {
      NoWordStarts(s, |s|);
    }
  }

  lemma {:induction false} NoWordStarts(s: string, n: nat)
    requires n <= |s|
    requires forall i :: 0 <= i < |s| ==> IsSeparator(s[i])
    ensures WordStartsBelow(s, n) == 0
  {
    if n > 0 {
      NoWordStarts(s, n - 1);
    }
  }

  // ---------------------------------------------------------------- StringExtensions.ReverseString

  /** The characters of `s` in the opposite order. */
  function Reversed<T>(s: seq<T>): (r: seq<T>)
    ensures |r| == |s|
  {
    if |s| == 0 then [] else [s[|s| - 1]] + Reversed(s[..|s| - 1])
  }

  /** Index `i` of the reversal holds index `n - 1 - i` of the original. */
  lemma {:induction false} ReversedAt<T>(s: seq<T>, i: nat)
    requires i < |s|
    ensures Reversed(s)[i] == s[|s| - 1 - i]
  {
    if i > 0 {
      ReversedAt(s[..|s| - 1], i - 1);
    }
  }

  /** Reversing twice gives back the original. */
  lemma ReversedTwice<T>(s: seq<T>)
    ensures Reversed(Reversed(s)) == s
  {
    forall i | 0 <= i < |s| ensures Reversed(Reversed(s))[i] == s[i] {
      ReversedAt(Reversed(s), i);
      ReversedAt(s, |s| - 1 - i);
    }
  }

  /** `Array.Reverse(array)`: swaps the ends inwards until the indices meet. */
  method ArrayReverse<T>(a: array<T>)
    modifies a
    ensures a[..] == Reversed(old(a[..]))
  {
    var i, j := 0, a.Length - 1;
    while i < j
      invariant 0 <= i <= j + 1 <= a.Length && i + j == a.Length - 1
      invariant forall k :: 0 <= k < i ==> a[k] == old(a[a.Length - 1 - k]) && a[a.Length - 1 - k] == old(a[k])
      invariant forall k :: i <= k <= j ==> a[k] == old(a[k])
    {
      a[i], a[j] := a[j], a[i];
      i, j := i + 1, j - 1;
    }
    forall k | 0 <= k < a.Length ensures a[k] == Reversed(old(a[..]))[k] {
      ReversedAt(old(a[..]), k);
    }
  }

  /**
   * `text.ReverseString()`: copies the characters to a fresh array, reverses it in place and
   * builds the result from it; character `i` of the input ends at index `n - 1 - i`.
   */
  method ReverseString(text: string) returns (r: string)
    ensures |r| == |text|
    ensures forall i :: 0 <= i < |text| ==> r[|text| - 1 - i] == text[i]
    ensures r == Reversed(text)
  {
    var chars := new char[|text|](i requires 0 <= i < |text| => text[i]);
    assert chars[..] == text;
    ArrayReverse(chars);
    r := chars[..];
    forall i | 0 <= i < |text| ensures r[|text| - 1 - i] == text[i] {
      ReversedAt(text, |text| - 1 - i);
    }
  }

  /** `ReverseString` applied twice returns the original text. */
  method ReverseStringTwice(text: string) returns (r: string)
    ensures r == text
  {
    var once := ReverseString(text);
    r := ReverseString(once);
    ReversedTwice(text);
  }

  const Greeting := "Hello, Mississauga!"

  lemma OneToFiveSum()
    ensures Seqs.Sum([1, 2, 3, 4, 5]) == 15
  {
    var s := [1, 2, 3, 4, 5];
    assert s[..4] == [1, 2, 3, 4] && s[..4][..3] == [1, 2, 3];
    assert [1, 2, 3][..2] == [1, 2] && [1, 2][..1] == [1] && [1][..0] == [];
  }

  /** Two separator-free words around one space count as two words. */
  lemma TwoWords(x: string, y: string)
    requires x != [] && y != [] && NoSeparator(x) && NoSeparator(y) && !IsWhiteSpace(x[0])
    ensures WordCount(Some(x + [' '] + y)) == 2
  {
    WordsAroundSeparator(x, ' ', y);
    WordsWithoutSeparator(x);
    WordsWithoutSeparator(y);
    assert (x + [' '] + y)[0] == x[0];
  }

  /** "Hello, Mississauga!" holds two words. */
  lemma GreetingWords()
    ensures WordCount(Some(Greeting)) == 2
  {
    TwoWords("Hello,", "Mississauga!");
    assert "Hello," + [' '] + "Mississauga!" == Greeting;
  }

  /** The tour's scenario: the sum of 1..5, and the words and reversal of "Hello, Mississauga!". */
  method ExtensionMembersRun() returns (sum: int, words: nat, reversed: string)
    ensures sum == 15
    ensures words == 2
    ensures |reversed| == |Greeting| && reversed[0] == '!' && reversed[|Greeting| - 1] == 'H'
  {
    OneToFiveSum();
    sum := Sum([1, 2, 3, 4, 5]);
    GreetingWords();
    words := WordCount(Some(Greeting));
    reversed := ReverseString(Greeting);
    assert reversed[0] == Greeting[18] && reversed[18] == Greeting[0];
  }
}

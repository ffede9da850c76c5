/**
 * The parts of .NET's string and character library the demos rely on: `Char.IsWhiteSpace`,
 * `string.IsNullOrWhiteSpace`, `int.ToString()` and `string.Join`.
 */
module Text {
  import opened Wrappers

  /**
   * `Char.IsWhiteSpace`: the Unicode space separators (U+0020, U+00A0, U+1680, U+2000-U+200A,
   * U+202F, U+205F, U+3000), the line and paragraph separators U+2028 and U+2029, and the
   * control characters U+0009-U+000D and U+0085.
   */
  predicate IsWhiteSpace(c: char) {
    var k := c as int;
    k == 0x20 || 0x09 <= k <= 0x0D || k == 0x85 || k == 0xA0 || k == 0x1680
    || 0x2000 <= k <= 0x200A || k == 0x2028 || k == 0x2029 || k == 0x202F
    || k == 0x205F || k == 0x3000
  }

  /** `string.IsNullOrWhiteSpace`: null, empty, or made only of white-space characters. */
  predicate IsNullOrWhiteSpace(s: Option<string>) {
    match s
    case None => true
    case Some(t) => forall i :: 0 <= i < |t| ==> IsWhiteSpace(t[i])
  }

  predicate IsDigit(c: char) {
    '0' <= c <= '9'
  }

  function DigitChar(d: nat): (c: char)
    requires d < 10
    ensures IsDigit(c) && c as int - '0' as int == d
  {
    ['0', '1', '2', '3', '4', '5', '6', '7', '8', '9'][d]
  }

  /** Decimal digits of `n`, most significant first, without leading zeros. */
  function NatToString(n: nat): (r: string)
    ensures |r| > 0 && (forall i :: 0 <= i < |r| ==> IsDigit(r[i]))
    ensures r[0] == '0' ==> n == 0
  {
    if n < 10 then [DigitChar(n)] else NatToString(n / 10) + [DigitChar(n % 10)]
  }

  /** `int.ToString()` under the invariant culture: a minus sign, then the decimal digits. */
  function IntToString(i: int): (r: string)
    ensures |r| > 0
    ensures (r[0] == '-') == (i < 0)
  {
    if i < 0 then "-" + NatToString(-i) else NatToString(i)
  }

  /** Reads back a string of decimal digits. */
  function ParseNat(s: string): nat {
    if s == [] then 0
    else
      var c := s[|s| - 1];
      ParseNat(s[..|s| - 1]) * 10 + (if IsDigit(c) then c as int - '0' as int else 0)
  }

  /** Reads back an optionally negative decimal integer. */
  function ParseInt(s: string): int {
    if |s| > 0 && s[0] == '-' then -(ParseNat(s[1..]) as int) else ParseNat(s)
  }

  lemma {:induction false} ParseNatToString(n: nat)
    ensures ParseNat(NatToString(n)) == n
  {
    if n >= 10 {
      var r := NatToString(n);
      assert r[..|r| - 1] == NatToString(n / 10);
      ParseNatToString(n / 10);
    }
  }

  /** `ParseInt` undoes `IntToString`. */
  lemma ParseIntToString(i: int)
    ensures ParseInt(IntToString(i)) == i
  {
    var r := IntToString(i);
    if i < 0 {
      var digits := NatToString(-i);
      assert r == "-" + digits;
      assert r[0] == '-' && r[1..] == digits;
      ParseNatToString(-i);
      assert ParseInt(r) == -(ParseNat(digits) as int);
    } else {
      assert r == NatToString(i) && r[0] != '-';
      ParseNatToString(i);
      assert ParseInt(r) == ParseNat(r);
    }
  }

  /** Distinct integers print differently. */
  lemma IntToStringInjective(i: int, j: int)
    requires IntToString(i) == IntToString(j)
    ensures i == j
  {
    ParseIntToString(i);
    ParseIntToString(j);
  }

  /** `string.Join(sep, items)`: the items in order with `sep` between neighbours. */
  function Join(sep: string, items: seq<string>): string
    decreases |items|
  {
    if |items| == 0 then ""
    else if |items| == 1 then items[0]
    else items[0] + sep + Join(sep, items[1..])
  }

  /** Total length of the items. */
  function TotalLength(items: seq<string>): nat
    decreases |items|
  {
    if items == [] then 0 else |items[0]| + TotalLength(items[1..])
  }

  /** Number of occurrences of `c` in `s`. */
  function CountChar(c: char, s: string): nat {
    if s == [] then 0 else (if s[0] == c then 1 else 0) + CountChar(c, s[1..])
  }

  lemma {:induction false} CountCharAppend(c: char, a: string, b: string)
    ensures CountChar(c, a + b) == CountChar(c, a) + CountChar(c, b)
    decreases |a|
  {
    if a != [] {
      assert (a + b)[1..] == a[1..] + b;
      CountCharAppend(c, a[1..], b);
    } else {
      assert a + b == b;
    }
  }

  /** A joined string is as long as its items plus one separator per gap. */
  lemma {:induction false} JoinLength(sep: string, items: seq<string>)
    requires |items| > 0
    ensures |Join(sep, items)| == TotalLength(items) + (|items| - 1) * |sep|
    decreases |items|
  {
    if |items| > 1 {
      JoinLength(sep, items[1..]);
    }
  }

  /**
   * When no item contains the first character of the separator and the separator holds it once,
   * the joined string holds exactly `|items| - 1` of that character: one per separator.
   */
  lemma {:induction false} JoinSeparatorCount(sep: string, items: seq<string>)
    requires |items| > 0 && |sep| > 0 && CountChar(sep[0], sep) == 1
    requires forall i :: 0 <= i < |items| ==> CountChar(sep[0], items[i]) == 0
    ensures CountChar(sep[0], Join(sep, items)) == |items| - 1
    decreases |items|
  {
    if |items| > 1 {
      JoinSeparatorCount(sep, items[1..]);
      CountCharAppend(sep[0], items[0], sep);
      CountCharAppend(sep[0], items[0] + sep, Join(sep, items[1..]));
    }
  }

  /** Joining two non-empty lists puts one separator at the seam. */
  lemma {:induction false} JoinAppend(sep: string, xs: seq<string>, ys: seq<string>)
    requires |xs| > 0 && |ys| > 0
    ensures Join(sep, xs + ys) == Join(sep, xs) + sep + Join(sep, ys)
    decreases |xs|
  {
    if |xs| == 1 {
      assert (xs + ys)[1..] == ys;
    } else {
      assert (xs + ys)[1..] == xs[1..] + ys;
      JoinAppend(sep, xs[1..], ys);
    }
  }
}

/** Decimal numbers in strings, as `strconv` writes them, and the order of strings. */
module Text {
  import opened Prelude

  function Digit(d: nat): (c: char)
    requires d < 10
    ensures IsDigit(c) && DigitValue(c) == d
  {
    ((('0' as int) + d) as char)
  }

  predicate IsDigit(c: char) {
    '0' <= c <= '9'
  }

  function DigitValue(c: char): (d: nat)
    requires IsDigit(c)
    ensures d < 10
  {
    (c as int) - ('0' as int)
  }

  /** `strconv.Itoa` and `strconv.FormatInt(_, 10)` on non-negative numbers. */
  function Decimal(n: nat): (s: string)
    ensures s != "" && forall i :: 0 <= i < |s| ==> IsDigit(s[i])
  {
    if n < 10 then [Digit(n)] else Decimal(n / 10) + [Digit(n % 10)]
  }

  /** The number spelled by the digits at the end of a string, 0 when there are none. */
  function TrailingValue(s: string): (n: nat) {
    if s == "" || !IsDigit(s[|s| - 1]) then 0
    else TrailingValue(s[..|s| - 1]) * 10 + DigitValue(s[|s| - 1])
  }

  lemma {:induction false} TrailingDecimal(prefix: string, n: nat)
    requires prefix != "" && !IsDigit(prefix[|prefix| - 1])
    ensures TrailingValue(prefix + Decimal(n)) == n
  {
    var s := prefix + Decimal(n);
    if n < 10 {
      assert s[..|s| - 1] == prefix;
    } else {
      TrailingDecimal(prefix, n / 10);
      assert s[..|s| - 1] == prefix + Decimal(n / 10);
    }
  }

  /** Different numbers have different decimal spellings, whatever stands around them. */
  lemma DecimalInjective(before: string, after: string, m: nat, n: nat)
    requires before + Decimal(m) + after == before + Decimal(n) + after
    ensures m == n
  {
    var left, right := before + Decimal(m) + after, before + Decimal(n) + after;
    assert left[|before|..|left| - |after|] == Decimal(m);
    assert right[|before|..|right| - |after|] == Decimal(n);
    TrailingDecimal("_", m);
    TrailingDecimal("_", n);
  }

  /** Go compares strings byte by byte; on UTF-8 that is the order of the code points. */
  predicate Before(a: string, b: string) {
    b != "" && (a == "" || a[0] < b[0] || (a[0] == b[0] && Before(a[1..], b[1..])))
  }

  lemma {:induction false} BeforeTotal(a: string, b: string)
    ensures !(Before(a, b) && Before(b, a))
    ensures a == b || Before(a, b) || Before(b, a)
    ensures !Before(a, a)
  {
    if a != "" {
      if b != "" {
        BeforeTotal(a[1..], b[1..]);
        if a[0] == b[0] && a[1..] == b[1..] {
          assert a == [a[0]] + a[1..] == [b[0]] + b[1..] == b;
        }
      } else {
        BeforeTotal(a[1..], "");
      }
    }
  }

  /** The first difference decides, and a string stands before what it begins. */
  lemma {:induction false} FirstDifferenceDecides(common: string, a: string, b: string)
    requires a != "" && b != "" ==> a[0] != b[0]
    ensures Before(common + a, common + b) <==> b != "" && (a == "" || a[0] < b[0])
  {
    if common == "" {
      assert common + a == a && common + b == b;
    } else {
      assert (common + a)[1..] == common[1..] + a && (common + b)[1..] == common[1..] + b;
      FirstDifferenceDecides(common[1..], a, b);
    }
  }

  lemma {:induction false} BeforeTransitive(a: string, b: string, c: string)
    requires Before(a, b) && Before(b, c)
    ensures Before(a, c)
  {
    if a != "" && a[0] == b[0] && b[0] == c[0] {
      BeforeTransitive(a[1..], b[1..], c[1..]);
    }
  }
}

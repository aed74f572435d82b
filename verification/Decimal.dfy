/** Integers as decimal text (`strconv`), and how text order relates to numeric order. */
module Decimal {
  import opened Common
  import opened Text

  function Digit(d: nat): char
    requires d < 10
  {
    '0' + d as char
  }

  predicate IsDigit(c: char) {
    '0' <= c <= '9'
  }

  predicate IsDigits(s: string) {
    forall i | 0 <= i < |s| :: IsDigit(s[i])
  }

  function FormatNat(n: nat): (s: string)
    ensures s != "" && IsDigits(s)
  {
    if n < 10 then [Digit(n)] else FormatNat(n / 10) + [Digit(n % 10)]
  }

  /** `strconv.FormatInt(n, 10)`. */
  function FormatInt(n: int): string {
    if n < 0 then "-" + FormatNat(-n) else FormatNat(n)
  }

  /** The number a digit string stands for. */
  function Value(s: string): nat
    requires IsDigits(s)
  {
    if s == "" then 0
    else Value(s[..|s| - 1]) * 10 + (s[|s| - 1] as int - '0' as int)
  }

  const MIN_INT64 := -0x8000_0000_0000_0000
  const MAX_INT64 := 0x7fff_ffff_ffff_ffff

  /** `strconv.ParseInt(s, 10, 64)`. */
  function ParseInt(s: string): Option<int> {
    if s == "" then None
    else
      var negative := s[0] == '-';
      var digits := if negative || s[0] == '+' then s[1..] else s;
      if digits == "" || !IsDigits(digits) then None
      else
        var n: int := if negative then -(Value(digits) as int) else Value(digits);
        if MIN_INT64 <= n <= MAX_INT64 then Some(n) else None
  }

  lemma {:induction false} ValueFormat(n: nat)
    ensures Value(FormatNat(n)) == n
  {
    if n >= 10 {
      ValueFormat(n / 10);
      var s := FormatNat(n);
      assert s[..|s| - 1] == FormatNat(n / 10);
    }
  }

  lemma ParseFormat(n: int)
    requires MIN_INT64 <= n <= MAX_INT64
    ensures ParseInt(FormatInt(n)) == Some(n)
  {
    if n < 0 {
      ValueFormat(-n);
      assert FormatInt(n)[1..] == FormatNat(-n);
    } else {
      ValueFormat(n);
      assert IsDigit(FormatNat(n)[0]);
    }
  }

  /** Different numbers have different texts. */
  lemma FormatInjective(a: int, b: int)
    requires FormatInt(a) == FormatInt(b)
    ensures a == b
  {
    var s := FormatInt(a);
    if a < 0 {
      ValueFormat(-a);
      assert s[0] == '-' && s[1..] == FormatNat(-a);
    } else {
      ValueFormat(a);
      assert IsDigit(s[0]);
    }
    if b < 0 {
      ValueFormat(-b);
      assert FormatInt(b)[1..] == FormatNat(-b);
    } else {
      ValueFormat(b);
      assert IsDigit(FormatInt(b)[0]);
    }
  }

  /** Numbers contain only a sign and digits, so they never contain or straddle a separator character. */
  lemma FormatIsClean(n: int, sep: char)
    requires !IsDigit(sep) && sep != '-'
    ensures Clean(FormatInt(n), [sep])
  {
    var s := FormatInt(n);
    forall i | 0 <= i < |s|
      ensures !OccursAt(s + [sep], i, [sep])
    {
      assert s[i] == '-' || IsDigit(s[i]);
      assert (s + [sep])[i..i + 1] == [s[i]];
    }
  }

  // ------------------------------------------------------------- byte order

  /** Lexicographic order, in which the store keeps its keys. */
  predicate Less(a: string, b: string) {
    b != "" && (a == "" || a[0] < b[0] || (a[0] == b[0] && Less(a[1..], b[1..])))
  }

  lemma {:induction false} LessIrreflexive(a: string)
    ensures !Less(a, a)
  {
    if a != "" {
      LessIrreflexive(a[1..]);
    }
  }

  lemma {:induction false} LessTransitive(a: string, b: string, c: string)
    requires Less(a, b) && Less(b, c)
    ensures Less(a, c)
    decreases |a|
  {
    if a != "" && a[0] == b[0] == c[0] {
      LessTransitive(a[1..], b[1..], c[1..]);
    }
  }

  lemma {:induction false} LessTotal(a: string, b: string)
    ensures a == b || Less(a, b) || Less(b, a)
  {
    if a != "" && b != "" && a[0] == b[0] {
      LessTotal(a[1..], b[1..]);
      assert a == [a[0]] + a[1..] && b == [b[0]] + b[1..];
    }
  }

  lemma {:induction false} LessPrefix(p: string, a: string, b: string)
    ensures Less(p + a, p + b) <==> Less(a, b)
    decreases |p|
  {
    if p == "" {
      assert p + a == a && p + b == b;
    } else {
      assert (p + a)[1..] == p[1..] + a && (p + b)[1..] == p[1..] + b;
      LessPrefix(p[1..], a, b);
    }
  }

  lemma {:induction false} LessLastChar(a: string, x: char, b: string, y: char)
    requires |a| == |b|
    ensures Less(a + [x], b + [y]) <==> Less(a, b) || (a == b && x < y)
    decreases |a|
  {
    if a == "" {
      assert a + [x] == [x] && b + [y] == [y];
      assert [x][1..] == "" && [y][1..] == "";
    } else {
      assert (a + [x])[1..] == a[1..] + [x] && (b + [y])[1..] == b[1..] + [y];
      LessLastChar(a[1..], x, b[1..], y);
      assert a == [a[0]] + a[1..] && b == [b[0]] + b[1..];
    }
  }

  /** Among digit strings of one length, text order is numeric order and the text is determined by the number. */
  lemma {:induction false} LessIsNumeric(a: string, b: string)
    requires IsDigits(a) && IsDigits(b) && |a| == |b|
    ensures Less(a, b) <==> Value(a) < Value(b)
    ensures a == b <==> Value(a) == Value(b)
    decreases |a|
  {
    if a != "" {
      var n := |a| - 1;
      assert a == a[..n] + [a[n]] && b == b[..n] + [b[n]];
      LessLastChar(a[..n], a[n], b[..n], b[n]);
      LessIsNumeric(a[..n], b[..n]);
    }
  }

  /** Non-negative numbers with the same number of digits sort as text the way they sort as numbers. */
  lemma EqualDigitsSortNumerically(a: nat, b: nat)
    requires |FormatInt(a)| == |FormatInt(b)|
    ensures Less(FormatInt(a), FormatInt(b)) <==> a < b
  {
    ValueFormat(a);
    ValueFormat(b);
    LessIsNumeric(FormatNat(a), FormatNat(b));
  }

  /** With different lengths they need not: "10" sorts before "9". */
  lemma TenSortsBeforeNine()
    ensures Less(FormatInt(10), FormatInt(9))
  {
    assert FormatInt(10) == FormatNat(1) + [Digit(0)] == "10";
    assert FormatInt(9) == "9";
  }
}

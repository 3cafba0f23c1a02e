/** Decimal text: the normal form without redundant zeros, its value, its printer, and its order. */
module Decimals {
  import opened Arithmetic

  predicate IsDigit(c: char) {
    '0' <= c <= '9'
  }

  predicate AllDigits(s: string) {
    forall i | 0 <= i < |s| :: IsDigit(s[i])
  }

  function DigitValue(c: char): (d: nat)
    requires IsDigit(c)
    ensures d < 10
  {
    c as int - '0' as int
  }

  function DigitChar(d: nat): (c: char)
    requires d < 10
    ensures IsDigit(c) && DigitValue(c) == d
  {
    (d + '0' as int) as char
  }

  function Value(s: string): nat
    requires AllDigits(s)
  {
    if s == "" then 0 else Value(s[..|s| - 1]) * 10 + DigitValue(s[|s| - 1])
  }

  /** The pattern 0|[1-9][0-9]* of the stored numbers. */
  predicate Canonical(s: string) {
    |s| > 0 && AllDigits(s) && (s[0] == '0' ==> |s| == 1)
  }

  function Print(n: nat): (s: string)
    ensures |s| > 0 && AllDigits(s)
  {
    if n < 10 then [DigitChar(n)] else Print(n / 10) + [DigitChar(n % 10)]
  }

  function Pow10(k: nat): (p: nat)
    ensures p > 0
  {
    if k == 0 then 1 else 10 * Pow10(k - 1)
  }

  lemma {:induction false} PrintFirst(n: nat)
    ensures Print(n)[0] == '0' ==> n == 0 && |Print(n)| == 1
  {
    if n >= 10 { PrintFirst(n / 10); }
  }

  lemma {:induction false} ValuePrint(n: nat)
    ensures Value(Print(n)) == n
  {
    if n < 10 {
      assert [DigitChar(n)][..0] == "";
    } else {
      ValuePrint(n / 10);
      var s := Print(n);
      assert s[..|s| - 1] == Print(n / 10);
    }
  }

  /** Printing gives the normal form, and reading the normal form and printing it again gives it back. */
  lemma {:induction false} PrintCanonical(n: nat)
    ensures Canonical(Print(n)) && Value(Print(n)) == n
  {
    PrintFirst(n);
    ValuePrint(n);
  }

  lemma TenParts(x: nat, d: nat)
    requires d < 10
    ensures (x * 10 + d) / 10 == x && (x * 10 + d) % 10 == d
  {
  }

  lemma PrintLonger(x: nat, c: char)
    requires x > 0 && IsDigit(c)
    ensures Print(x * 10 + DigitValue(c)) == Print(x) + [c]
  {
    TenParts(x, DigitValue(c));
  }

  lemma {:induction false} PrintValue(s: string)
    requires Canonical(s)
    ensures Print(Value(s)) == s
    decreases |s|
  {
    var init, last := s[..|s| - 1], s[|s| - 1];
    if |s| > 1 {
      assert init[0] == s[0];
      PrintValue(init);
      Positive(init);
      PrintLonger(Value(init), last);
      assert s == init + [last];
    }
  }

  lemma {:induction false} Positive(s: string)
    requires Canonical(s) && s[0] != '0'
    ensures Value(s) > 0
    decreases |s|
  {
    if |s| > 1 {
      assert s[..|s| - 1][0] == s[0];
      Positive(s[..|s| - 1]);
    }
  }

  // ---------------------------------------------------------------- order

  /** Byte order of two texts. */
  predicate TextLess(a: string, b: string) {
    b != "" && (a == "" || a[0] < b[0] || (a[0] == b[0] && TextLess(a[1..], b[1..])))
  }

  /** ORDER BY length(x), x. */
  predicate ShortFirst(a: string, b: string) {
    |a| < |b| || (|a| == |b| && TextLess(a, b))
  }

  lemma {:induction false} LeadingDigit(s: string)
    requires AllDigits(s) && s != ""
    ensures Value(s) == DigitValue(s[0]) * Pow10(|s| - 1) + Value(s[1..])
    decreases |s|
  {
    if |s| == 1 {
      assert s[..0] == "" && s[1..] == "";
    } else {
      var init := s[..|s| - 1];
      LeadingDigit(init);
      assert init[1..] == s[1..][..|s[1..]| - 1] && s[1..][|s[1..]| - 1] == s[|s| - 1];
      assert Value(s[1..]) == Value(init[1..]) * 10 + DigitValue(s[|s| - 1]);
      TimesTen(DigitValue(s[0]), Pow10(|init| - 1));
    }
  }

  lemma TimesTen(d: nat, p: nat)
    ensures (d * p) * 10 == d * (10 * p)
  {
  }

  lemma {:induction false} Below(s: string)
    requires AllDigits(s)
    ensures Value(s) < Pow10(|s|)
    decreases |s|
  {
    if s != "" { Below(s[..|s| - 1]); }
  }

  lemma LeadingDecides(x: nat, y: nat, p: nat, u: nat, v: nat)
    requires u < p && v < p
    ensures x * p + u < y * p + v <==> x < y || (x == y && u < v)
  {
    if x < y {
      Scaled(x + 1, y, p);
    } else if y < x {
      Scaled(y + 1, x, p);
    }
  }

  lemma {:induction false} SameLength(a: string, b: string)
    requires AllDigits(a) && AllDigits(b) && |a| == |b|
    ensures TextLess(a, b) <==> Value(a) < Value(b)
    decreases |a|
  {
    if a != "" {
      LeadingDigit(a);
      LeadingDigit(b);
      SameLength(a[1..], b[1..]);
      Below(a[1..]);
      Below(b[1..]);
      LeadingDecides(DigitValue(a[0]), DigitValue(b[0]), Pow10(|a| - 1), Value(a[1..]), Value(b[1..]));
    }
  }

  lemma AtLeast(s: string)
    requires Canonical(s) && s[0] != '0'
    ensures Value(s) >= Pow10(|s| - 1)
  {
    LeadingDigit(s);
    Scaled(1, DigitValue(s[0]), Pow10(|s| - 1));
  }

  lemma {:induction false} Pow10Grows(j: nat, k: nat)
    requires j <= k
    ensures Pow10(j) <= Pow10(k)
  {
    if j < k { Pow10Grows(j, k - 1); }
  }

  lemma LongerIsMore(a: string, b: string)
    requires Canonical(a) && Canonical(b) && |a| < |b|
    ensures Value(a) < Value(b)
  {
    Below(a);
    AtLeast(b);
    Pow10Grows(|a|, |b| - 1);
  }

  /** The database's order of canonical decimals is the order of the numbers. */
  lemma TextOrderIsNumeric(a: string, b: string)
    requires Canonical(a) && Canonical(b)
    ensures ShortFirst(a, b) <==> Value(a) < Value(b)
  {
    if |a| < |b| {
      LongerIsMore(a, b);
    } else if |b| < |a| {
      LongerIsMore(b, a);
    } else {
      SameLength(a, b);
    }
  }

  /** Canonical text and number determine each other. */
  lemma ValueUnique(a: string, b: string)
    requires Canonical(a) && Canonical(b) && Value(a) == Value(b)
    ensures a == b
  {
    PrintValue(a);
    PrintValue(b);
  }
}

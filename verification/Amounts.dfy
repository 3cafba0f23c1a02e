/** Token amounts as people read and write them. */
module Amounts {
  import opened Wrappers
  import opened Arithmetic
  import opened Decimals

  datatype AmountError = AmountInvalid

  const MOST_DECIMALS := 255

  // ---------------------------------------------------------------- text

  /** What trim() takes away. */
  predicate IsSpace(c: char) {
    || '\t' <= c <= '\r' || c == ' ' || c == '\U{A0}' || c == '\U{1680}' || '\U{2000}' <= c <= '\U{200A}'
    || c == '\U{2028}' || c == '\U{2029}' || c == '\U{202F}' || c == '\U{205F}' || c == '\U{3000}' || c == '\U{FEFF}'
  }

  function TrimStart(s: string): string {
    if s != "" && IsSpace(s[0]) then TrimStart(s[1..]) else s
  }

  function TrimEnd(s: string): string {
    if s != "" && IsSpace(s[|s| - 1]) then TrimEnd(s[..|s| - 1]) else s
  }

  function Trim(s: string): string {
    TrimEnd(TrimStart(s))
  }

  predicate IsNumber(s: string) {
    |s| > 0 && AllDigits(s)
  }

  function FirstDot(s: string): (k: nat)
    ensures k <= |s| && (forall i | 0 <= i < k :: s[i] != '.') && (k < |s| ==> s[k] == '.')
  {
    if s == "" || s[0] == '.' then 0 else 1 + FirstDot(s[1..])
  }

  /** Digits, and optionally a dot and more digits. */
  function Match(s: string): (m: Option<(string, string)>)
    ensures m.Some? ==> IsNumber(m.value.0) && AllDigits(m.value.1)
  {
    var k := FirstDot(s);
    if k == |s| then if IsNumber(s) then Some((s, "")) else None
    else if IsNumber(s[..k]) && IsNumber(s[k + 1..]) then Some((s[..k], s[k + 1..])) else None
  }

  function Zeros(n: nat): (s: string)
    ensures |s| == n && AllDigits(s)
  {
    if n == 0 then "" else Zeros(n - 1) + "0"
  }

  function PadStart(s: string, n: nat): string {
    (if |s| < n then Zeros(n - |s|) else "") + s
  }

  function PadEnd(s: string, n: nat): (r: string)
    ensures AllDigits(s) ==> AllDigits(r)
  {
    s + if |s| < n then Zeros(n - |s|) else ""
  }

  function DropZeros(s: string): string {
    if s != "" && s[|s| - 1] == '0' then DropZeros(s[..|s| - 1]) else s
  }

  // ---------------------------------------------------------------- the codec

  /** Whole tokens and a fraction, in the smallest unit. */
  function AmountOf(whole: string, fraction: string, decimals: nat): nat
    requires AllDigits(whole) && AllDigits(fraction)
  {
    Value(whole) * Pow10(decimals) + Value(PadEnd(fraction, decimals))
  }

  function ParseEscrowAmount(text: string, decimals: int): Result<nat, AmountError> {
    if decimals < 0 || decimals > MOST_DECIMALS then Err(AmountInvalid)
    else
      var m := Match(Trim(text));
      if m.None? || |m.value.1| > decimals then Err(AmountInvalid)
      else Ok(AmountOf(m.value.0, m.value.1, decimals))
  }

  function Shown(a: string, b: string): string {
    a + if b == "" then "" else "." + b
  }

  function Fraction(amount: nat, decimals: nat): string {
    DropZeros(PadStart(Print(Remainder(amount, Pow10(decimals))), decimals))
  }

  function FormatPositive(amount: nat, decimals: nat): string {
    if decimals == 0 then Print(amount)
    else Shown(Print(Quotient(amount, Pow10(decimals))), Fraction(amount, decimals))
  }

  function FormatEscrowAmount(value: int, decimals: int): Result<string, AmountError> {
    if decimals < 0 || decimals > MOST_DECIMALS then Err(AmountInvalid)
    else if value < 0 then Ok("-" + FormatPositive(-value, decimals))
    else Ok(FormatPositive(value, decimals))
  }

  // ---------------------------------------------------------------- values of padded texts

  lemma {:induction false} ValueJoin(a: string, b: string)
    requires AllDigits(a) && AllDigits(b)
    ensures AllDigits(a + b) && Value(a + b) == Value(a) * Pow10(|b|) + Value(b)
    decreases |b|
  {
    if b == "" {
      assert a + b == a;
    } else {
      var init := b[..|b| - 1];
      ValueJoin(a, init);
      assert (a + b)[..|a + b| - 1] == a + init && (a + b)[|a + b| - 1] == b[|b| - 1];
      TimesTen(Value(a), Pow10(|init|));
    }
  }

  lemma {:induction false} ZerosAreNothing(n: nat)
    ensures Value(Zeros(n)) == 0
  {
    if n > 0 {
      ZerosAreNothing(n - 1);
      assert Zeros(n)[..n - 1] == Zeros(n - 1);
    }
  }

  lemma PadStartValue(s: string, n: nat)
    requires AllDigits(s)
    ensures AllDigits(PadStart(s, n)) && Value(PadStart(s, n)) == Value(s) && (|s| <= n ==> |PadStart(s, n)| == n)
  {
    if |s| < n {
      ValueJoin(Zeros(n - |s|), s);
      ZerosAreNothing(n - |s|);
    } else {
      assert "" + s == s;
    }
  }

  lemma OneMoreZero(s: string, n: nat)
    requires |s| < n
    ensures PadEnd(s, n) == PadEnd(s, n - 1) + "0"
  {
    assert Zeros(n - |s|) == Zeros(n - |s| - 1) + "0";
    if |s| == n - 1 { assert s + "" == s; }
  }

  /** Dropping final zeros and putting them back gives the same text. */
  lemma {:induction false} NoZeroLeft(s: string)
    ensures DropZeros(s) != "" ==> DropZeros(s)[|DropZeros(s)| - 1] != '0'
    decreases |s|
  {
    if s != "" && s[|s| - 1] == '0' { NoZeroLeft(s[..|s| - 1]); }
  }

  lemma {:induction false} PadsBack(s: string)
    requires AllDigits(s)
    ensures AllDigits(DropZeros(s)) && |DropZeros(s)| <= |s| && PadEnd(DropZeros(s), |s|) == s
    decreases |s|
  {
    if s != "" && s[|s| - 1] == '0' {
      PadsBack(s[..|s| - 1]);
      OneMoreZero(DropZeros(s), |s|);
      assert s == s[..|s| - 1] + "0";
    } else {
      assert s + "" == s;
    }
  }

  lemma DropAndPad(s: string)
    requires AllDigits(s)
    ensures AllDigits(DropZeros(s)) && |DropZeros(s)| <= |s| && PadEnd(DropZeros(s), |s|) == s
    ensures DropZeros(s) != "" ==> DropZeros(s)[|DropZeros(s)| - 1] != '0'
  {
    PadsBack(s);
    NoZeroLeft(s);
  }

  lemma {:induction false} PrintLength(n: nat, k: nat)
    requires k > 0 && n < Pow10(k)
    ensures |Print(n)| <= k
    decreases k
  {
    if n >= 10 { PrintLength(n / 10, k - 1); }
  }

  // ---------------------------------------------------------------- no spaces, one dot

  lemma TrimNothing(s: string)
    requires s != "" && !IsSpace(s[0]) && !IsSpace(s[|s| - 1])
    ensures Trim(s) == s
  {
  }

  lemma MatchWhole(a: string)
    requires IsNumber(a)
    ensures Match(a) == Some((a, ""))
  {
    assert forall i | 0 <= i < |a| :: a[i] != '.';
  }

  lemma MatchBoth(a: string, b: string)
    requires IsNumber(a) && IsNumber(b)
    ensures Match(a + "." + b) == Some((a, b))
  {
    var s := a + "." + b;
    assert s[|a|] == '.' && forall i | 0 <= i < |a| :: s[i] == a[i] && s[i] != '.';
    assert FirstDot(s) == |a| && s[..|a|] == a && s[|a| + 1..] == b;
  }

  /** What is matched is spelled by its parts. */
  lemma MatchedShown(s: string)
    requires Match(s).Some?
    ensures s == Shown(Match(s).value.0, Match(s).value.1)
  {
    var k := FirstDot(s);
    if k < |s| { assert s == s[..k] + "." + s[k + 1..]; }
  }

  lemma MatchShown(a: string, b: string)
    requires IsNumber(a) && AllDigits(b)
    ensures Trim(Shown(a, b)) == Shown(a, b) && Match(Shown(a, b)) == Some((a, b))
  {
    var s := Shown(a, b);
    assert s[0] == a[0] && IsDigit(a[0]);
    if b == "" {
      assert s == a;
      assert IsDigit(s[|s| - 1]);
      MatchWhole(a);
    } else {
      assert s == a + "." + b && s[|s| - 1] == b[|b| - 1] && IsDigit(b[|b| - 1]);
      MatchBoth(a, b);
    }
    TrimNothing(s);
  }

  // ---------------------------------------------------------------- round trip

  lemma FractionIs(amount: nat, decimals: nat)
    requires decimals > 0
    ensures var f := Fraction(amount, decimals);
            && AllDigits(f) && |f| <= decimals && (f != "" ==> f[|f| - 1] != '0')
            && Value(PadEnd(f, decimals)) == Remainder(amount, Pow10(decimals))
  {
    var r := Remainder(amount, Pow10(decimals));
    PrintLength(r, decimals);
    ValuePrint(r);
    PadStartValue(Print(r), decimals);
    DropAndPad(PadStart(Print(r), decimals));
  }

  /** The two digit groups of a printed amount. */
  lemma FormatParts(amount: nat, decimals: nat) returns (a: string, b: string)
    ensures FormatPositive(amount, decimals) == Shown(a, b) && Canonical(a) && AllDigits(b) && |b| <= decimals
    ensures AmountOf(a, b, decimals) == amount
    ensures b != "" ==> b[|b| - 1] != '0'
  {
    if decimals == 0 {
      a, b := Print(amount), "";
      PrintCanonical(amount);
      assert a + "" == a && b + "" == b;
    } else {
      a, b := Print(Quotient(amount, Pow10(decimals))), Fraction(amount, decimals);
      PrintCanonical(Quotient(amount, Pow10(decimals)));
      FractionIs(amount, decimals);
    }
  }

  lemma ShownParses(a: string, b: string, decimals: nat)
    requires decimals <= MOST_DECIMALS && IsNumber(a) && AllDigits(b) && |b| <= decimals
    ensures ParseEscrowAmount(Shown(a, b), decimals) == Ok(AmountOf(a, b, decimals))
  {
    MatchShown(a, b);
  }

  /** What is printed reads back, for every amount that is not negative and every number of decimals. */
  lemma FormatParses(amount: nat, decimals: nat)
    requires decimals <= MOST_DECIMALS
    ensures ParseEscrowAmount(FormatPositive(amount, decimals), decimals) == Ok(amount)
  {
    var a, b := FormatParts(amount, decimals);
    ShownParses(a, b, decimals);
  }

  lemma MinusDoesNotMatch(s: string)
    ensures Match(Trim("-" + s)).None?
  {
    var t := "-" + s;
    assert TrimStart(t) == t && t[0] == '-';
    TrimEndKeepsFirst(t);
    var u := TrimEnd(t);
    var k := FirstDot(u);
    assert k > 0 && u[..k][0] == '-';
  }

  lemma {:induction false} TrimEndKeepsFirst(s: string)
    requires s != "" && !IsSpace(s[0])
    ensures TrimEnd(s) != "" && TrimEnd(s)[0] == s[0]
    decreases |s|
  {
    if IsSpace(s[|s| - 1]) { TrimEndKeepsFirst(s[..|s| - 1]); }
  }

  /** The parser has no sign, so the round trip holds exactly for amounts that are not negative. */
  lemma RoundTripIff(value: int, decimals: nat)
    requires decimals <= MOST_DECIMALS
    ensures var back := ParseEscrowAmount(FormatEscrowAmount(value, decimals).value, decimals);
            (value >= 0 <==> back.Ok?) && (value >= 0 ==> back == Ok(value))
  {
    if value >= 0 {
      FormatParses(value, decimals);
    } else {
      MinusDoesNotMatch(FormatPositive(-value, decimals));
    }
  }

  // ---------------------------------------------------------------- the unique short form

  /** No redundant zero and no dot without digits. */
  predicate Minimal(text: string) {
    && Match(text).Some? && Canonical(Match(text).value.0) && text == Shown(Match(text).value.0, Match(text).value.1)
    && (Match(text).value.1 != "" ==> Match(text).value.1[|Match(text).value.1| - 1] != '0')
  }

  lemma {:induction false} SameDigits(a: string, b: string)
    requires AllDigits(a) && AllDigits(b) && |a| == |b| && Value(a) == Value(b)
    ensures a == b
    decreases |a|
  {
    if a != "" {
      SameDigits(a[..|a| - 1], b[..|b| - 1]);
      assert a == a[..|a| - 1] + [a[|a| - 1]] && b == b[..|b| - 1] + [b[|b| - 1]];
    }
  }

  lemma DropOne(s: string)
    ensures DropZeros(s + "0") == DropZeros(s)
  {
    assert (s + "0")[..|s + "0"| - 1] == s;
  }

  lemma {:induction false} DropPadded(f: string, n: nat)
    requires AllDigits(f) && |f| <= n && (f != "" ==> f[|f| - 1] != '0')
    ensures DropZeros(PadEnd(f, n)) == f
    decreases n
  {
    if |f| < n {
      OneMoreZero(f, n);
      DropOne(PadEnd(f, n - 1));
      DropPadded(f, n - 1);
    } else {
      assert f + "" == f;
    }
  }

  /** Quotient and remainder by a positive number are unique. */
  lemma SameParts(q: nat, r: nat, p: nat, s: nat, scale: nat)
    requires r < scale && s < scale && q * scale + r == p * scale + s
    ensures q == p && r == s
  {
    LeadingDecides(q, p, scale, r, s);
    LeadingDecides(p, q, scale, s, r);
  }

  lemma EqualParts(a: string, b: string, c: string, d: string, decimals: nat)
    requires AllDigits(a) && AllDigits(b) && |b| <= decimals && AllDigits(c) && AllDigits(d) && |d| <= decimals
    requires AmountOf(a, b, decimals) == AmountOf(c, d, decimals)
    ensures Value(a) == Value(c) && Value(PadEnd(b, decimals)) == Value(PadEnd(d, decimals))
  {
    Below(PadEnd(b, decimals));
    Below(PadEnd(d, decimals));
    SameParts(Value(a), Value(PadEnd(b, decimals)), Value(c), Value(PadEnd(d, decimals)), Pow10(decimals));
  }

  /** Two short forms of one amount are the same text. */
  lemma ShortFormUnique(a: string, b: string, c: string, d: string, decimals: nat)
    requires Canonical(a) && AllDigits(b) && |b| <= decimals && (b != "" ==> b[|b| - 1] != '0')
    requires Canonical(c) && AllDigits(d) && |d| <= decimals && (d != "" ==> d[|d| - 1] != '0')
    requires AmountOf(a, b, decimals) == AmountOf(c, d, decimals)
    ensures a == c && b == d
  {
    EqualParts(a, b, c, d, decimals);
    SameDigits(PadEnd(b, decimals), PadEnd(d, decimals));
    ValueUnique(a, c);
    DropPadded(b, decimals);
    DropPadded(d, decimals);
  }

  /** A text without redundant zeros is what its amount prints to. */
  lemma MinimalIsFormatted(text: string, decimals: nat)
    requires decimals <= MOST_DECIMALS && Minimal(text) && ParseEscrowAmount(text, decimals).Ok?
    ensures FormatPositive(ParseEscrowAmount(text, decimals).value, decimals) == text
  {
    var a, b := Match(text).value.0, Match(text).value.1;
    MatchShown(a, b);
    var v := ParseEscrowAmount(text, decimals).value;
    var c, d := FormatParts(v, decimals);
    ShortFormUnique(a, b, c, d, decimals);
  }

  /** Printing a parsed text gives its one form without redundant zeros. */
  lemma FormattedIsMinimal(text: string, decimals: nat)
    requires decimals <= MOST_DECIMALS && ParseEscrowAmount(text, decimals).Ok?
    ensures var v := ParseEscrowAmount(text, decimals).value;
            var short := FormatPositive(v, decimals);
            && Minimal(short) && ParseEscrowAmount(short, decimals) == Ok(v)
            && forall other | Minimal(other) && ParseEscrowAmount(other, decimals) == Ok(v) :: other == short
  {
    var v := ParseEscrowAmount(text, decimals).value;
    var a, b := FormatParts(v, decimals);
    MatchShown(a, b);
    FormatParses(v, decimals);
    forall other | Minimal(other) && ParseEscrowAmount(other, decimals) == Ok(v)
      ensures other == FormatPositive(v, decimals)
    {
      MinimalIsFormatted(other, decimals);
    }
  }
}

/** The normal form of number literals (section 6 of RFC 8259) that decides whether a literal survived parsing. */
module NumberIdentity {
  import opened Wrappers
  import opened Arithmetic
  import opened Decimals
  import Amounts

  /** The groups of a matched literal; the exponent text is read as an integer of any size. */
  datatype Literal = Literal(minus: bool, whole: string, fraction: string, exponent: int)

  /** `whole` has a digit; an absent fraction is the empty one. */
  predicate WellFormed(l: Literal) {
    |l.whole| > 0 && AllDigits(l.whole) && AllDigits(l.fraction)
  }

  function DropLeading(s: string): (r: string)
    ensures AllDigits(s) ==> AllDigits(r)
  {
    if s != "" && s[0] == '0' then DropLeading(s[1..]) else s
  }

  function DropTrailing(s: string): (r: string)
    ensures AllDigits(s) ==> AllDigits(r)
    ensures |r| <= |s| && (r != "" ==> r[|r| - 1] != '0' && r[0] == s[0])
  {
    if s != "" && s[|s| - 1] == '0' then DropTrailing(s[..|s| - 1]) else s
  }

  function PrintInt(i: int): string {
    if i < 0 then "-" + Print(-i) else Print(i)
  }

  function Digits(l: Literal): string {
    DropLeading(l.whole + l.fraction)
  }

  function NormalExponent(l: Literal): int {
    l.exponent - |l.fraction| + (|Digits(l)| - |DropTrailing(Digits(l))|)
  }

  function DecimalIdentity(l: Literal): string {
    if Digits(l) == "" then "0"
    else (if l.minus then "-" else "") + DropTrailing(Digits(l)) + "e" + PrintInt(NormalExponent(l))
  }

  // ---------------------------------------------------------------- the value of a literal

  /** The rational mantissa * 10^exponent. */
  datatype Rational = Rational(mantissa: int, exponent: int)

  function Scale(m: int, k: nat): int {
    m * Pow10(k)
  }

  /** Equality of the rationals, without leaving the integers. */
  predicate SameRational(a: Rational, b: Rational) {
    if a.exponent >= b.exponent then Scale(a.mantissa, a.exponent - b.exponent) == b.mantissa
    else a.mantissa == Scale(b.mantissa, b.exponent - a.exponent)
  }

  function Signed(minus: bool, n: int): int {
    if minus then -n else n
  }

  function Denotes(l: Literal): Rational
    requires WellFormed(l)
  {
    Rational(Signed(l.minus, Value(l.whole + l.fraction)), l.exponent - |l.fraction|)
  }

  // ---------------------------------------------------------------- the normal form keeps the value

  lemma {:induction false} LeadingZeros(s: string)
    requires AllDigits(s)
    ensures Value(DropLeading(s)) == Value(s)
    ensures DropLeading(s) == "" <==> Value(s) == 0
    ensures DropLeading(s) != "" ==> DropLeading(s)[0] != '0'
    decreases |s|
  {
    if s != "" {
      LeadingDigit(s);
      if s[0] == '0' {
        LeadingZeros(s[1..]);
      } else {
        AtLeast(s);
      }
    }
  }

  lemma {:induction false} TrailingZeros(s: string)
    requires AllDigits(s)
    ensures Value(s) == Value(DropTrailing(s)) * Pow10(|s| - |DropTrailing(s)|)
    ensures Value(s) > 0 ==> DropTrailing(s) != ""
    decreases |s|
  {
    if s != "" && s[|s| - 1] == '0' {
      var init := s[..|s| - 1];
      TrailingZeros(init);
      TimesTen(Value(DropTrailing(init)), Pow10(|init| - |DropTrailing(init)|));
    }
  }

  /** A digit text that neither begins nor ends with a zero. */
  predicate Trimmed(s: string) {
    s != "" && AllDigits(s) && s[0] != '0' && s[|s| - 1] != '0'
  }

  lemma NormalDigits(l: Literal)
    requires WellFormed(l) && Digits(l) != ""
    ensures Trimmed(DropTrailing(Digits(l)))
    ensures Value(l.whole + l.fraction) ==
        Value(DropTrailing(Digits(l))) * Pow10(|Digits(l)| - |DropTrailing(Digits(l))|)
    ensures Value(l.whole + l.fraction) > 0
  {
    LeadingZeros(l.whole + l.fraction);
    TrailingZeros(Digits(l));
  }

  lemma {:induction false} PowersAdd(j: nat, k: nat)
    ensures Pow10(j + k) == Pow10(j) * Pow10(k)
  {
    if j > 0 {
      PowersAdd(j - 1, k);
      assert Pow10(j + k) == 10 * Pow10(j - 1 + k);
      assert 10 * (Pow10(j - 1) * Pow10(k)) == (10 * Pow10(j - 1)) * Pow10(k);
    }
  }

  lemma ScaleTwice(m: int, j: nat, k: nat)
    ensures Scale(Scale(m, j), k) == Scale(m, j + k)
  {
    PowersAdd(j, k);
    var x, y := Pow10(j), Pow10(k);
    assert (m * x) * y == m * (x * y);
  }

  lemma ScaleInjective(m: int, n: int, k: nat)
    requires Scale(m, k) == Scale(n, k)
    ensures m == n
  {
    Cancel(m, n, Pow10(k));
  }

  lemma Negated(m: int, p: int)
    ensures (0 - m) * p == 0 - m * p && -m == 0 - m
  {
  }

  lemma Enlarged(k: int, p: int)
    requires p > 0
    ensures k > 0 ==> k * p >= p
    ensures k < 0 ==> k * p <= -p
  {
    if k > 0 {
      Scaled(1, k, p);
    } else if k < 0 {
      Scaled(1, 0 - k, p);
      Negated(0 - k, p);
    }
  }

  lemma Cancel(m: int, n: int, p: nat)
    requires p > 0 && m * p == n * p
    ensures m == n
  {
    assert (m - n) * p == m * p - n * p;
    Enlarged(m - n, p);
  }

  /** Moving a factor of ten from the mantissa to the exponent changes nothing. */
  lemma Shifted(m: int, e: int, k: nat, b: Rational)
    ensures SameRational(Rational(Scale(m, k), e), b) <==> SameRational(Rational(m, e + k), b)
  {
    if e >= b.exponent {
      ScaleTwice(m, k, e - b.exponent);
    } else if e + k <= b.exponent {
      var d := b.exponent - e - k;
      ScaleTwice(b.mantissa, d, k);
      if Scale(m, k) == Scale(Scale(b.mantissa, d), k) { ScaleInjective(m, Scale(b.mantissa, d), k); }
    } else {
      var d := b.exponent - e;
      ScaleTwice(m, k - d, d);
      if Scale(Scale(m, k - d), d) == Scale(b.mantissa, d) { ScaleInjective(Scale(m, k - d), b.mantissa, d); }
    }
  }

  lemma SameRationalSwaps(a: Rational, b: Rational)
    ensures SameRational(a, b) <==> SameRational(b, a)
  {
    if a.exponent == b.exponent {
      assert Scale(a.mantissa, 0) == a.mantissa && Scale(b.mantissa, 0) == b.mantissa;
    }
  }

  /** The normal form as a rational. */
  function Normal(l: Literal): Rational
    requires WellFormed(l)
  {
    Rational(Signed(l.minus, Value(DropTrailing(Digits(l)))), NormalExponent(l))
  }

  lemma SignedScale(minus: bool, n: nat, k: nat)
    ensures Signed(minus, n * Pow10(k)) == Scale(Signed(minus, n), k)
  {
    Negated(n, Pow10(k));
  }

  lemma NormalKeepsValue(l: Literal, b: Rational)
    requires WellFormed(l) && Digits(l) != ""
    ensures SameRational(Denotes(l), b) <==> SameRational(Normal(l), b)
  {
    NormalDigits(l);
    var t := DropTrailing(Digits(l));
    var k := |Digits(l)| - |t|;
    SignedScale(l.minus, Value(t), k);
    Shifted(Signed(l.minus, Value(t)), l.exponent - |l.fraction|, k, b);
  }

  // ---------------------------------------------------------------- normal forms are unique

  lemma LastDigit(t: string)
    requires Trimmed(t)
    ensures Value(t) % 10 != 0 && Value(t) > 0
  {
    Positive(t);
  }

  lemma NotScaled(m: nat, n: nat, k: nat)
    requires k > 0 && Scale(m, k) == n
    ensures n % 10 == 0
  {
    TimesTen(m, Pow10(k - 1));
    assert n == (m * Pow10(k - 1)) * 10;
  }

  lemma SignedApart(a: bool, m: nat, b: bool, n: nat, k: nat)
    requires m > 0 && n > 0 && Scale(Signed(a, m), k) == Signed(b, n)
    ensures a == b && Scale(m, k) == n
  {
    var p := Pow10(k);
    Enlarged(m, p);
    Negated(m, p);
  }

  /** Trimmed digits and exponent are determined by the value. */
  lemma OneNormalForm(a: bool, s: string, x: int, b: bool, t: string, y: int)
    requires Trimmed(s) && Trimmed(t) && x >= y
    requires SameRational(Rational(Signed(a, Value(s)), x), Rational(Signed(b, Value(t)), y))
    ensures a == b && s == t && x == y
  {
    LastDigit(s);
    LastDigit(t);
    SignedApart(a, Value(s), b, Value(t), x - y);
    if x > y { NotScaled(Value(s), Value(t), x - y); }
    assert Scale(Value(s), 0) == Value(s);
    ValueUnique(s, t);
  }

  lemma SameNormalForm(l: Literal, r: Literal)
    requires WellFormed(l) && WellFormed(r) && Digits(l) != "" && Digits(r) != "" && SameRational(Normal(l), Normal(r))
    ensures l.minus == r.minus && DropTrailing(Digits(l)) == DropTrailing(Digits(r)) &&
              NormalExponent(l) == NormalExponent(r)
  {
    NormalDigits(l);
    NormalDigits(r);
    var s, t := DropTrailing(Digits(l)), DropTrailing(Digits(r));
    if NormalExponent(l) >= NormalExponent(r) {
      OneNormalForm(l.minus, s, NormalExponent(l), r.minus, t, NormalExponent(r));
    } else {
      SameRationalSwaps(Normal(l), Normal(r));
      OneNormalForm(r.minus, t, NormalExponent(r), l.minus, s, NormalExponent(l));
    }
  }

  // ---------------------------------------------------------------- the text determines the normal form

  lemma SignShows(i: int)
    ensures PrintInt(i) != "" && (PrintInt(i)[0] == '-' <==> i < 0)
    ensures i < 0 ==> PrintInt(i)[1..] == Print(0 - i)
  {
    if i >= 0 { assert IsDigit(Print(i)[0]); }
  }

  lemma PrintIntUnique(i: int, j: int)
    requires PrintInt(i) == PrintInt(j)
    ensures i == j
  {
    SignShows(i);
    SignShows(j);
    if i < 0 {
      ValuePrint(0 - i);
      ValuePrint(0 - j);
    } else {
      ValuePrint(i);
      ValuePrint(j);
    }
  }

  function Body(s: string, x: int): string {
    s + ("e" + PrintInt(x))
  }

  function Text(minus: bool, s: string, x: int): string {
    (if minus then "-" else "") + s + "e" + PrintInt(x)
  }

  lemma TextIs(minus: bool, s: string, x: int)
    ensures Text(minus, s, x) == (if minus then "-" else "") + Body(s, x)
  {
  }

  lemma BodyShape(s: string, x: int)
    requires AllDigits(s)
    ensures |Body(s, x)| > |s| && Body(s, x)[..|s|] == s && Body(s, x)[|s|] == 'e' &&
              Body(s, x)[|s| + 1..] == PrintInt(x)
    ensures forall i | 0 <= i < |s| :: Body(s, x)[i] != 'e'
  {
    assert forall i | 0 <= i < |s| :: Body(s, x)[i] == s[i] && IsDigit(s[i]);
  }

  lemma BodyUnique(s: string, x: int, t: string, y: int)
    requires AllDigits(s) && AllDigits(t) && Body(s, x) == Body(t, y)
    ensures s == t && x == y
  {
    BodyShape(s, x);
    BodyShape(t, y);
    assert |s| == |t|;
    PrintIntUnique(x, y);
  }

  lemma TextSign(minus: bool, s: string, x: int)
    requires Trimmed(s)
    ensures var t := Text(minus, s, x);
            && |t| > 1 && (minus <==> t[0] == '-') && Body(s, x) == t[if minus then 1 else 0..]
  {
    TextIs(minus, s, x);
    assert IsDigit(Body(s, x)[0]) by { assert Body(s, x)[0] == s[0]; }
  }

  lemma TextUnique(a: bool, s: string, x: int, b: bool, t: string, y: int)
    requires Trimmed(s) && Trimmed(t) && Text(a, s, x) == Text(b, t, y)
    ensures a == b && s == t && x == y
  {
    TextSign(a, s, x);
    TextSign(b, t, y);
    BodyUnique(s, x, t, y);
  }

  lemma ZeroOrNot(l: Literal)
    requires WellFormed(l)
    ensures Digits(l) == "" <==> Denotes(l).mantissa == 0
    ensures Digits(l) != "" ==>
              DecimalIdentity(l) == Text(l.minus, DropTrailing(Digits(l)), NormalExponent(l)) &&
                DecimalIdentity(l) != "0"
  {
    LeadingZeros(l.whole + l.fraction);
    if Digits(l) != "" {
      NormalDigits(l);
      TextSign(l.minus, DropTrailing(Digits(l)), NormalExponent(l));
    }
  }

  lemma ZeroIsZero(a: Rational, b: Rational)
    requires SameRational(a, b)
    ensures a.mantissa == 0 <==> b.mantissa == 0
  {
    if a.exponent >= b.exponent {
      ZeroScaled(a.mantissa, Pow10(a.exponent - b.exponent));
    } else {
      ZeroScaled(b.mantissa, Pow10(b.exponent - a.exponent));
    }
  }

  lemma ZeroScaled(m: int, p: nat)
    requires p > 0
    ensures m * p == 0 <==> m == 0
  {
    if m != 0 && m * p == 0 { Cancel(m, 0, p); }
  }

  lemma BothZero(a: Rational, b: Rational)
    requires a.mantissa == 0 && b.mantissa == 0
    ensures SameRational(a, b)
  {
    assert forall k: nat :: Scale(0, k) == 0;
  }

  lemma SameValueIffSameNormal(l: Literal, r: Literal)
    requires WellFormed(l) && WellFormed(r) && Digits(l) != "" && Digits(r) != ""
    ensures SameRational(Denotes(l), Denotes(r)) <==> SameRational(Normal(l), Normal(r))
  {
    NormalKeepsValue(l, Denotes(r));
    SameRationalSwaps(Normal(l), Denotes(r));
    NormalKeepsValue(r, Normal(l));
    SameRationalSwaps(Normal(r), Normal(l));
  }

  lemma SameTextIffSameNormal(l: Literal, r: Literal)
    requires WellFormed(l) && WellFormed(r) && Digits(l) != "" && Digits(r) != ""
    ensures DecimalIdentity(l) == DecimalIdentity(r) <==> SameRational(Normal(l), Normal(r))
  {
    ZeroOrNot(l);
    ZeroOrNot(r);
    NormalDigits(l);
    NormalDigits(r);
    if DecimalIdentity(l) == DecimalIdentity(r) {
      TextUnique(l.minus, DropTrailing(Digits(l)), NormalExponent(l), r.minus, DropTrailing(Digits(r)),
                 NormalExponent(r));
      assert Scale(Normal(l).mantissa, 0) == Normal(l).mantissa;
    }
    if SameRational(Normal(l), Normal(r)) { SameNormalForm(l, r); }
  }

  /** Two literals get the same identity exactly when they denote the same rational number. */
  lemma SameIdentityIffSameValue(l: Literal, r: Literal)
    requires WellFormed(l) && WellFormed(r)
    ensures DecimalIdentity(l) == DecimalIdentity(r) <==> SameRational(Denotes(l), Denotes(r))
  {
    ZeroOrNot(l);
    ZeroOrNot(r);
    if Digits(l) != "" && Digits(r) != "" {
      SameValueIffSameNormal(l, r);
      SameTextIffSameNormal(l, r);
    } else if Digits(l) == "" && Digits(r) == "" {
      BothZero(Denotes(l), Denotes(r));
    } else if SameRational(Denotes(l), Denotes(r)) {
      ZeroIsZero(Denotes(l), Denotes(r));
    }
  }

  // ---------------------------------------------------------------- literals as text

  function FirstE(s: string): (k: nat)
    ensures k <= |s|
  {
    if s == "" || s[0] == 'e' || s[0] == 'E' then 0 else 1 + FirstE(s[1..])
  }

  /** An optional sign and digits. */
  function MatchInteger(s: string): Option<int> {
    if s != "" && s[0] == '-' && Amounts.IsNumber(s[1..]) then Some(0 - Value(s[1..]))
    else if s != "" && s[0] == '+' && Amounts.IsNumber(s[1..]) then Some(Value(s[1..]))
    else if Amounts.IsNumber(s) then Some(Value(s))
    else None
  }

  /** Digits, fraction, exponent. */
  function MatchUnsigned(rest: string): (m: Option<(string, string, int)>)
    ensures m.Some? ==> Amounts.IsNumber(m.value.0) && AllDigits(m.value.1)
  {
    var k := FirstE(rest);
    var mantissa := Amounts.Match(rest[..k]);
    var exponent := if k == |rest| then Some(0) else MatchInteger(rest[k + 1..]);
    if mantissa.Some? && exponent.Some? then Some((mantissa.value.0, mantissa.value.1, exponent.value)) else None
  }

  /** The same after an optional sign. */
  function MatchLiteral(text: string): (l: Option<Literal>)
    ensures l.Some? ==> WellFormed(l.value)
  {
    var minus := text != "" && text[0] == '-';
    var m := MatchUnsigned(if minus then text[1..] else text);
    if m.Some? then Some(Literal(minus, m.value.0, m.value.1, m.value.2)) else None
  }

  // ---------------------------------------------------------------- the grammar

  /** The exponent part of a literal: a letter, an optional sign, digits. */
  datatype Power = NoPower | Power(letter: char, sign: string, digits: string)

  predicate IsPower(p: Power) {
    p.Power? ==>
      (p.letter == 'e' || p.letter == 'E') && (p.sign == "" || p.sign == "-" || p.sign == "+") &&
        Amounts.IsNumber(p.digits)
  }

  function Spell(p: Power): string {
    if p.NoPower? then "" else [p.letter] + (p.sign + p.digits)
  }

  function PowerOf(p: Power): int
    requires IsPower(p)
  {
    if p.NoPower? then 0 else Signed(p.sign == "-", Value(p.digits))
  }

  /** The text is a sign, digits, a fraction and an exponent part, the first and the last two optional. */
  ghost predicate Spelled(text: string, l: Literal, p: Power) {
    && WellFormed(l) && IsPower(p) && l.exponent == PowerOf(p)
    && text == (if l.minus then "-" else "") + (Amounts.Shown(l.whole, l.fraction) + Spell(p))
  }

  lemma {:induction false} NoEarlierE(s: string, x: string)
    requires (forall i | 0 <= i < |s| :: s[i] != 'e' && s[i] != 'E') && (x == "" || x[0] == 'e' || x[0] == 'E')
    ensures FirstE(s + x) == |s|
    decreases |s|
  {
    if s == "" {
      assert s + x == x;
    } else {
      assert (s + x)[1..] == s[1..] + x;
      NoEarlierE(s[1..], x);
    }
  }

  lemma {:induction false} AtFirstE(s: string)
    ensures FirstE(s) < |s| ==> s[FirstE(s)] == 'e' || s[FirstE(s)] == 'E'
    decreases |s|
  {
    if s != "" { AtFirstE(s[1..]); }
  }

  lemma ShownHasNoE(whole: string, fraction: string)
    requires Amounts.IsNumber(whole) && AllDigits(fraction)
    ensures forall i | 0 <= i < |Amounts.Shown(whole, fraction)| ::
              Amounts.Shown(whole, fraction)[i] != 'e' && Amounts.Shown(whole, fraction)[i] != 'E'
    ensures Amounts.Shown(whole, fraction) != "" && IsDigit(Amounts.Shown(whole, fraction)[0])
  {
  }

  lemma SpelledInteger(sign: string, digits: string)
    requires (sign == "" || sign == "-" || sign == "+") && Amounts.IsNumber(digits)
    ensures MatchInteger(sign + digits) == Some(Signed(sign == "-", Value(digits)))
  {
    if sign == "" {
      assert sign + digits == digits;
    } else {
      assert (sign + digits)[1..] == digits && (sign + digits)[0] == sign[0];
    }
  }

  lemma SplitAt(a: string, c: char, s: string)
    ensures var t := a + ([c] + s); t[..|a|] == a && t[|a|] == c && t[|a| + 1..] == s && a + "" == a
  {
  }

  lemma SignOff(rest: string)
    ensures ("-" + rest)[0] == '-' && ("-" + rest)[1..] == rest && "" + rest == rest
  {
  }

  lemma PowerMatches(shown: string, p: Power)
    requires IsPower(p) && FirstE(shown + Spell(p)) == |shown|
    ensures MatchUnsigned(shown + Spell(p)) ==
            if Amounts.Match(shown).Some? then
              Some((Amounts.Match(shown).value.0, Amounts.Match(shown).value.1, PowerOf(p))) else None
  {
    if p.NoPower? {
      SplitAt(shown, 'e', "");
      assert shown[..|shown|] == shown;
    } else {
      SplitAt(shown, p.letter, p.sign + p.digits);
      SpelledInteger(p.sign, p.digits);
    }
  }

  /** What follows the sign. */
  lemma UnsignedMatches(whole: string, fraction: string, p: Power)
    requires Amounts.IsNumber(whole) && AllDigits(fraction) && IsPower(p)
    ensures MatchUnsigned(Amounts.Shown(whole, fraction) + Spell(p)) == Some((whole, fraction, PowerOf(p)))
    ensures var rest := Amounts.Shown(whole, fraction) + Spell(p); rest != "" && rest[0] != '-'
  {
    ShownHasNoE(whole, fraction);
    NoEarlierE(Amounts.Shown(whole, fraction), Spell(p));
    Amounts.MatchShown(whole, fraction);
    PowerMatches(Amounts.Shown(whole, fraction), p);
  }

  lemma SpelledMatches(text: string, l: Literal, p: Power)
    requires Spelled(text, l, p)
    ensures MatchLiteral(text) == Some(l)
  {
    UnsignedMatches(l.whole, l.fraction, p);
    SignOff(Amounts.Shown(l.whole, l.fraction) + Spell(p));
  }

  lemma IntegerSpelled(s: string) returns (sign: string, digits: string)
    requires MatchInteger(s).Some?
    ensures s == sign + digits && (sign == "" || sign == "-" || sign == "+") && Amounts.IsNumber(digits)
    ensures MatchInteger(s) == Some(Signed(sign == "-", Value(digits)))
  {
    if s[0] == '-' || s[0] == '+' {
      sign, digits := s[..1], s[1..];
      assert s == s[..1] + s[1..] && (s[..1] == "-" || s[..1] == "+");
    } else {
      sign, digits := "", s;
      assert s == "" + s;
    }
  }

  lemma JoinAt(s: string, k: nat)
    requires k < |s|
    ensures s == s[..k] + ([s[k]] + s[k + 1..]) && s == s[..1] + s[1..]
  {
  }

  lemma UnsignedSpelled(rest: string) returns (p: Power)
    requires MatchUnsigned(rest).Some?
    ensures IsPower(p) && PowerOf(p) == MatchUnsigned(rest).value.2
    ensures rest == Amounts.Shown(MatchUnsigned(rest).value.0, MatchUnsigned(rest).value.1) + Spell(p)
  {
    var k := FirstE(rest);
    AtFirstE(rest);
    Amounts.MatchedShown(rest[..k]);
    if k == |rest| {
      p := NoPower;
      assert rest[..k] == rest && rest + "" == rest;
    } else {
      var sign, digits := IntegerSpelled(rest[k + 1..]);
      p := Power(rest[k], sign, digits);
      JoinAt(rest, k);
    }
  }

  lemma MatchedSpelled(text: string) returns (p: Power)
    requires MatchLiteral(text).Some?
    ensures Spelled(text, MatchLiteral(text).value, p)
  {
    var minus := text != "" && text[0] == '-';
    p := UnsignedSpelled(if minus then text[1..] else text);
    if minus { JoinAt(text, 0); } else { SignOff(text); }
  }

  /** The accepted texts are exactly those of the grammar, and each is read as what it spells. */
  lemma MatchedIff(text: string, l: Literal)
    ensures MatchLiteral(text) == Some(l) <==> exists p :: Spelled(text, l, p)
  {
    if MatchLiteral(text) == Some(l) { var p := MatchedSpelled(text); }
    if p :| Spelled(text, l, p) { SpelledMatches(text, l, p); }
  }

  /** None: not a number literal. */
  function IdentityOfText(text: string): Option<string> {
    var l := MatchLiteral(text);
    if l.Some? then Some(DecimalIdentity(l.value)) else None
  }

  /** Two texts share an identity exactly when both are number literals of the same value. */
  lemma TextsIdentified(a: string, b: string)
    ensures IdentityOfText(a).Some? && IdentityOfText(a) == IdentityOfText(b) <==>
              (MatchLiteral(a).Some? && MatchLiteral(b).Some? &&
               SameRational(Denotes(MatchLiteral(a).value), Denotes(MatchLiteral(b).value)))
  {
    if MatchLiteral(a).Some? && MatchLiteral(b).Some? {
      SameIdentityIffSameValue(MatchLiteral(a).value, MatchLiteral(b).value);
    }
  }

  // ---------------------------------------------------------------- 256-bit numbers

  const LONGEST := 78

  datatype ParseError = InvalidUint256

  function ParseUint256(text: string): Result<nat, ParseError> {
    if !Canonical(text) || |text| > LONGEST then Err(InvalidUint256)
    else if Value(text) >= TWO256 then Err(InvalidUint256)
    else Ok(Value(text))
  }

  lemma Pow10At78()
    ensures Pow10(LONGEST) > TWO256
  {
    PowersAdd(39, 39);
    assert Pow10(39) == 1_000_000_000_000_000_000_000_000_000_000_000_000_000 by { Pow10At39(); }
  }

  lemma Pow10At39()
    ensures Pow10(39) == 1_000_000_000_000_000_000_000_000_000_000_000_000_000
  {
    PowersAdd(13, 26);
    PowersAdd(13, 13);
    assert Pow10(13) == 10_000_000_000_000;
  }

  /** The accepted texts are exactly the printed numbers below 2^256; the length limit refuses none of them. */
  lemma Uint256Iff(text: string, n: nat)
    ensures ParseUint256(text) == Ok(n) <==> n < TWO256 && text == Print(n)
  {
    PrintCanonical(n);
    if Canonical(text) { PrintValue(text); }
    if n < TWO256 {
      Pow10At78();
      Amounts.PrintLength(n, LONGEST);
    }
  }
}

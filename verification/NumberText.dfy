/** JavaScript's `Number` on a text, by the grammar of section 7.1.4.1 of ECMA-262: a reader of the
    numerals it accepts, their exact values, and the small integer a value is rounded to. */
module NumberText {
  import opened Prelude
  import KeyText

  /** The value of a digit in any radix up to 16. */
  function Digit(c: char): Option<nat> {
    if '0' <= c <= '9' then Some(c as int - '0' as int)
    else if 'a' <= c <= 'f' then Some(c as int - 'a' as int + 10)
    else if 'A' <= c <= 'F' then Some(c as int - 'A' as int + 10)
    else None
  }

  predicate IsDigit(c: char, radix: nat) { Digit(c).Some? && Digit(c).value < radix }

  predicate AllDigits(s: string, radix: nat) { forall i :: 0 <= i < |s| ==> IsDigit(s[i], radix) }

  function Whole(s: string, radix: nat): nat
    requires AllDigits(s, radix)
  {
    if s == "" then 0 else Whole(s[..|s| - 1], radix) * radix + Digit(s[|s| - 1]).value
  }

  // ------------------------------------------------------------ numerals

  datatype Exponent = Exponent(mark: char, sign: string, digits: string)

  /** What the grammar allows between white space. `Coded` is 0x, 0o or 0b and digits, never signed. */
  datatype Numeral =
    | Blank
    | Coded(prefix: char, digits: string)
    | Endless(sign: string)
    | Decimal(sign: string, whole: string, fraction: Option<string>, exponent: Option<Exponent>)

  /** 0 for no radix prefix. */
  function RadixOf(prefix: char): nat {
    if prefix in "xX" then 16 else if prefix in "oO" then 8 else if prefix in "bB" then 2 else 0
  }

  predicate IsSign(s: string) { s == "" || s == "+" || s == "-" }

  function FractionOf(fraction: Option<string>): string { if fraction.None? then "" else fraction.value }

  predicate IsExponent(e: Exponent) { e.mark in "eE" && IsSign(e.sign) && e.digits != "" && AllDigits(e.digits, 10) }

  predicate Grammatical(n: Numeral) {
    match n
    case Blank => true
    case Coded(prefix, digits) => RadixOf(prefix) != 0 && digits != "" && AllDigits(digits, RadixOf(prefix))
    case Endless(sign) => IsSign(sign)
    case Decimal(sign, whole, fraction, exponent) =>
      && IsSign(sign) && AllDigits(whole, 10) && AllDigits(FractionOf(fraction), 10)
      && (whole != "" || FractionOf(fraction) != "")
      && (exponent.Some? ==> IsExponent(exponent.value))
  }

  function PrintExponent(e: Option<Exponent>): string {
    if e.None? then "" else [e.value.mark] + (e.value.sign + e.value.digits)
  }

  function PrintFraction(fraction: Option<string>): string {
    if fraction.None? then "" else "." + fraction.value
  }

  function Print(n: Numeral): string {
    match n
    case Blank => ""
    case Coded(prefix, digits) => ['0', prefix] + digits
    case Endless(sign) => sign + "Infinity"
    case Decimal(sign, whole, fraction, exponent) => sign + (whole + (PrintFraction(fraction) + PrintExponent(exponent)))
  }

  function Ten(k: int): (p: real)
    decreases if k < 0 then -k else k
  {
    if k == 0 then 1.0 else if k > 0 then 10.0 * Ten(k - 1) else Ten(k + 1) / 10.0
  }

  function Signed(sign: string, v: real): real { if sign == "-" then -v else v }

  function Power(e: Option<Exponent>): int
    requires e.Some? ==> IsExponent(e.value)
  {
    if e.None? then 0
    else
      var power: int := Whole(e.value.digits, 10);
      if e.value.sign == "-" then -power else power
  }

  lemma DigitsJoin(a: string, b: string, radix: nat)
    requires AllDigits(a, radix) && AllDigits(b, radix)
    ensures AllDigits(a + b, radix)
  {
  }

  /** The exact value; infinity has none. */
  function Value(n: Numeral): Option<real>
    requires Grammatical(n)
  {
    match n
    case Blank => Some(0.0)
    case Coded(prefix, digits) => Some(Whole(digits, RadixOf(prefix)) as real)
    case Endless(_) => None
    case Decimal(sign, whole, fraction, exponent) =>
      DigitsJoin(whole, FractionOf(fraction), 10);
      var digits := whole + FractionOf(fraction);
      Some(Signed(sign, Whole(digits, 10) as real * Ten(Power(exponent) - |FractionOf(fraction)|)))
  }

  // ------------------------------------------------------------ reading

  function SignOf(s: string): (sign: string)
    ensures sign <= s && IsSign(sign)
  {
    if s != "" && (s[0] == '+' || s[0] == '-') then [s[0]] else ""
  }

  /** The digits a text begins with. */
  function Span(s: string): (digits: string)
    ensures digits <= s && AllDigits(digits, 10)
  {
    if s != "" && IsDigit(s[0], 10) then [s[0]] + Span(s[1..]) else ""
  }

  function ReadExponent(s: string): Option<Exponent>
    requires s != ""
  {
    var sign := SignOf(s[1..]);
    var digits := s[1..][|sign|..];
    if s[0] !in "eE" || digits == "" || !AllDigits(digits, 10) then None else Some(Exponent(s[0], sign, digits))
  }

  function ReadDecimal(sign: string, s: string): Option<Numeral> {
    var whole := Span(s);
    var after := s[|whole|..];
    var fraction := if after != "" && after[0] == '.' then Some(Span(after[1..])) else None;
    var last := after[|PrintFraction(fraction)|..];
    if whole == "" && FractionOf(fraction) == "" then None
    else if last == "" then Some(Decimal(sign, whole, fraction, None))
    else
      var exponent := ReadExponent(last);
      if exponent.None? then None else Some(Decimal(sign, whole, fraction, exponent))
  }

  predicate IsCoded(s: string) { |s| >= 2 && s[0] == '0' && RadixOf(s[1]) != 0 }

  function Read(s: string): Option<Numeral> {
    if s == "" then Some(Blank)
    else if IsCoded(s) then
      if s[2..] != "" && AllDigits(s[2..], RadixOf(s[1])) then Some(Coded(s[1], s[2..])) else None
    else
      var sign := SignOf(s);
      var rest := s[|sign|..];
      if rest == "Infinity" then Some(Endless(sign)) else ReadDecimal(sign, rest)
  }

  lemma ReadsFraction(after: string, fraction: Option<string>)
    requires fraction == if after != "" && after[0] == '.' then Some(Span(after[1..])) else None
    ensures PrintFraction(fraction) <= after && AllDigits(FractionOf(fraction), 10)
  {
    if fraction.Some? { assert after == ['.'] + after[1..]; }
  }

  /** What was read prints as the text it was read from. */
  lemma {:induction false} ReadPrints(s: string)
    requires Read(s).Some?
    ensures Grammatical(Read(s).value) && Print(Read(s).value) == s
  {
    if s != "" {
      if IsCoded(s) {
        assert s == ['0', s[1]] + s[2..];
      } else {
        var sign := SignOf(s);
        var rest := s[|sign|..];
        assert s == sign + rest;
        if rest != "Infinity" { DecimalPrints(sign, rest); }
      }
    }
  }

  lemma DecimalPrints(sign: string, s: string)
    requires IsSign(sign) && ReadDecimal(sign, s).Some?
    ensures Grammatical(ReadDecimal(sign, s).value) && Print(ReadDecimal(sign, s).value) == sign + s
  {
    var whole := Span(s);
    var after := s[|whole|..];
    var fraction := if after != "" && after[0] == '.' then Some(Span(after[1..])) else None;
    ReadsFraction(after, fraction);
    var last := after[|PrintFraction(fraction)|..];
    if last != "" { ExponentPrints(last); }
    hide PrintFraction, PrintExponent, Span, ReadExponent, AllDigits;
    Pieces(sign, s, whole, PrintFraction(fraction), last);
  }

  lemma Pieces(sign: string, s: string, whole: string, fraction: string, last: string)
    requires whole <= s && fraction <= s[|whole|..] && last == s[|whole|..][|fraction|..]
    ensures sign + (whole + (fraction + last)) == sign + s
  {
    assert s == whole + s[|whole|..] && s[|whole|..] == fraction + last;
  }

  lemma ExponentPrints(s: string)
    requires s != "" && ReadExponent(s).Some?
    ensures IsExponent(ReadExponent(s).value) && PrintExponent(ReadExponent(s)) == s
  {
    var sign := SignOf(s[1..]);
    assert s[1..] == sign + s[1..][|sign|..] && s == [s[0]] + s[1..];
  }

  predicate StopsDigits(s: string) { s == "" || !IsDigit(s[0], 10) }

  lemma {:induction false} SpanReads(digits: string, rest: string)
    requires AllDigits(digits, 10) && StopsDigits(rest)
    ensures Span(digits + rest) == digits && (digits + rest)[|digits|..] == rest
    decreases |digits|
  {
    if digits == "" {
      assert digits + rest == rest;
    } else {
      SpanReads(digits[1..], rest);
      assert (digits + rest)[1..] == digits[1..] + rest;
      assert [digits[0]] + digits[1..] == digits;
    }
  }

  lemma SignReads(sign: string, rest: string)
    requires IsSign(sign) && (rest != "" ==> rest[0] != '+' && rest[0] != '-')
    ensures SignOf(sign + rest) == sign && (sign + rest)[|sign|..] == rest
  {
  }

  lemma ExponentReads(e: Exponent)
    requires IsExponent(e)
    ensures ReadExponent(PrintExponent(Some(e))) == Some(e)
  {
    var s := PrintExponent(Some(e));
    assert IsDigit(e.digits[0], 10);
    SignReads(e.sign, e.digits);
    assert s[0] == e.mark && s[1..] == e.sign + e.digits;
  }

  lemma BehindPoint(digits: string, last: string)
    ensures var after := "." + digits + last;
      after[0] == '.' && after[1..] == digits + last && after[|"." + digits|..] == last
  {
  }

  /** A fraction and what follows it, behind the digits before the point. */
  lemma FractionReads(fraction: Option<string>, last: string)
    requires AllDigits(FractionOf(fraction), 10) && StopsDigits(last) && (last != "" ==> last[0] != '.')
    ensures var after := PrintFraction(fraction) + last;
      && StopsDigits(after) && after[|PrintFraction(fraction)|..] == last
      && fraction == if after != "" && after[0] == '.' then Some(Span(after[1..])) else None
  {
    var after := PrintFraction(fraction) + last;
    if fraction.Some? {
      SpanReads(fraction.value, last);
      hide Span, IsDigit;
      BehindPoint(fraction.value, last);
    } else {
      assert after == last;
    }
  }

  lemma DecimalReads(n: Numeral)
    requires n.Decimal? && Grammatical(n)
    ensures ReadDecimal(n.sign, n.whole + (PrintFraction(n.fraction) + PrintExponent(n.exponent))) == Some(n)
  {
    var last := PrintExponent(n.exponent);
    if n.exponent.Some? { assert last[0] == n.exponent.value.mark && last[0] in "eE"; }
    FractionReads(n.fraction, last);
    SpanReads(n.whole, PrintFraction(n.fraction) + last);
    if n.exponent.Some? { ExponentReads(n.exponent.value); }
  }

  /** The first characters of a decimal numeral behind its sign. */
  lemma DecimalBegins(n: Numeral)
    requires n.Decimal? && Grammatical(n)
    ensures var s := n.whole + (PrintFraction(n.fraction) + PrintExponent(n.exponent));
      s != "" && (s[0] == '.' || IsDigit(s[0], 10)) && s != "Infinity" && (|s| >= 2 && s[0] == '0' ==> RadixOf(s[1]) == 0)
  {
    var rest := PrintFraction(n.fraction) + PrintExponent(n.exponent);
    var s := n.whole + rest;
    if n.whole == "" {
      assert s == rest && rest[0] == '.';
    } else {
      assert s[0] == n.whole[0] && IsDigit(n.whole[0], 10);
      if |n.whole| >= 2 { assert s[1] == n.whole[1] && IsDigit(n.whole[1], 10); }
      else if rest != "" { assert s[1] == rest[0] && (rest[0] == '.' || rest[0] in "eE"); }
    }
  }

  /** Every numeral is read back from what it prints as. */
  lemma {:induction false} ReadsPrinted(n: Numeral)
    requires Grammatical(n)
    ensures Read(Print(n)) == Some(n)
  {
    match n
    case Blank =>
    case Coded(prefix, digits) =>
      var s := Print(n);
      assert s[0] == '0' && s[1] == prefix && s[2..] == digits;
    case Endless(sign) =>
      SignReads(sign, "Infinity");
      assert !IsCoded(Print(n)) by { assert Print(n)[0] == (sign + "Infinity")[0]; }
    case Decimal(sign, whole, fraction, exponent) =>
      var s := whole + (PrintFraction(fraction) + PrintExponent(exponent));
      DecimalBegins(n);
      SignReads(sign, s);
      DecimalReads(n);
      NotCoded(sign, s);
  }

  lemma NotCoded(sign: string, s: string)
    requires IsSign(sign) && !IsCoded(s)
    ensures !IsCoded(sign + s)
  {
    if sign == "" { assert sign + s == s; }
  }

  // ------------------------------------------------------------ with white space around

  predicate AllSpace(s: string) { forall i :: 0 <= i < |s| ==> IsSpace(s[i]) }

  /** The text is the numeral between white space. */
  ghost predicate Written(text: string, n: Numeral) {
    Grammatical(n) && exists lead, trail :: AllSpace(lead) && AllSpace(trail) && text == lead + Print(n) + trail
  }

  function Number(text: string): Option<real> {
    var numeral := Read(Trim(text));
    if numeral.None? then None
    else
      ReadPrints(Trim(text));
      Value(numeral.value)
  }

  lemma {:induction false} TrimStartDrops(text: string) returns (lead: string)
    ensures AllSpace(lead) && text == lead + TrimStart(text)
    ensures TrimStart(text) != "" ==> !IsSpace(TrimStart(text)[0])
    decreases |text|
  {
    if text != "" && IsSpace(text[0]) {
      var more := TrimStartDrops(text[1..]);
      lead := [text[0]] + more;
      hide TrimStart, IsSpace;
      HeadBack(text, more, TrimStart(text[1..]));
    } else {
      lead := "";
    }
  }

  lemma HeadBack(text: string, more: string, rest: string)
    requires text != "" && text[1..] == more + rest
    ensures text == [text[0]] + more + rest
  {
    assert text == [text[0]] + text[1..];
  }

  lemma {:induction false} TrimEndDrops(text: string) returns (trail: string)
    ensures AllSpace(trail) && text == TrimEnd(text) + trail
    decreases |text|
  {
    if text != "" && IsSpace(text[|text| - 1]) {
      var more := TrimEndDrops(text[..|text| - 1]);
      trail := more + [text[|text| - 1]];
      assert text == text[..|text| - 1] + [text[|text| - 1]];
    } else {
      trail := "";
    }
  }

  /** Begins and ends with something else than white space, if it is not empty. */
  predicate Tight(s: string) { s != "" ==> !IsSpace(s[0]) && !IsSpace(s[|s| - 1]) }

  lemma {:induction false} TrimStartOf(lead: string, s: string)
    requires AllSpace(lead) && (s != "" ==> !IsSpace(s[0]))
    ensures TrimStart(lead + s) == s
    decreases |lead|
  {
    if lead == "" {
      assert lead + s == s;
    } else {
      assert (lead + s)[1..] == lead[1..] + s;
      TrimStartOf(lead[1..], s);
    }
  }

  lemma {:induction false} TrimEndOf(s: string, trail: string)
    requires AllSpace(trail) && (s != "" ==> !IsSpace(s[|s| - 1]))
    ensures TrimEnd(s + trail) == s
    decreases |trail|
  {
    if trail == "" {
      assert s + trail == s;
    } else {
      var n := |trail| - 1;
      assert (s + trail)[..|s| + n] == s + trail[..n];
      TrimEndOf(s, trail[..n]);
    }
  }

  lemma {:induction false} AllSpaceGoes(s: string)
    requires AllSpace(s)
    ensures TrimStart(s) == ""
    decreases |s|
  {
    if s != "" { AllSpaceGoes(s[1..]); }
  }

  lemma TrimBetween(lead: string, s: string, trail: string)
    requires AllSpace(lead) && AllSpace(trail) && Tight(s)
    ensures Trim(lead + s + trail) == s
  {
    assert lead + s + trail == lead + (s + trail);
    if s == "" {
      assert lead + (s + trail) == lead + trail;
      AllSpaceGoes(lead + trail);
    } else {
      assert (s + trail)[0] == s[0];
      TrimStartOf(lead, s + trail);
      TrimEndOf(s, trail);
    }
  }

  lemma DigitIsNoSpace(c: char, radix: nat)
    ensures IsDigit(c, radix) ==> !IsSpace(c)
  {
  }

  lemma CodedIsTight(prefix: char, digits: string)
    requires Grammatical(Coded(prefix, digits))
    ensures Tight(Print(Coded(prefix, digits)))
  {
    var s := Print(Coded(prefix, digits));
    assert s[|s| - 1] == digits[|digits| - 1];
    DigitIsNoSpace(digits[|digits| - 1], RadixOf(prefix));
  }

  lemma EndlessIsTight(sign: string)
    requires IsSign(sign)
    ensures Tight(sign + "Infinity")
  {
    var s := sign + "Infinity";
    assert s[|s| - 1] == 'y' && (sign == "" ==> s[0] == 'I');
  }

  lemma SignedIsTight(sign: string, s: string)
    requires IsSign(sign) && s != "" && !IsSpace(s[0]) && !IsSpace(s[|s| - 1])
    ensures Tight(sign + s)
  {
    assert (sign + s)[|sign|] == s[0] && (sign + s)[|sign + s| - 1] == s[|s| - 1];
  }

  lemma DecimalIsTight(n: Numeral)
    requires n.Decimal? && Grammatical(n)
    ensures Tight(Print(n))
  {
    DecimalBegins(n);
    LastOfDecimal(n.whole, n.fraction, n.exponent);
    var s := n.whole + (PrintFraction(n.fraction) + PrintExponent(n.exponent));
    DigitIsNoSpace(s[0], 10);
    hide PrintFraction, PrintExponent, IsDigit;
    SignedIsTight(n.sign, s);
  }

  lemma PrintIsTight(n: Numeral)
    requires Grammatical(n)
    ensures Tight(Print(n))
  {
    hide Tight;
    match n
    case Blank => assert Tight("") by { BlankIsTight(); }
    case Coded(prefix, digits) => CodedIsTight(prefix, digits);
    case Endless(sign) => EndlessIsTight(sign);
    case Decimal(_, _, _, _) => DecimalIsTight(n);
  }

  lemma BlankIsTight()
    ensures Tight("")
  {
  }

  lemma LastOfDecimal(whole: string, fraction: Option<string>, exponent: Option<Exponent>)
    requires Grammatical(Decimal("", whole, fraction, exponent))
    ensures var s := whole + (PrintFraction(fraction) + PrintExponent(exponent)); s != "" && !IsSpace(s[|s| - 1])
  {
    var s := whole + (PrintFraction(fraction) + PrintExponent(exponent));
    if exponent.Some? {
      assert s[|s| - 1] == exponent.value.digits[|exponent.value.digits| - 1];
    } else if fraction.Some? {
      assert s[|s| - 1] == ("." + fraction.value)[|fraction.value|];
    } else {
      assert s == whole;
    }
  }

  /** The reader finds exactly the numeral that is written between white space. */
  lemma {:induction false} ReadExactly(text: string, n: Numeral)
    ensures Read(Trim(text)) == Some(n) <==> Written(text, n)
  {
    hide Read, Print, Grammatical, Trim;
    if Read(Trim(text)) == Some(n) {
      ReadPrints(Trim(text));
      TrimKeeps(text);
    }
    if Written(text, n) {
      var lead, trail :| AllSpace(lead) && AllSpace(trail) && text == lead + Print(n) + trail;
      PrintIsTight(n);
      TrimBetween(lead, Print(n), trail);
      ReadsPrinted(n);
    }
  }

  lemma TrimKeeps(text: string)
    ensures exists lead, trail :: AllSpace(lead) && AllSpace(trail) && text == lead + Trim(text) + trail
  {
    var lead := TrimStartDrops(text);
    var trail := TrimEndDrops(TrimStart(text));
    assert text == lead + Trim(text) + trail;
  }

  // ------------------------------------------------------------ doubles

  /** Powers of two, of either sign. */
  function Two(k: int): (p: real)
    ensures p > 0.0
    decreases if k < 0 then -k else k
  {
    if k == 0 then 1.0 else if k > 0 then 2.0 * Two(k - 1) else Two(k + 1) / 2.0
  }

  const SIGNIFICANT: int := 0x20_0000_0000_0000
  const LEAST := -1074
  const GREATEST := 971

  /** A double is a significand below 2^53 times a power of two in range. */
  function Scaled(m: int, k: int): real { m as real * Two(k) }

  ghost predicate IsDouble(d: real) {
    exists m, k :: -SIGNIFICANT < m < SIGNIFICANT && LEAST <= k <= GREATEST && d == Scaled(m, k)
  }

  lemma SignificantIsPower()
    ensures Pow2(53) == SIGNIFICANT
  {
    assert Pow2(13) == 8192;
    Pow2Adds(13, 13);
    Pow2Adds(26, 13);
    Pow2Adds(39, 14);
    assert Pow2(14) == 16384;
  }

  function Abs(x: real): real { if x < 0.0 then -x else x }

  /** No double is nearer to the value than the number `n`. With an even significand, as the integers
      up to 255 have, it also wins a tie. */
  ghost predicate Nearest(v: real, n: nat) {
    forall d :: IsDouble(d) ==> Abs(v - n as real) <= Abs(v - d)
  }

  /** The position of the highest bit. */
  function Log(n: nat): (e: nat)
    requires n >= 1
    ensures Pow2(e) <= n < Pow2(e + 1)
  {
    if n == 1 then 0 else Log(n / 2) + 1
  }

  /** Half the way to the next double, and to the one before. */
  function HalfUp(n: nat): real { if n == 0 then Two(LEAST - 1) else Two(Log(n) - 53) }

  function HalfDown(n: nat): real {
    if n == 0 then Two(LEAST - 1) else if n == Pow2(Log(n)) then Two(Log(n) - 54) else Two(Log(n) - 53)
  }

  predicate Near(v: real, n: nat) { -HalfDown(n) <= v - n as real <= HalfUp(n) }

  lemma NeighboursDecide(v: real, n: nat, up: real, down: real)
    requires up > 0.0 && down > 0.0 && IsDouble(n as real + 2.0 * up) && IsDouble(n as real - 2.0 * down)
    requires forall d :: IsDouble(d) ==> d == n as real || d >= n as real + 2.0 * up || d <= n as real - 2.0 * down
    ensures -down <= v - n as real <= up <==> Nearest(v, n)
  {
    hide IsDouble;
    if Nearest(v, n) {
      var next, last := n as real + 2.0 * up, n as real - 2.0 * down;
      assert Abs(v - n as real) <= Abs(v - next) && Abs(v - n as real) <= Abs(v - last);
    }
  }

  lemma {:induction false} TwoMonotone(j: int, k: int)
    requires j <= k
    ensures Two(j) <= Two(k)
    decreases k - j
  {
    if j < k { TwoMonotone(j, k - 1); TwoDoubles(k - 1); }
  }

  lemma TwoDoubles(k: int)
    ensures Two(k + 1) == 2.0 * Two(k)
  {
  }

  lemma {:induction false} TwoAdds(j: int, k: nat)
    ensures Two(j + k) == Pow2(k) as real * Two(j)
    decreases k
  {
    hide Two, Pow2;
    if k == 0 {
      Pow2Zero();
      TimesUnit(Pow2(0), Two(j));
    } else {
      TwoAdds(j, k - 1);
      TwoDoubles(j + k - 1);
      Pow2Doubles(k - 1);
      TwiceBoth(Two(j + k), Two(j + k - 1), Pow2(k), Pow2(k - 1), Two(j));
    }
  }

  lemma Pow2Zero()
    ensures Pow2(0) == 1
  {
  }

  lemma TimesUnit(p: int, x: real)
    requires p == 1
    ensures p as real * x == x
  {
  }

  lemma TwiceBoth(a: real, b: real, q: int, p: int, x: real)
    requires a == 2.0 * b && b == p as real * x && q == 2 * p
    ensures a == q as real * x
  {
    Twice(p, x);
  }

  lemma Twice(p: int, x: real)
    ensures (2 * p) as real * x == 2.0 * (p as real * x)
  {
    assert (2 * p) as real == 2.0 * p as real;
  }

  /** A double that is not too small is a multiple of the power of two `g`. */
  lemma OnGrid(s: int, k: int, g: int) returns (m: int)
    requires s < SIGNIFICANT && Scaled(s, k) >= Two(g + 52)
    ensures Scaled(s, k) == Scaled(m, g)
  {
    hide Pow2, Two;
    FineEnough(s, k, g);
    TwoAdds(g, k - g);
    m := s * Pow2(k - g);
    Regroup(s, Pow2(k - g), Two(g));
  }

  lemma FineEnough(s: int, k: int, g: int)
    requires s < SIGNIFICANT && Scaled(s, k) >= Two(g + 52)
    ensures k >= g
  {
    hide Pow2, Two;
    SignificantIsPower();
    TwoAdds(k, 53);
    BelowBound(s, Pow2(53), Two(k));
    assert Scaled(s, k) < Two(k + 53);
    if k < g {
      TwoMonotone(k + 53, g + 52);
    }
  }

  lemma BelowBound(s: int, bound: int, x: real)
    requires s < bound && x > 0.0
    ensures s as real * x < bound as real * x
  {
  }

  lemma Regroup(s: int, p: int, x: real)
    ensures s as real * (p as real * x) == (s * p) as real * x
  {
    assert (s * p) as real == s as real * p as real;
  }

  /** Two multiples of a power of two are equal or at least that far apart. */
  lemma GridGap(m: int, n: int, g: int)
    ensures m == n || Scaled(m, g) >= Scaled(n, g) + Two(g) || Scaled(m, g) <= Scaled(n, g) - Two(g)
  {
    if m > n { ScaledApart(n, m, g); }
    if m < n { ScaledApart(m, n, g); }
  }

  lemma ScaledApart(m: int, n: int, g: int)
    requires m < n
    ensures Scaled(m, g) + Two(g) <= Scaled(n, g)
  {
    var x := Two(g);
    assert (n - m) as real >= 1.0;
    assert n as real * x == m as real * x + (n - m) as real * x;
  }

  lemma NextOnGrid(n: int, g: int)
    ensures Scaled(n, g) + Two(g) == Scaled(n + 1, g) && Scaled(n, g) - Two(g) == Scaled(n - 1, g)
  {
  }

  /** An integer with highest bit `e` on a grid as fine as its doubles, or finer by one bit. */
  lemma WholeOnGrid(n: nat, e: nat, b: nat) returns (s: int)
    requires Pow2(e) <= n < Pow2(e + 1) && e <= 7 && 52 <= b <= 53
    ensures n as real == Scaled(s, e - b) && 0 < s && s + 1 < 2 * Pow2(b) && (n == Pow2(e) ==> s == Pow2(b))
  {
    assert Pow2(1) == 2;
    hide Pow2, Two;
    var p := Pow2(b - e);
    s := n * p;
    OnFineGrid(n, p, e - b, b - e);
    Pow2Adds(e + 1, b - e);
    Pow2Adds(e, b - e);
    Pow2Monotone(1, b - e);
    Pow2Doubles(b);
    RowsFit(n, Pow2(e + 1), p);
  }

  lemma OnFineGrid(n: nat, p: nat, j: int, k: nat)
    requires j + k == 0 && p == Pow2(k)
    ensures Scaled(n * p, j) == n as real
  {
    hide Pow2, Two;
    OneAsTwo(j, k);
    Regroup(n, p, Two(j));
    TimesOne(n, p, Two(j));
  }

  lemma TimesOne(n: int, p: int, x: real)
    requires p as real * x == 1.0
    ensures n as real * (p as real * x) == n as real
  {
  }

  lemma Pow2Doubles(k: nat)
    ensures Pow2(k + 1) == 2 * Pow2(k)
  {
  }

  lemma OneAsTwo(j: int, k: nat)
    requires j + k == 0
    ensures Pow2(k) as real * Two(j) == 1.0
  {
    TwoAdds(j, k);
  }

  lemma RowsFit(n: nat, m: nat, p: nat)
    requires 0 < n < m && p >= 2
    ensures 0 < n * p && n * p + 1 < m * p
  {
    MulMonotone(1, n, p);
    MulMonotone(n + 1, m, p);
    assert (n + 1) * p == n * p + p;
  }

  lemma MulMonotone(a: nat, b: nat, p: nat)
    requires a <= b
    ensures a * p <= b * p
  {
  }

  lemma SmallLog(n: nat)
    requires 1 <= n <= 255
    ensures Log(n) <= 7
  {
    assert Pow2(8) == 256;
    if Log(n) >= 8 { Pow2Monotone(8, Log(n)); }
  }

  /** No double lies between a number on the grid and its neighbours on it, where doubles are on it. */
  lemma GapOnGrid(d: real, n: real, s: int, g: int)
    requires IsDouble(d) && n == Scaled(s, g) && d >= Two(g + 52)
    ensures d == n || d >= n + Two(g) || d <= n - Two(g)
  {
    var m, k :| -SIGNIFICANT < m < SIGNIFICANT && LEAST <= k <= GREATEST && d == Scaled(m, k);
    hide Scaled, Two, Pow2;
    var r := OnGrid(m, k, g);
    GridGap(r, s, g);
  }

  /** On which grids a small integer lies, and how far its neighbours are. */
  lemma Grids(n: nat, e: nat) returns (s: int, f: int)
    requires 1 <= n <= 255 && e == Log(n)
    ensures e <= 7 && Pow2(e) <= n
    ensures n as real == Scaled(s, e - 52) && 0 < s && s + 1 < SIGNIFICANT
    ensures n as real == Scaled(f, e - 53) && (n == Pow2(e) ==> f == SIGNIFICANT)
    ensures 2.0 * HalfUp(n) == Two(e - 52)
    ensures 2.0 * HalfDown(n) == if n == Pow2(e) then Two(e - 53) else Two(e - 52)
  {
    hide Two, Scaled, Pow2;
    SmallLog(n);
    s := WholeOnGrid(n, e, 52);
    f := WholeOnGrid(n, e, 53);
    SignificantIsPower();
    Pow2Doubles(52);
    TwoDoubles(e - 53);
    TwoDoubles(e - 54);
  }

  lemma AroundWhole(n: nat)
    requires 1 <= n <= 255
    ensures IsDouble(n as real + 2.0 * HalfUp(n)) && IsDouble(n as real - 2.0 * HalfDown(n))
  {
    hide Two, Scaled, Pow2, HalfUp, HalfDown;
    var e: int := Log(n);
    var s, f := Grids(n, e);
    hide Log;
    NextOnGrid(s, e - 52);
    NextOnGrid(f, e - 53);
    assert IsDouble(Scaled(s + 1, e - 52)) && IsDouble(Scaled(s - 1, e - 52));
    assert n == Pow2(e) ==> IsDouble(Scaled(f - 1, e - 53));
  }

  lemma NothingBetween(n: nat, d: real)
    requires 1 <= n <= 255 && IsDouble(d)
    ensures d == n as real || d >= n as real + 2.0 * HalfUp(n) || d <= n as real - 2.0 * HalfDown(n)
  {
    hide Two, Scaled, Pow2, IsDouble, HalfUp, HalfDown;
    var e: int := Log(n);
    var s, f := Grids(n, e);
    StepsBelow(n, e);
    hide Log;
    if d >= Two(e) { GapOnGrid(d, n as real, s, e - 52); }
    if d >= Two(e - 1) && n == Pow2(e) { GapOnGrid(d, n as real, f, e - 53); }
    FromGaps(n as real, d, Two(e - 52), Two(e - 53), Two(e), Two(e - 1), n == Pow2(e));
  }

  /** Above one bound the wide gap is known, and for a power of two the narrow one above the other. */
  lemma FromGaps(n: real, d: real, wide: real, narrow: real, bound: real, lower: real, power: bool)
    requires wide > 0.0 && narrow > 0.0
    requires d >= bound ==> d == n || d >= n + wide || d <= n - wide
    requires power && d >= lower ==> d == n || d >= n + narrow || d <= n - narrow
    requires if power then n - narrow >= lower && n == bound else n - wide >= bound
    ensures d == n || d >= n + wide || d <= n - (if power then narrow else wide)
  {
  }

  /** What lies a step below is not below the powers of two that fix the grid. */
  lemma StepsBelow(n: nat, e: nat)
    requires e <= 7 && Pow2(e) <= n
    ensures n > Pow2(e) ==> n as real - Two(e - 52) >= Two(e)
    ensures n == Pow2(e) ==> n as real - Two(e - 53) >= Two(e - 1) && n as real == Two(e)
  {
    assert Two(0) == 1.0;
    hide Two, Pow2;
    WholePower(e);
    TwoMonotone(e - 52, 0);
    TwoDoubles(e - 1);
    TwoMonotone(e - 53, e - 1);
  }

  lemma WholePower(e: nat)
    ensures Two(e) == Pow2(e) as real
  {
    TwoAdds(0, e);
  }

  lemma AroundZero()
    ensures IsDouble(0.0 + 2.0 * HalfUp(0)) && IsDouble(0.0 - 2.0 * HalfDown(0))
  {
    TwoDoubles(LEAST - 1);
    assert Pow2(53) > 1 by { Pow2Monotone(1, 53); }
    assert Scaled(1, LEAST) == Two(LEAST) && Scaled(-1, LEAST) == -Two(LEAST);
    assert IsDouble(Scaled(1, LEAST)) && IsDouble(Scaled(-1, LEAST));
  }

  lemma NothingNearZero(d: real)
    requires IsDouble(d)
    ensures d == 0.0 || d >= Two(LEAST) || d <= -Two(LEAST)
  {
    var m, k :| -SIGNIFICANT < m < SIGNIFICANT && LEAST <= k <= GREATEST && d == Scaled(m, k);
    TwoMonotone(LEAST, k);
    GridGap(m, 0, k);
  }

  /** The interval of values nearest to a small integer. */
  lemma {:induction false} NearIsNearest(v: real, n: nat)
    requires n <= 255
    ensures Near(v, n) <==> Nearest(v, n)
  {
    hide IsDouble, Nearest;
    if n == 0 {
      AroundZero();
      TwoDoubles(LEAST - 1);
      forall d | IsDouble(d) ensures d == 0.0 || d >= 2.0 * HalfUp(0) || d <= -(2.0 * HalfDown(0)) { NothingNearZero(d); }
    } else {
      AroundWhole(n);
      forall d | IsDouble(d) ensures d == n as real || d >= n as real + 2.0 * HalfUp(n) || d <= n as real - 2.0 * HalfDown(n) {
        NothingBetween(n, d);
      }
    }
    NeighboursDecide(v, n, HalfUp(n), HalfDown(n));
  }

  // ------------------------------------------------------------ small integers

  /** `Number`, then `Number.isInteger` and the bounds 0 and `top`. */
  function IntegerUpTo(text: string, top: nat): Option<nat> {
    var v := Number(text);
    if v.None? then None
    else
      var n := (v.value + 0.5).Floor;
      if 0 <= n <= top && Near(v.value, n) then Some(n) else None
  }

  lemma HalvesAreSmall(n: nat)
    requires n <= 255
    ensures 0.0 < HalfUp(n) < 0.5 && 0.0 < HalfDown(n) < 0.5
  {
    var e := if n == 0 then 0 else Log(n);
    if n > 0 { SmallLog(n); }
    TwoMonotone(LEAST - 1, -2);
    TwoMonotone(e - 53, -2);
    TwoMonotone(e - 54, -2);
    assert Two(-2) == 0.25 by { TwoDoubles(-2); TwoDoubles(-1); }
  }

  /** The text spells the integer: a numeral between white space whose value rounds to it. */
  ghost predicate Spells(text: string, n: nat) {
    exists numeral :: Written(text, numeral) && Value(numeral).Some? && Nearest(Value(numeral).value, n)
  }

  /** The integer found is exactly the one the text spells. */
  lemma {:induction false} IntegerExactly(text: string, top: nat, n: nat)
    requires top <= 255
    ensures IntegerUpTo(text, top) == Some(n) <==> n <= top && Spells(text, n)
  {
    var read := Read(Trim(text));
    hide Read, Trim, Near, Nearest, Value;
    forall numeral ensures read == Some(numeral) <==> Written(text, numeral) { ReadExactly(text, numeral); }
    if Number(text).Some? {
      var v := Number(text).value;
      if n <= top { NearIsFloor(v, n); }
    }
  }

  lemma NearIsFloor(v: real, n: nat)
    requires n <= 255
    ensures Near(v, n) <==> Nearest(v, n)
    ensures Near(v, n) ==> (v + 0.5).Floor == n
  {
    HalvesAreSmall(n);
    NearIsNearest(v, n);
    hide Nearest, HalfUp, HalfDown;
  }

  /** A numeral whose value is the integer itself spells it. */
  lemma ExactSpells(text: string, numeral: Numeral, n: nat)
    requires Written(text, numeral) && Value(numeral) == Some(n as real) && n <= 255
    ensures Spells(text, n)
  {
    HalvesAreSmall(n);
    NearIsNearest(n as real, n);
  }

  // ------------------------------------------------------------ as printed

  lemma DigitIs(d: nat)
    requires d < 10
    ensures Digit(KeyText.Digit(d)) == Some(d)
  {
  }

  lemma {:induction false} DigitsAreDigits(n: nat)
    ensures AllDigits(KeyText.Digits(n), 10) && Whole(KeyText.Digits(n), 10) == n
    decreases n
  {
    var s := KeyText.Digits(n);
    DigitIs(n % 10);
    if n < 10 {
      assert s[..0] == "" && Whole("", 10) == 0;
    } else {
      DigitsAreDigits(n / 10);
      assert s[..|s| - 1] == KeyText.Digits(n / 10);
    }
  }

  lemma WholeNumeral(s: string)
    requires AllDigits(s, 10) && s != ""
    ensures var numeral := Decimal("", s, None, None);
      Grammatical(numeral) && Print(numeral) == s && s == "" + s + "" && Value(numeral) == Some(Whole(s, 10) as real)
  {
    assert s + FractionOf(None) == s;
    assert s + (PrintFraction(None) + PrintExponent(None)) == s;
    assert Ten(0) == 1.0;
    hide Whole;
  }

  /** A small integer as `String` prints it is read as itself. */
  lemma {:induction false} DigitsAreRead(n: nat, top: nat)
    requires n <= top <= 255
    ensures IntegerUpTo(KeyText.Digits(n), top) == Some(n)
  {
    var s := KeyText.Digits(n);
    DigitsAreDigits(n);
    WholeNumeral(s);
    hide Whole, AllDigits, Print, Value, Grammatical;
    SpelledExactly(s, "", Decimal("", s, None, None), "", n);
    IntegerExactly(s, top, n);
  }

  /** A numeral with a small integer as its value, between white space. */
  lemma SpelledExactly(text: string, lead: string, numeral: Numeral, trail: string, n: nat)
    requires Grammatical(numeral) && AllSpace(lead) && AllSpace(trail) && text == lead + Print(numeral) + trail
    requires Value(numeral) == Some(n as real) && n <= 255
    ensures Spells(text, n)
  {
    hide Print, Value, Grammatical;
    assert Written(text, numeral);
    ExactSpells(text, numeral, n);
  }
}

/**
 * `toNumberIfLooksLike` of the lightweight extractor: a finite number is
 * taken as it is, a string is read as a follower count ("12.5K", "1.2M",
 * "3,400"), anything else is `null`.
 */
module ApiCoercion {
  import opened Optional
  import opened JsText
  import opened JsNumber
  import opened JsonHeap
  import opened CountText

  function ToNumber(v: Value): Option<real> {
    match v
    case Num(n) => if n.Finite? then Some(n.x) else None
    case Str(s) => StringToNumber(s)
    case _ => None
  }

  /**
   * The string case. The M suffix is tried before the K suffix; a numeral
   * that `Number` reads as NaN falls through to the next rule, and the
   * last rule reads the digits of the whole string.
   */
  function StringToNumber(s: string): Option<real> {
    if s == "" then None else FromCleaned(Clean(s))
  }

  /** The rules on the cleaned text, in the order they are tried. */
  function FromCleaned(c: string): Option<real> {
    if c == "" then None
    else
      var m := SuffixRule(c, Millions);
      if m.Some? then m
      else
        var k := SuffixRule(c, Thousands);
        if k.Some? then k
        else
          var digits := DigitsOnly(c);
          if digits != "" then Some(DigitsValue(digits) as real) else None
  }

  /**
   * One suffix rule: the numeral in front of the suffix letter, scaled
   * and rounded, or `null` when there is no such suffix or `Number` reads
   * the numeral as NaN.
   */
  function SuffixRule(c: string, u: Suffix): Option<real> {
    var p := SuffixPart(c, u);
    if p.Some? && NumeralValue(p.value).Finite?
    then Some(MathRound(Scale(u, NumeralValue(p.value).x)) as real)
    else None
  }

  /** Finite numbers pass through unchanged, including 0; NaN and the infinities are `null`. */
  lemma NumbersPassThrough(n: JsNum, x: real)
    ensures ToNumber(Num(n)) == Some(x) <==> n == Finite(x)
    ensures ToNumber(Num(n)) == None <==> !n.Finite?
  {}

  /** `null`, booleans and objects are never read as a count. */
  lemma NonStringsAreNull(v: Value)
    requires v.Null? || v.Bool? || v.Ref?
    ensures ToNumber(v) == None
  {}

  lemma SuffixRuleIsCount(c: string, u: Suffix)
    requires SuffixRule(c, u).Some?
    ensures IsCount(SuffixRule(c, u).value)
  {
    var x := NumeralValue(SuffixPart(c, u).value).x;
    assert Scale(u, x) >= 0.0;
  }

  /** Whatever a string gives is a whole non-negative number. */
  lemma StringResultIsCount(s: string, x: real)
    requires StringToNumber(s) == Some(x)
    ensures IsCount(x)
  {
    var c := Clean(s);
    if SuffixRule(c, Millions).Some? {
      SuffixRuleIsCount(c, Millions);
    } else if SuffixRule(c, Thousands).Some? {
      SuffixRuleIsCount(c, Thousands);
    }
  }

  /**
   * When neither suffix rule yields a number (no final K or M, or a
   * numeral that is NaN), a string gives the integer formed by its digits,
   * or `null` when it has none: "3,400" is 3400, "0" is 0, "1.2.3K" is 123.
   */
  lemma DigitsFallback(s: string)
    requires forall u: Suffix :: SuffixPart(Clean(s), u).None? || NumeralValue(SuffixPart(Clean(s), u).value) == NaN
    ensures StringToNumber(s) == if DigitsOnly(s) == "" then None else Some(DigitsValue(DigitsOnly(s)) as real)
  {
    DigitsOnlyClean(s);
    assert SuffixRule(Clean(s), Millions).None? && SuffixRule(Clean(s), Thousands).None?;
  }

  /** The value a numeral gives under a suffix, from its digits alone. */
  function ScaledCount(p: string, u: Suffix): int
    requires AllNumeral(p)
  {
    RoundedQuotient(DigitsValue(DigitsOnly(p)) * Multiplier(u), Pow10(FractionDigits(RemoveCommas(p))))
  }

  /** `n / q`, rounded half up. */
  function RoundedQuotient(n: nat, q: nat): int
    requires q >= 1
  {
    MathRound(n as real / q as real)
  }

  lemma RoundScaledQuotient(x: real, d: nat, u: Suffix, q: nat)
    requires q >= 1 && x == d as real / q as real
    ensures MathRound(Scale(u, x)) == RoundedQuotient(d * Multiplier(u), q)
  {
    assert Scale(u, x) == (d * Multiplier(u)) as real / q as real;
  }

  /** A suffix rule that applies gives the numeral's digits, scaled and rounded. */
  lemma SuffixRuleValue(c: string, u: Suffix)
    requires SuffixPart(c, u).Some? && NumeralValue(SuffixPart(c, u).value).Finite?
    ensures SuffixRule(c, u) == Some(ScaledCount(SuffixPart(c, u).value, u) as real)
  {
    var p := SuffixPart(c, u).value;
    var x := NumeralValue(p).x;
    NumeralIsScaledDigits(p, x);
    RoundScaledQuotient(x, DigitsValue(DigitsOnly(p)), u, Pow10(FractionDigits(RemoveCommas(p))));
  }

  /**
   * A final K multiplies the numeral (commas removed) by 1,000 and a final
   * M by 1,000,000, and the product is rounded: "12.5K" is 12500, "1.2M"
   * is 1200000.
   */
  lemma SuffixScaling(s: string, u: Suffix)
    requires SuffixPart(Clean(s), u).Some?
    requires NumeralValue(SuffixPart(Clean(s), u).value).Finite?
    ensures StringToNumber(s) == Some(ScaledCount(SuffixPart(Clean(s), u).value, u) as real)
  {
    var c := Clean(s);
    if u == Thousands {
      assert SuffixPart(c, Millions).None?;
    }
    SuffixRuleValue(c, u);
  }

  /** Cleaned text ends in a K or an M, with only commas in front of it. */
  predicate CommasThenSuffix(c: string) {
    exists u: Suffix :: SuffixPart(c, u).Some? && OnlyCommas(SuffixPart(c, u).value)
  }

  /** On a digit-free text a suffix rule gives 0 for a numeral of commas and `null` otherwise. */
  lemma DigitlessRule(c: string, u: Suffix)
    requires DigitsOnly(c) == ""
    ensures SuffixRule(c, u) == if SuffixPart(c, u).Some? && OnlyCommas(SuffixPart(c, u).value) then Some(0.0) else None
  {
    var part := SuffixPart(c, u);
    if part.Some? {
      SuffixDigits(c, u);
      DigitlessNumeral(part.value);
      if OnlyCommas(part.value) {
        assert NumeralValue(part.value) == Finite(0.0);
        assert Scale(u, 0.0) == 0.0;
      }
    }
  }

  /**
   * A string with no digit is `null`, never 0, with one exception: commas
   * followed by a K or an M, as in ",M", read as `Number("")`, which is 0.
   */
  lemma NoDigitsIsNull(s: string)
    requires DigitsOnly(s) == ""
    ensures StringToNumber(s) == if CommasThenSuffix(Clean(s)) then Some(0.0) else None
  {
    var c := Clean(s);
    DigitsOnlyClean(s);
    DigitlessRule(c, Millions);
    DigitlessRule(c, Thousands);
    if CommasThenSuffix(c) {
      var u :| SuffixPart(c, u).Some? && OnlyCommas(SuffixPart(c, u).value);
      assert c != "";
    }
  }

  lemma ExampleThousands()
    ensures StringToNumber("12.5K") == Some(12500.0)
  {
    CleanedThousands();
    NumeralTwelveHalf();
    SuffixScaling("12.5K", Thousands);
  }

  lemma CleanedThousands()
    ensures Clean("12.5K") == "12.5K"
    ensures SuffixPart("12.5K", Thousands) == Some("12.5")
  {
    assert "12.5K"[..4] == "12.5";
  }

  lemma NumeralTwelveHalf()
    ensures NumeralValue("12.5").Finite?
    ensures ScaledCount("12.5", Thousands) == 12500
  {
    DecimalTwelveHalf();
    DigitsTwelveHalf();
    assert ScaledCount("12.5", Thousands) == RoundedQuotient(125000, 10);
    assert RoundedQuotient(125000, 10) == 12500;
  }

  lemma DigitsTwelveHalf()
    ensures DigitsValue(DigitsOnly("12.5")) == 125
  {
    assert DigitsOnly("12.5") == "125";
    assert DigitsValue("125") == 1 * 100 + DigitsValue("25");
  }

  lemma DecimalTwelveHalf()
    ensures RemoveCommas("12.5") == "12.5"
    ensures ParseDecimal("12.5").Finite?
    ensures Pow10(FractionDigits("12.5")) == 10
  {
    assert DotIndex("12.5") == 2;
  }

  lemma ExampleMillions()
    ensures StringToNumber("1.2M") == Some(1200000.0)
  {
    CleanedMillions();
    NumeralOnePointTwo();
    SuffixScaling("1.2M", Millions);
  }

  lemma CleanedMillions()
    ensures Clean("1.2M") == "1.2M"
    ensures SuffixPart("1.2M", Millions) == Some("1.2")
  {
    assert "1.2M"[..3] == "1.2";
  }

  lemma NumeralOnePointTwo()
    ensures NumeralValue("1.2").Finite?
    ensures ScaledCount("1.2", Millions) == 1200000
  {
    DecimalOnePointTwo();
    assert DigitsValue(DigitsOnly("1.2")) == 12 by {
      assert DigitsOnly("1.2") == "12";
    }
    assert RoundedQuotient(12000000, 10) == 1200000;
  }

  lemma DecimalOnePointTwo()
    ensures RemoveCommas("1.2") == "1.2"
    ensures ParseDecimal("1.2").Finite?
    ensures Pow10(FractionDigits("1.2")) == 10
  {
    assert DotIndex("1.2") == 1;
  }

  /** "1.2.3K" is NaN before the K, so the digits rule reads 123. */
  lemma ExampleMalformed()
    ensures StringToNumber("1.2.3K") == Some(123.0)
  {
    MalformedParts();
    MalformedNumeral();
    DigitsFallback("1.2.3K");
    MalformedDigits();
  }

  lemma MalformedParts()
    ensures Clean("1.2.3K") == "1.2.3K"
    ensures SuffixPart("1.2.3K", Thousands) == Some("1.2.3")
    ensures SuffixPart("1.2.3K", Millions) == None
  {
    assert "1.2.3K"[..5] == "1.2.3";
  }

  lemma MalformedNumeral()
    ensures NumeralValue("1.2.3") == NaN
  {
    assert RemoveCommas("1.2.3") == "1.2.3";
    assert DotIndex("1.2.3") == 1;
    assert "1.2.3"[2..] == "2.3";
  }

  lemma MalformedDigits()
    ensures DigitsOnly("1.2.3K") == "123"
    ensures DigitsValue("123") == 123
  {}

  lemma ExampleSeparators()
    ensures StringToNumber("3,400") == Some(3400.0)
  {
    assert Clean("3,400") == "3,400";
    DigitsFallback("3,400");
    assert DigitsOnly("3,400") == "3400";
    assert DigitsValue("3400") == 3400;
  }

  lemma ExampleZero()
    ensures StringToNumber("0") == Some(0.0)
  {
    assert Clean("0") == "0";
    DigitsFallback("0");
    assert DigitsOnly("0") == "0";
  }

  lemma ExampleWords()
    ensures StringToNumber("abc") == None
  {
    assert Clean("abc") == "";
  }

  /** ",M" has no digit yet gives 0. */
  lemma ExampleCommasOnly()
    ensures StringToNumber(",M") == Some(0.0)
  {
    assert Clean(",M") == ",M";
    assert ",M"[..1] == ",";
    assert SuffixPart(",M", Millions) == Some(",");
    assert RemoveCommas(",") == "";
  }
}

/**
 * The text steps both `toNumberIfLooksLike` functions share: keeping only
 * the characters a written count is made of, splitting off a final K or M,
 * dropping thousands separators before `Number(...)`, and the digits-only
 * fallback.
 */
module CountText {
  import opened Optional
  import opened JsText
  import opened JsNumber

  /** `[\d.,kKmM]`: the characters the clean-up replacement keeps. */
  predicate IsCountChar(c: char) {
    IsDigit(c) || c == '.' || c == ',' || c == 'k' || c == 'K' || c == 'm' || c == 'M'
  }

  /** `[\d,.]`: a character of the numeral in front of a suffix. */
  predicate IsNumeralChar(c: char) {
    IsDigit(c) || c == '.' || c == ','
  }

  predicate AllNumeral(s: string) {
    forall i :: 0 <= i < |s| ==> IsNumeralChar(s[i])
  }

  /** `s.replace(/[^\d.,kKmM]/g, "")`. */
  function Clean(s: string): (r: string)
    ensures forall i :: 0 <= i < |r| ==> IsCountChar(r[i])
  {
    if s == [] then [] else (if IsCountChar(s[0]) then [s[0]] else []) + Clean(s[1..])
  }

  /** The clean-up keeps every digit, in order. */
  lemma {:induction false} DigitsOnlyClean(s: string)
    ensures DigitsOnly(Clean(s)) == DigitsOnly(s)
  {
    if s != [] {
      DigitsOnlyClean(s[1..]);
      var head := if IsCountChar(s[0]) then [s[0]] else [];
      DigitsOnlyAppend(head, Clean(s[1..]));
      assert DigitsOnly(head) == (if IsDigit(s[0]) then [s[0]] else []);
    }
  }

  /**
   * Cleaned text has no white space, so the `.trim()` applied after the
   * clean-up changes nothing, and the `\s*` between numeral and suffix
   * always matches the empty string.
   */
  lemma CleanIsTrimmed(s: string)
    ensures Trim(Clean(s)) == Clean(s)
  {
    var c := Clean(s);
    assert forall i :: 0 <= i < |c| ==> !IsJsSpace(c[i]) by {
      forall i | 0 <= i < |c| ensures !IsJsSpace(c[i]) {
        assert IsCountChar(c[i]);
      }
    }
    TrimWithoutSpaces(c);
  }

  /** `p.replace(/,/g, "")`. */
  function RemoveCommas(p: string): (r: string)
    ensures AllNumeral(p) ==> DigitsAndDots(r)
  {
    if p == [] then [] else (if p[0] == ',' then [] else [p[0]]) + RemoveCommas(p[1..])
  }

  lemma {:induction false} DigitsOnlyRemoveCommas(p: string)
    ensures DigitsOnly(RemoveCommas(p)) == DigitsOnly(p)
  {
    if p != [] {
      DigitsOnlyRemoveCommas(p[1..]);
      var head := if p[0] == ',' then [] else [p[0]];
      DigitsOnlyAppend(head, RemoveCommas(p[1..]));
      assert DigitsOnly(head) == (if IsDigit(p[0]) then [p[0]] else []);
    }
  }

  /** The two suffixes a written count may carry. */
  datatype Suffix = Thousands | Millions

  predicate IsSuffixLetter(u: Suffix, ch: char) {
    match u
    case Thousands => ch == 'k' || ch == 'K'
    case Millions => ch == 'm' || ch == 'M'
  }

  function Multiplier(u: Suffix): nat {
    match u
    case Thousands => 1000
    case Millions => 1000000
  }

  /** `x * 1_000` or `x * 1_000_000`. */
  function Scale(u: Suffix, x: real): real {
    match u
    case Thousands => x * 1000.0
    case Millions => x * 1000000.0
  }

  /**
   * The numeral captured by `^([\d,.]+)\s*[kK]$` (or `[mM]`) on cleaned
   * text.
   */
  function SuffixPart(c: string, u: Suffix): (r: Option<string>)
    ensures r.Some? <==> |c| >= 2 && IsSuffixLetter(u, c[|c| - 1]) && AllNumeral(c[..|c| - 1])
    ensures r.Some? ==> r.value == c[..|c| - 1]
  {
    if |c| >= 2 && IsSuffixLetter(u, c[|c| - 1]) && AllNumeral(c[..|c| - 1])
    then Some(c[..|c| - 1]) else None
  }

  /** `Number(p.replace(/,/g, ""))` for the numeral in front of a suffix. */
  function NumeralValue(p: string): JsNum
    requires AllNumeral(p)
  {
    ParseDecimal(RemoveCommas(p))
  }

  /** A suffix letter is not a digit, so a numeral has the digits of the whole cleaned text. */
  lemma SuffixDigits(c: string, u: Suffix)
    requires SuffixPart(c, u).Some?
    ensures DigitsOnly(c) == DigitsOnly(SuffixPart(c, u).value)
  {
    var p := c[..|c| - 1];
    assert c == p + [c[|c| - 1]];
    DigitsOnlyAppend(p, [c[|c| - 1]]);
  }

  /**
   * The numeral's value is its digits read as one integer and scaled down
   * by one power of ten per digit after the dot: thousands separators do
   * not count, "1,250.5" is 12505 / 10.
   */
  lemma NumeralIsScaledDigits(p: string, x: real)
    requires AllNumeral(p) && NumeralValue(p) == Finite(x)
    ensures x == DigitsValue(DigitsOnly(p)) as real / Pow10(FractionDigits(RemoveCommas(p))) as real
  {
    ParseDecimalIsScaledDigits(RemoveCommas(p), x);
    DigitsOnlyRemoveCommas(p);
  }

  /** The numeral is made of commas only; `Number("")` then makes it 0. */
  predicate OnlyCommas(p: string) {
    forall i :: 0 <= i < |p| ==> p[i] == ','
  }

  lemma {:induction false} RemoveOnlyCommas(p: string)
    requires OnlyCommas(p)
    ensures RemoveCommas(p) == ""
  {
    if p != [] {
      RemoveOnlyCommas(p[1..]);
    }
  }

  /**
   * A numeral without digits is 0 when it is all commas and NaN otherwise
   * (what remains is one or more dots).
   */
  lemma {:induction false} DigitlessNumeral(p: string)
    requires AllNumeral(p) && p != [] && DigitsOnly(p) == []
    ensures NumeralValue(p) == if OnlyCommas(p) then Finite(0.0) else NaN
  {
    DigitsOnlyRemoveCommas(p);
    var t := RemoveCommas(p);
    if OnlyCommas(p) {
      RemoveOnlyCommas(p);
    } else {
      var j :| 0 <= j < |p| && p[j] != ',';
      DotSurvives(p, j);
      DigitlessDecimal(t);
    }
  }

  /** A non-comma character of a digit-free numeral survives comma removal. */
  lemma {:induction false} DotSurvives(p: string, j: nat)
    requires j < |p| && p[j] != ','
    ensures RemoveCommas(p) != ""
  {
    if j > 0 {
      DotSurvives(p[1..], j - 1);
      assert RemoveCommas(p) == (if p[0] == ',' then [] else [p[0]]) + RemoveCommas(p[1..]);
    }
  }

  /** Dots alone are NaN for `Number`. */
  lemma DigitlessDecimal(t: string)
    requires DigitsAndDots(t) && t != "" && DigitsOnly(t) == []
    ensures ParseDecimal(t) == NaN
  {
    NoDigitsLeft(t);
    assert t[0] == '.';
    if t != "." {
      assert t[1..][0] == '.';
    }
  }

  lemma {:induction false} NoDigitsLeft(t: string)
    requires DigitsOnly(t) == []
    ensures forall i :: 0 <= i < |t| ==> !IsDigit(t[i])
  {
    if t != [] {
      var head := if IsDigit(t[0]) then [t[0]] else [];
      assert DigitsOnly(t) == head + DigitsOnly(t[1..]);
      NoDigitsLeft(t[1..]);
      assert forall i :: 1 <= i < |t| ==> t[i] == t[1..][i - 1];
    }
  }
}

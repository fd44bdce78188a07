/**
 * JavaScript numbers as the extractors see them: exact decimals (binary
 * floating point is not modelled), `Number(...)` of a string made of digits
 * and dots, and `Math.round`.
 */
module JsNumber {
  import opened JsText

  /** A JavaScript number value. */
  datatype JsNum = Finite(x: real) | NaN | Infinite(negative: bool)

  /** A real that is a non-negative whole number: what a follower count looks like. */
  predicate IsCount(x: real) {
    x >= 0.0 && x == x.Floor as real
  }

  function Pow10(n: nat): (r: nat)
    ensures r >= 1
  {
    if n == 0 then 1 else 10 * Pow10(n - 1)
  }

  lemma {:induction false} Pow10Add(m: nat, n: nat)
    ensures Pow10(m + n) == Pow10(m) * Pow10(n)
  {
    if m > 0 {
      Pow10Add(m - 1, n);
      assert Pow10(m + n) == 10 * Pow10(m - 1 + n);
    }
  }

  function DigitValue(c: char): (r: nat)
    requires IsDigit(c)
    ensures r <= 9
  {
    c as int - '0' as int
  }

  /** The value of a string of decimal digits, most significant first; 0 for "". */
  function DigitsValue(s: string): nat
    requires AllDigits(s)
  {
    if s == [] then 0 else DigitValue(s[0]) * Pow10(|s| - 1) + DigitsValue(s[1..])
  }

  lemma {:induction false} DigitsValueAppend(a: string, b: string)
    requires AllDigits(a) && AllDigits(b)
    ensures AllDigits(a + b)
    ensures DigitsValue(a + b) == DigitsValue(a) * Pow10(|b|) + DigitsValue(b)
  {
    assert AllDigits(a + b) by {
      forall i | 0 <= i < |a + b| ensures IsDigit((a + b)[i]) {
        if i < |a| { assert (a + b)[i] == a[i]; } else { assert (a + b)[i] == b[i - |a|]; }
      }
    }
    if a == [] {
      assert a + b == b;
    } else {
      var ab := a + b;
      assert ab[0] == a[0] && ab[1..] == a[1..] + b;
      DigitsValueAppend(a[1..], b);
      Pow10Add(|a| - 1, |b|);
      var d, p, q := DigitValue(a[0]), Pow10(|a| - 1), Pow10(|b|);
      assert DigitsValue(ab) == d * Pow10(|a| - 1 + |b|) + DigitsValue(a[1..] + b);
      assert Pow10(|a| - 1 + |b|) == p * q;
      MulAssociates(d, p, q);
      MulDistributes(d * p, DigitsValue(a[1..]), q);
    }
  }

  /** The decimal digit for a value below 10. */
  function DigitChar(d: nat): (c: char)
    requires d <= 9
    ensures IsDigit(c) && DigitValue(c) == d
  {
    ('0' as int + d) as char
  }

  /** `String(n)` for a non-negative integer: its decimal digits, without leading zeros. */
  function NatToString(n: nat): (r: string)
    ensures AllDigits(r) && r != []
  {
    if n < 10 then [DigitChar(n)] else NatToString(n / 10) + [DigitChar(n % 10)]
  }

  /** Reading back the digits of `String(n)` gives `n`. */
  lemma {:induction false} NatToStringValue(n: nat)
    ensures DigitsValue(NatToString(n)) == n
    ensures n >= 10 ==> NatToString(n)[0] != '0'
  {
    if n >= 10 {
      NatToStringValue(n / 10);
      DigitsValueAppend(NatToString(n / 10), [DigitChar(n % 10)]);
      assert DigitsValue([DigitChar(n % 10)]) == n % 10;
      assert (NatToString(n / 10) + [DigitChar(n % 10)])[0] == NatToString(n / 10)[0];
    }
  }

  lemma {:induction false} MulAssociates(a: int, b: int, c: int)
    ensures a * (b * c) == (a * b) * c
  {}

  lemma {:induction false} MulDistributes(a: int, b: int, c: int)
    ensures (a + b) * c == a * c + b * c
  {}

  predicate DigitsAndDots(t: string) {
    forall i :: 0 <= i < |t| ==> IsDigit(t[i]) || t[i] == '.'
  }

  /** Index of the first '.' in `t`, or `|t|` when there is none. */
  function DotIndex(t: string): (i: nat)
    ensures i <= |t|
    ensures i < |t| ==> t[i] == '.'
    ensures forall j :: 0 <= j < i ==> t[j] != '.'
  {
    if t == [] then 0 else if t[0] == '.' then 0 else 1 + DotIndex(t[1..])
  }

  /**
   * `Number(t)` for a string of digits and dots: the empty string is 0, an
   * integer part and an optional fraction part (either may be empty, not
   * both) give their decimal value, and anything else (a lone ".", a second
   * ".") is NaN.
   */
  function ParseDecimal(t: string): (r: JsNum)
    requires DigitsAndDots(t)
    ensures !r.Infinite?
    ensures r.Finite? ==> r.x >= 0.0
  {
    var i := DotIndex(t);
    assert AllDigits(t[..i]);
    if t == "" then Finite(0.0)
    else if t == "." || (i < |t| && !AllDigits(t[i + 1..])) then NaN
    else
      var frac := if i < |t| then t[i + 1..] else "";
      Finite(DigitsValue(t[..i] + frac) as real / Pow10(|frac|) as real)
  }

  /** The number of digits after the dot of `t` (0 when it has no dot). */
  function FractionDigits(t: string): nat {
    var i := DotIndex(t);
    if i < |t| then |t| - i - 1 else 0
  }

  /**
   * What `Number` reads is the digits of `t` as one integer, scaled down by
   * one power of ten per fraction digit: "12.5" is 125 / 10.
   */
  lemma {:induction false} ParseDecimalIsScaledDigits(t: string, x: real)
    requires DigitsAndDots(t) && ParseDecimal(t) == Finite(x)
    ensures x == DigitsValue(DigitsOnly(t)) as real / Pow10(FractionDigits(t)) as real
  {
    var i := DotIndex(t);
    var intPart, frac := t[..i], if i < |t| then t[i + 1..] else "";
    DigitsOnlyOfParts(t, i, intPart, frac);
  }

  lemma {:induction false} DigitsOnlyOfParts(t: string, i: nat, intPart: string, frac: string)
    requires i <= |t| && intPart == t[..i] && AllDigits(intPart) && AllDigits(frac)
    requires i < |t| ==> t[i] == '.' && frac == t[i + 1..]
    requires i == |t| ==> frac == ""
    ensures DigitsOnly(t) == intPart + frac
  {
    DigitsOnlyOfDigits(intPart);
    DigitsOnlyOfDigits(frac);
    if i < |t| {
      assert t == intPart + ([t[i]] + frac);
      DigitsOnlyAppend(intPart, [t[i]] + frac);
      DigitsOnlyAppend([t[i]], frac);
      assert DigitsOnly([t[i]]) == [];
    } else {
      assert t == intPart + frac;
      DigitsOnlyAppend(intPart, frac);
    }
  }

  /** `Math.round`: the nearest integer, halves rounded up. */
  function MathRound(x: real): (r: int)
    ensures x - 0.5 < r as real <= x + 0.5
  {
    (x + 0.5).Floor
  }
}

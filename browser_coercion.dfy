/**
 * `toNumberIfLooksLike` of the browser-backed extractor. It tests for a
 * falsy argument before anything else, so a numeric 0 is `null`, and its
 * suffix rules have no NaN guard, so a malformed numeral before a K or an
 * M gives NaN instead of falling back to the digits.
 */
module BrowserCoercion {
  import opened Optional
  import opened JsText
  import opened JsNumber
  import opened JsonHeap
  import opened CountText
  import Api = ApiCoercion

  /** JavaScript truthiness of the argument. */
  predicate Truthy(v: Value) {
    match v
    case Null => false
    case Bool(b) => b
    case Num(n) => !(n == Finite(0.0) || n == NaN)
    case Str(s) => s != ""
    case Ref(_) => true
  }

  /**
   * The function on any argument. `String(true)` is "true", which has no
   * digit; a container argument does not occur (the caller passes a regex
   * capture) and is `null` here.
   */
  function ToNumber(v: Value): Option<JsNum> {
    if !Truthy(v) then None
    else
      match v
      case Num(n) => if n.Finite? then Some(n) else None
      case Str(s) => StringToNumber(s)
      case Bool(_) => StringToNumber("true")
      case _ => None
  }

  /** The string case; `None` is `null`, `Some(NaN)` is `Math.round(NaN)`. */
  function StringToNumber(s: string): Option<JsNum> {
    if s == "" then None else FromCleaned(Clean(s))
  }

  /** The rules on the cleaned text, in the order they are tried. */
  function FromCleaned(c: string): Option<JsNum> {
    if c == "" then None
    else if SuffixPart(c, Millions).Some? then Some(ScaleRound(Millions, NumeralValue(SuffixPart(c, Millions).value)))
    else if SuffixPart(c, Thousands).Some? then Some(ScaleRound(Thousands, NumeralValue(SuffixPart(c, Thousands).value)))
    else
      var digits := DigitsOnly(c);
      if digits != "" then Some(Finite(DigitsValue(digits) as real)) else None
  }

  /** A count of the lightweight variant as a JavaScript number. */
  function Lift(r: Option<real>): Option<JsNum> {
    match r
    case Some(x) => Some(Finite(x))
    case None => None
  }

  /** `Math.round(n * 1_000)` or `Math.round(n * 1_000_000)`; NaN stays NaN. */
  function ScaleRound(u: Suffix, n: JsNum): JsNum {
    match n
    case Finite(x) => Finite(MathRound(Scale(u, x)) as real)
    case _ => n
  }

  /** Every falsy argument is `null`: `null`, `false`, 0, NaN and "". */
  lemma FalsyIsNull(v: Value)
    ensures !Truthy(v) ==> ToNumber(v) == None
    ensures v == Num(Finite(0.0)) ==> ToNumber(v) == None
  {}

  /** The two variants part ways on a numeric 0. */
  lemma ZeroDiffersFromApi()
    ensures ToNumber(Num(Finite(0.0))) == None
    ensures Api.ToNumber(Num(Finite(0.0))) == Some(0.0)
  {}

  /** A non-zero finite number passes through unchanged. */
  lemma NumbersPassThrough(n: JsNum, x: real)
    ensures ToNumber(Num(n)) == Some(Finite(x)) <==> n == Finite(x) && x != 0.0
  {}

  /**
   * A suffix whose numeral `Number` reads as NaN gives NaN, where the
   * lightweight variant falls back to the digits: "1.2.3K" is NaN here.
   */
  lemma MalformedIsNaN(s: string, u: Suffix)
    requires SuffixPart(Clean(s), u).Some? && NumeralValue(SuffixPart(Clean(s), u).value) == NaN
    ensures StringToNumber(s) == Some(NaN)
  {
    if u == Thousands {
      assert SuffixPart(Clean(s), Millions).None?;
    }
  }

  /** NaN arises from a NaN numeral under a suffix, and from nothing else. */
  lemma NaNOnlyFromSuffix(s: string)
    ensures StringToNumber(s) == Some(NaN) <==>
      exists u: Suffix :: SuffixPart(Clean(s), u).Some? && NumeralValue(SuffixPart(Clean(s), u).value) == NaN
  {
    var c := Clean(s);
    if StringToNumber(s) == Some(NaN) {
      if SuffixPart(c, Millions).Some? {
        assert NumeralValue(SuffixPart(c, Millions).value) == NaN;
      } else {
        assert NumeralValue(SuffixPart(c, Thousands).value) == NaN;
      }
    }
    if exists u: Suffix :: SuffixPart(c, u).Some? && NumeralValue(SuffixPart(c, u).value) == NaN {
      var u :| SuffixPart(c, u).Some? && NumeralValue(SuffixPart(c, u).value) == NaN;
      MalformedIsNaN(s, u);
    }
  }

  /** Where a suffix applies and its numeral is a number, both variants compute the same product. */
  lemma SameSuffixRule(c: string, u: Suffix)
    requires SuffixPart(c, u).Some?
    ensures var n := ScaleRound(u, NumeralValue(SuffixPart(c, u).value));
      Api.SuffixRule(c, u) == if n.Finite? then Some(n.x) else None
  {}

  /** Apart from NaN, the two variants read every string alike. */
  lemma AgreesWithApiOnStrings(s: string)
    requires StringToNumber(s) != Some(NaN)
    ensures StringToNumber(s) == Lift(Api.StringToNumber(s))
  {
    if s != "" {
      AgreeOnCleaned(Clean(s));
    }
  }

  lemma AgreeOnCleaned(c: string)
    requires FromCleaned(c) != Some(NaN)
    ensures FromCleaned(c) == Lift(Api.FromCleaned(c))
  {
    if c != "" {
      if SuffixPart(c, Millions).Some? {
        SameSuffixRule(c, Millions);
      } else if SuffixPart(c, Thousands).Some? {
        assert Api.SuffixRule(c, Millions).None?;
        SameSuffixRule(c, Thousands);
      } else {
        assert Api.SuffixRule(c, Millions).None? && Api.SuffixRule(c, Thousands).None?;
      }
    }
  }

  /** Any finite result from a string is a count. */
  lemma StringResultIsCount(s: string, x: real)
    requires StringToNumber(s) == Some(Finite(x))
    ensures IsCount(x)
  {
    AgreesWithApiOnStrings(s);
    Api.StringResultIsCount(s, x);
  }
}

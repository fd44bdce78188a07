/**
 * The three locator strategies of the lightweight extractor and the order
 * the handler tries them in. The regexes that find the `SIGI_STATE`
 * script, the `window['SIGI_STATE']` assignment and the `og:description`
 * meta tag in the HTML are a `Locator` given to the model, and
 * `JSON.parse` is a `Parser` (`None` where it throws).
 */
module ApiStrategies {
  import opened Optional
  import opened JsText
  import opened JsNumber
  import opened JsonHeap
  import opened TextPatterns
  import opened ApiDeepSearch
  import Coercion = ApiCoercion

  /** The capture groups of the three locating regexes, where they match. */
  datatype Located = Located(sigiScript: Option<string>, sigiWindow: Option<string>, ogContent: Option<string>)

  type Locator = string -> Located

  type Parser = string -> Option<Parsed>

  /** The strategy that found the count (`sourceDetected`). */
  datatype Source = SigiState | OgDescription | Regex

  /** A non-empty capture (`match && match[1]`). */
  predicate Captured(c: Option<string>) {
    c.Some? && c.value != ""
  }

  /** Parse, then search; a parse error is caught and gives `null`. */
  function FromJsonText(parse: Parser, text: string): Option<real> {
    match parse(text)
    case None => None
    case Some(p) => FindFollower(p)
  }

  /** `tryExtractFromSigI`: the script block (trimmed) first, then the window assignment (as captured). */
  function TryExtractFromSigI(parse: Parser, loc: Located): Option<real> {
    var fromScript := if Captured(loc.sigiScript) then FromJsonText(parse, Trim(loc.sigiScript.value)) else None;
    if fromScript.Some? then fromScript
    else if Captured(loc.sigiWindow) then FromJsonText(parse, loc.sigiWindow.value)
    else None
  }

  /**
   * The script block wins when it yields a count; otherwise, whether it
   * was missing, failed to parse or held no count, the window assignment
   * decides.
   */
  lemma SigIOrder(parse: Parser, loc: Located)
    ensures Captured(loc.sigiScript) && FromJsonText(parse, Trim(loc.sigiScript.value)).Some? ==>
      TryExtractFromSigI(parse, loc) == FromJsonText(parse, Trim(loc.sigiScript.value))
    ensures !(Captured(loc.sigiScript) && FromJsonText(parse, Trim(loc.sigiScript.value)).Some?) ==>
      TryExtractFromSigI(parse, loc) == if Captured(loc.sigiWindow) then FromJsonText(parse, loc.sigiWindow.value) else None
    ensures Captured(loc.sigiScript) && parse(Trim(loc.sigiScript.value)).None? && !Captured(loc.sigiWindow) ==>
      TryExtractFromSigI(parse, loc) == None
  {}

  /**
   * `([\d.,]+(?:\s*[kKmM])?)[^\d]*followers?` at the start of `s`: a run
   * of digits, dots and commas, with the suffix letter when one follows
   * (after white space), and "follower" before the next digit.
   */
  function OgNumberAt(s: string): (r: Option<string>)
    ensures r.Some? ==> r.value != []
  {
    var n := RunLength(s);
    if n == 0 then None else OgAfterRun(s[..n], s[n..])
  }

  /** The description pattern once the greedy run `run` is taken; `rest` is what follows it. */
  function OgAfterRun(run: string, rest: string): (r: Option<string>)
    ensures r.Some? ==> |r.value| >= |run|
  {
    var sp := SpaceLength(rest);
    var after := rest[sp..];
    if after != [] && IsScaleLetter(after[0]) && FollowerBeforeDigit(after[1..]) then Some(run + rest[..sp] + [after[0]])
    else if FollowerBeforeDigit(rest) then Some(run)
    else None
  }

  /** `tryExtractFromMetaOgDescription`: the first count before "follower" in the description, coerced. */
  function TryExtractFromMetaOg(loc: Located): Option<real> {
    if Captured(loc.ogContent) then
      var m := Leftmost(OgNumberAt, loc.ogContent.value);
      if m.Some? then Coercion.ToNumber(Str(m.value)) else None
    else None
  }

  /**
   * `([\d.,]+(?:\s*[kKmM])?)\s*followers?` at the start of `s`: like the
   * description pattern, but only white space may separate the count
   * from "follower".
   */
  function HumanAt(s: string): (r: Option<string>)
    ensures r.Some? ==> r.value != []
  {
    var n := RunLength(s);
    if n == 0 then None else HumanAfterRun(s[..n], s[n..])
  }

  /** The human-readable pattern once the greedy run `run` is taken; `rest` is what follows it. */
  function HumanAfterRun(run: string, rest: string): (r: Option<string>)
    ensures r.Some? ==> |r.value| >= |run|
  {
    var sp := SpaceLength(rest);
    var after := rest[sp..];
    if after != [] && IsScaleLetter(after[0]) && StartsWithFollower(SkipSpaces(after[1..])) then Some(run + rest[..sp] + [after[0]])
    else if StartsWithFollower(after) then Some(run)
    else None
  }

  /** A count the human-readable pattern accepts is also accepted before "follower" in a description. */
  lemma HumanIsOgNumber(s: string)
    requires HumanAt(s).Some?
    ensures OgNumberAt(s).Some?
  {
    var n := RunLength(s);
    var rest := s[n..];
    var sp := SpaceLength(rest);
    var after := rest[sp..];
    if after != [] && IsScaleLetter(after[0]) && StartsWithFollower(SkipSpaces(after[1..])) {
      SpacesThenFollower(after[1..]);
    } else {
      assert SkipSpaces(rest) == after;
      SpacesThenFollower(rest);
    }
  }

  lemma {:induction false} SpacesThenFollower(t: string)
    requires StartsWithFollower(SkipSpaces(t))
    ensures FollowerBeforeDigit(t)
  {
    if SpaceLength(t) > 0 {
      assert t[1..][SpaceLength(t[1..])..] == t[SpaceLength(t)..];
      SpacesThenFollower(t[1..]);
    } else {
      assert SkipSpaces(t) == t;
    }
  }

  /** A numeral, white space and "follower": the capture is the numeral alone. */
  lemma HumanAtPlain(run: string, spaces: string, t: string)
    requires run != [] && forall i :: 0 <= i < |run| ==> IsRunChar(run[i])
    requires AllSpaces(spaces) && StartsWithFollower(t)
    ensures HumanAt(run + spaces + t) == Some(run)
  {
    var s := run + (spaces + t);
    assert s == run + spaces + t;
    FollowerInitial(t);
    assert (spaces + t)[0] == if spaces == [] then t[0] else spaces[0];
    RunLengthOf(run, spaces + t);
    assert s[..|run|] == run && s[|run|..] == spaces + t;
    SpaceLengthOf(spaces, t);
    assert (spaces + t)[|spaces|..] == t;
  }

  /** A numeral, a suffix letter and then "follower" after white space: the letter joins the capture. */
  lemma HumanAtSuffix(run: string, spaces: string, letter: char, t: string)
    requires run != [] && forall i :: 0 <= i < |run| ==> IsRunChar(run[i])
    requires AllSpaces(spaces) && IsScaleLetter(letter) && StartsWithFollower(SkipSpaces(t))
    ensures HumanAt(run + spaces + [letter] + t) == Some(run + spaces + [letter])
  {
    var after := [letter] + t;
    var rest := spaces + after;
    var s := run + rest;
    assert s == run + spaces + [letter] + t;
    assert rest[0] == if spaces == [] then letter else spaces[0];
    RunLengthOf(run, rest);
    assert s[..|run|] == run && s[|run|..] == rest;
    HumanAfterSuffix(run, spaces, letter, t);
  }

  lemma HumanAfterSuffix(run: string, spaces: string, letter: char, t: string)
    requires AllSpaces(spaces) && IsScaleLetter(letter) && StartsWithFollower(SkipSpaces(t))
    ensures HumanAfterRun(run, spaces + ([letter] + t)) == Some(run + spaces + [letter])
  {
    var after := [letter] + t;
    var rest := spaces + after;
    SpaceLengthOf(spaces, after);
    assert rest[|spaces|..] == after && rest[..|spaces|] == spaces;
    assert after[0] == letter && after[1..] == t;
  }

  /** Non-digits before a text in which "follower" comes before any digit keep it so. */
  lemma {:induction false} NonDigitsThenFollower(t: string, m: nat)
    requires m <= |t| && (forall i :: 0 <= i < m ==> !IsDigit(t[i])) && FollowerBeforeDigit(t[m..])
    ensures FollowerBeforeDigit(t)
    decreases m
  {
    if m > 0 {
      assert t[1..][m - 1..] == t[m..];
      NonDigitsThenFollower(t[1..], m - 1);
    } else {
      assert t[0..] == t;
    }
  }

  /**
   * The description pattern matches at the start of `s` exactly when `s`
   * starts with a numeral and "follower" comes after it before any digit;
   * the optional suffix letter never decides whether there is a match.
   */
  lemma OgNumberAtMeans(s: string)
    ensures OgNumberAt(s).Some? <==> RunLength(s) > 0 && FollowerBeforeDigit(s[RunLength(s)..])
  {
    var n := RunLength(s);
    if n > 0 {
      OgAfterRunMeans(s[..n], s[n..]);
    }
  }

  lemma OgAfterRunMeans(run: string, rest: string)
    ensures OgAfterRun(run, rest).Some? <==> FollowerBeforeDigit(rest)
  {
    var sp := SpaceLength(rest);
    var after := rest[sp..];
    if after != [] && IsScaleLetter(after[0]) && FollowerBeforeDigit(after[1..]) {
      assert rest[sp + 1..] == after[1..];
      forall i | 0 <= i < sp + 1
        ensures !IsDigit(rest[i])
      {
        if i < sp {
          SpaceIsNoDigit(rest[i]);
        }
      }
      NonDigitsThenFollower(rest, sp + 1);
    }
  }

  lemma SpaceIsNoDigit(c: char)
    requires IsJsSpace(c)
    ensures !IsDigit(c)
  {
  }

  /** A numeral with no suffix letter after it, then "follower" before any digit: the capture is the numeral alone. */
  lemma OgAtPlain(run: string, t: string)
    requires run != [] && forall i :: 0 <= i < |run| ==> IsRunChar(run[i])
    requires t == [] || !IsRunChar(t[0])
    requires SkipSpaces(t) == [] || !IsScaleLetter(SkipSpaces(t)[0])
    requires FollowerBeforeDigit(t)
    ensures OgNumberAt(run + t) == Some(run)
  {
    var s := run + t;
    RunLengthOf(run, t);
    assert s[..|run|] == run && s[|run|..] == t;
  }

  /** A numeral, a suffix letter (after white space), then "follower" before any digit: the letter joins the capture. */
  lemma OgAtSuffix(run: string, spaces: string, letter: char, t: string)
    requires run != [] && forall i :: 0 <= i < |run| ==> IsRunChar(run[i])
    requires AllSpaces(spaces) && IsScaleLetter(letter) && FollowerBeforeDigit(t)
    ensures OgNumberAt(run + spaces + [letter] + t) == Some(run + spaces + [letter])
  {
    var after := [letter] + t;
    var rest := spaces + after;
    var s := run + rest;
    assert s == run + spaces + [letter] + t;
    assert rest[0] == if spaces == [] then letter else spaces[0];
    RunLengthOf(run, rest);
    assert s[..|run|] == run && s[|run|..] == rest;
    OgAfterSuffix(run, spaces, letter, t);
  }

  lemma OgAfterSuffix(run: string, spaces: string, letter: char, t: string)
    requires AllSpaces(spaces) && IsScaleLetter(letter) && FollowerBeforeDigit(t)
    ensures OgAfterRun(run, spaces + ([letter] + t)) == Some(run + spaces + [letter])
  {
    var after := [letter] + t;
    var rest := spaces + after;
    SpaceLengthOf(spaces, after);
    assert rest[|spaces|..] == after && rest[..|spaces|] == spaces;
    assert after[0] == letter && after[1..] == t;
  }

  lemma FollowersOnTikTok(t: string)
    requires t == " Followers on TikTok"
    ensures FollowerBeforeDigit(t)
  {
    FollowersWord(t[1..]);
    NonDigitsThenFollower(t, 1);
  }

  lemma FollowersWord(t: string)
    requires t == "Followers on TikTok"
    ensures StartsWithFollower(t)
  {
    var lit := "follower";
    StartsWithCISelf(lit[1..]);
    assert t[1..] == lit[1..] + "s on TikTok";
    StartsWithCIAppend(lit[1..], "s on TikTok", lit[1..]);
    assert LowerChar(t[0]) == LowerChar(lit[0]);
  }

  lemma OgOnePointTwo(txt: string, run: string, tail: string)
    requires run == "1.2" && tail == " Followers on TikTok" && txt == run + "" + ['M'] + tail
    ensures OgNumberAt(txt) == Some(run + "" + ['M'])
  {
    assert run[0] == '1' && run[1] == '.' && run[2] == '2';
    FollowersOnTikTok(tail);
    OgAtSuffix(run, "", 'M', tail);
  }

  lemma OgExampleSplit()
    ensures "1.2M Followers on TikTok" == "1.2" + "" + ['M'] + " Followers on TikTok"
    ensures "1.2" + "" + ['M'] == "1.2M"
  {
  }

  lemma OgExampleCapture(txt: string)
    requires txt == "1.2M Followers on TikTok"
    ensures Leftmost(OgNumberAt, txt) == Some("1.2M")
  {
    OgExampleSplit();
    OgOnePointTwo(txt, "1.2", " Followers on TikTok");
  }

  lemma MillionsText(c: string)
    requires c == "1.2M"
    ensures Coercion.ToNumber(Str(c)) == Some(1200000.0)
  {
    Coercion.ExampleMillions();
  }

  /** A description "1.2M Followers on TikTok" gives 1200000. */
  lemma ExampleOgDescription(loc: Located)
    requires loc.ogContent == Some("1.2M Followers on TikTok")
    ensures TryExtractFromMetaOg(loc) == Some(1200000.0)
  {
    var txt := loc.ogContent.value;
    OgExampleCapture(txt);
    var m := Leftmost(OgNumberAt, txt);
    MillionsText(m.value);
  }

  /** The quoted keys of the four raw patterns `/"<key>"\s*:\s*([0-9]{2,})/i`, in the order they are tried. */
  const KeyPatterns: seq<string> := ["\"followerCount\"", "\"follower_count\"", "\"fans\"", "\"fan_count\""]

  /** `tryExtractByRegex`: the four key patterns in order, then the "N followers" text. */
  function ByRegex(html: string): Option<real> {
    var key := FirstKeyNumber(html, KeyPatterns, 2);
    if key.Some? then Some(DigitsValue(key.value) as real)
    else
      var human := Leftmost(HumanAt, html);
      if human.Some? then Coercion.ToNumber(Str(human.value)) else None
  }

  /**
   * Key patterns are tried in the fixed order `followerCount`,
   * `follower_count`, `fans`, `fan_count`, each over the whole document:
   * the first that matches anywhere decides, whatever its position.
   */
  lemma ByRegexKeyPriority(html: string, i: nat)
    requires i < |KeyPatterns| && KeyNumber(html, KeyPatterns[i], 2).Some?
    requires forall j :: 0 <= j < i ==> KeyNumber(html, KeyPatterns[j], 2).None?
    ensures ByRegex(html) == Some(DigitsValue(KeyNumber(html, KeyPatterns[i], 2).value) as real)
  {
    FirstKeyNumberMeans(html, KeyPatterns, 2, i);
  }

  /** Only when no key pattern matches is the "N followers" text tried, through the coercion. */
  lemma ByRegexHumanLast(html: string)
    requires forall j :: 0 <= j < |KeyPatterns| ==> KeyNumber(html, KeyPatterns[j], 2).None?
    ensures ByRegex(html) == match Leftmost(HumanAt, html) {
      case Some(text) => Coercion.StringToNumber(text)
      case None => None
    }
  {
    FirstKeyNumberNone(html, KeyPatterns, 2);
  }

  /** The loop over the four patterns with its early return, then the human-readable pattern. */
  method TryExtractByRegex(html: string) returns (r: Option<real>)
    ensures r == ByRegex(html)
  {
    for i := 0 to |KeyPatterns|
      invariant FirstKeyNumber(html, KeyPatterns, 2) == FirstKeyNumber(html, KeyPatterns[i..], 2)
    {
      var m := KeyNumber(html, KeyPatterns[i], 2);
      if m.Some? {
        return Some(DigitsValue(m.value) as real);
      }
      assert KeyPatterns[i..][1..] == KeyPatterns[i + 1..];
    }
    var human := Leftmost(HumanAt, html);
    if human.Some? && human.value != "" {
      return Coercion.ToNumber(Str(human.value));
    }
    return None;
  }

  /** The count found and the strategy that found it. */
  datatype Detected = Detected(followers: Option<real>, source: Option<Source>)

  /** The handler's chain: `SIGI_STATE`, then `og:description`, then the raw patterns; the first count wins. */
  function Extract(parse: Parser, locate: Locator, html: string): Detected {
    var loc := locate(html);
    var sigi := TryExtractFromSigI(parse, loc);
    if sigi.Some? then Detected(sigi, Some(SigiState))
    else
      var og := TryExtractFromMetaOg(loc);
      if og.Some? then Detected(og, Some(OgDescription))
      else
        var rx := ByRegex(html);
        if rx.Some? then Detected(rx, Some(Regex)) else Detected(None, None)
  }

  /**
   * The chain's outcome: no count exactly when every strategy fails; the
   * source is set exactly when there is a count and names the first
   * strategy that succeeded, whose value is the count.
   */
  lemma ExtractOrder(parse: Parser, locate: Locator, html: string)
    ensures var d := Extract(parse, locate, html); var loc := locate(html);
      && (d.followers.None? <==>
           TryExtractFromSigI(parse, loc).None? && TryExtractFromMetaOg(loc).None? && ByRegex(html).None?)
      && (d.source.None? <==> d.followers.None?)
      && (d.source == Some(SigiState) <==> TryExtractFromSigI(parse, loc).Some?)
      && (d.source == Some(SigiState) ==> d.followers == TryExtractFromSigI(parse, loc))
      && (d.source == Some(OgDescription) <==> TryExtractFromSigI(parse, loc).None? && TryExtractFromMetaOg(loc).Some?)
      && (d.source == Some(OgDescription) ==> d.followers == TryExtractFromMetaOg(loc))
      && (d.source == Some(Regex) <==>
           TryExtractFromSigI(parse, loc).None? && TryExtractFromMetaOg(loc).None? && ByRegex(html).Some?)
      && (d.source == Some(Regex) ==> d.followers == ByRegex(html))
  {}

  /** The handler's strategy chain as written: `followers` and `source` reassigned step by step. */
  method DetectFollowers(parse: Parser, locate: Locator, html: string) returns (followers: Option<real>, source: Option<Source>)
    ensures Detected(followers, source) == Extract(parse, locate, html)
  {
    var loc := locate(html);
    followers := TryExtractFromSigI(parse, loc);
    source := None;
    if followers.Some? {
      source := Some(SigiState);
    }
    if followers.None? {
      followers := TryExtractFromMetaOg(loc);
      if followers.Some? {
        source := Some(OgDescription);
      }
    }
    if followers.None? {
      followers := TryExtractByRegex(html);
      if followers.Some? {
        source := Some(Regex);
      }
    }
  }

  lemma ExampleKeyPattern()
    ensures ByRegex("\"followerCount\":42") == Some(42.0)
  {
    var html := "\"followerCount\":42";
    KeyNumberAtCaptures("\"followerCount\"", "42", "", 2);
    assert html == "\"followerCount\"" + ":" + "42" + "";
    assert KeyNumber(html, KeyPatterns[0], 2) == Some("42");
    ByRegexKeyPriority(html, 0);
    FortyTwo();
  }

  lemma FortyTwo()
    ensures DigitsValue("42") == 42
  {
    assert "42"[1..] == "2";
  }

  /** A one-digit value does not satisfy `[0-9]{2,}`. */
  lemma ExampleOneDigit()
    ensures KeyNumberAt("\"fans\":7", "\"fans\"", 2) == None
  {
    KeyNumberAtCaptures("\"fans\"", "7", "", 2);
    assert "\"fans\":7" == "\"fans\"" + ":" + "7" + "";
  }
}

/**
 * The selection and fallback logic of `extractFollowersFromPage` in the
 * browser-backed extractor. The candidate texts (the trimmed `innerText`
 * of the elements that mention "followers"), the page HTML and the
 * `og:description` content are given; the browser that produces them is
 * not modelled.
 *
 * The DOM pattern `([\d.,]+\s*[kKmM]?)` always succeeds on its greedy
 * run, so its capture is the run, the white space after it and a suffix
 * letter when one follows. In the description pattern
 * `([\d.,]+\s*[kKmM]?)[^\d]*followers?` giving characters back never helps:
 * white space, the letter and trailing dots or commas are all non-digits
 * that `[^\d]*` would consume anyway, so every shorter alternative meets the
 * same test as the greedy one.
 */
module BrowserExtractor {
  import opened Optional
  import opened JsText
  import opened TextPatterns

  /** The `source` tag of the result. */
  datatype PageSource = Dom | JsonRegex | Og

  /** `{ n, source }`. */
  datatype Extracted = Extracted(n: Option<string>, source: Option<PageSource>)

  /** The DOM capture once the greedy run `run` is taken: the run, `\s*`, and `[kKmM]?`. */
  function DomCapture(run: string, rest: string): (r: string)
    ensures |run| <= |r| <= |run| + |rest|
  {
    var sp := SpaceLength(rest);
    var after := rest[sp..];
    if after != [] && IsScaleLetter(after[0]) then run + rest[..sp] + [after[0]] else run + rest[..sp]
  }

  /** `([\d.,]+\s*[kKmM]?)` at the start of `s`. */
  function DomAt(s: string): (r: Option<string>)
    ensures r.Some? <==> s != [] && IsRunChar(s[0])
  {
    var n := RunLength(s);
    if n == 0 then None else Some(DomCapture(s[..n], s[n..]))
  }

  /** `[0-9,.kKmM]` */
  predicate IsTailChar(c: char) {
    IsRunChar(c) || IsScaleLetter(c)
  }

  function TailLength(s: string): (n: nat)
    ensures n <= |s|
  {
    if s != [] && IsTailChar(s[0]) then 1 + TailLength(s[1..]) else 0
  }

  /** `([0-9]{2,}[0-9,\.kKmM]*)` at the start of `s`. */
  function SecondAt(s: string): (r: Option<string>)
    ensures r.Some? ==> |s| >= 2 && IsDigit(s[0]) && IsDigit(s[1])
  {
    if |s| >= 2 && IsDigit(s[0]) && IsDigit(s[1]) then Some(s[..2 + TailLength(s[2..])]) else None
  }

  /** The description pattern at the start of `s`: the DOM capture, then "follower" before the next digit. */
  function OgAt(s: string): (r: Option<string>)
    ensures r.Some? ==> DomAt(s).Some?
  {
    var n := RunLength(s);
    if n == 0 then None
    else
      var capture := DomCapture(s[..n], s[n..]);
      if FollowerBeforeDigit(s[|capture|..]) then Some(capture) else None
  }

  /** One candidate: the DOM pattern, then the second pattern; an empty text is skipped. */
  function CandidateMatch(text: string): Option<string> {
    if text == "" then None
    else
      var m := Leftmost(DomAt, text);
      if m.Some? then m else Leftmost(SecondAt, text)
  }

  /** The first candidate that yields a match, with its match. */
  function FirstCandidateMatch(candidates: seq<string>): Option<string> {
    if candidates == [] then None
    else
      var m := CandidateMatch(candidates[0]);
      if m.Some? then m else FirstCandidateMatch(candidates[1..])
  }

  /** `/"followerCount"\s*:\s*([0-9]+)/i` and then the same for `"follower_count"`. */
  const JsonKeys: seq<string> := ["\"followerCount\"", "\"follower_count\""]

  /** The description pattern over the `og:description` content, when there is one. */
  function OgMatch(ogContent: Option<string>): Option<string> {
    if ogContent.Some? && ogContent.value != "" then Leftmost(OgAt, ogContent.value) else None
  }

  /** `extractFollowersFromPage`: candidates, then the JSON keys in the HTML, then the description. */
  function ExtractFromPage(candidates: seq<string>, html: string, ogContent: Option<string>): Extracted {
    var dom := FirstCandidateMatch(candidates);
    if dom.Some? then Extracted(dom, Some(Dom))
    else
      var json := FirstKeyNumber(html, JsonKeys, 1);
      if json.Some? then Extracted(json, Some(JsonRegex))
      else
        var og := OgMatch(ogContent);
        if og.Some? then Extracted(og, Some(Og)) else Extracted(None, None)
  }

  /** The DOM pattern matches a text exactly when some character of it is a digit, a dot or a comma. */
  lemma DomFindsRunChar(t: string)
    ensures Leftmost(DomAt, t).Some? <==> exists i :: 0 <= i < |t| && IsRunChar(t[i])
  {
    LeftmostMeans(DomAt, t);
    if exists i :: 0 <= i < |t| && IsRunChar(t[i]) {
      var i :| 0 <= i < |t| && IsRunChar(t[i]);
      assert DomAt(t[i..]).Some?;
    }
    if Leftmost(DomAt, t).Some? {
      var i :| 0 <= i <= |t| && Leftmost(DomAt, t) == DomAt(t[i..]);
      assert IsRunChar(t[i..][0]);
    }
  }

  /** Whatever the second pattern matches, the first one already matched: the second never decides. */
  lemma SecondNeverFires(t: string)
    requires Leftmost(DomAt, t).None?
    ensures Leftmost(SecondAt, t).None?
  {
    LeftmostMeans(DomAt, t);
    LeftmostMeans(SecondAt, t);
    forall i | 0 <= i <= |t|
      ensures SecondAt(t[i..]).None?
    {
      assert DomAt(t[i..]).None?;
    }
  }

  /** So a candidate yields a match exactly when it contains a digit, a dot or a comma, and the match is the DOM one. */
  lemma CandidateMatchMeans(text: string)
    ensures CandidateMatch(text).Some? <==> exists i :: 0 <= i < |text| && IsRunChar(text[i])
    ensures CandidateMatch(text).Some? ==> CandidateMatch(text) == Leftmost(DomAt, text)
  {
    DomFindsRunChar(text);
    if Leftmost(DomAt, text).None? {
      SecondNeverFires(text);
    }
  }

  /** The match comes from the first candidate that yields one. */
  lemma {:induction false} FirstCandidateMatchMeans(candidates: seq<string>)
    ensures FirstCandidateMatch(candidates).None? <==> forall i :: 0 <= i < |candidates| ==> CandidateMatch(candidates[i]).None?
    ensures FirstCandidateMatch(candidates).Some? ==>
      exists i :: 0 <= i < |candidates| && FirstCandidateMatch(candidates) == CandidateMatch(candidates[i])
        && forall j :: 0 <= j < i ==> CandidateMatch(candidates[j]).None?
  {
    if candidates != [] {
      var tail := candidates[1..];
      FirstCandidateMatchMeans(tail);
      assert forall i :: 0 <= i < |tail| ==> tail[i] == candidates[i + 1];
      if CandidateMatch(candidates[0]).None? && FirstCandidateMatch(tail).Some? {
        var i :| 0 <= i < |tail| && FirstCandidateMatch(tail) == CandidateMatch(tail[i])
          && forall j :: 0 <= j < i ==> CandidateMatch(tail[j]).None?;
        assert FirstCandidateMatch(candidates) == CandidateMatch(candidates[i + 1]);
        forall j | 0 <= j < i + 1
          ensures CandidateMatch(candidates[j]).None?
        {
          if j > 0 {
            assert candidates[j] == tail[j - 1];
          }
        }
      }
    }
  }

  /** The DOM source wins exactly when some candidate contains a digit, a dot or a comma; a lone "." counts. */
  lemma DomWins(candidates: seq<string>, html: string, ogContent: Option<string>)
    ensures var e := ExtractFromPage(candidates, html, ogContent);
      e.source == Some(Dom) <==> exists i, k :: 0 <= i < |candidates| && 0 <= k < |candidates[i]| && IsRunChar(candidates[i][k])
  {
    FirstCandidateMatchMeans(candidates);
    if ExtractFromPage(candidates, html, ogContent).source == Some(Dom) {
      var i :| 0 <= i < |candidates| && FirstCandidateMatch(candidates) == CandidateMatch(candidates[i]);
      CandidateMatchMeans(candidates[i]);
      var k :| 0 <= k < |candidates[i]| && IsRunChar(candidates[i][k]);
    }
    if exists i, k :: 0 <= i < |candidates| && 0 <= k < |candidates[i]| && IsRunChar(candidates[i][k]) {
      var i, k :| 0 <= i < |candidates| && 0 <= k < |candidates[i]| && IsRunChar(candidates[i][k]);
      CandidateMatchMeans(candidates[i]);
    }
  }

  /** The DOM result is the DOM capture in the first candidate with a digit, a dot or a comma. */
  lemma DomResult(candidates: seq<string>, html: string, ogContent: Option<string>)
    requires ExtractFromPage(candidates, html, ogContent).source == Some(Dom)
    ensures exists i :: 0 <= i < |candidates|
              && ExtractFromPage(candidates, html, ogContent).n == Leftmost(DomAt, candidates[i])
              && forall j, k :: 0 <= j < i && 0 <= k < |candidates[j]| ==> !IsRunChar(candidates[j][k])
  {
    FirstCandidateMatchMeans(candidates);
    var i :| 0 <= i < |candidates| && FirstCandidateMatch(candidates) == CandidateMatch(candidates[i])
      && forall j :: 0 <= j < i ==> CandidateMatch(candidates[j]).None?;
    CandidateMatchMeans(candidates[i]);
    forall j | 0 <= j < i
      ensures forall k :: 0 <= k < |candidates[j]| ==> !IsRunChar(candidates[j][k])
    {
      CandidateMatchMeans(candidates[j]);
    }
  }

  /** The fallbacks in order, once no candidate matched; the JSON keys need only one digit. */
  lemma FallbackOrder(candidates: seq<string>, html: string, ogContent: Option<string>)
    requires forall i :: 0 <= i < |candidates| ==> CandidateMatch(candidates[i]).None?
    ensures var e := ExtractFromPage(candidates, html, ogContent);
      && (e.source == Some(JsonRegex) <==> FirstKeyNumber(html, JsonKeys, 1).Some?)
      && (e.source == Some(JsonRegex) ==> e.n == FirstKeyNumber(html, JsonKeys, 1) && AllDigits(e.n.value) && e.n.value != [])
      && (e.source == Some(Og) <==> FirstKeyNumber(html, JsonKeys, 1).None? && OgMatch(ogContent).Some?)
      && (e.source.None? <==> FirstKeyNumber(html, JsonKeys, 1).None? && OgMatch(ogContent).None?)
      && (e.source.None? <==> e.n.None?)
  {
    FirstCandidateMatchMeans(candidates);
  }

  /** The loop over the candidates with its early returns, then the two fallbacks. */
  method ExtractFollowersFromPage(candidates: seq<string>, html: string, ogContent: Option<string>) returns (e: Extracted)
    ensures e == ExtractFromPage(candidates, html, ogContent)
  {
    for i := 0 to |candidates|
      invariant FirstCandidateMatch(candidates) == FirstCandidateMatch(candidates[i..])
    {
      var text := candidates[i];
      assert candidates[i..][1..] == candidates[i + 1..];
      if text != "" {
        var m := Leftmost(DomAt, text);
        if m.Some? {
          return Extracted(m, Some(Dom));
        }
        var digits := Leftmost(SecondAt, text);
        if digits.Some? {
          return Extracted(digits, Some(Dom));
        }
      }
    }
    var json := KeyNumber(html, JsonKeys[0], 1);
    if json.None? {
      json := KeyNumber(html, JsonKeys[1], 1);
    }
    assert JsonKeys[1..][0] == JsonKeys[1] && JsonKeys[1..][1..] == [];
    assert FirstKeyNumber(html, JsonKeys[1..], 1) == KeyNumber(html, JsonKeys[1], 1);
    if json.Some? {
      return Extracted(json, Some(JsonRegex));
    }
    if ogContent.Some? && ogContent.value != "" {
      var m := Leftmost(OgAt, ogContent.value);
      if m.Some? {
        return Extracted(m, Some(Og));
      }
    }
    return Extracted(None, None);
  }

  lemma ExampleLoneDot()
    ensures CandidateMatch(".") == Some(".")
  {
    assert DomAt(".") == Some(".") by {
      assert RunLength(".") == 1;
      assert "."[..1] == "." && "."[1..] == [];
      assert DomCapture(".", []) == ".";
    }
  }
}

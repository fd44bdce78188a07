/**
 * The regular expressions the extractors run over page text, as
 * deterministic scanners. Each `...At` function matches a pattern at the
 * start of a string and returns its capture group; `Leftmost` is
 * `String.prototype.match`, which reports the match that starts first.
 *
 * The patterns here need no backtracking: each greedy run is followed by
 * a character that cannot belong to it, so giving characters back can
 * never make the rest of the pattern match where the greedy choice failed.
 */
module TextPatterns {
  import opened Optional
  import opened JsText

  /** `[\d.,]` */
  predicate IsRunChar(c: char) {
    IsDigit(c) || c == '.' || c == ','
  }

  /** `[kKmM]` */
  predicate IsScaleLetter(c: char) {
    c == 'k' || c == 'K' || c == 'm' || c == 'M'
  }

  /** The length of the longest run of `[\d.,]` that `s` starts with. */
  function RunLength(s: string): (n: nat)
    ensures n <= |s|
    ensures forall i :: 0 <= i < n ==> IsRunChar(s[i])
    ensures n < |s| ==> !IsRunChar(s[n])
  {
    if s != [] && IsRunChar(s[0]) then 1 + RunLength(s[1..]) else 0
  }

  /** The length of the longest run of `\s` that `s` starts with. */
  function SpaceLength(s: string): (n: nat)
    ensures n <= |s|
    ensures forall i :: 0 <= i < n ==> IsJsSpace(s[i])
    ensures n < |s| ==> !IsJsSpace(s[n])
  {
    if s != [] && IsJsSpace(s[0]) then 1 + SpaceLength(s[1..]) else 0
  }

  /** The length of the longest run of `[0-9]` that `s` starts with. */
  function DigitLength(s: string): (n: nat)
    ensures n <= |s|
    ensures forall i :: 0 <= i < n ==> IsDigit(s[i])
    ensures n < |s| ==> !IsDigit(s[n])
  {
    if s != [] && IsDigit(s[0]) then 1 + DigitLength(s[1..]) else 0
  }

  /** `s` after the white space it starts with (`\s*`). */
  function SkipSpaces(s: string): string {
    s[SpaceLength(s)..]
  }

  /** `followers?` at the start of `t`, in any case (the optional "s" changes nothing about a match). */
  predicate StartsWithFollower(t: string) {
    StartsWithCI(t, "follower")
  }

  /** "follower" starts with a letter that is neither white space, nor part of a numeral, nor a suffix. */
  lemma FollowerInitial(t: string)
    requires StartsWithFollower(t)
    ensures t != [] && (t[0] == 'f' || t[0] == 'F')
    ensures !IsJsSpace(t[0]) && !IsRunChar(t[0]) && !IsScaleLetter(t[0]) && !IsDigit(t[0])
  {
    assert LowerChar(t[0]) == LowerChar('f');
  }

  /**
   * `[^\d]*followers?` at the start of `t`: "follower" (any case) comes
   * before the first digit.
   */
  predicate FollowerBeforeDigit(t: string) {
    StartsWithFollower(t) || (t != [] && !IsDigit(t[0]) && FollowerBeforeDigit(t[1..]))
  }

  /**
   * `/"<key>"\s*:\s*([0-9]{n,})/i` at the start of `s`, with the quoted
   * key given: the capture is the whole digit run after the colon, and
   * there is no match when that run is shorter than `minDigits`.
   */
  function KeyNumberAt(s: string, quotedKey: string, minDigits: nat): (r: Option<string>)
    ensures r.Some? ==> AllDigits(r.value) && |r.value| >= minDigits
  {
    if !StartsWithCI(s, quotedKey) then None
    else
      var afterKey := SkipSpaces(s[|quotedKey|..]);
      if afterKey == [] || afterKey[0] != ':' then None
      else
        var number := SkipSpaces(afterKey[1..]);
        var n := DigitLength(number);
        if n >= minDigits && n > 0 then Some(number[..n]) else None
  }

  /** `s.match(re)[1]` where `at` matches `re` at the start of a string. */
  function Leftmost(at: string -> Option<string>, s: string): Option<string> {
    if at(s).Some? then at(s) else if s == [] then None else Leftmost(at, s[1..])
  }

  /**
   * A pattern is found wherever it matches in the text, and what is
   * reported is the match at the first position where there is one.
   */
  lemma {:induction false} LeftmostMeans(at: string -> Option<string>, s: string)
    ensures Leftmost(at, s).None? <==> forall i :: 0 <= i <= |s| ==> at(s[i..]).None?
    ensures Leftmost(at, s).Some? ==>
      exists i :: 0 <= i <= |s| && Leftmost(at, s) == at(s[i..]) && forall j :: 0 <= j < i ==> at(s[j..]).None?
  {
    assert s[0..] == s;
    if at(s).None? && s != [] {
      LeftmostMeans(at, s[1..]);
      assert forall i :: 0 <= i <= |s| - 1 ==> s[1..][i..] == s[i + 1..];
      if Leftmost(at, s).Some? {
        var i :| 0 <= i <= |s[1..]| && Leftmost(at, s[1..]) == at(s[1..][i..])
          && forall j :: 0 <= j < i ==> at(s[1..][j..]).None?;
        assert Leftmost(at, s) == at(s[i + 1..]);
        forall j | 0 <= j < i + 1
          ensures at(s[j..]).None?
        {
          if j > 0 {
            assert at(s[1..][j - 1..]).None?;
          }
        }
      } else {
        forall i | 0 <= i <= |s|
          ensures at(s[i..]).None?
        {
          if i > 0 {
            assert at(s[1..][i - 1..]).None?;
          }
        }
      }
    }
  }

  /** One match, at any position, is enough for the pattern to be found. */
  lemma LeftmostFindsAny(at: string -> Option<string>, s: string, i: nat)
    requires i <= |s| && at(s[i..]).Some?
    ensures Leftmost(at, s).Some?
  {
    LeftmostMeans(at, s);
  }

  /** A run that stops at a character outside its class is measured exactly. */
  lemma {:induction false} RunLengthOf(run: string, rest: string)
    requires forall i :: 0 <= i < |run| ==> IsRunChar(run[i])
    requires rest == [] || !IsRunChar(rest[0])
    ensures RunLength(run + rest) == |run|
  {
    if run != [] {
      assert (run + rest)[1..] == run[1..] + rest;
      RunLengthOf(run[1..], rest);
    } else {
      assert run + rest == rest;
    }
  }

  lemma {:induction false} SpaceLengthOf(spaces: string, rest: string)
    requires AllSpaces(spaces)
    requires rest == [] || !IsJsSpace(rest[0])
    ensures SpaceLength(spaces + rest) == |spaces|
  {
    if spaces != [] {
      assert (spaces + rest)[1..] == spaces[1..] + rest;
      SpaceLengthOf(spaces[1..], rest);
    } else {
      assert spaces + rest == rest;
    }
  }

  lemma {:induction false} DigitLengthOf(digits: string, rest: string)
    requires AllDigits(digits)
    requires rest == [] || !IsDigit(rest[0])
    ensures DigitLength(digits + rest) == |digits|
  {
    if digits != [] {
      assert (digits + rest)[1..] == digits[1..] + rest;
      DigitLengthOf(digits[1..], rest);
    } else {
      assert digits + rest == rest;
    }
  }

  /**
   * A key, a colon and a digit run are matched with the whole run as the
   * capture, however long; one digit fewer than `minDigits` and there is
   * no match.
   */
  lemma KeyNumberAtCaptures(quotedKey: string, digits: string, rest: string, minDigits: nat)
    requires AllDigits(digits) && digits != []
    requires rest == [] || !IsDigit(rest[0])
    ensures KeyNumberAt(quotedKey + ":" + digits + rest, quotedKey, minDigits) ==
      if |digits| >= minDigits then Some(digits) else None
  {
    var tail := digits + rest;
    var s := quotedKey + ":" + digits + rest;
    assert StartsWithCI(s, quotedKey) && s[|quotedKey|..] == [':'] + tail by {
      assert s == quotedKey + ([':'] + tail);
      StartsWithCISelf(quotedKey);
      StartsWithCIAppend(quotedKey, [':'] + tail, quotedKey);
    }
    ColonThenDigits(digits, rest, minDigits);
  }

  /** After the key: the colon, no white space and the digit run. */
  lemma ColonThenDigits(digits: string, rest: string, minDigits: nat)
    requires AllDigits(digits) && digits != []
    requires rest == [] || !IsDigit(rest[0])
    ensures var afterKey := [':'] + (digits + rest);
      && SkipSpaces(afterKey) == afterKey
      && var number := SkipSpaces(afterKey[1..]);
      number == digits + rest && DigitLength(number) == |digits| && number[..|digits|] == digits
  {
    var tail := digits + rest;
    var afterKey := [':'] + tail;
    SpaceLengthOf("", afterKey);
    assert afterKey[1..] == tail;
    SpaceLengthOf("", tail);
    DigitLengthOf(digits, rest);
    assert tail[..|digits|] == digits;
  }


  /** `html.match(/"<key>"\s*:\s*([0-9]{n,})/i)[1]`. */
  function KeyNumber(html: string, quotedKey: string, minDigits: nat): (r: Option<string>)
    ensures r.Some? ==> AllDigits(r.value) && |r.value| >= minDigits
  {
    var at := s => KeyNumberAt(s, quotedKey, minDigits);
    LeftmostMeans(at, html);
    Leftmost(at, html)
  }

  /** `html.match(re1) || html.match(re2) || ...`: the first of `keys` whose pattern matches anywhere in `html`. */
  function FirstKeyNumber(html: string, keys: seq<string>, minDigits: nat): (r: Option<string>)
    ensures r.Some? ==> AllDigits(r.value) && |r.value| >= minDigits
  {
    if keys == [] then None
    else
      var m := KeyNumber(html, keys[0], minDigits);
      if m.Some? then m else FirstKeyNumber(html, keys[1..], minDigits)
  }

  /** A key pattern matches iff its text occurs somewhere. */
  lemma KeyNumberAnywhere(html: string, quotedKey: string, minDigits: nat)
    ensures KeyNumber(html, quotedKey, minDigits).Some? <==> exists i :: 0 <= i <= |html| && KeyNumberAt(html[i..], quotedKey, minDigits).Some?
  {
    var at := s => KeyNumberAt(s, quotedKey, minDigits);
    LeftmostMeans(at, html);
    if exists i :: 0 <= i <= |html| && KeyNumberAt(html[i..], quotedKey, minDigits).Some? {
      var i :| 0 <= i <= |html| && KeyNumberAt(html[i..], quotedKey, minDigits).Some?;
      assert at(html[i..]).Some?;
    }
  }

  lemma {:induction false} FirstKeyNumberMeans(html: string, keys: seq<string>, minDigits: nat, i: nat)
    requires i < |keys| && KeyNumber(html, keys[i], minDigits).Some?
    requires forall j :: 0 <= j < i ==> KeyNumber(html, keys[j], minDigits).None?
    ensures FirstKeyNumber(html, keys, minDigits) == KeyNumber(html, keys[i], minDigits)
  {
    if i > 0 {
      assert KeyNumber(html, keys[0], minDigits).None?;
      assert forall j :: 0 <= j < i - 1 ==> keys[1..][j] == keys[j + 1];
      FirstKeyNumberMeans(html, keys[1..], minDigits, i - 1);
    }
  }

  lemma {:induction false} FirstKeyNumberNone(html: string, keys: seq<string>, minDigits: nat)
    requires forall j :: 0 <= j < |keys| ==> KeyNumber(html, keys[j], minDigits).None?
    ensures FirstKeyNumber(html, keys, minDigits).None?
  {
    if keys != [] {
      assert forall j :: 0 <= j < |keys| - 1 ==> keys[1..][j] == keys[j + 1];
      FirstKeyNumberNone(html, keys[1..], minDigits);
    }
  }
}

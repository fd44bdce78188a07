/**
 * The string primitives the JavaScript code relies on: the `\d` and `\s`
 * character classes of its regular expressions, `String.prototype.trim`,
 * ASCII case folding as the `/i` flag applies it to ASCII patterns, and
 * the "keep only digits" replacement.
 */
module JsText {

  predicate IsDigit(c: char) { '0' <= c <= '9' }

  /** The class `\s` of a JavaScript regular expression; `trim()` removes the same characters. */
  predicate IsJsSpace(c: char) {
    || c == ' ' || c == '\t' || c == '\n' || c == '\r'
    || c == '\U{000B}' || c == '\U{000C}' || c == '\U{00A0}' || c == '\U{1680}'
    || ('\U{2000}' <= c <= '\U{200A}')
    || c == '\U{2028}' || c == '\U{2029}' || c == '\U{202F}' || c == '\U{205F}'
    || c == '\U{3000}' || c == '\U{FEFF}'
  }

  predicate AllDigits(s: string) {
    forall i :: 0 <= i < |s| ==> IsDigit(s[i])
  }

  predicate AllSpaces(s: string) {
    forall i :: 0 <= i < |s| ==> IsJsSpace(s[i])
  }

  /** ASCII lower-casing of one character; every other character is left alone. */
  function LowerChar(c: char): (r: char)
    ensures 'A' <= c <= 'Z' ==> 'a' <= r <= 'z' && r as int == c as int + 32
    ensures !('A' <= c <= 'Z') ==> r == c
  {
    if 'A' <= c <= 'Z' then (c as int + 32) as char else c
  }

  function Lower(s: string): (r: string)
    ensures |r| == |s|
    ensures forall i :: 0 <= i < |s| ==> r[i] == LowerChar(s[i])
  {
    if s == [] then [] else [LowerChar(s[0])] + Lower(s[1..])
  }

  /** `s` begins with `lit`, comparing letters without regard to ASCII case. */
  predicate StartsWithCI(s: string, lit: string)
    ensures StartsWithCI(s, lit) ==> |lit| <= |s|
  {
    lit == [] || (s != [] && LowerChar(s[0]) == LowerChar(lit[0]) && StartsWithCI(s[1..], lit[1..]))
  }

  /** `lit` occurs somewhere in `s`, without regard to ASCII case. */
  predicate ContainsCI(s: string, lit: string) {
    StartsWithCI(s, lit) || (s != [] && ContainsCI(s[1..], lit))
  }

  lemma {:induction false} StartsWithCIMeans(s: string, lit: string)
    ensures StartsWithCI(s, lit) <==> |lit| <= |s| && Lower(s[..|lit|]) == Lower(lit)
  {
    if lit != [] && s != [] {
      StartsWithCIMeans(s[1..], lit[1..]);
      if |lit| <= |s| {
        assert Lower(s[..|lit|]) == [LowerChar(s[0])] + Lower(s[1..][..|lit| - 1]) by {
          assert s[..|lit|][1..] == s[1..][..|lit| - 1];
        }
        assert Lower(lit) == [LowerChar(lit[0])] + Lower(lit[1..]);
      }
    }
  }

  lemma {:induction false} ContainsCIMeans(s: string, lit: string)
    ensures ContainsCI(s, lit) <==> exists i :: 0 <= i <= |s| && StartsWithCI(s[i..], lit)
  {
    assert s[0..] == s;
    if s != [] {
      ContainsCIMeans(s[1..], lit);
      if ContainsCI(s, lit) && !StartsWithCI(s, lit) {
        var i :| 0 <= i <= |s[1..]| && StartsWithCI(s[1..][i..], lit);
        assert s[1..][i..] == s[i + 1..];
      }
      if exists i :: 0 <= i <= |s| && StartsWithCI(s[i..], lit) {
        var i :| 0 <= i <= |s| && StartsWithCI(s[i..], lit);
        if i > 0 {
          assert s[1..][i - 1..] == s[i..];
        } else {
          assert s[0..] == s;
        }
      }
    } else {
      assert s[0..] == s;
    }
  }

  /** Text after a match does not undo it. */
  lemma {:induction false} StartsWithCIAppend(s: string, t: string, lit: string)
    requires StartsWithCI(s, lit)
    ensures StartsWithCI(s + t, lit)
  {
    if lit != [] {
      assert (s + t)[1..] == s[1..] + t;
      StartsWithCIAppend(s[1..], t, lit[1..]);
    }
  }

  /** Every string begins with itself. */
  lemma {:induction false} StartsWithCISelf(s: string)
    ensures StartsWithCI(s, s)
  {
    if s != [] {
      StartsWithCISelf(s[1..]);
    }
  }

  /** A match of `lit + more` is a match of `lit`. */
  lemma {:induction false} StartsWithCIPrefix(s: string, lit: string, more: string)
    requires StartsWithCI(s, lit + more)
    ensures StartsWithCI(s, lit)
  {
    if lit != [] {
      assert (lit + more)[0] == lit[0] && (lit + more)[1..] == lit[1..] + more;
      StartsWithCIPrefix(s[1..], lit[1..], more);
    }
  }

  lemma ContainsCIPrefix(s: string, lit: string, more: string)
    requires ContainsCI(s, lit + more)
    ensures ContainsCI(s, lit)
  {
    ContainsCIMeans(s, lit + more);
    var i :| 0 <= i <= |s| && StartsWithCI(s[i..], lit + more);
    StartsWithCIPrefix(s[i..], lit, more);
    ContainsCIMeans(s, lit);
  }

  /** Containment is unanchored: text around a match keeps it. */
  lemma ContainsCIWithin(pre: string, s: string, post: string, lit: string)
    requires ContainsCI(s, lit)
    ensures ContainsCI(pre + s + post, lit)
  {
    ContainsCIMeans(s, lit);
    var i :| 0 <= i <= |s| && StartsWithCI(s[i..], lit);
    var whole := pre + s + post;
    assert whole[|pre| + i..] == s[i..] + post;
    StartsWithCIAppend(s[i..], post, lit);
    ContainsCIMeans(whole, lit);
  }

  /** `s` with its leading `\s` characters removed (`trimStart`). */
  function TrimStart(s: string): (r: string)
    ensures r != [] ==> !IsJsSpace(r[0])
  {
    if s != [] && IsJsSpace(s[0]) then TrimStart(s[1..]) else s
  }

  /** `s` with its trailing `\s` characters removed (`trimEnd`). */
  function TrimEnd(s: string): (r: string)
    ensures r != [] ==> !IsJsSpace(r[|r| - 1])
  {
    if s == [] then []
    else
      var rest := TrimEnd(s[1..]);
      if rest == [] && IsJsSpace(s[0]) then [] else [s[0]] + rest
  }

  /** `trimStart` removes a prefix of white space and nothing else. */
  lemma {:induction false} TrimStartRemovesSpaces(s: string)
    ensures var r := TrimStart(s);
      |r| <= |s| && r == s[|s| - |r|..] && AllSpaces(s[..|s| - |r|])
  {
    if s != [] && IsJsSpace(s[0]) {
      TrimStartRemovesSpaces(s[1..]);
      var r := TrimStart(s);
      assert s[|s| - |r|..] == s[1..][|s| - 1 - |r|..];
      assert forall i :: 1 <= i < |s| - |r| ==> s[i] == s[1..][..|s| - 1 - |r|][i - 1];
    }
  }

  /** `trimEnd` removes a suffix of white space and nothing else. */
  lemma {:induction false} TrimEndRemovesSpaces(s: string)
    ensures var r := TrimEnd(s);
      |r| <= |s| && r == s[..|r|] && AllSpaces(s[|r|..])
  {
    if s != [] {
      TrimEndRemovesSpaces(s[1..]);
      var rest := TrimEnd(s[1..]);
      if !(rest == [] && IsJsSpace(s[0])) {
        assert TrimEnd(s) == [s[0]] + rest;
        assert s[..|rest| + 1] == [s[0]] + s[1..][..|rest|];
        assert s[|rest| + 1..] == s[1..][|rest|..];
      } else {
        assert forall i :: 1 <= i < |s| ==> s[i] == s[1..][i - 1];
      }
    }
  }

  /** `String.prototype.trim`. */
  function Trim(s: string): string {
    TrimEnd(TrimStart(s))
  }

  /** A string with no white space in it is its own `trim()`. */
  lemma {:induction false} TrimWithoutSpaces(s: string)
    requires forall i :: 0 <= i < |s| ==> !IsJsSpace(s[i])
    ensures Trim(s) == s
  {
    assert TrimStart(s) == s;
    TrimEndWithoutSpaces(s);
  }

  lemma {:induction false} TrimEndWithoutSpaces(s: string)
    requires forall i :: 0 <= i < |s| ==> !IsJsSpace(s[i])
    ensures TrimEnd(s) == s
  {
    if s != [] {
      TrimEndWithoutSpaces(s[1..]);
    }
  }

  /** Surrounding white space does not change what `trim()` gives. */
  lemma {:induction false} TrimIgnoresPadding(w1: string, s: string, w2: string)
    requires AllSpaces(w1) && AllSpaces(w2)
    ensures Trim(w1 + s + w2) == Trim(s)
  {
    assert w1 + s + w2 == w1 + (s + w2);
    TrimStartPadding(w1, s + w2);
    TrimStartAppend(s, w2);
    if TrimStart(s) != [] {
      TrimEndPadding(TrimStart(s), w2);
    } else {
      assert w2 + [] == w2;
      TrimStartPadding(w2, []);
    }
  }

  lemma {:induction false} TrimStartPadding(w: string, s: string)
    requires AllSpaces(w)
    ensures TrimStart(w + s) == TrimStart(s)
  {
    if w != [] {
      var ws := w + s;
      assert ws != [] && ws[0] == w[0] && IsJsSpace(w[0]);
      assert ws[1..] == w[1..] + s;
      assert AllSpaces(w[1..]);
      TrimStartPadding(w[1..], s);
      assert TrimStart(ws) == TrimStart(ws[1..]);
    } else {
      assert w + s == s;
    }
  }

  /** Text appended after `s` survives `trimStart` unless `s` is all white space. */
  lemma {:induction false} TrimStartAppend(s: string, w: string)
    ensures TrimStart(s) != [] ==> TrimStart(s + w) == TrimStart(s) + w
    ensures TrimStart(s) == [] ==> TrimStart(s + w) == TrimStart(w)
  {
    if s == [] {
      assert s + w == w;
    } else {
      var sw := s + w;
      assert sw[0] == s[0] && sw[1..] == s[1..] + w;
      if IsJsSpace(s[0]) {
        TrimStartAppend(s[1..], w);
        assert TrimStart(sw) == TrimStart(sw[1..]);
      } else {
        assert TrimStart(sw) == sw;
      }
    }
  }

  lemma {:induction false} TrimEndPadding(s: string, w: string)
    requires AllSpaces(w)
    ensures TrimEnd(s + w) == TrimEnd(s)
  {
    if s == [] {
      assert s + w == w;
      AllSpacesTrimEnd(w);
    } else {
      assert (s + w)[1..] == s[1..] + w;
      TrimEndPadding(s[1..], w);
    }
  }

  lemma {:induction false} AllSpacesTrimEnd(w: string)
    requires AllSpaces(w)
    ensures TrimEnd(w) == []
  {
    if w != [] {
      AllSpacesTrimEnd(w[1..]);
    }
  }

  /** Lower-casing works character by character, so it distributes over concatenation. */
  lemma LowerAppend(a: string, b: string)
    ensures Lower(a + b) == Lower(a) + Lower(b)
  {
    assert forall i :: 0 <= i < |a + b| ==> (a + b)[i] == if i < |a| then a[i] else b[i - |a|];
  }

  lemma LowerIdempotent(s: string)
    ensures Lower(Lower(s)) == Lower(s)
  {}

  /** White space and lower-casing do not interact: `trim()` and `toLowerCase()` commute. */
  lemma TrimLower(s: string)
    ensures Trim(Lower(s)) == Lower(Trim(s))
  {
    TrimStartLower(s);
    TrimEndLower(TrimStart(s));
  }

  lemma {:induction false} TrimStartLower(s: string)
    ensures TrimStart(Lower(s)) == Lower(TrimStart(s))
  {
    if s != [] {
      assert Lower(s)[1..] == Lower(s[1..]);
      TrimStartLower(s[1..]);
    }
  }

  lemma {:induction false} TrimEndLower(s: string)
    ensures TrimEnd(Lower(s)) == Lower(TrimEnd(s))
  {
    if s != [] {
      assert Lower(s)[1..] == Lower(s[1..]);
      TrimEndLower(s[1..]);
      LowerAppend([s[0]], TrimEnd(s[1..]));
    }
  }

  /** `s.replace(/[^\d]/g, "")`: the digits of `s`, in order. */
  function DigitsOnly(s: string): (r: string)
    ensures AllDigits(r) && |r| <= |s|
  {
    if s == [] then [] else (if IsDigit(s[0]) then [s[0]] else []) + DigitsOnly(s[1..])
  }

  lemma {:induction false} DigitsOnlyAppend(a: string, b: string)
    ensures DigitsOnly(a + b) == DigitsOnly(a) + DigitsOnly(b)
  {
    if a == [] {
      assert a + b == b;
    } else {
      assert (a + b)[1..] == a[1..] + b;
      DigitsOnlyAppend(a[1..], b);
    }
  }

  lemma {:induction false} DigitsOnlyOfDigits(s: string)
    requires AllDigits(s)
    ensures DigitsOnly(s) == s
  {
    if s != [] {
      DigitsOnlyOfDigits(s[1..]);
    }
  }
}

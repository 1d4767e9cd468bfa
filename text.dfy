/**
 * The handful of Python `str` operations the tools rely on, with the
 * semantics CPython gives them: `strip()` and `split()` without arguments
 * (both use the `str.isspace()` character set), the `in` substring test,
 * and `replace(old, new)`, a single left-to-right pass over
 * non-overlapping occurrences.
 */
module Text {

  /** The characters for which Python's `str.isspace()` holds. */
  predicate IsWhitespace(c: char) {
    var n := c as int;
    (9 <= n <= 13) || (28 <= n <= 32) || n == 0x85 || n == 0xA0 || n == 0x1680 ||
    (0x2000 <= n <= 0x200A) || n == 0x2028 || n == 0x2029 || n == 0x202F ||
    n == 0x205F || n == 0x3000
  }

  predicate NoWhitespace(s: string) {
    forall i :: 0 <= i < |s| ==> !IsWhitespace(s[i])
  }

  /** `s` has no leading and no trailing whitespace. */
  predicate IsStripped(s: string) {
    s == [] || (!IsWhitespace(s[0]) && !IsWhitespace(s[|s| - 1]))
  }

  function StripLeft(s: string): (r: string)
    ensures |r| <= |s| && r == s[|s| - |r|..]
    ensures r == [] || !IsWhitespace(r[0])
    ensures forall i :: 0 <= i < |s| - |r| ==> IsWhitespace(s[i])
    decreases |s|
  {
    if s != [] && IsWhitespace(s[0]) then StripLeft(s[1..]) else s
  }

  function StripRight(s: string): (r: string)
    ensures |r| <= |s| && r == s[..|r|]
    ensures r == [] || !IsWhitespace(r[|r| - 1])
    ensures forall i :: |r| <= i < |s| ==> IsWhitespace(s[i])
    decreases |s|
  {
    if s != [] && IsWhitespace(s[|s| - 1]) then StripRight(s[..|s| - 1]) else s
  }

  /** Python's `s.strip()`. */
  function Strip(s: string): (r: string)
    ensures IsStripped(r)
    ensures IsStripped(s) ==> r == s
    ensures |r| <= |s|
    ensures forall c :: c in r ==> c in s
    ensures r == [] <==> forall i :: 0 <= i < |s| ==> IsWhitespace(s[i])
  {
    var l := StripLeft(s);
    var r := StripRight(l);
    assert r != [] ==> !IsWhitespace(r[0]) by {
      if r != [] { assert r[0] == l[0]; }
    }
    r
  }

  /**
   * `strip()` cuts whitespace off the two ends and nothing else: its result
   * is the start of what `StripLeft` leaves, and everything of `s` before
   * and after it is whitespace.
   */
  lemma StripCutsOnlyEndWhitespace(s: string)
    ensures |s| - |StripLeft(s)| + |Strip(s)| <= |s|
    ensures Strip(s) <= s[|s| - |StripLeft(s)|..]
    ensures forall k :: 0 <= k < |s| - |StripLeft(s)| ==> IsWhitespace(s[k])
    ensures forall k :: |s| - |StripLeft(s)| + |Strip(s)| <= k < |s| ==> IsWhitespace(s[k])
  {
    var l := StripLeft(s);
    var r := StripRight(l);
    var i := |s| - |l|;
    assert Strip(s) == r;
    forall k | i + |r| <= k < |s|
      ensures IsWhitespace(s[k])
    {
      assert s[k] == l[k - i];
    }
  }

  /** The longest prefix of `s` free of whitespace. */
  function TakeWord(s: string): (w: string)
    ensures w <= s && NoWhitespace(w)
    ensures |w| < |s| ==> IsWhitespace(s[|w|])
    ensures s != [] && !IsWhitespace(s[0]) ==> w != []
    decreases |s|
  {
    if s == [] || IsWhitespace(s[0]) then [] else [s[0]] + TakeWord(s[1..])
  }

  /** Python's `s.split()`: the maximal whitespace-free runs of `s`, in order. */
  function Words(s: string): (ws: seq<string>)
    ensures forall i :: 0 <= i < |ws| ==> ws[i] != [] && NoWhitespace(ws[i])
    decreases |s|
  {
    if s == [] then []
    else if IsWhitespace(s[0]) then Words(s[1..])
    else
      var w := TakeWord(s);
      [w] + Words(s[|w|..])
  }

  /**
   * `split()` loses no word: it is empty exactly on an all-whitespace text,
   * and otherwise its first word is the run that starts after the leading
   * whitespace and stops at the next whitespace character, and the other
   * words are the split of what follows that run.
   */
  lemma {:induction false} WordsAreMaximalRuns(s: string)
    ensures Words(s) == [] <==> forall i :: 0 <= i < |s| ==> IsWhitespace(s[i])
    ensures Words(s) != [] ==>
      && Words(s)[0] == TakeWord(StripLeft(s))
      && Words(s)[1..] == Words(StripLeft(s)[|TakeWord(StripLeft(s))|..])
    decreases |s|
  {
    if s == [] {
    } else if IsWhitespace(s[0]) {
      WordsAreMaximalRuns(s[1..]);
      assert StripLeft(s) == StripLeft(s[1..]);
      assert forall i :: 1 <= i < |s| ==> s[i] == s[1..][i - 1];
    } else {
      assert StripLeft(s) == s;
    }
  }

  /** Python's `sub in s` for strings. */
  predicate Contains(s: string, sub: string)
    decreases |s|
  {
    sub <= s || (s != [] && Contains(s[1..], sub))
  }

  /** A text shorter than the pattern cannot contain it. */
  lemma {:induction false} ShortTextLacksPattern(s: string, sub: string)
    requires |s| < |sub|
    ensures !Contains(s, sub)
    decreases |s|
  {
    if s != [] {
      ShortTextLacksPattern(s[1..], sub);
    }
  }

  /** Python's `s.replace(pat, rep)`: one left-to-right pass, occurrences never overlap. */
  function ReplaceAll(s: string, pat: string, rep: string): (r: string)
    requires pat != []
    ensures !Contains(s, pat) ==> r == s
    decreases |s|
  {
    if pat <= s then rep + ReplaceAll(s[|pat|..], pat, rep)
    else if s == [] then []
    else [s[0]] + ReplaceAll(s[1..], pat, rep)
  }

  /** Decimal digits of `n`, as Python's `str` of a non-negative int. */
  function DecimalString(n: nat): (r: string)
    ensures r != [] && forall i :: 0 <= i < |r| ==> '0' <= r[i] <= '9'
  {
    var d := ['0' + (n % 10) as char];
    if n < 10 then d else DecimalString(n / 10) + d
  }

  /** Python's `str` of an int. */
  function IntString(n: int): string {
    if n < 0 then "-" + DecimalString(-n) else DecimalString(n)
  }

  /** A text with a non-whitespace last character splits into at least one word. */
  lemma {:induction false} WordsNonEmpty(s: string)
    requires s != [] && !IsWhitespace(s[|s| - 1])
    ensures Words(s) != []
    decreases |s|
  {
    if IsWhitespace(s[0]) {
      WordsNonEmpty(s[1..]);
    }
  }

  /** A stripped text holding a space splits into at least two words. */
  lemma SpacedTextHasTwoWords(s: string)
    requires IsStripped(s) && ' ' in s
    ensures |Words(s)| >= 2
  {
    var w := TakeWord(s);
    assert !IsWhitespace(s[0]);
    assert |w| < |s|;
    var rest := s[|w|..];
    assert rest[|rest| - 1] == s[|s| - 1];
    WordsNonEmpty(rest);
  }

  /**
   * The two words `clean_url` joins: on a stripped text holding a space, the
   * first word runs up to the first whitespace character, and the second is
   * the run that starts after the whitespace following it.
   */
  lemma {:induction false} SpacedTextFirstTwoWords(s: string)
    requires IsStripped(s) && ' ' in s
    ensures |Words(s)| >= 2
    ensures Words(s)[0] == TakeWord(s)
    ensures Words(s)[1] == TakeWord(StripLeft(s[|TakeWord(s)|..]))
  {
    SpacedTextHasTwoWords(s);
    var w := TakeWord(s);
    var rest := s[|w|..];
    assert !IsWhitespace(s[0]);
    assert Words(s) == [w] + Words(rest);
    WordsAreMaximalRuns(rest);
  }

  /** After replacing every space with "%20" no space is left. */
  lemma {:induction false} ReplaceSpacesLeavesNoSpace(s: string)
    ensures ' ' !in ReplaceAll(s, " ", "%20")
    decreases |s|
  {
    if " " <= s {
      ReplaceSpacesLeavesNoSpace(s[1..]);
    } else if s != [] {
      assert s[0] != ' ';
      ReplaceSpacesLeavesNoSpace(s[1..]);
    }
  }

  /** A last character that cannot end an occurrence of the pattern survives the replacement. */
  lemma {:induction false} ReplaceAllKeepsLast(s: string, pat: string, rep: string)
    requires pat != [] && s != [] && s[|s| - 1] != pat[|pat| - 1]
    ensures var r := ReplaceAll(s, pat, rep);
      r != [] && r[|r| - 1] == s[|s| - 1]
    decreases |s|
  {
    if pat <= s {
      assert |pat| < |s|;
      ReplaceAllKeepsLast(s[|pat|..], pat, rep);
    } else if |s| > 1 {
      ReplaceAllKeepsLast(s[1..], pat, rep);
    }
  }

  /**
   * Replacing a pattern that begins and ends with whitespace keeps a
   * stripped string stripped: its end characters are never touched.
   */
  lemma ReplaceAllKeepsStripped(s: string, pat: string, rep: string)
    requires pat != [] && IsWhitespace(pat[0]) && IsWhitespace(pat[|pat| - 1])
    requires IsStripped(s)
    ensures IsStripped(ReplaceAll(s, pat, rep))
  {
    if s != [] {
      assert !(pat <= s) by { assert s[0] != pat[0]; }
      ReplaceAllKeepsLast(s, pat, rep);
    }
  }

  /** Replacing with a shorter text never lengthens, and shortens whenever the pattern occurs. */
  lemma {:induction false} ReplaceAllShrinks(s: string, pat: string, rep: string)
    requires pat != [] && |rep| < |pat|
    ensures |ReplaceAll(s, pat, rep)| <= |s|
    ensures Contains(s, pat) ==> |ReplaceAll(s, pat, rep)| < |s|
    decreases |s|
  {
    if pat <= s {
      ReplaceAllShrinks(s[|pat|..], pat, rep);
    } else if s != [] {
      ReplaceAllShrinks(s[1..], pat, rep);
    }
  }
}

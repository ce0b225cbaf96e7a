/**
 * The pieces of Python's `str` and `re` behaviour that the scraper, the matcher
 * and the API rely on, over strings of Unicode scalar values: the character
 * classes `\s`, `\d` and `\w`, `lower()`, `strip()`, the `in` operator,
 * `re.sub(r"\s+", " ", x)`, the numerals that the patterns capture, and the
 * leftmost-position scan that `re.search` and `re.sub` perform.
 */
module PyText {
  import opened Wrappers

  // ---------------------------------------------------------------------
  // Character classes
  // ---------------------------------------------------------------------

  /** `str.isspace()`, which is also the set `\s` matches in a `str` pattern. */
  predicate IsSpace(c: char) {
    || c == ' '
    || ('\t' <= c <= '\r')
    || ('\U{1C}' <= c <= '\U{1F}')
    || c == '\U{85}' || c == '\U{A0}' || c == '\U{1680}'
    || ('\U{2000}' <= c <= '\U{200A}')
    || c == '\U{2028}' || c == '\U{2029}' || c == '\U{202F}' || c == '\U{205F}' || c == '\U{3000}'
  }

  /** `\d`: the ASCII digits and the Thai digits. */
  predicate IsDigit(c: char) {
    ('0' <= c <= '9') || ('\U{0E50}' <= c <= '\U{0E59}')
  }

  function DigitValue(c: char): (v: nat)
    requires IsDigit(c)
    ensures v < 10
  {
    if '0' <= c <= '9' then c as int - '0' as int else c as int - 0x0E50
  }

  /** `\w`: ASCII letters, digits and `_`, and the Thai letters and digits. */
  predicate IsWordChar(c: char) {
    || ('a' <= c <= 'z') || ('A' <= c <= 'Z') || c == '_' || IsDigit(c)
    || ('\U{0E01}' <= c <= '\U{0E30}') || c == '\U{0E32}' || c == '\U{0E33}'
    || ('\U{0E40}' <= c <= '\U{0E46}')
  }

  // ---------------------------------------------------------------------
  // lower(), replace(c, ""), the `in` operator
  // ---------------------------------------------------------------------

  function LowerChar(c: char): (d: char)
    ensures IsSpace(d) <==> IsSpace(c)
    ensures IsDigit(d) <==> IsDigit(c)
    ensures !('A' <= d <= 'Z')
  {
    if 'A' <= c <= 'Z' then (c as int + 32) as char else c
  }

  /** `s.lower()`, on the ASCII letters. */
  function Lower(s: string): (r: string)
    ensures |r| == |s|
    ensures forall i :: 0 <= i < |s| ==> r[i] == LowerChar(s[i])
  {
    seq(|s|, i requires 0 <= i < |s| => LowerChar(s[i]))
  }

  /** A lower-cased string holds no capital ASCII letter. */
  lemma LowerHasNoCapitals(s: string)
    ensures forall c :: c in Lower(s) ==> !('A' <= c <= 'Z')
  {
    forall c | c in Lower(s)
      ensures !('A' <= c <= 'Z')
    {
      var k :| 0 <= k < |Lower(s)| && Lower(s)[k] == c;
    }
  }

  lemma LowerIdempotent(s: string)
    ensures Lower(Lower(s)) == Lower(s)
  {
  }

  /** `s.replace(c, "")`. */
  function Without(s: string, c: char): (r: string)
    ensures |r| <= |s|
  {
    if s == [] then []
    else if s[0] == c then Without(s[1..], c)
    else [s[0]] + Without(s[1..], c)
  }

  /** `s.replace(c, "")` removes every `c` and brings in nothing new. */
  lemma {:induction false} WithoutChars(s: string, c: char)
    ensures c !in Without(s, c)
    ensures forall d :: d in Without(s, c) ==> d in s
  {
    if s != [] {
      WithoutChars(s[1..], c);
    }
  }

  /** Removing a character distributes over concatenation. */
  lemma {:induction false} WithoutAppend(a: string, b: string, c: char)
    ensures Without(a + b, c) == Without(a, c) + Without(b, c)
  {
    if a == [] {
      assert a + b == b;
    } else {
      assert (a + b)[1..] == a[1..] + b;
      WithoutAppend(a[1..], b, c);
    }
  }

  /** Removing a character that does not occur changes nothing. */
  lemma {:induction false} WithoutAbsent(s: string, c: char)
    requires c !in s
    ensures Without(s, c) == s
  {
    if s != [] {
      assert c !in s[1..];
      WithoutAbsent(s[1..], c);
    }
  }

  /** `w` occurs in `s` at position `i`. */
  predicate At(s: string, i: nat, w: string) {
    i + |w| <= |s| && s[i..i + |w|] == w
  }

  /** `w` is not at `i` when one of its characters differs from the text there. */
  lemma NotAtByChar(s: string, i: nat, w: string, k: nat)
    requires k < |w|
    requires i + k < |s| ==> s[i + k] != w[k]
    ensures !At(s, i, w)
  {
    if i + |w| <= |s| {
      assert s[i..i + |w|][k] == s[i + k];
    }
  }

  /** Python's `w in s` on strings: `w` occurs as a contiguous piece of `s`. */
  function Contains(s: string, w: string): bool
  {
    |w| <= |s| && (s[..|w|] == w || Contains(s[1..], w))
  }

  /** The position-wise statement of `Contains`. */
  lemma {:induction false} ContainsAt(s: string, w: string)
    ensures Contains(s, w) <==> exists i :: 0 <= i && At(s, i, w)
  {
    if |w| <= |s| && s[..|w|] != w {
      ContainsAt(s[1..], w);
      if Contains(s[1..], w) {
        var i :| 0 <= i && At(s[1..], i, w);
        assert s[i + 1..i + 1 + |w|] == s[1..][i..i + |w|];
        assert At(s, i + 1, w);
      }
      if exists i :: 0 <= i && At(s, i, w) {
        var i :| 0 <= i && At(s, i, w);
        assert i != 0;
        assert s[1..][i - 1..i - 1 + |w|] == s[i..i + |w|];
        assert At(s[1..], i - 1, w);
      }
    } else if |w| <= |s| {
      assert At(s, 0, w);
    }
  }

  /** An occurrence at a known position makes `w in s` true. */
  lemma AtContains(s: string, i: nat, w: string)
    requires At(s, i, w)
    ensures Contains(s, w)
  {
    ContainsAt(s, w);
  }

  /** Every character of a contained string is a character of the container. */
  lemma {:induction false} ContainsChars(s: string, w: string)
    requires Contains(s, w)
    ensures forall c :: c in w ==> c in s
    decreases |s|
  {
    if s[..|w|] == w {
      forall c | c in w
        ensures c in s
      {
        assert c in s[..|w|];
      }
    } else {
      ContainsChars(s[1..], w);
      forall c | c in w
        ensures c in s
      {
        assert c in s[1..];
      }
    }
  }

  /** A string whose first character never occurs in `s` is not in `s`. */
  lemma {:induction false} MissingFirstChar(s: string, w: string)
    requires w != [] && w[0] !in s
    ensures !Contains(s, w)
    decreases |s|
  {
    if |w| <= |s| {
      assert s[..|w|][0] == s[0] && s[0] in s;
      assert w[0] !in s[1..] by {
        assert forall k :: 0 <= k < |s[1..]| ==> s[1..][k] == s[k + 1];
      }
      MissingFirstChar(s[1..], w);
    }
  }

  /** Every string contains the empty string, as in Python. */
  lemma ContainsEmpty(s: string)
    ensures Contains(s, "")
  {
  }

  /** `any(w in s for w in ws)`. */
  predicate ContainsAny(s: string, ws: seq<string>) {
    exists k :: 0 <= k < |ws| && Contains(s, ws[k])
  }

  // ---------------------------------------------------------------------
  // Runs, strip() and re.sub(r"\s+", " ", x)
  // ---------------------------------------------------------------------

  /** The end of the run of characters satisfying `p` that starts at `i`. */
  function RunEnd(s: string, i: nat, p: char -> bool): (j: nat)
    requires i <= |s|
    ensures i <= j <= |s|
    ensures forall k :: i <= k < j ==> p(s[k])
    ensures j == |s| || !p(s[j])
    decreases |s| - i
  {
    if i < |s| && p(s[i]) then RunEnd(s, i + 1, p) else i
  }

  /** The run ends where the predicate first fails. */
  lemma RunEndIs(s: string, i: nat, j: nat, p: char -> bool)
    requires i <= j <= |s|
    requires forall k :: i <= k < j ==> p(s[k])
    requires j == |s| || !p(s[j])
    ensures RunEnd(s, i, p) == j
  {
  }

  /** `s.lstrip()`. */
  function StripStart(s: string): (r: string)
    ensures |r| <= |s| && r == s[|s| - |r|..]
    ensures r == [] || !IsSpace(r[0])
    ensures forall k :: 0 <= k < |s| - |r| ==> IsSpace(s[k])
  {
    if s != [] && IsSpace(s[0]) then StripStart(s[1..]) else s
  }

  /** `s.rstrip()`. */
  function StripEnd(s: string): (r: string)
    ensures |r| <= |s| && r == s[..|r|]
    ensures r == [] || !IsSpace(r[|r| - 1])
    ensures forall k :: |r| <= k < |s| ==> IsSpace(s[k])
  {
    if s != [] && IsSpace(s[|s| - 1]) then StripEnd(s[..|s| - 1]) else s
  }

  /** `s.strip()`. */
  function Strip(s: string): (r: string)
    ensures |r| <= |s|
    ensures forall c :: c in r ==> c in s
    ensures r == [] || (!IsSpace(r[0]) && !IsSpace(r[|r| - 1]))
  {
    StripEnd(StripStart(s))
  }

  /** Stripping a string that starts with a non-blank keeps its first character. */
  lemma StripKeepsFirst(s: string)
    requires s != [] && !IsSpace(s[0])
    ensures Strip(s) != [] && Strip(s)[0] == s[0]
  {
    assert StripStart(s) == s;
    assert |StripEnd(s)| > 0;
  }

  /** `re.sub(r"\s+", " ", s)`: each maximal run of whitespace becomes one blank. */
  function CollapseSpaces(s: string): (r: string)
    ensures forall c :: c in r ==> c == ' ' || c in s
    decreases |s|
  {
    if s == [] then []
    else if IsSpace(s[0]) then [' '] + CollapseSpaces(StripStart(s))
    else [s[0]] + CollapseSpaces(s[1..])
  }

  /** The characters of `s` that are not whitespace, in order. */
  function NonSpace(s: string): string {
    if s == [] then []
    else if IsSpace(s[0]) then NonSpace(s[1..])
    else [s[0]] + NonSpace(s[1..])
  }

  /** A string with no leading, trailing or repeated whitespace, and no whitespace but blanks. */
  predicate IsClean(t: string) {
    && (forall i :: 0 <= i < |t| && IsSpace(t[i]) ==> t[i] == ' ')
    && (forall i :: 0 <= i < |t| - 1 && t[i] == ' ' ==> t[i + 1] != ' ')
    && (t != [] ==> t[0] != ' ' && t[|t| - 1] != ' ')
  }

  /** The run-collapsing form: blanks only, never two in a row. */
  predicate Collapsed(t: string) {
    && (forall i :: 0 <= i < |t| && IsSpace(t[i]) ==> t[i] == ' ')
    && (forall i :: 0 <= i < |t| - 1 && t[i] == ' ' ==> t[i + 1] != ' ')
  }

  lemma {:induction false} CollapseSpacesCollapsed(s: string)
    ensures Collapsed(CollapseSpaces(s))
    ensures CollapseSpaces(s) != [] && CollapseSpaces(s)[0] == ' ' ==> s != [] && IsSpace(s[0])
    decreases |s|
  {
    if s != [] {
      if IsSpace(s[0]) {
        var t := StripStart(s);
        CollapseSpacesCollapsed(t);
        assert t != [] ==> !IsSpace(t[0]);
      } else {
        CollapseSpacesCollapsed(s[1..]);
      }
    }
  }

  lemma {:induction false} NonSpaceAppend(a: string, b: string)
    ensures NonSpace(a + b) == NonSpace(a) + NonSpace(b)
  {
    if a != [] {
      assert (a + b)[0] == a[0];
      assert (a + b)[1..] == a[1..] + b;
      NonSpaceAppend(a[1..], b);
    } else {
      assert a + b == b;
    }
  }

  lemma {:induction false} NonSpaceOfSpaces(s: string)
    requires forall k :: 0 <= k < |s| ==> IsSpace(s[k])
    ensures NonSpace(s) == []
  {
    if s != [] {
      NonSpaceOfSpaces(s[1..]);
    }
  }

  /** Collapsing whitespace keeps every other character, in order. */
  lemma {:induction false} CollapseSpacesKeepsText(s: string)
    ensures NonSpace(CollapseSpaces(s)) == NonSpace(s)
    decreases |s|
  {
    if s != [] {
      if IsSpace(s[0]) {
        var t := StripStart(s);
        CollapseSpacesKeepsText(t);
        assert s == s[..|s| - |t|] + t;
        NonSpaceOfSpaces(s[..|s| - |t|]);
        NonSpaceAppend(s[..|s| - |t|], t);
        NonSpaceAppend([' '], CollapseSpaces(t));
      } else {
        CollapseSpacesKeepsText(s[1..]);
        NonSpaceAppend([s[0]], CollapseSpaces(s[1..]));
      }
    }
  }

  lemma StripStartKeepsText(s: string)
    ensures NonSpace(StripStart(s)) == NonSpace(s)
  {
    var a := StripStart(s);
    assert s == s[..|s| - |a|] + a;
    NonSpaceOfSpaces(s[..|s| - |a|]);
    NonSpaceAppend(s[..|s| - |a|], a);
  }

  lemma StripEndKeepsText(a: string)
    ensures NonSpace(StripEnd(a)) == NonSpace(a)
  {
    var b := StripEnd(a);
    assert a == b + a[|b|..];
    NonSpaceOfSpaces(a[|b|..]);
    NonSpaceAppend(b, a[|b|..]);
  }

  /** Stripping removes only whitespace. */
  lemma StripKeepsText(s: string)
    ensures NonSpace(Strip(s)) == NonSpace(s)
  {
    StripStartKeepsText(s);
    StripEndKeepsText(StripStart(s));
  }

  /** `re.sub(r"\s+", " ", s).strip()`. */
  function CollapseAndStrip(s: string): string {
    Strip(CollapseSpaces(s))
  }

  /** The collapse-and-strip of any string is clean and keeps its text. */
  lemma CollapseAndStripIsClean(s: string)
    ensures IsClean(CollapseAndStrip(s))
    ensures NonSpace(CollapseAndStrip(s)) == NonSpace(s)
  {
    CollapseSpacesCollapsed(s);
    StripOfCollapsedIsClean(CollapseSpaces(s));
    CollapseSpacesKeepsText(s);
    StripKeepsText(CollapseSpaces(s));
  }

  /** Stripping a collapsed string leaves a clean one. */
  lemma StripOfCollapsedIsClean(c: string)
    requires Collapsed(c)
    ensures IsClean(Strip(c))
  {
    var a := StripStart(c);
    SliceOfCollapsed(c, |c| - |a|, |c|);
    var b := StripEnd(a);
    SliceOfCollapsed(a, 0, |b|);
  }

  /** Any slice of a collapsed string is collapsed. */
  lemma SliceOfCollapsed(c: string, lo: nat, hi: nat)
    requires Collapsed(c) && lo <= hi <= |c|
    ensures Collapsed(c[lo..hi])
  {
    var t := c[lo..hi];
    forall i | 0 <= i < |t| - 1 && t[i] == ' '
      ensures t[i + 1] != ' '
    {
      assert t[i] == c[lo + i] && t[i + 1] == c[lo + i + 1];
    }
  }

  lemma {:induction false} CollapseSpacesOfCollapsed(t: string)
    requires Collapsed(t)
    ensures CollapseSpaces(t) == t
    decreases |t|
  {
    if t != [] {
      assert Collapsed(t[1..]);
      if IsSpace(t[0]) {
        assert |t| > 1 ==> !IsSpace(t[1]);
        assert StripStart(t) == t[1..];
      }
      CollapseSpacesOfCollapsed(t[1..]);
    }
  }

  /** Clean strings are fixed points, so collapse-and-strip is idempotent. */
  lemma CollapseAndStripOfClean(t: string)
    requires IsClean(t)
    ensures CollapseAndStrip(t) == t
  {
    CollapseSpacesOfCollapsed(t);
  }

  lemma LowerOfClean(t: string)
    requires IsClean(t)
    ensures IsClean(Lower(t))
  {
  }

  /** Lower-casing and dropping whitespace commute, since lower() keeps whitespace whitespace. */
  lemma {:induction false} NonSpaceLower(t: string)
    ensures NonSpace(Lower(t)) == Lower(NonSpace(t))
    decreases |t|
  {
    if t != [] {
      assert Lower(t)[1..] == Lower(t[1..]);
      NonSpaceLower(t[1..]);
      if !IsSpace(t[0]) {
        assert Lower([t[0]] + NonSpace(t[1..])) == [LowerChar(t[0])] + Lower(NonSpace(t[1..]));
      }
    }
  }

  // ---------------------------------------------------------------------
  // Words: the reference reading of collapse-and-strip, `" ".join(s.split())`
  // ---------------------------------------------------------------------

  predicate NotSpace(c: char) {
    !IsSpace(c)
  }

  /** `s.split()`: the maximal runs of non-whitespace characters, in order. */
  function Words(s: string): (ws: seq<string>)
    decreases |s|
  {
    var t := StripStart(s);
    if t == [] then []
    else
      var e := RunEnd(t, 0, NotSpace);
      [t[..e]] + Words(t[e..])
  }

  /** `" ".join(ws)`. */
  function Join(ws: seq<string>): string {
    if ws == [] then []
    else if |ws| == 1 then ws[0]
    else ws[0] + " " + Join(ws[1..])
  }

  /** Collapse-and-strip writes the words of the text separated by single blanks. */
  lemma CollapseAndStripIsJoinedWords(s: string)
    ensures CollapseAndStrip(s) == Join(Words(s))
  {
    var r := StripStart(s);
    StripStartOfCollapse(s);
    StripStartOfStripped(r);
    if r != [] {
      JoinedWordsFromWord(r);
    }
  }

  /** Leading whitespace collapses to one blank that strip then drops. */
  lemma StripStartOfCollapse(s: string)
    ensures StripStart(CollapseSpaces(s)) == CollapseSpaces(StripStart(s))
  {
    var r := StripStart(s);
    StripStartOfStripped(r);
    if r != [] {
      assert CollapseSpaces(r) == [r[0]] + CollapseSpaces(r[1..]);
      StripStartOfStripped(CollapseSpaces(r));
    }
    if s != [] && IsSpace(s[0]) {
      assert CollapseSpaces(s) == [' '] + CollapseSpaces(r);
      assert StripStart(CollapseSpaces(s)) == StripStart(CollapseSpaces(r));
    } else {
      assert r == s;
    }
  }

  /** A string that starts with a non-blank, or is empty, is its own lstrip. */
  lemma StripStartOfStripped(t: string)
    requires t == [] || !IsSpace(t[0])
    ensures StripStart(t) == t
  {
  }

  /** On a text that starts with a word, collapsing then trimming the end writes its words joined. */
  lemma {:induction false} JoinedWordsFromWord(t: string)
    requires t != [] && !IsSpace(t[0])
    ensures StripEnd(CollapseSpaces(t)) == Join(Words(t))
    ensures Join(Words(t)) != []
    decreases |t|
  {
    var e := RunEnd(t, 0, NotSpace);
    var w := t[..e];
    var rest := t[e..];
    FirstWord(t, e);
    var r := StripStart(rest);
    if r == [] {
      LastWord(w, rest);
    } else {
      JoinedWordsFromWord(r);
      NextWord(w, rest);
    }
  }

  /** A text that starts with a word is that word, then the rest, for both sides. */
  lemma FirstWord(t: string, e: nat)
    requires t != [] && !IsSpace(t[0]) && e == RunEnd(t, 0, NotSpace)
    ensures Words(t) == [t[..e]] + Words(t[e..])
    ensures CollapseSpaces(t) == t[..e] + CollapseSpaces(t[e..])
    ensures t[..e] != [] && !IsSpace(t[e - 1])
    ensures t[e..] == [] || IsSpace(t[e])
  {
    assert t == t[..e] + t[e..];
    StripStartOfStripped(t);
    CollapseWord(t[..e], t[e..]);
  }

  /** A word followed by whitespace only: the last word. */
  lemma LastWord(w: string, rest: string)
    requires w != [] && !IsSpace(w[|w| - 1])
    requires StripStart(rest) == []
    ensures StripEnd(w + CollapseSpaces(rest)) == Join([w] + Words(rest))
  {
    if rest != [] {
      assert CollapseSpaces(rest) == [' '] + CollapseSpaces(StripStart(rest));
    }
    StripEndOfWordThenBlanks(w, CollapseSpaces(rest));
    assert Words(rest) == [];
  }

  /** A word, whitespace, and more words: the word, one blank, and the rest joined. */
  lemma NextWord(w: string, rest: string)
    requires rest != [] && IsSpace(rest[0])
    requires StripStart(rest) != []
    requires StripEnd(CollapseSpaces(StripStart(rest))) == Join(Words(StripStart(rest)))
    requires Join(Words(StripStart(rest))) != []
    ensures StripEnd(w + CollapseSpaces(rest)) == Join([w] + Words(rest))
  {
    var r := StripStart(rest);
    var c := CollapseSpaces(r);
    assert w + CollapseSpaces(rest) == (w + " ") + c by {
      CollapseLeadingSpace(rest);
      AppendAssoc(w, " ", c);
    }
    StripEndAppend(w + " ", c);
    WordsAfterSpace(rest);
    JoinCons(w, Words(r));
  }

  lemma AppendAssoc(a: string, b: string, c: string)
    ensures a + (b + c) == (a + b) + c
  {
  }

  /** A leading run of whitespace collapses to one blank. */
  lemma CollapseLeadingSpace(s: string)
    requires s != [] && IsSpace(s[0])
    ensures CollapseSpaces(s) == [' '] + CollapseSpaces(StripStart(s))
  {
  }

  /** Leading whitespace does not change the words. */
  lemma WordsAfterSpace(s: string)
    ensures Words(s) == Words(StripStart(s))
  {
    var r := StripStart(s);
    StripStartOfStripped(r);
  }

  lemma JoinCons(w: string, ws: seq<string>)
    requires ws != []
    ensures Join([w] + ws) == w + " " + Join(ws)
  {
    assert ([w] + ws)[1..] == ws;
  }

  /** A word is copied unchanged by the collapse. */
  lemma {:induction false} CollapseWord(w: string, rest: string)
    requires forall k :: 0 <= k < |w| ==> !IsSpace(w[k])
    ensures CollapseSpaces(w + rest) == w + CollapseSpaces(rest)
    decreases |w|
  {
    if w != [] {
      var t := w + rest;
      assert CollapseSpaces(t) == [w[0]] + CollapseSpaces(w[1..] + rest) by {
        assert t[0] == w[0] && !IsSpace(t[0]);
        assert t[1..] == w[1..] + rest;
      }
      CollapseWord(w[1..], rest);
      assert [w[0]] + (w[1..] + CollapseSpaces(rest)) == w + CollapseSpaces(rest) by {
        assert w == [w[0]] + w[1..];
      }
    } else {
      assert w + rest == rest;
    }
  }

  /** Trimming the end of a word followed by at most blanks gives the word. */
  lemma {:induction false} StripEndOfWordThenBlanks(w: string, x: string)
    requires w != [] && !IsSpace(w[|w| - 1])
    requires forall k :: 0 <= k < |x| ==> x[k] == ' '
    ensures StripEnd(w + x) == w
    decreases |x|
  {
    if x != [] {
      assert (w + x)[..|w + x| - 1] == w + x[..|x| - 1];
      StripEndOfWordThenBlanks(w, x[..|x| - 1]);
    } else {
      assert w + x == w;
    }
  }

  /** Trailing whitespace is trimmed from the last part alone when it is not all whitespace. */
  lemma {:induction false} StripEndAppend(a: string, b: string)
    requires StripEnd(b) != []
    ensures StripEnd(a + b) == a + StripEnd(b)
    decreases |b|
  {
    if IsSpace(b[|b| - 1]) {
      assert (a + b)[..|a + b| - 1] == a + b[..|b| - 1];
      StripEndAppend(a, b[..|b| - 1]);
    }
  }

  // ---------------------------------------------------------------------
  // Numerals, as the patterns capture them and float() reads them
  // ---------------------------------------------------------------------

  predicate AllDigits(ds: string) {
    forall k :: 0 <= k < |ds| ==> IsDigit(ds[k])
  }

  /** `int(ds)` of a run of digits. */
  function NatValue(ds: string): nat
    requires AllDigits(ds)
    decreases |ds|
  {
    if ds == [] then 0 else NatValue(ds[..|ds| - 1]) * 10 + DigitValue(ds[|ds| - 1])
  }

  /**
   * The value of the fractional digits `ds` written after a decimal point,
   * read from the right: `0.d1d2...` is `(d1 + 0.d2...) / 10`.
   */
  function Fraction(ds: string): (f: real)
    requires AllDigits(ds)
    ensures 0.0 <= f < 1.0
  {
    if ds == [] then 0.0 else (DigitValue(ds[0]) as real + Fraction(ds[1..])) / 10.0
  }

  /** A captured numeral: the value `float()` gives it and the index just after it. */
  datatype Numeral = Numeral(value: real, end: nat)

  /**
   * `\d+(?:\.\d+)?` at `i`. Greedy repetition takes the whole run of digits and a
   * fraction when one follows; every pattern that uses it continues with a unit,
   * a letter, `x`, `*` or blanks, never with a digit or a point, so backtracking
   * into a shorter numeral cannot succeed where this one fails.
   */
  function Decimal(s: string, i: nat): (n: Option<Numeral>)
    ensures n.Some? ==> i < n.value.end <= |s| && n.value.value >= 0.0
    ensures n.Some? <==> i < |s| && IsDigit(s[i])
  {
    if i < |s| && IsDigit(s[i]) then
      var j := RunEnd(s, i, IsDigit);
      if j + 1 < |s| && s[j] == '.' && IsDigit(s[j + 1]) then
        var k := RunEnd(s, j + 1, IsDigit);
        Some(Numeral(NatValue(s[i..j]) as real + Fraction(s[j + 1..k]), k))
      else
        Some(Numeral(NatValue(s[i..j]) as real, j))
    else
      None
  }

  /** `\d+(?:\.\d{1,2})?` at `i`: at most two fractional digits are taken. */
  function PriceDecimal(s: string, i: nat): (n: Option<Numeral>)
    ensures n.Some? ==> i < n.value.end <= |s| && n.value.value >= 0.0
    ensures n.Some? <==> i < |s| && IsDigit(s[i])
  {
    if i < |s| && IsDigit(s[i]) then
      var j := RunEnd(s, i, IsDigit);
      if j + 1 < |s| && s[j] == '.' && IsDigit(s[j + 1]) then
        var k := if j + 2 < |s| && IsDigit(s[j + 2]) then j + 3 else j + 2;
        Some(Numeral(NatValue(s[i..j]) as real + Fraction(s[j + 1..k]), k))
      else
        Some(Numeral(NatValue(s[i..j]) as real, j))
    else
      None
  }

  /** `\d+` at `i`: a whole number. */
  function Integer(s: string, i: nat): (n: Option<Numeral>)
    ensures n.Some? ==> i < n.value.end <= |s| && n.value.value >= 0.0
    ensures n.Some? ==> n.value.value == n.value.value.Floor as real
    ensures n.Some? <==> i < |s| && IsDigit(s[i])
  {
    if i < |s| && IsDigit(s[i]) then
      var j := RunEnd(s, i, IsDigit);
      Some(Numeral(NatValue(s[i..j]) as real, j))
    else
      None
  }

  // ---------------------------------------------------------------------
  // Prefix tests and the leftmost scan of re.search
  // ---------------------------------------------------------------------

  /** `w` (lower case) occurs at `i` when case is ignored, as under `re.I`. */
  predicate AtNoCase(s: string, i: nat, w: string) {
    i + |w| <= |s| && Lower(s[i..i + |w|]) == w
  }

  /** The first alternative of `ws`, in order, that occurs at `i` ignoring case. */
  function FirstAltNoCase(s: string, i: nat, ws: seq<string>): (r: Option<string>)
    ensures r.Some? ==> r.value in ws && AtNoCase(s, i, r.value)
    ensures r.None? ==> forall k :: 0 <= k < |ws| ==> !AtNoCase(s, i, ws[k])
  {
    if ws == [] then None
    else if AtNoCase(s, i, ws[0]) then Some(ws[0])
    else FirstAltNoCase(s, i, ws[1..])
  }

  /** The first alternative of `ws`, in order, that occurs at `i` exactly. */
  function FirstAt(s: string, i: nat, ws: seq<string>): (r: Option<string>)
    ensures r.Some? ==> r.value in ws && At(s, i, r.value)
    ensures r.None? ==> forall k :: 0 <= k < |ws| ==> !At(s, i, ws[k])
  {
    if ws == [] then None
    else if At(s, i, ws[0]) then Some(ws[0])
    else FirstAt(s, i, ws[1..])
  }

  /** `FirstAt` picks the alternative at index `k` when it is the first one written at `i`. */
  lemma {:induction false} FirstAtIndex(s: string, i: nat, ws: seq<string>, k: nat)
    requires k < |ws| && At(s, i, ws[k])
    requires forall j :: 0 <= j < k ==> !At(s, i, ws[j])
    ensures FirstAt(s, i, ws) == Some(ws[k])
  {
    if k > 0 {
      assert !At(s, i, ws[0]);
      FirstAtIndex(s, i, ws[1..], k - 1);
    }
  }

  /**
   * An alternation `(?:w0|w1|...)` followed by the rest of a pattern: the
   * alternatives are tried in order and the first one for which `attempt`
   * (the alternative's own match plus what follows it) succeeds is taken.
   */
  function Alternatives<T>(ws: seq<string>, attempt: string -> Option<T>): (r: Option<T>)
    ensures r.Some? ==> exists k :: 0 <= k < |ws| && attempt(ws[k]) == r
    ensures r.None? ==> forall k :: 0 <= k < |ws| ==> attempt(ws[k]).None?
  {
    if ws == [] then None
    else if attempt(ws[0]).Some? then attempt(ws[0])
    else Alternatives(ws[1..], attempt)
  }

  /** `Alternatives` takes the alternative at index `k` when it is the first that succeeds. */
  lemma {:induction false} AlternativesIndex<T>(ws: seq<string>, attempt: string -> Option<T>, k: nat)
    requires k < |ws| && attempt(ws[k]).Some?
    requires forall j :: 0 <= j < k ==> attempt(ws[j]).None?
    ensures Alternatives(ws, attempt) == attempt(ws[k])
  {
    if k > 0 {
      assert attempt(ws[0]).None?;
      AlternativesIndex(ws[1..], attempt, k - 1);
    }
  }

  /** A match found by a scan, and the position where it starts. */
  datatype Hit<T> = Hit(at: nat, value: T)

  /**
   * `re.search`: try the positions `i`, `i + 1`, ..., `last` in turn and report
   * the first one where the pattern, given as `at`, matches.
   */
  function Leftmost<T>(at: nat -> Option<T>, i: nat, last: nat): (r: Option<Hit<T>>)
    ensures r.Some? ==> i <= r.value.at <= last && at(r.value.at) == Some(r.value.value)
    ensures r.Some? ==> forall j :: i <= j < r.value.at ==> at(j).None?
    ensures r.None? ==> forall j :: i <= j <= last ==> at(j).None?
    decreases last + 1 - i
  {
    if i > last then None
    else match at(i)
      case Some(v) => Some(Hit(i, v))
      case None => Leftmost(at, i + 1, last)
  }

  /** The value of the leftmost match, as `m.group(k)` after `re.search`. */
  function Search<T>(at: nat -> Option<T>, s: string): (r: Option<T>)
    ensures r.Some? ==> exists j :: 0 <= j <= |s| && at(j) == r
    ensures r.None? ==> forall j :: 0 <= j <= |s| ==> at(j).None?
  {
    match Leftmost(at, 0, |s|)
    case Some(h) => Some(h.value)
    case None => None
  }

  /** Where the pattern matches nowhere, the search finds nothing. */
  lemma SearchNothing<T>(at: nat -> Option<T>, s: string)
    requires forall j :: 0 <= j <= |s| ==> at(j).None?
    ensures Search(at, s).None?
  {
  }

  /** The scan stops at the first position where the pattern matches. */
  lemma {:induction false} LeftmostFirst<T>(at: nat -> Option<T>, i: nat, last: nat, j: nat)
    requires i <= j <= last && at(j).Some?
    requires forall k :: i <= k < j ==> at(k).None?
    ensures Leftmost(at, i, last) == Some(Hit(j, at(j).value))
    decreases j - i
  {
    if i < j {
      LeftmostFirst(at, i + 1, last, j);
    }
  }

  /** `re.search` reports the match at the first position where there is one. */
  lemma SearchFirst<T>(at: nat -> Option<T>, s: string, j: nat)
    requires j <= |s| && at(j).Some?
    requires forall k :: 0 <= k < j ==> at(k).None?
    ensures Search(at, s) == at(j)
  {
    LeftmostFirst(at, 0, |s|, j);
  }

  /** The matcher `at` reports only non-empty matches ending inside `s`. */
  ghost predicate ValidMatcher(s: string, at: nat -> Option<nat>) {
    forall k :: 0 <= k <= |s| && at(k).Some? ==> k < at(k).value <= |s|
  }

  /**
   * `re.sub(pattern, repl, s)` from position `i`, for a pattern that never matches
   * the empty string: where `at(k)` reports a match ending at `e`, `repl` replaces
   * `s[k..e]` and the scan resumes at `e`; elsewhere `s[k]` is copied.
   */
  function Substitute(s: string, at: nat -> Option<nat>, repl: string, i: nat): (r: string)
    requires i <= |s|
    requires ValidMatcher(s, at)
    ensures forall c :: c in r ==> c in s[i..] || c in repl
    decreases |s| - i
  {
    if i == |s| then []
    else match at(i)
      case Some(e) => repl + Substitute(s, at, repl, e)
      case None => [s[i]] + Substitute(s, at, repl, i + 1)
  }

  /** Where the pattern matches nowhere, the substitution leaves the text as it is. */
  lemma {:induction false} SubstituteWithoutMatch(s: string, at: nat -> Option<nat>, repl: string, i: nat)
    requires i <= |s| && ValidMatcher(s, at)
    requires forall k :: i <= k <= |s| ==> at(k).None?
    ensures Substitute(s, at, repl, i) == s[i..]
    decreases |s| - i
  {
    if i < |s| {
      SubstituteWithoutMatch(s, at, repl, i + 1);
      assert s[i..] == [s[i]] + s[i + 1..];
    }
  }
}

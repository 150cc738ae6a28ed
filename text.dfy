/**
 * The text clean-up applied to the extracted main content before it goes into the
 * prompt: every whitespace run becomes one space, the result is trimmed, and only
 * its first 7000 characters are kept.
 * Lengths count `char`s, which are Unicode scalar values; `substring` counts UTF-16
 * code units, so the two agree on text inside the Basic Multilingual Plane.
 */
module TextNorm {

  /** The characters that `\s` matches in an ECMAScript regular expression and that
      `String.prototype.trim` removes: the WhiteSpace code points (tab, vertical tab,
      form feed, space, no-break space, the byte order mark and the Unicode space
      separators) and the LineTerminator code points (line feed, carriage return,
      line separator, paragraph separator). */
  predicate IsWhitespace(c: char) {
    c == ' ' || InRanges(c as int, OtherWhitespace)
  }

  /** The whitespace code points other than the space, as inclusive ranges. */
  const OtherWhitespace: seq<(int, int)> :=
    [(0x09, 0x0D), (0xA0, 0xA0), (0x1680, 0x1680), (0x2000, 0x200A), (0x2028, 0x2029),
     (0x202F, 0x202F), (0x205F, 0x205F), (0x3000, 0x3000), (0xFEFF, 0xFEFF)]

  predicate InRanges(u: int, ranges: seq<(int, int)>) {
    ranges != [] && ((ranges[0].0 <= u <= ranges[0].1) || InRanges(u, ranges[1..]))
  }

  /** The reference truncation bound on the cleaned text, in characters. */
  const MaxChars: nat := 7000

  /** Every character of `s` in `[lo, hi)` is whitespace. */
  ghost predicate WsBetween(s: string, lo: int, hi: int) {
    forall i :: lo <= i < hi && 0 <= i < |s| ==> IsWhitespace(s[i])
  }

  ghost predicate AllWhitespace(s: string) {
    WsBetween(s, 0, |s|)
  }

  /** Whitespace inside `s` is only ever a single space character, never two in a row. */
  ghost predicate SingleSpaced(s: string) {
    (forall i :: 0 <= i < |s| && IsWhitespace(s[i]) ==> s[i] == ' ') &&
    (forall i, j :: 0 <= i && j == i + 1 && j < |s| ==> !(IsWhitespace(s[i]) && IsWhitespace(s[j])))
  }

  /** Neither starts nor ends with whitespace. */
  ghost predicate Trimmed(s: string) {
    s == [] || (!IsWhitespace(s[0]) && !IsWhitespace(s[|s| - 1]))
  }

  /** The shape of normalised text: single-spaced and trimmed. */
  ghost predicate Normal(s: string) {
    SingleSpaced(s) && Trimmed(s)
  }

  /** The non-whitespace characters of `s`, in order: what normalisation must keep. */
  function NonWs(s: string): (r: string)
    ensures |r| <= |s|
    ensures forall i :: 0 <= i < |r| ==> !IsWhitespace(r[i])
  {
    if s == [] then []
    else (if IsWhitespace(s[0]) then [] else [s[0]]) + NonWs(s[1..])
  }

  /** The end of the whitespace run that starts at `i`: the first index at or after
      `i` that does not hold whitespace, or `|s|`. */
  function SkipWs(s: string, i: nat): (r: nat)
    requires i <= |s|
    ensures i <= r <= |s|
    ensures WsBetween(s, i, r)
    ensures r < |s| ==> !IsWhitespace(s[r])
    decreases |s| - i
  {
    if i == |s| || !IsWhitespace(s[i]) then i else SkipWs(s, i + 1)
  }

  /** The start of the whitespace run that ends at `j`, going back no further than
      `lo`. */
  function SkipWsBack(s: string, lo: nat, j: nat): (r: nat)
    requires lo <= j <= |s|
    ensures lo <= r <= j
    ensures WsBetween(s, r, j)
    ensures r > lo ==> !IsWhitespace(s[r - 1])
    decreases j
  {
    if j == lo || !IsWhitespace(s[j - 1]) then j else SkipWsBack(s, lo, j - 1)
  }

  /** `String.prototype.trim`: the part of `s` between its leading and its trailing
      whitespace. */
  function Trim(s: string): (r: string)
    ensures var a := SkipWs(s, 0);
      a + |r| <= |s| && r == s[a..a + |r|] &&
      WsBetween(s, 0, a) && WsBetween(s, a + |r|, |s|)
    ensures Trimmed(r)
  {
    var a := SkipWs(s, 0);
    s[a..SkipWsBack(s, a, |s|)]
  }

  /** Prepending one character to single-spaced text keeps it single-spaced when that
      character is not whitespace, or is a space and the text does not start with
      whitespace. */
  lemma SingleSpacedCons(x: char, c: string)
    requires SingleSpaced(c)
    requires IsWhitespace(x) ==> x == ' ' && (c == [] || !IsWhitespace(c[0]))
    ensures SingleSpaced([x] + c)
  {
    var r := [x] + c;
    forall i | 0 <= i < |r| && IsWhitespace(r[i]) ensures r[i] == ' ' {
      if i > 0 { assert r[i] == c[i - 1]; }
    }
    forall i, j | 0 <= i && j == i + 1 && j < |r|
      ensures !(IsWhitespace(r[i]) && IsWhitespace(r[j]))
    {
      if i > 0 { assert r[i] == c[i - 1] && r[j] == c[j - 1]; }
    }
  }

  /** `s.replace(/\s+/g, " ")`: every maximal run of whitespace becomes one space. */
  function Collapse(s: string): (r: string)
    ensures |r| <= |s|
    ensures r == [] <==> s == []
    ensures r != [] ==> (IsWhitespace(r[0]) <==> IsWhitespace(s[0]))
    ensures r != [] ==> (IsWhitespace(r[|r| - 1]) <==> IsWhitespace(s[|s| - 1]))
    ensures SingleSpaced(r)
  {
    if s == [] then []
    else if IsWhitespace(s[0]) then
      var rest := Collapse(s[SkipWs(s, 0)..]);
      SingleSpacedCons(' ', rest);
      " " + rest
    else
      var rest := Collapse(s[1..]);
      SingleSpacedCons(s[0], rest);
      [s[0]] + rest
  }

  /** The text before truncation: collapsed, then trimmed. */
  function Normalize(s: string): string {
    Trim(Collapse(s))
  }

  /** `String.prototype.substring(start, end)`: both bounds are clamped to
      `[0, |s|]` and swapped when `start > end`. */
  function Substring(s: string, start: int, end: int): string {
    var a := Clamp(start, |s|);
    var b := Clamp(end, |s|);
    if a <= b then s[a..b] else s[b..a]
  }

  /** A `substring` bound moved to the nearest end of `[0, len]` when outside it. */
  function Clamp(i: int, len: nat): (r: nat)
    ensures r <= len
    ensures 0 <= i <= len ==> r == i
    ensures i < 0 ==> r == 0
    ensures i > len ==> r == len
  {
    if i < 0 then 0 else if i > len then len else i
  }

  /** The `cleanText` the controller puts into the prompt. */
  function CleanText(content: string): string {
    Substring(Normalize(content), 0, MaxChars)
  }

  // ---------------------------------------------------------------------------
  // Lemmas about NonWs

  lemma {:induction false} NonWsConcat(a: string, b: string)
    ensures NonWs(a + b) == NonWs(a) + NonWs(b)
  {
    if a == [] {
      assert a + b == b;
    } else {
      assert (a + b)[1..] == a[1..] + b;
      NonWsConcat(a[1..], b);
    }
  }

  /** A stretch of whitespace contributes nothing to `NonWs`. */
  lemma {:induction false} NonWsOfWhitespace(s: string, lo: nat, hi: nat)
    requires lo <= hi <= |s| && WsBetween(s, lo, hi)
    ensures NonWs(s[lo..hi]) == []
    decreases hi - lo
  {
    if lo < hi {
      assert s[lo..hi][1..] == s[lo + 1..hi];
      NonWsOfWhitespace(s, lo + 1, hi);
    }
  }

  /** `NonWs(s)` is empty exactly when `s` is all whitespace. */
  lemma {:induction false} NonWsEmptyIff(s: string)
    ensures NonWs(s) == [] <==> AllWhitespace(s)
  {
    if s != [] {
      NonWsEmptyIff(s[1..]);
      if !IsWhitespace(s[0]) {
        assert NonWs(s)[0] == s[0];
      } else if AllWhitespace(s[1..]) {
        forall i | 0 <= i < |s| ensures IsWhitespace(s[i]) {
          if i > 0 { assert s[i] == s[1..][i - 1]; }
        }
      } else {
        var i :| 0 <= i < |s[1..]| && !IsWhitespace(s[1..][i]);
        assert s[i + 1] == s[1..][i];
      }
    }
  }

  lemma SplitThree(s: string, lo: nat, hi: nat)
    requires lo <= hi <= |s|
    ensures s == s[0..lo] + s[lo..hi] + s[hi..|s|]
  {
  }

  /** Removing whitespace around an infix keeps every non-whitespace character. */
  lemma NonWsOfInfix(s: string, lo: nat, hi: nat)
    requires lo <= hi <= |s|
    requires WsBetween(s, 0, lo) && WsBetween(s, hi, |s|)
    ensures NonWs(s[lo..hi]) == NonWs(s)
  {
    var pre, mid, post := s[0..lo], s[lo..hi], s[hi..|s|];
    SplitThree(s, lo, hi);
    NonWsOfWhitespace(s, 0, lo);
    NonWsOfWhitespace(s, hi, |s|);
    calc {
      NonWs(s);
      NonWs((pre + mid) + post);
      { NonWsConcat(pre + mid, post); }
      NonWs(pre + mid) + NonWs(post);
      { NonWsConcat(pre, mid); }
      NonWs(pre) + NonWs(mid) + NonWs(post);
    }
  }

  // ---------------------------------------------------------------------------
  // Properties of the normalisation

  /** Collapsing whitespace keeps every other character, in order. */
  lemma {:induction false} CollapseKeepsNonWs(s: string)
    ensures NonWs(Collapse(s)) == NonWs(s)
  {
    if s != [] {
      if IsWhitespace(s[0]) {
        var k := SkipWs(s, 0);
        CollapseKeepsNonWs(s[k..]);
        NonWsConcat(" ", Collapse(s[k..]));
        LeadingWsDropped(s);
      } else {
        CollapseKeepsNonWs(s[1..]);
        NonWsConcat([s[0]], Collapse(s[1..]));
      }
    }
  }

  /** Leading whitespace contributes nothing to `NonWs`. */
  lemma LeadingWsDropped(s: string)
    ensures NonWs(s[SkipWs(s, 0)..]) == NonWs(s)
  {
    var k := SkipWs(s, 0);
    NonWsOfInfix(s, k, |s|);
    assert s[k..|s|] == s[k..];
  }

  /** Single-spaced text has no run of whitespace left to collapse. */
  lemma {:induction false} CollapseSingleSpaced(s: string)
    requires SingleSpaced(s)
    ensures Collapse(s) == s
  {
    if s != [] {
      SingleSpacedInfix(s, 1, |s|);
      assert s[1..|s|] == s[1..];
      CollapseSingleSpaced(s[1..]);
      if IsWhitespace(s[0]) {
        assert |s| > 1 ==> !IsWhitespace(s[1]);
        assert SkipWs(s, 0) == 1;
      }
    }
  }

  /** Where the whitespace run starting at `i` ends, in `a` and in `a + b`: the same
      place when the run stops inside `a`, and the end of `a` when it reaches that end
      and `b` does not start with whitespace. */
  lemma {:induction false} SkipWsConcat(a: string, b: string, i: nat)
    requires i <= |a|
    ensures SkipWs(a, i) < |a| ==> SkipWs(a + b, i) == SkipWs(a, i)
    ensures SkipWs(a, i) == |a| && (b == [] || !IsWhitespace(b[0])) ==> SkipWs(a + b, i) == |a|
    decreases |a| - i
  {
    if i < |a| && IsWhitespace(a[i]) {
      assert (a + b)[i] == a[i];
      SkipWsConcat(a, b, i + 1);
    } else if i == |a| && b != [] {
      assert (a + b)[i] == b[0];
    } else if i < |a| {
      assert (a + b)[i] == a[i];
    }
  }

  lemma ConcatAssoc(x: string, y: string, z: string)
    ensures x + (y + z) == x + y + z
  {
  }

  /** Collapsing text that starts with a non-whitespace character keeps it. */
  lemma CollapseCharStep(s: string)
    requires s != [] && !IsWhitespace(s[0])
    ensures Collapse(s) == [s[0]] + Collapse(s[1..])
  {
  }

  /** Collapsing text that starts with whitespace puts one space for the whole run. */
  lemma CollapseWsStep(s: string)
    requires s != [] && IsWhitespace(s[0])
    ensures Collapse(s) == " " + Collapse(s[SkipWs(s, 0)..])
  {
  }

  /** Collapsing distributes over a concatenation that does not join two whitespace
      runs into one. */
  lemma {:induction false} CollapseConcat(a: string, b: string)
    requires a == [] || b == [] || !IsWhitespace(a[|a| - 1]) || !IsWhitespace(b[0])
    ensures Collapse(a + b) == Collapse(a) + Collapse(b)
    decreases |a|
  {
    if a == [] {
      assert a + b == b;
    } else if b == [] {
      assert a + b == a;
    } else if !IsWhitespace(a[0]) {
      CollapseConcatChar(a, b);
    } else {
      CollapseConcatWs(a, b);
    }
  }

  lemma {:induction false} CollapseConcatChar(a: string, b: string)
    requires a != [] && b != [] && !IsWhitespace(a[0])
    requires !IsWhitespace(a[|a| - 1]) || !IsWhitespace(b[0])
    ensures Collapse(a + b) == Collapse(a) + Collapse(b)
    decreases |a|, 0
  {
    var ab := a + b;
    assert ab[0] == a[0];
    assert ab[1..] == a[1..] + b;
    CollapseCharStep(ab);
    CollapseCharStep(a);
    CollapseConcat(a[1..], b);
    ConcatAssoc([a[0]], Collapse(a[1..]), Collapse(b));
  }

  lemma {:induction false} CollapseConcatWs(a: string, b: string)
    requires a != [] && b != [] && IsWhitespace(a[0])
    requires !IsWhitespace(a[|a| - 1]) || !IsWhitespace(b[0])
    ensures Collapse(a + b) == Collapse(a) + Collapse(b)
    decreases |a|, 1
  {
    SkipWsConcat(a, b, 0);
    if SkipWs(a, 0) < |a| {
      CollapseConcatWsInside(a, b);
    } else {
      CollapseConcatWsWhole(a, b);
    }
  }

  /** The leading run of `a` stops inside `a`. */
  lemma {:induction false} CollapseConcatWsInside(a: string, b: string)
    requires a != [] && b != [] && IsWhitespace(a[0])
    requires !IsWhitespace(a[|a| - 1]) || !IsWhitespace(b[0])
    requires SkipWs(a, 0) < |a| && SkipWs(a + b, 0) == SkipWs(a, 0)
    ensures Collapse(a + b) == Collapse(a) + Collapse(b)
    decreases |a|, 0
  {
    var ab := a + b;
    var k := SkipWs(a, 0);
    assert ab[0] == a[0];
    assert a[k..][|a[k..]| - 1] == a[|a| - 1];
    calc {
      Collapse(ab);
      { CollapseWsStep(ab); }
      " " + Collapse(ab[k..]);
      { assert ab[k..] == a[k..] + b; }
      " " + Collapse(a[k..] + b);
      { CollapseConcat(a[k..], b); }
      " " + (Collapse(a[k..]) + Collapse(b));
      { ConcatAssoc(" ", Collapse(a[k..]), Collapse(b)); }
      " " + Collapse(a[k..]) + Collapse(b);
      { CollapseWsStep(a); }
      Collapse(a) + Collapse(b);
    }
  }

  /** `a` is one whitespace run, and `b` starts with something else. */
  lemma CollapseConcatWsWhole(a: string, b: string)
    requires a != [] && b != [] && IsWhitespace(a[0])
    requires SkipWs(a, 0) == |a| && SkipWs(a + b, 0) == |a|
    ensures Collapse(a + b) == Collapse(a) + Collapse(b)
  {
    var ab := a + b;
    assert ab[0] == a[0];
    CollapseWsStep(ab);
    CollapseWsStep(a);
    assert ab[|a|..] == b;
    assert a[|a|..] == [];
  }

  /** A non-empty run made only of whitespace collapses to one space. */
  lemma CollapseRun(w: string)
    requires w != [] && AllWhitespace(w)
    ensures Collapse(w) == " "
  {
    assert IsWhitespace(w[0]);
    assert SkipWs(w, 0) == |w|;
    assert w[|w|..] == [];
  }

  /** Each whitespace run between two pieces of text becomes exactly one space, and
      the text on either side is collapsed on its own: words stay apart, one space
      between them. */
  lemma CollapseRunToSpace(x: string, w: string, y: string)
    requires w != [] && AllWhitespace(w)
    requires x == [] || !IsWhitespace(x[|x| - 1])
    requires y == [] || !IsWhitespace(y[0])
    ensures Collapse(x + w + y) == Collapse(x) + " " + Collapse(y)
  {
    assert (x + w)[|x + w| - 1] == w[|w| - 1];
    calc {
      Collapse(x + w + y);
      { CollapseConcat(x + w, y); }
      Collapse(x + w) + Collapse(y);
      { CollapseConcat(x, w); }
      Collapse(x) + Collapse(w) + Collapse(y);
      { CollapseRun(w); }
      Collapse(x) + " " + Collapse(y);
    }
  }

  /** A non-whitespace character is left as it is. */
  lemma CollapseKeepsChar(c: char)
    requires !IsWhitespace(c)
    ensures Collapse([c]) == [c]
  {
    assert [c][1..] == [];
  }

  /** An infix of single-spaced text is single-spaced. */
  lemma SingleSpacedInfix(s: string, a: nat, b: nat)
    requires a <= b <= |s| && SingleSpaced(s)
    ensures SingleSpaced(s[a..b])
  {
    var t := s[a..b];
    forall i, j | 0 <= i && j == i + 1 && j < |t|
      ensures !(IsWhitespace(t[i]) && IsWhitespace(t[j]))
    {
      assert t[i] == s[a + i] && t[j] == s[a + j];
    }
  }

  /** Normalised text is single-spaced, trimmed, and keeps every non-whitespace
      character of the input in order. */
  lemma NormalizeShape(s: string)
    ensures Normal(Normalize(s))
    ensures NonWs(Normalize(s)) == NonWs(s)
  {
    NormalizeSingleSpaced(s);
    NormalizeKeepsNonWs(s);
  }

  lemma NormalizeSingleSpaced(s: string)
    ensures SingleSpaced(Normalize(s))
  {
    var c := Collapse(s);
    var a := SkipWs(c, 0);
    var t := Trim(c);
    assert t == c[a..a + |t|];
    SingleSpacedInfix(c, a, a + |t|);
  }

  lemma NormalizeKeepsNonWs(s: string)
    ensures NonWs(Normalize(s)) == NonWs(s)
  {
    var c := Collapse(s);
    var a := SkipWs(c, 0);
    var t := Trim(c);
    assert t == c[a..a + |t|];
    NonWsOfInfix(c, a, a + |t|);
    CollapseKeepsNonWs(s);
  }

  /** Normalising already normalised text changes nothing. */
  lemma NormalizeIdempotent(s: string)
    ensures Normalize(Normalize(s)) == Normalize(s)
  {
    var n := Normalize(s);
    NormalizeShape(s);
    CollapseSingleSpaced(n);
    assert SkipWs(n, 0) == 0;
    assert SkipWsBack(n, 0, |n|) == |n|;
    assert n[0..|n|] == n;
  }

  /** The normalised text is empty exactly when the input is all whitespace (a
      whitespace-only region yields an empty `cleanText`). */
  lemma NormalizeEmptyIff(s: string)
    ensures Normalize(s) == [] <==> AllWhitespace(s)
  {
    NormalizeShape(s);
    NonWsEmptyIff(s);
    NonWsEmptyIff(Normalize(s));
  }

  /** `cleanText` is at most 7000 characters, a prefix of the normalised text, and
      all of it whenever the normalised text fits. */
  lemma CleanTextBounds(content: string)
    ensures |CleanText(content)| <= MaxChars
    ensures CleanText(content) == Normalize(content)[..|CleanText(content)|]
    ensures |Normalize(content)| <= MaxChars ==> CleanText(content) == Normalize(content)
    ensures |Normalize(content)| > MaxChars ==> |CleanText(content)| == MaxChars
  {
  }

  /** The shape of `cleanText`: single spaces only, no leading whitespace, and no
      trailing whitespace unless the cut at 7000 characters fell on a space. */
  lemma CleanTextShape(content: string)
    ensures SingleSpaced(CleanText(content))
    ensures CleanText(content) == [] || !IsWhitespace(CleanText(content)[0])
    ensures |Normalize(content)| <= MaxChars ==> Trimmed(CleanText(content))
  {
    var n := Normalize(content);
    NormalizeShape(content);
    SingleSpacedInfix(n, 0, |CleanText(content)|);
  }

  /** Text with at least 7000 non-whitespace characters is cut to exactly 7000. */
  lemma LongContentTruncated(content: string)
    requires |NonWs(content)| >= MaxChars
    ensures |CleanText(content)| == MaxChars
  {
    NormalizeShape(content);
  }
}

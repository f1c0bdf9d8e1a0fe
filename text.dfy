/**
 * The string operations of Rust's `str` that the front-matter code relies on:
 * `trim` (Unicode White_Space on both ends), `starts_with`, and a left-to-right
 * substring search, which is what `split_once` and the lazy `+++` regex use.
 */
module Text {
  import opened Wrappers

  /** `char::is_whitespace`: the Unicode White_Space property. */
  predicate IsWhitespace(c: char) {
    var n := c as int;
    (0x09 <= n <= 0x0D) || n == 0x20 || n == 0x85 || n == 0xA0 || n == 0x1680
    || (0x2000 <= n <= 0x200A) || n == 0x2028 || n == 0x2029 || n == 0x202F
    || n == 0x205F || n == 0x3000
  }

  /** On ASCII it is exactly space, tab, line feed, vertical tab, form feed and carriage return. */
  lemma AsciiWhitespace(c: char)
    requires c as int < 0x80
    ensures IsWhitespace(c) <==> c == ' ' || c == '\t' || c == '\n' || c as int == 0x0B || c as int == 0x0C || c == '\r'
  {
  }

  predicate AllWhitespace(s: string) {
    forall i :: 0 <= i < |s| ==> IsWhitespace(s[i])
  }

  /** The first index at or after `i` that does not hold whitespace, or `|s|`. */
  function SkipForward(s: string, i: nat): (j: nat)
    requires i <= |s|
    decreases |s| - i
    ensures i <= j <= |s|
    ensures forall k :: i <= k < j ==> IsWhitespace(s[k])
    ensures j == |s| || !IsWhitespace(s[j])
  {
    if i == |s| || !IsWhitespace(s[i]) then i else SkipForward(s, i + 1)
  }

  /** The smallest `i <= j` such that `s[i..j]` is all whitespace. */
  function SkipBackward(s: string, j: nat): (i: nat)
    requires j <= |s|
    ensures i <= j
    ensures forall k :: i <= k < j ==> IsWhitespace(s[k])
    ensures i == 0 || !IsWhitespace(s[i - 1])
  {
    if j == 0 || !IsWhitespace(s[j - 1]) then j else SkipBackward(s, j - 1)
  }

  /**
   * `s[i..j]` is what trimming `s` leaves: whitespace on both sides of it,
   * and either nothing left or a non-whitespace character at each end.
   */
  ghost predicate IsTrimSlice(s: string, i: int, j: int) {
    && 0 <= i <= j <= |s|
    && (forall k :: 0 <= k < i ==> IsWhitespace(s[k]))
    && (forall k :: j <= k < |s| ==> IsWhitespace(s[k]))
    && (i == j || (!IsWhitespace(s[i]) && !IsWhitespace(s[j - 1])))
  }

  /** Where the text that `Trim` keeps begins. */
  function TrimOffset(s: string): (i: nat)
    ensures i <= |s|
  {
    SkipForward(s, 0)
  }

  /**
   * `str::trim`: drops the longest all-whitespace prefix, then the longest
   * all-whitespace suffix of what is left.
   */
  function Trim(s: string): (r: string)
    ensures TrimOffset(s) + |r| <= |s|
    ensures r == s[TrimOffset(s)..TrimOffset(s) + |r|]
  {
    var i := SkipForward(s, 0);
    var j := SkipBackward(s, |s|);
    if j <= i then s[i..i] else s[i..j]
  }

  /** What `Trim` keeps is a trim slice: whitespace around it, none at its ends. */
  lemma TrimSlice(s: string)
    ensures IsTrimSlice(s, TrimOffset(s), TrimOffset(s) + |Trim(s)|)
  {
    var i := SkipForward(s, 0);
    var j := SkipBackward(s, |s|);
    if i < j {
      assert !IsWhitespace(s[j - 1]);
    }
  }

  /** Two trim slices of the same string cut out the same text. */
  lemma TrimSlicesAgree(s: string, i: int, j: int, a: int, b: int)
    requires IsTrimSlice(s, i, j) && IsTrimSlice(s, a, b)
    ensures i == j || (i == a && j == b)
    ensures s[i..j] == s[a..b]
  {
  }

  /** Any trim slice of `s` is exactly `Trim(s)`. */
  lemma TrimIsSlice(s: string, i: int, j: int)
    requires IsTrimSlice(s, i, j)
    ensures Trim(s) == s[i..j]
  {
    var a := TrimOffset(s);
    TrimSlice(s);
    TrimSlicesAgree(s, i, j, a, a + |Trim(s)|);
  }

  /** Trimming is idempotent. */
  lemma TrimIdempotent(s: string)
    ensures Trim(Trim(s)) == Trim(s)
  {
    var t := Trim(s);
    var a := TrimOffset(s);
    TrimSlice(s);
    if t != [] {
      assert t[0] == s[a] && t[|t| - 1] == s[a + |t| - 1];
    }
    assert IsTrimSlice(t, 0, |t|);
    TrimIsSlice(t, 0, |t|);
  }

  /** Whitespace added around a text does not change what trimming leaves. */
  lemma TrimPadded(w1: string, d: string, w2: string)
    requires AllWhitespace(w1) && AllWhitespace(w2)
    ensures Trim(w1 + (d + w2)) == Trim(d)
  {
    var t := Trim(d);
    var a := TrimOffset(d);
    TrimSlice(d);
    PaddedTrimSlice(w1, d, w2, a, a + |t|);
    TrimIsSlice(w1 + (d + w2), |w1| + a, |w1| + (a + |t|));
  }

  lemma PaddedTrimSlice(w1: string, d: string, w2: string, a: int, b: int)
    requires AllWhitespace(w1) && AllWhitespace(w2) && IsTrimSlice(d, a, b)
    ensures IsTrimSlice(w1 + (d + w2), |w1| + a, |w1| + b)
    ensures (w1 + (d + w2))[|w1| + a..|w1| + b] == d[a..b]
  {
    var s := w1 + (d + w2);
    forall k | 0 <= k < |w1| + a ensures IsWhitespace(s[k]) {
      if k >= |w1| {
        assert s[k] == d[k - |w1|];
      }
    }
    forall k | |w1| + b <= k < |s| ensures IsWhitespace(s[k]) {
      if k < |w1| + |d| {
        assert s[k] == d[k - |w1|];
      } else {
        assert s[k] == w2[k - |w1| - |d|];
      }
    }
    assert s[|w1| + a..|w1| + b] == d[a..b];
  }

  /** A string whose first `|p|` characters are not whitespace keeps them when trimmed. */
  lemma TrimKeepsSolidPrefix(s: string, p: string)
    requires |p| > 0 && |p| <= |s| && s[..|p|] == p
    requires forall k :: 0 <= k < |p| ==> !IsWhitespace(p[k])
    ensures |p| <= |Trim(s)| && Trim(s)[..|p|] == p
  {
    var a := TrimOffset(s);
    var b := a + |Trim(s)|;
    TrimSlice(s);
    assert s[0] == p[0] && s[|p| - 1] == p[|p| - 1];
  }

  // ---------------------------------------------------------------------
  // Substring search

  /** `pat` occurs in `s` starting at index `i`. */
  predicate OccursAt(s: string, pat: string, i: int) {
    0 <= i && i + |pat| <= |s| && s[i..i + |pat|] == pat
  }

  /** `i` is the leftmost occurrence of `pat` in `s` at or after `from`. */
  ghost predicate FirstOccurrenceFrom(s: string, pat: string, from: int, i: int) {
    from <= i && OccursAt(s, pat, i) && forall k :: from <= k < i ==> !OccursAt(s, pat, k)
  }

  /** Left-to-right search for `pat` starting at index `from` (as `str::find` on `s[from..]`). */
  function IndexOf(s: string, pat: string, from: nat): (r: Option<nat>)
    decreases |s| - from
    ensures r.Some? ==> FirstOccurrenceFrom(s, pat, from, r.value)
    ensures r.None? ==> forall k :: from <= k ==> !OccursAt(s, pat, k)
  {
    if from + |pat| > |s| then None
    else if s[from..from + |pat|] == pat then Some(from)
    else IndexOf(s, pat, from + 1)
  }

  /** The search result is the unique leftmost occurrence. */
  lemma IndexOfIs(s: string, pat: string, from: nat, i: nat)
    requires FirstOccurrenceFrom(s, pat, from, i)
    ensures IndexOf(s, pat, from) == Some(i)
  {
  }

  predicate Contains(s: string, pat: string) {
    IndexOf(s, pat, 0).Some?
  }

  predicate StartsWith(s: string, p: string) {
    |p| <= |s| && s[..|p|] == p
  }

  /** `str::starts_with`, character by character. */
  lemma StartsWithIndexwise(s: string, p: string)
    ensures StartsWith(s, p) <==> |p| <= |s| && forall i :: 0 <= i < |p| ==> s[i] == p[i]
  {
    if |p| <= |s| && forall i :: 0 <= i < |p| ==> s[i] == p[i] {
      assert s[..|p|] == p;
    }
  }

  /** A text none of whose characters opens `pat` cannot contain it. */
  lemma NotContainsByFirstChar(s: string, pat: string)
    requires |pat| > 0 && pat[0] !in s
    ensures !Contains(s, pat)
  {
    forall k | 0 <= k && k + |pat| <= |s|
      ensures !OccursAt(s, pat, k)
    {
      assert s[k..k + |pat|][0] == s[k];
    }
  }

  /** An occurrence in `s` at or after `from` is one in `s[from..]`, shifted. */
  lemma OccursInSuffix(s: string, from: nat, pat: string, k: int)
    requires from <= |s| && from <= k
    ensures OccursAt(s, pat, k) <==> OccursAt(s[from..], pat, k - from)
  {
    if k + |pat| <= |s| {
      assert s[k..k + |pat|] == s[from..][k - from..k - from + |pat|];
    }
  }

  /**
   * In `pre + u + "\n" + pat + post`, nothing before the `pat` that follows the
   * newline starts `pat`, when `pat` holds no newline, no character of `pre`
   * starts `pat` and `u` does not contain `pat`.
   */
  lemma NoOccurrenceBeforeNewline(pre: string, u: string, pat: string, post: string, j: int)
    requires |pat| > 0 && '\n' !in pat && pat[0] !in pre && !Contains(u, pat)
    requires 0 <= j <= |pre| + |u|
    ensures !OccursAt(pre + (u + ("\n" + (pat + post))), pat, j)
  {
    var t := pre + (u + ("\n" + (pat + post)));
    var n := |pre| + |u|;
    assert t[n] == '\n';
    if j + |pat| <= |t| {
      if j < |pre| {
        assert t[j..j + |pat|][0] == t[j] == pre[j];
      } else if j + |pat| <= n {
        var j' := j - |pre|;
        assert u[j'..j' + |pat|] == t[j..j + |pat|];
        assert !OccursAt(u, pat, j');
      } else {
        assert t[j..j + |pat|][n - j] == t[n];
      }
    }
  }

  /** The same, for a text `s` with that suffix starting at `from`. */
  lemma NoOccurrenceBeforeNewlineFrom(s: string, from: nat, pre: string, u: string, pat: string, post: string)
    requires |pat| > 0 && '\n' !in pat && pat[0] !in pre && !Contains(u, pat)
    requires from <= |s| && s[from..] == pre + (u + ("\n" + (pat + post)))
    ensures forall k :: from <= k < from + |pre| + |u| + 1 ==> !OccursAt(s, pat, k)
  {
    forall k | from <= k < from + |pre| + |u| + 1 ensures !OccursAt(s, pat, k) {
      OccursInSuffix(s, from, pat, k);
      NoOccurrenceBeforeNewline(pre, u, pat, post, k - from);
    }
  }

  /** So searching a text with that suffix finds the `pat` right after the newline. */
  lemma FirstOccurrenceAfterNewline(s: string, from: nat, pre: string, u: string, pat: string, post: string, at: nat)
    requires at == from + |pre| + |u| + 1
    requires |pat| > 0 && '\n' !in pat
    requires pat[0] !in pre
    requires !Contains(u, pat)
    requires from <= |s| && s[from..] == pre + (u + ("\n" + (pat + post)))
    ensures IndexOf(s, pat, from) == Some(at)
  {
    var t := s[from..];
    assert t[at - from..][..|pat|] == pat;
    OccursInSuffix(s, from, pat, at);
    NoOccurrenceBeforeNewlineFrom(s, from, pre, u, pat, post);
    IndexOfIs(s, pat, from, at);
  }
}

/**
 * The handful of Python string operations the serving code relies on:
 * `str.lower`, `str.strip`, the substring test `needle in text`,
 * `", ".join(...)` and the decimal rendering of an `int`.
 */
module Text {

  /** The characters `str.isspace` accepts, which `str.strip()` removes. */
  predicate IsSpace(c: char) {
    || c == ' '
    || ('\t' <= c <= '\r')
    || ('\U{1C}' <= c <= '\U{1F}')
    || c == '\U{85}' || c == '\U{A0}' || c == '\U{1680}'
    || ('\U{2000}' <= c <= '\U{200A}')
    || c == '\U{2028}' || c == '\U{2029}' || c == '\U{202F}'
    || c == '\U{205F}' || c == '\U{3000}'
  }

  predicate AllSpace(s: string) {
    forall i :: 0 <= i < |s| ==> IsSpace(s[i])
  }

  /** `str.lower` on one character; only ASCII letters are folded in this model. */
  function LowerChar(c: char): char {
    if 'A' <= c <= 'Z' then (c as int + 32) as char else c
  }

  function Lower(s: string): (r: string)
    ensures |r| == |s|
    ensures forall i :: 0 <= i < |s| ==> r[i] == LowerChar(s[i])
  {
    seq(|s|, i requires 0 <= i < |s| => LowerChar(s[i]))
  }

  /** Lower-casing leaves white space alone. */
  lemma LowerKeepsSpace(s: string)
    requires AllSpace(s)
    ensures Lower(s) == s
  {
  }

  /** No white-space character is an ASCII capital, so folding keeps white space apart. */
  lemma LowerCharKeepsSpace(c: char)
    ensures IsSpace(LowerChar(c)) == IsSpace(c)
  {
  }

  /** The number of white-space characters `s` starts with. */
  function LeadingSpace(s: string): (n: nat)
    ensures n <= |s|
  {
    if |s| > 0 && IsSpace(s[0]) then 1 + LeadingSpace(s[1..]) else 0
  }

  /** Exactly the first `LeadingSpace(s)` characters are white space. */
  lemma {:induction false} LeadingSpaceShape(s: string)
    ensures var n := LeadingSpace(s);
      (forall k :: 0 <= k < n ==> IsSpace(s[k])) && (n < |s| ==> !IsSpace(s[n]))
  {
    if |s| > 0 && IsSpace(s[0]) {
      LeadingSpaceShape(s[1..]);
    }
  }

  /** The number of white-space characters `s` ends with. */
  function TrailingSpace(s: string): (n: nat)
    ensures n <= |s|
  {
    if |s| > 0 && IsSpace(s[|s| - 1]) then 1 + TrailingSpace(s[..|s| - 1]) else 0
  }

  /** Exactly the last `TrailingSpace(s)` characters are white space. */
  lemma {:induction false} TrailingSpaceShape(s: string)
    ensures var n := TrailingSpace(s);
      (forall k :: |s| - n <= k < |s| ==> IsSpace(s[k])) && (n < |s| ==> !IsSpace(s[|s| - n - 1]))
  {
    if |s| > 0 && IsSpace(s[|s| - 1]) {
      TrailingSpaceShape(s[..|s| - 1]);
    }
  }

  /** `r` is `s` with white-space runs cut off at both ends, at positions `i` and `j`. */
  ghost predicate StrippedAt(s: string, r: string, i: int, j: int) {
    && 0 <= i <= j <= |s| && r == s[i..j]
    && (forall k :: 0 <= k < i ==> IsSpace(s[k]))
    && (forall k :: j <= k < |s| ==> IsSpace(s[k]))
  }

  /** `str.strip()`: the text between the leading and the trailing white space. */
  function Strip(s: string): string {
    var i := LeadingSpace(s);
    s[i..|s| - TrailingSpace(s[i..])]
  }

  lemma {:induction false} LeadingSpaceLower(s: string)
    ensures LeadingSpace(Lower(s)) == LeadingSpace(s)
  {
    if |s| > 0 {
      LowerCharKeepsSpace(s[0]);
      assert Lower(s)[1..] == Lower(s[1..]);
      LeadingSpaceLower(s[1..]);
    }
  }

  lemma {:induction false} TrailingSpaceLower(s: string)
    ensures TrailingSpace(Lower(s)) == TrailingSpace(s)
  {
    if |s| > 0 {
      LowerCharKeepsSpace(s[|s| - 1]);
      assert Lower(s)[..|s| - 1] == Lower(s[..|s| - 1]);
      TrailingSpaceLower(s[..|s| - 1]);
    }
  }

  /** Lower-casing and stripping commute. */
  lemma LowerStripCommute(s: string)
    ensures Lower(Strip(s)) == Strip(Lower(s))
  {
    var i := LeadingSpace(s);
    LeadingSpaceLower(s);
    assert Lower(s)[i..] == Lower(s[i..]);
    TrailingSpaceLower(s[i..]);
  }

  /**
   * The result of `strip()` is a slice of `s` cut only at runs of white
   * space, and it neither starts nor ends with white space.
   */
  lemma StripShape(s: string)
    ensures exists i, j :: StrippedAt(s, Strip(s), i, j)
    ensures var r := Strip(s); |r| == 0 || (!IsSpace(r[0]) && !IsSpace(r[|r| - 1]))
  {
    var i := LeadingSpace(s);
    var t := s[i..];
    var n := TrailingSpace(t);
    var j := |s| - n;
    LeadingSpaceShape(s);
    TrailingSpaceShape(t);
    assert Strip(s) == s[i..j];
    assert StrippedAt(s, s[i..j], i, j);
    assert i < j ==> s[i..j][0] == s[i] && s[i..j][j - i - 1] == t[|t| - n - 1];
  }

  /** `strip()` returns the empty string exactly for all-white-space input. */
  lemma {:induction false} StripEmptyIffAllSpace(s: string)
    ensures Strip(s) == "" <==> AllSpace(s)
  {
    if AllSpace(s) {
      LeadingSpaceOfSpace(s);
      assert s[|s|..] == [];
    }
    if Strip(s) == "" {
      StripShape(s);
      var i, j :| StrippedAt(s, Strip(s), i, j);
      assert i == j;
    }
  }

  lemma {:induction false} LeadingSpaceAppend(a: string, b: string)
    ensures LeadingSpace(a + b) == if LeadingSpace(a) == |a| then |a| + LeadingSpace(b) else LeadingSpace(a)
  {
    if |a| == 0 {
      assert a + b == b;
    } else if IsSpace(a[0]) {
      assert (a + b)[0] == a[0] && (a + b)[1..] == a[1..] + b;
      LeadingSpaceAppend(a[1..], b);
    } else {
      assert (a + b)[0] == a[0];
    }
  }

  lemma {:induction false} TrailingSpaceAppend(a: string, b: string)
    ensures TrailingSpace(a + b) == if TrailingSpace(b) == |b| then |b| + TrailingSpace(a) else TrailingSpace(b)
  {
    if |b| == 0 {
      assert a + b == a;
    } else if IsSpace(b[|b| - 1]) {
      assert (a + b)[|a + b| - 1] == b[|b| - 1] && (a + b)[..|a + b| - 1] == a + b[..|b| - 1];
      TrailingSpaceAppend(a, b[..|b| - 1]);
    } else {
      assert (a + b)[|a + b| - 1] == b[|b| - 1];
    }
  }

  lemma {:induction false} LeadingSpaceOfSpace(s: string)
    requires AllSpace(s)
    ensures LeadingSpace(s) == |s| && TrailingSpace(s) == |s|
  {
    if |s| > 0 {
      LeadingSpaceOfSpace(s[1..]);
      LeadingSpaceOfSpace(s[..|s| - 1]);
    }
  }

  lemma LeadingSpacePadded(pre: string, s: string, post: string)
    requires AllSpace(pre)
    ensures LeadingSpace(pre + s + post) == |pre| + LeadingSpace(s + post)
  {
    assert pre + s + post == pre + (s + post);
    LeadingSpaceOfSpace(pre);
    LeadingSpaceAppend(pre, s + post);
  }

  /** White space around a string does not change what `strip()` returns. */
  lemma StripIgnoresPadding(pre: string, s: string, post: string)
    requires AllSpace(pre) && AllSpace(post)
    ensures Strip(pre + s + post) == Strip(s)
  {
    LeadingSpacePadded(pre, s, post);
    LeadingSpaceOfSpace(post);
    LeadingSpaceAppend(s, post);
    if LeadingSpace(s) < |s| {
      StripPaddedText(pre, s, post);
    } else {
      var x := pre + s + post;
      assert LeadingSpace(x) == |x|;
      assert x[|x|..] == [] && s[|s|..] == [];
    }
  }

  lemma {:induction false} StripPaddedText(pre: string, s: string, post: string)
    requires AllSpace(post)
    requires LeadingSpace(s) < |s|
    requires LeadingSpace(pre + s + post) == |pre| + LeadingSpace(s)
    ensures Strip(pre + s + post) == Strip(s)
  {
    var ls := LeadingSpace(s);
    var ts := TrailingSpace(s[ls..]);
    PaddedTrailingSpace(pre, s, post, ls);
    StripFrom(pre + s + post, |pre| + ls, |post| + ts);
    SliceOfMiddle(pre, s, post, ls, |s| - ts);
    StripFrom(s, ls, ts);
  }

  /** Past the leading white space, the padded text ends in the padding plus the text's own trailing space. */
  lemma PaddedTrailingSpace(pre: string, s: string, post: string, ls: nat)
    requires AllSpace(post) && ls <= |s|
    ensures TrailingSpace((pre + s + post)[|pre| + ls..]) == |post| + TrailingSpace(s[ls..])
  {
    DropIntoMiddle(pre, s, post, ls);
    LeadingSpaceOfSpace(post);
    TrailingSpaceAppend(s[ls..], post);
  }

  lemma DropIntoMiddle(a: string, b: string, c: string, lo: nat)
    requires lo <= |b|
    ensures (a + b + c)[|a| + lo..] == b[lo..] + c
  {
  }

  lemma StripFrom(s: string, i: nat, n: nat)
    requires i <= |s| && LeadingSpace(s) == i && TrailingSpace(s[i..]) == n
    ensures Strip(s) == s[i..|s| - n]
  {
  }

  lemma SliceOfMiddle(a: string, b: string, c: string, lo: int, hi: int)
    requires 0 <= lo <= hi <= |b|
    ensures (a + b + c)[|a| + lo..|a| + hi] == b[lo..hi]
  {
    var x := a + b + c;
    assert forall k :: 0 <= k < hi - lo ==> x[|a| + lo..|a| + hi][k] == b[lo..hi][k];
  }

  /** `text.lower().strip()`, the normal form both the cache and the quick replies use. */
  function Normalize(text: string): string {
    Strip(Lower(text))
  }

  /** `s.startswith(prefix)` */
  predicate IsPrefix(prefix: string, s: string) {
    |prefix| <= |s| && s[..|prefix|] == prefix
  }

  /** `needle` occurs in `text` starting at index `k`. */
  predicate OccursAt(needle: string, text: string, k: int) {
    0 <= k && k + |needle| <= |text| && text[k..k + |needle|] == needle
  }

  /** Python's `needle in text`, decided by scanning `text` from the left. */
  predicate Contains(needle: string, text: string)
    decreases |text|
  {
    IsPrefix(needle, text) || (|text| > 0 && Contains(needle, text[1..]))
  }

  /** The scan agrees with the definition of a substring occurrence, in both directions. */
  lemma {:induction false} ContainsIff(needle: string, text: string)
    ensures Contains(needle, text) <==> exists k :: OccursAt(needle, text, k)
    decreases |text|
  {
    if IsPrefix(needle, text) {
      assert OccursAt(needle, text, 0);
    } else if |text| > 0 {
      ContainsIff(needle, text[1..]);
      if Contains(needle, text[1..]) {
        var k :| OccursAt(needle, text[1..], k);
        assert text[k + 1..k + 1 + |needle|] == text[1..][k..k + |needle|];
        assert OccursAt(needle, text, k + 1);
      }
      if exists k :: OccursAt(needle, text, k) {
        var k :| OccursAt(needle, text, k);
        assert k != 0;
        assert text[1..][k - 1..k - 1 + |needle|] == text[k..k + |needle|];
        assert OccursAt(needle, text[1..], k - 1);
      }
    } else {
      assert |needle| > 0;
      assert forall k :: !OccursAt(needle, text, k);
    }
  }

  /**
   * Stripping cannot remove an occurrence of a needle that neither starts
   * nor ends with white space.
   */
  lemma {:induction false} ContainsSurvivesStrip(needle: string, s: string)
    requires |needle| > 0 && !IsSpace(needle[0]) && !IsSpace(needle[|needle| - 1])
    requires Contains(needle, s)
    ensures Contains(needle, Strip(s))
  {
    ContainsIff(needle, s);
    var k :| OccursAt(needle, s, k);
    var i := LeadingSpace(s);
    var t := s[i..];
    OccurrenceAfterLeading(needle, s, k);
    OccursInSlice(needle, s, k, i, |s|);
    assert s[i..|s|] == t;
    OccurrenceBeforeTrailing(needle, t, k - i);
    var j := |s| - TrailingSpace(t);
    assert Strip(s) == s[i..j];
    OccursInSlice(needle, s, k, i, j);
    ContainsIff(needle, s[i..j]);
  }

  lemma OccurrenceAfterLeading(needle: string, s: string, k: int)
    requires |needle| > 0 && !IsSpace(needle[0]) && OccursAt(needle, s, k)
    ensures LeadingSpace(s) <= k
  {
    LeadingSpaceShape(s);
    assert s[k] == needle[0];
  }

  lemma OccurrenceBeforeTrailing(needle: string, t: string, k: int)
    requires |needle| > 0 && !IsSpace(needle[|needle| - 1]) && OccursAt(needle, t, k)
    ensures k + |needle| <= |t| - TrailingSpace(t)
  {
    TrailingSpaceShape(t);
    assert t[k + |needle| - 1] == needle[|needle| - 1];
  }

  /** A string occurs in a concatenation right after its first part. */
  lemma OccursInMiddle(a: string, b: string, c: string)
    ensures OccursAt(b, a + b + c, |a|)
  {
    assert (a + b + c)[|a|..|a| + |b|] == b;
  }

  lemma OccursInSlice(needle: string, s: string, k: int, i: nat, j: nat)
    requires OccursAt(needle, s, k) && i <= k && k + |needle| <= j <= |s|
    ensures OccursAt(needle, s[i..j], k - i)
  {
    var inner, outer := s[i..j][k - i..k - i + |needle|], s[k..k + |needle|];
    assert forall m :: 0 <= m < |needle| ==> inner[m] == outer[m];
    assert inner == outer;
  }

  /** `sep.join(parts)` */
  function Join(parts: seq<string>, sep: string): string {
    if |parts| == 0 then ""
    else if |parts| == 1 then parts[0]
    else parts[0] + sep + Join(parts[1..], sep)
  }

  function DigitChar(d: nat): char
    requires d < 10
  {
    ('0' as int + d) as char
  }

  function DigitValue(c: char): int {
    c as int - '0' as int
  }

  predicate IsDigits(s: string) {
    forall i :: 0 <= i < |s| ==> '0' <= s[i] <= '9'
  }

  /** The value a string of decimal digits denotes. */
  function DecimalValue(s: string): int
    requires IsDigits(s)
  {
    if |s| == 0 then 0 else 10 * DecimalValue(s[..|s| - 1]) + DigitValue(s[|s| - 1])
  }

  /** `str(n)` for a natural number: non-empty digits that denote `n`, with no leading zero unless `n` is 0. */
  function NatToDecimal(n: nat): (r: string)
    ensures |r| > 0 && IsDigits(r)
    ensures DecimalValue(r) == n
    ensures r[0] == '0' ==> n == 0
  {
    if n < 10 then [DigitChar(n)]
    else
      var r := NatToDecimal(n / 10) + [DigitChar(n % 10)];
      assert r[..|r| - 1] == NatToDecimal(n / 10);
      r
  }

  /** `str(i)` for a Python `int`. */
  function IntToDecimal(i: int): string {
    if i < 0 then "-" + NatToDecimal(-i) else NatToDecimal(i)
  }
}

/**
 The two pieces of the .NET base library that the URL helpers lean on, modelled on
 strings (`seq<char>`):
 - `String.Trim()`, which strips every `Char.IsWhiteSpace` character from both ends;
 - `Regex.Replace(input, pattern + "$", replacement, RegexOptions.IgnoreCase)` for a
   pattern made of single characters only (no quantifiers, no groups), which is all the
   helpers ever use. Such a pattern matches exactly |pattern| characters, so the
   end anchor lets at most one match be replaced.
 */
module DotNetText {

  /** `Char.IsWhiteSpace`: U+0009..U+000D, U+0085, and the Unicode space,
      line and paragraph separators. */
  predicate IsWhiteSpace(c: char)
  {
    || ('\t' <= c && c <= '\r')
    || c == ' '
    || c == '\U{0085}'
    || c == '\U{00A0}'
    || c == '\U{1680}'
    || ('\U{2000}' <= c && c <= '\U{200A}')
    || c == '\U{2028}'
    || c == '\U{2029}'
    || c == '\U{202F}'
    || c == '\U{205F}'
    || c == '\U{3000}'
  }

  predicate AllWhiteSpace(s: string)
  {
    forall i :: 0 <= i < |s| ==> IsWhiteSpace(s[i])
  }

  /** The index of the first character at or after `i` that is not white space (or |s|). */
  function SkipWhiteSpaceForward(s: string, i: nat): (j: nat)
    requires i <= |s|
    ensures i <= j <= |s|
    ensures forall k :: i <= k < j ==> IsWhiteSpace(s[k])
    ensures j == |s| || !IsWhiteSpace(s[j])
    decreases |s| - i
  {
    if i < |s| && IsWhiteSpace(s[i]) then SkipWhiteSpaceForward(s, i + 1) else i
  }

  /** The end of the text before index `j` once the white space in front of `j` is skipped,
      not going below `lo`. */
  function SkipWhiteSpaceBackward(s: string, j: nat, lo: nat): (e: nat)
    requires lo <= j <= |s|
    ensures lo <= e <= j
    ensures forall k :: e <= k < j ==> IsWhiteSpace(s[k])
    ensures e == lo || !IsWhiteSpace(s[e - 1])
    decreases j
  {
    if lo < j && IsWhiteSpace(s[j - 1]) then SkipWhiteSpaceBackward(s, j - 1, lo) else j
  }

  /** Where the trimmed text starts and ends: only white space lies outside `[start, end)`, and
      a non-empty range starts and ends with a character that is not white space. */
  function TrimBounds(s: string): (b: (nat, nat))
    ensures b.0 <= b.1 <= |s|
    ensures forall k :: 0 <= k < b.0 ==> IsWhiteSpace(s[k])
    ensures forall k :: b.1 <= k < |s| ==> IsWhiteSpace(s[k])
    ensures b.0 < b.1 ==> !IsWhiteSpace(s[b.0]) && !IsWhiteSpace(s[b.1 - 1])
  {
    var start := SkipWhiteSpaceForward(s, 0);
    (start, SkipWhiteSpaceBackward(s, |s|, start))
  }

  /** `String.Trim()`: strips the white space at both ends. */
  function Trim(s: string): (r: string)
    ensures r == [] || (!IsWhiteSpace(r[0]) && !IsWhiteSpace(r[|r| - 1]))
  {
    var b := TrimBounds(s);
    s[b.0..b.1]
  }

  /** Trim only removes white space: `s` is white space, then `Trim(s)`, then white space. */
  lemma TrimRemovesOnlyWhiteSpace(s: string)
    ensures exists a, b :: AllWhiteSpace(a) && AllWhiteSpace(b) && s == a + Trim(s) + b
  {
    var (i, j) := TrimBounds(s);
    var a, b := s[..i], s[j..];
    assert s == a + Trim(s) + b;
    assert AllWhiteSpace(a) && AllWhiteSpace(b);
  }

  /** Trim is determined by its meaning: whenever `s` is white space, then a text `m`
      with no white space at either end, then white space, `Trim(s)` is exactly `m`. */
  lemma TrimCharacterized(a: string, m: string, b: string)
    requires AllWhiteSpace(a) && AllWhiteSpace(b)
    requires m == [] || (!IsWhiteSpace(m[0]) && !IsWhiteSpace(m[|m| - 1]))
    ensures Trim(a + m + b) == m
  {
    var s := a + m + b;
    var (i, j) := TrimBounds(s);
    if m == [] {
      assert forall k :: 0 <= k < |s| ==> IsWhiteSpace(s[k]);
      assert i == j;
    } else {
      assert s[|a|] == m[0] && s[|a| + |m| - 1] == m[|m| - 1];
      assert i == |a|;
      assert j == |a| + |m|;
      assert s[i..j] == m;
    }
  }

  /** Trimming twice is trimming once. */
  lemma TrimIdempotent(s: string)
    ensures Trim(Trim(s)) == Trim(s)
  {
    var r := Trim(s);
    assert [] + r + [] == r;
    TrimCharacterized([], r, []);
  }

  /** ASCII case folding, standing in for the culture-aware folding of `RegexOptions.IgnoreCase`. */
  function ToLowerAscii(c: char): char
  {
    if 'A' <= c && c <= 'Z' then (c as int + 32) as char else c
  }

  function ToLowerAsciiString(s: string): string
  {
    seq(|s|, i requires 0 <= i < |s| => ToLowerAscii(s[i]))
  }

  /** One element of a single-character regular expression: `.` (any character but a
      newline, as `RegexOptions.Singleline` is not set) or a literal character, compared
      without regard to case. */
  datatype PatternChar = AnyChar | Literal(ch: char)

  predicate CharMatches(c: char, p: PatternChar)
  {
    match p
    case AnyChar => c != '\n'
    case Literal(ch) => ToLowerAscii(c) == ToLowerAscii(ch)
  }

  predicate Matches(t: string, pattern: seq<PatternChar>)
  {
    |t| == |pattern| && forall i :: 0 <= i < |t| ==> CharMatches(t[i], pattern[i])
  }

  /** `pattern$` matches at the very end of `s`. */
  predicate EndsWithMatch(s: string, pattern: seq<PatternChar>)
  {
    |pattern| <= |s| && Matches(s[|s| - |pattern|..], pattern)
  }

  /** `pattern$` matches just before a final newline of `s` (the other place where .NET's `$` holds). */
  predicate EndsWithMatchBeforeNewline(s: string, pattern: seq<PatternChar>)
  {
    |pattern| < |s| && s[|s| - 1] == '\n' && Matches(s[|s| - 1 - |pattern|..|s| - 1], pattern)
  }

  /** The patterns the helpers use: non-empty, and their last element cannot match a newline. */
  predicate Anchorable(pattern: seq<PatternChar>)
  {
    |pattern| > 0 && !CharMatches('\n', pattern[|pattern| - 1])
  }

  /** `Regex.Replace(s, pattern + "$", replacement, RegexOptions.IgnoreCase)`. */
  function ReplaceAtEnd(s: string, pattern: seq<PatternChar>, replacement: string): (r: string)
    requires Anchorable(pattern)
  {
    if EndsWithMatch(s, pattern) then
      s[..|s| - |pattern|] + replacement
    else if EndsWithMatchBeforeNewline(s, pattern) then
      s[..|s| - 1 - |pattern|] + replacement + "\n"
    else
      s
  }

  /** `$` can hold in two places, but an anchorable pattern matches in at most one of them,
      so at most one match is ever replaced. */
  lemma AtMostOneAnchoredMatch(s: string, pattern: seq<PatternChar>)
    requires Anchorable(pattern)
    ensures !(EndsWithMatch(s, pattern) && EndsWithMatchBeforeNewline(s, pattern))
  {
  }

  /** Replacing at the end keeps everything in front of the match: for any text `p`
      followed by a match `m`, the result is `p` followed by the replacement. */
  lemma ReplaceAtEndOfMatch(p: string, m: string, pattern: seq<PatternChar>, replacement: string)
    requires Anchorable(pattern) && Matches(m, pattern)
    ensures ReplaceAtEnd(p + m, pattern, replacement) == p + replacement
  {
    var s := p + m;
    assert s[|s| - |pattern|..] == m;
    assert s[..|s| - |pattern|] == p;
  }

  /** When the replacement differs in length from the pattern, the string changes exactly
      when the anchored pattern matches somewhere. */
  lemma ReplaceAtEndChangesIffMatch(s: string, pattern: seq<PatternChar>, replacement: string)
    requires Anchorable(pattern) && |replacement| != |pattern|
    ensures ReplaceAtEnd(s, pattern, replacement) != s
            <==> EndsWithMatch(s, pattern) || EndsWithMatchBeforeNewline(s, pattern)
  {
  }

  /** After `Trim()` the string cannot end with a newline, so `$` means the end of the string. */
  lemma TrimmedAnchorIsEnd(s: string, pattern: seq<PatternChar>)
    ensures !EndsWithMatchBeforeNewline(Trim(s), pattern)
  {
    assert IsWhiteSpace('\n');
  }
}

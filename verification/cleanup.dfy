/** Post-processing applied to answer text from the upstream: the markdown
    escapes the web client adds are removed, then the placeholder links the
    upstream writes for generated images are cut out
    (internal/adapter/handler.go). */
module Cleanup {
  import opened Wrappers
  import Text

  /** Characters the upstream writes with a protective backslash. */
  predicate IsEscapedMark(c: char) {
    c == '<' || c == '>' || c == '_' || c == '[' || c == ']'
  }

  /** The five `strings.ReplaceAll` passes, in source order: `\<`, `\>`, `\_`, `\[`, `\]`. */
  function UnescapeMarkdown(s: string): string {
    var s1 := Text.ReplacePair(s, '\\', '<', '<');
    var s2 := Text.ReplacePair(s1, '\\', '>', '>');
    var s3 := Text.ReplacePair(s2, '\\', '_', '_');
    var s4 := Text.ReplacePair(s3, '\\', '[', '[');
    Text.ReplacePair(s4, '\\', ']', ']')
  }

  /** The escaping the upstream applies: a backslash before every character of `marks`. */
  function EscapeMarks(s: string, marks: set<char>): (r: string)
    ensures |r| >= |s|
  {
    if |s| == 0 then []
    else if s[0] in marks then ['\\', s[0]] + EscapeMarks(s[1..], marks)
    else [s[0]] + EscapeMarks(s[1..], marks)
  }

  const AllMarks: set<char> := {'<', '>', '_', '[', ']'}

  /** One pass removes exactly the escapes of its own character. */
  lemma {:induction false} PassRemovesOneMark(s: string, marks: set<char>, m: char)
    requires '\\' !in s && m in marks && '\\' !in marks
    ensures Text.ReplacePair(EscapeMarks(s, marks), '\\', m, m) == EscapeMarks(s, marks - {m})
    decreases |s|
  {
    if |s| > 0 {
      assert '\\' !in s[1..] by { assert forall k :: 0 <= k < |s[1..]| ==> s[1..][k] == s[k + 1]; }
      PassRemovesOneMark(s[1..], marks, m);
      var t := EscapeMarks(s[1..], marks);
      if s[0] in marks {
        var e := ['\\', s[0]] + t;
        assert e[0] == '\\' && e[1] == s[0] && e[2..] == t;
        if s[0] != m {
          assert e[1..] == [s[0]] + t;
          assert Text.ReplacePair(e[1..], '\\', m, m) == [s[0]] + Text.ReplacePair(t, '\\', m, m);
        }
      } else {
        var e := [s[0]] + t;
        assert s[0] != '\\';
        assert e[1..] == t;
      }
    }
  }

  lemma {:induction false} EscapeNoMarks(s: string)
    ensures EscapeMarks(s, {}) == s
    decreases |s|
  {
    if |s| > 0 {
      EscapeNoMarks(s[1..]);
    }
  }

  /** Removing the markdown escapes undoes the upstream's escaping of text that
      holds no backslash of its own. */
  lemma {:induction false} UnescapeEscape(s: string)
    requires '\\' !in s
    ensures UnescapeMarkdown(EscapeMarks(s, AllMarks)) == s
  {
    PassRemovesOneMark(s, AllMarks, '<');
    PassRemovesOneMark(s, AllMarks - {'<'}, '>');
    PassRemovesOneMark(s, AllMarks - {'<'} - {'>'}, '_');
    PassRemovesOneMark(s, AllMarks - {'<'} - {'>'} - {'_'}, '[');
    PassRemovesOneMark(s, AllMarks - {'<'} - {'>'} - {'_'} - {'['}, ']');
    assert AllMarks - {'<'} - {'>'} - {'_'} - {'['} - {']'} == {};
    EscapeNoMarks(s);
  }

  lemma {:induction false} PassWithoutBackslash(s: string, m: char)
    requires '\\' !in s
    ensures Text.ReplacePair(s, '\\', m, m) == s
    decreases |s|
  {
    if |s| > 0 {
      assert '\\' !in s[1..] by { assert forall k :: 0 <= k < |s[1..]| ==> s[1..][k] == s[k + 1]; }
      PassWithoutBackslash(s[1..], m);
      assert s == [s[0]] + s[1..];
    }
  }

  /** Text without backslashes passes through unchanged. */
  lemma {:induction false} UnescapeWithoutBackslash(s: string)
    requires '\\' !in s
    ensures UnescapeMarkdown(s) == s
  {
    PassWithoutBackslash(s, '<');
    PassWithoutBackslash(s, '>');
    PassWithoutBackslash(s, '_');
    PassWithoutBackslash(s, '[');
    PassWithoutBackslash(s, ']');
  }

  // ---------------------------------------------------------------------------
  // Image placeholders: `\s*https?://googleusercontent\.com/image_generation_content/\d+\s*`

  /** The regular-expression class `\s`: tab, newline, form feed, carriage return, space. */
  predicate IsRegexSpace(c: char) {
    c == '\t' || c == '\n' || c == '\U{C}' || c == '\r' || c == ' '
  }

  const PlaceholderPath: string := "googleusercontent.com/image_generation_content/"

  /** Length of `https://` or `http://` at the start of `u`, or 0 (the `s?` is greedy). */
  function SchemeLen(u: string): (n: nat)
    ensures n == 0 || n == 7 || n == 8
    ensures n <= |u|
  {
    if Text.HasPrefix(u, "https://") then 8 else if Text.HasPrefix(u, "http://") then 7 else 0
  }

  /** Length of the `image_generation_content/\d+\s*` remainder of a match at the start of `v`. */
  function PlaceholderTail(v: string): (r: Option<nat>)
    ensures r.Some? ==> |PlaceholderPath| < r.value <= |v| && Text.HasPrefix(v, PlaceholderPath)
  {
    if !Text.HasPrefix(v, PlaceholderPath) then None
    else
      var x := v[|PlaceholderPath|..];
      var d := Text.SpanStart(x, Text.IsDigit);
      if d == 0 then None
      else Some(|PlaceholderPath| + d + Text.SpanStart(x[d..], IsRegexSpace))
  }

  /** Length of the scheme-and-remainder part of a match at the start of `t`, if any. */
  function LinkAt(t: string): (r: Option<nat>)
    ensures r.Some? ==> 0 < r.value <= |t|
  {
    var n := SchemeLen(t);
    if n == 0 then None
    else
      match PlaceholderTail(t[n..])
      case Some(m) => Some(n + m)
      case None => None
  }

  /** Length of the placeholder match that starts at the beginning of `t`, if
      one does: leading `\s` characters, then the scheme, then the remainder.
      Every repetition is greedy, as the regular expression's are, and no
      shorter repetition could let a match continue (a scheme never starts
      with a blank). */
  function PlaceholderAt(t: string): (r: Option<nat>)
    ensures r.Some? ==> 0 < r.value <= |t|
  {
    var b := Text.SpanStart(t, IsRegexSpace);
    match LinkAt(t[b..])
    case Some(k) => Some(b + k)
    case None => None
  }

  lemma {:induction false} PrefixAt(t: string, k: nat, p: string)
    requires k <= |t| && Text.HasPrefix(t[k..], p)
    ensures t == t[..k] + p + t[k + |p|..]
  {
  }

  /** Every match contains the placeholder path. */
  lemma {:induction false} PlaceholderNeedsPath(t: string)
    requires PlaceholderAt(t).Some?
    ensures Text.Contains(t, PlaceholderPath)
  {
    var b := Text.SpanStart(t, IsRegexSpace);
    var n := SchemeLen(t[b..]);
    assert t[b..][n..] == t[b + n..];
    PrefixAt(t, b + n, PlaceholderPath);
    Text.ContainsAppend(t[..b + n], PlaceholderPath, t[b + n + |PlaceholderPath|..]);
  }

  /** `regexp.ReplaceAllString(text, "")`: scanning left to right, each
      leftmost match is deleted and the scan resumes after it. */
  function FilterImagePlaceholders(s: string): (r: string)
    ensures |r| <= |s|
    decreases |s|
  {
    if |s| == 0 then []
    else
      match PlaceholderAt(s)
      case Some(n) => FilterImagePlaceholders(s[n..])
      case None => [s[0]] + FilterImagePlaceholders(s[1..])
  }

  /** Text that never names the placeholder path is left alone. */
  lemma {:induction false} FilterWithoutPlaceholder(s: string)
    requires !Text.Contains(s, PlaceholderPath)
    ensures FilterImagePlaceholders(s) == s
    decreases |s|
  {
    if |s| > 0 {
      if PlaceholderAt(s).Some? {
        PlaceholderNeedsPath(s);
      }
      FilterWithoutPlaceholder(s[1..]);
      assert s == [s[0]] + s[1..];
    }
  }

  /** Text shorter than the placeholder path is left alone. */
  lemma {:induction false} FilterShort(s: string)
    requires |s| < |PlaceholderPath|
    ensures FilterImagePlaceholders(s) == s
  {
    Text.NotContainsShort(s, PlaceholderPath);
    FilterWithoutPlaceholder(s);
  }

  /** A placeholder link, with the blanks around it, is deleted whole. */
  lemma {:induction false} FilterDropsPlaceholder(w: string, scheme: string, digits: string, w2: string, y: string)
    requires Text.All(w, IsRegexSpace) && Text.All(w2, IsRegexSpace)
    requires scheme == "http://" || scheme == "https://"
    requires |digits| > 0 && Text.All(digits, Text.IsDigit)
    requires |y| == 0 || (!IsRegexSpace(y[0]) && !Text.IsDigit(y[0]))
    ensures FilterImagePlaceholders(w + scheme + PlaceholderPath + digits + w2 + y)
            == FilterImagePlaceholders(y)
  {
    var u := scheme + (PlaceholderPath + digits + w2 + y);
    var n, m := MatchParts(scheme, digits, w2, y);
    DropMatch(w, u, n, m, y);
    Regroup(w, scheme, PlaceholderPath, digits, w2, y);
  }

  /** Blanks followed by a match whose scheme and remainder are known are deleted together. */
  lemma {:induction false} DropMatch(w: string, u: string, n: nat, m: nat, y: string)
    requires Text.All(w, IsRegexSpace)
    requires |u| > 0 && u[0] == 'h' && 0 < n <= |u| && SchemeLen(u) == n
    requires PlaceholderTail(u[n..]) == Some(m) && n + m <= |u| && u[n + m..] == y
    ensures FilterImagePlaceholders(w + u) == FilterImagePlaceholders(y)
  {
    var j := LinkAtStart(u, n, m);
    var k := BlanksBefore(w, u, j);
    SliceAfter(w, u, j, k, y);
    FilterAtMatch(w + u, k, y);
  }

  /** The scheme and the remainder of a placeholder link match, and the text
      after the match is what follows the link's blanks. */
  lemma {:induction false} MatchParts(scheme: string, digits: string, w2: string, y: string) returns (n: nat, m: nat)
    requires Text.All(w2, IsRegexSpace)
    requires scheme == "http://" || scheme == "https://"
    requires |digits| > 0 && Text.All(digits, Text.IsDigit)
    requires |y| == 0 || (!IsRegexSpace(y[0]) && !Text.IsDigit(y[0]))
    ensures var u := scheme + (PlaceholderPath + digits + w2 + y);
            |u| > 0 && u[0] == 'h' && 0 < n <= |u| && SchemeLen(u) == n
            && PlaceholderTail(u[n..]) == Some(m) && n + m <= |u| && u[n + m..] == y
  {
    var v := PlaceholderPath + digits + w2 + y;
    var u := scheme + v;
    m := TailMatches(digits, w2, y);
    n := SchemeMatches(scheme, v);
    assert u[n..] == v;
    assert u[n + m..] == y;
  }

  lemma {:induction false} FilterAtMatch(t: string, k: nat, rest: string)
    requires PlaceholderAt(t) == Some(k) && t[k..] == rest
    ensures FilterImagePlaceholders(t) == FilterImagePlaceholders(rest)
  {
  }

  lemma {:induction false} SliceAfter(w: string, u: string, j: nat, k: nat, rest: string)
    requires j <= |u| && k == |w| + j && u[j..] == rest
    ensures (w + u)[k..] == rest
  {
  }

  /** Blanks in front of a link belong to its match. */
  lemma {:induction false} BlanksBefore(w: string, u: string, j: nat) returns (k: nat)
    requires Text.All(w, IsRegexSpace) && |u| > 0 && u[0] == 'h' && LinkAt(u) == Some(j)
    ensures k == |w| + j && PlaceholderAt(w + u) == Some(k)
  {
    k := |w| + j;
    Text.SpanStartAppend(w, u, IsRegexSpace);
    assert (w + u)[|w|..] == u;
  }

  /** A link that starts the text matches through its scheme and remainder. */
  lemma {:induction false} LinkAtStart(u: string, n: nat, m: nat) returns (k: nat)
    requires 0 < n <= |u| && SchemeLen(u) == n && PlaceholderTail(u[n..]) == Some(m)
    ensures k == n + m && LinkAt(u) == Some(k)
  {
    k := n + m;
  }

  lemma {:induction false} Regroup(a: string, b: string, c: string, d: string, e: string, f: string)
    ensures a + b + c + d + e + f == a + (b + (c + d + e + f))
  {
  }

  lemma {:induction false} SchemeMatches(scheme: string, v: string) returns (n: nat)
    requires scheme == "http://" || scheme == "https://"
    ensures n == |scheme| && SchemeLen(scheme + v) == n
  {
    n := |scheme|;
    var u := scheme + v;
    assert u[..n] == scheme;
    if n == 7 && |u| >= 8 {
      assert u[..8][4] == u[4] == ':';
    }
  }

  lemma {:induction false} TailMatches(digits: string, w2: string, y: string) returns (m: nat)
    requires Text.All(w2, IsRegexSpace)
    requires |digits| > 0 && Text.All(digits, Text.IsDigit)
    requires |y| == 0 || (!IsRegexSpace(y[0]) && !Text.IsDigit(y[0]))
    ensures m == |PlaceholderPath| + |digits| + |w2|
    ensures PlaceholderTail(PlaceholderPath + digits + w2 + y) == Some(m)
  {
    m := |PlaceholderPath| + |digits| + |w2|;
    var v := PlaceholderPath + digits + w2 + y;
    var x := digits + (w2 + y);
    assert v == PlaceholderPath + x;
    assert v[..|PlaceholderPath|] == PlaceholderPath;
    assert v[|PlaceholderPath|..] == x;
    var w2y := w2 + y;
    assert |w2y| == 0 || !Text.IsDigit(w2y[0]) by {
      if |w2| > 0 { assert w2y[0] == w2[0]; } else { assert w2y == y; }
    }
    Text.SpanStartAppend(digits, w2y, Text.IsDigit);
    assert x[|digits|..] == w2y;
    Text.SpanStartAppend(w2, y, IsRegexSpace);
  }
}

/** String operations of Go's `strings` and `strconv` packages that the
    gateway relies on, over strings modelled as sequences of runes. */
module Text {
  import opened Wrappers

  /** Go's `unicode.IsSpace` (used by `strings.TrimSpace`). */
  predicate IsSpace(c: char) {
    c == ' ' || c == '\t' || c == '\n' || c == '\r' || c == '\U{B}' || c == '\U{C}'
    || c == '\U{85}' || c == '\U{A0}' || c == '\U{1680}' || ('\U{2000}' <= c <= '\U{200A}')
    || c == '\U{2028}' || c == '\U{2029}' || c == '\U{202F}' || c == '\U{205F}' || c == '\U{3000}'
  }

  predicate All(s: string, keep: char -> bool) {
    forall k :: 0 <= k < |s| ==> keep(s[k])
  }

  /** Index of the first character of `s` not satisfying `cut` (or |s|). */
  function SpanStart(s: string, cut: char -> bool): (i: nat)
    ensures i <= |s|
  {
    if |s| == 0 || !cut(s[0]) then 0 else 1 + SpanStart(s[1..], cut)
  }

  /** Everything before the span's end satisfies `cut`, and the character at
      the end does not. */
  lemma {:induction false} SpanStartFacts(s: string, cut: char -> bool)
    ensures var i := SpanStart(s, cut);
            (forall k :: 0 <= k < i ==> cut(s[k])) && (i < |s| ==> !cut(s[i]))
    decreases |s|
  {
    if |s| > 0 && cut(s[0]) {
      SpanStartFacts(s[1..], cut);
      var i := SpanStart(s, cut);
      forall k | 0 <= k < i ensures cut(s[k]) {
        if k > 0 {
          assert s[k] == s[1..][k - 1];
        }
      }
    }
  }

  lemma {:induction false} AllTail(s: string, cut: char -> bool)
    requires |s| > 0 && All(s, cut)
    ensures cut(s[0]) && All(s[1..], cut)
  {
    assert forall k :: 0 <= k < |s[1..]| ==> s[1..][k] == s[k + 1];
  }

  lemma {:induction false} AppendEmpty(w: string, u: string)
    requires |w| == 0
    ensures w + u == u
  {
  }

  lemma {:induction false} AppendCons(w: string, u: string)
    requires |w| > 0
    ensures w + u == [w[0]] + (w[1..] + u)
  {
  }

  /** The leading span stops exactly where a run satisfying `cut` meets a
      character that does not. */
  lemma {:induction false} SpanStartAppend(x: string, y: string, cut: char -> bool)
    requires All(x, cut)
    requires |y| == 0 || !cut(y[0])
    ensures SpanStart(x + y, cut) == |x|
    decreases |x|
  {
    if |x| > 0 {
      var xy := x + y;
      assert xy[0] == x[0] && cut(xy[0]);
      assert xy[1..] == x[1..] + y;
      assert All(x[1..], cut) by {
        forall i | 0 <= i < |x[1..]| ensures cut(x[1..][i]) {
          assert x[1..][i] == x[i + 1];
        }
      }
      SpanStartAppend(x[1..], y, cut);
    } else {
      assert x + y == y;
    }
  }

  /** One past the index of the last character of `s` not satisfying `cut` (or 0). */
  function SpanEnd(s: string, cut: char -> bool): (j: nat)
    ensures j <= |s|
  {
    if |s| == 0 || !cut(s[|s| - 1]) then |s| else SpanEnd(s[..|s| - 1], cut)
  }

  /** Everything from the span's start on satisfies `cut`, and the character
      just before it does not. */
  lemma {:induction false} SpanEndFacts(s: string, cut: char -> bool)
    ensures var j := SpanEnd(s, cut);
            (forall k :: j <= k < |s| ==> cut(s[k])) && (j > 0 ==> !cut(s[j - 1]))
    decreases |s|
  {
    if |s| > 0 && cut(s[|s| - 1]) {
      SpanEndFacts(s[..|s| - 1], cut);
      var j := SpanEnd(s, cut);
      forall k | j <= k < |s| ensures cut(s[k]) {
        if k < |s| - 1 {
          assert s[k] == s[..|s| - 1][k];
        }
      }
    }
  }

  /** `strings.TrimFunc`: drops the leading and trailing characters satisfying `cut`. */
  function TrimFunc(s: string, cut: char -> bool): (r: string)
    ensures |r| <= |s|
  {
    var i := SpanStart(s, cut);
    var j := SpanEnd(s, cut);
    if j <= i then [] else s[i..j]
  }

  /** What `TrimFunc` keeps: nothing exactly when every character is cut,
      otherwise text whose ends are not cut. */
  lemma {:induction false} TrimFuncFacts(s: string, cut: char -> bool)
    ensures var r := TrimFunc(s, cut);
            && (r == [] <==> All(s, cut))
            && (r != [] ==> !cut(r[0]) && !cut(r[|r| - 1]))
  {
    SpanStartFacts(s, cut);
    SpanEndFacts(s, cut);
    var i := SpanStart(s, cut);
    var j := SpanEnd(s, cut);
    if j <= i {
      assert All(s[..j], cut) && All(s[j..], cut);
    }
  }

  /** `TrimFunc` keeps a slice of `s`, starting at `i`, around which every
      character is cut. */
  lemma {:induction false} TrimFuncSlice(s: string, cut: char -> bool) returns (i: nat)
    ensures var r := TrimFunc(s, cut);
            && i + |r| <= |s| && s[i..i + |r|] == r
            && All(s[..i], cut) && All(s[i + |r|..], cut)
  {
    SpanStartFacts(s, cut);
    SpanEndFacts(s, cut);
    var j := SpanEnd(s, cut);
    i := SpanStart(s, cut);
    if j <= i {
      i := j;
      assert All(s[..j], cut) && All(s[j..], cut);
    } else {
      assert All(s[..i], cut) && All(s[j..], cut);
    }
  }

  /** `strings.TrimSpace`. */
  function TrimSpace(s: string): (r: string)
    ensures r == [] <==> All(s, IsSpace)
    ensures r != [] ==> !IsSpace(r[0]) && !IsSpace(r[|r| - 1])
  {
    TrimFuncFacts(s, IsSpace);
    TrimFunc(s, IsSpace)
  }

  /** Nothing to trim when neither end satisfies `cut`. */
  lemma {:induction false} TrimFuncKeeps(s: string, cut: char -> bool)
    requires s == [] || (!cut(s[0]) && !cut(s[|s| - 1]))
    ensures TrimFunc(s, cut) == s
  {
    if s != [] {
      assert SpanStart(s, cut) == 0;
      assert SpanEnd(s, cut) == |s|;
    }
  }

  /** Leading characters that `cut` trims anyway do not change the result. */
  lemma {:induction false} TrimFuncLeading(sp: string, a: string, cut: char -> bool)
    requires All(sp, cut)
    ensures TrimFunc(sp + a, cut) == TrimFunc(a, cut)
  {
    if All(a, cut) {
      AllAppend(sp, a, cut);
      TrimFuncFacts(sp + a, cut);
      TrimFuncFacts(a, cut);
    } else {
      TrimLeadingKept(sp, a, cut);
    }
  }

  lemma {:induction false} AllAppend(x: string, y: string, cut: char -> bool)
    requires All(x, cut) && All(y, cut)
    ensures All(x + y, cut)
  {
    forall k | 0 <= k < |x + y| ensures cut((x + y)[k]) {
      if k < |x| { assert (x + y)[k] == x[k]; } else { assert (x + y)[k] == y[k - |x|]; }
    }
  }

  lemma {:induction false} TrimLeadingKept(sp: string, a: string, cut: char -> bool)
    requires All(sp, cut) && !All(a, cut)
    ensures TrimFunc(sp + a, cut) == TrimFunc(a, cut)
  {
    SpanStartSpaces(sp, a, cut);
    SpanEndAfter(sp, a, cut);
    SpanOrder(a, cut);
    var i := SpanStart(a, cut);
    var j := SpanEnd(a, cut);
    TrimFuncIs(a, cut, i, j);
    TrimFuncIs(sp + a, cut, |sp| + i, |sp| + j);
    SliceAfterPrefix(sp, a, i, j);
  }

  /** Some character survives trimming exactly when the spans do not meet. */
  lemma {:induction false} SpanOrder(s: string, cut: char -> bool)
    requires !All(s, cut)
    ensures SpanStart(s, cut) < SpanEnd(s, cut)
  {
    SpanStartFacts(s, cut);
    SpanEndFacts(s, cut);
  }

  lemma {:induction false} TrimFuncIs(s: string, cut: char -> bool, i: nat, j: nat)
    requires SpanStart(s, cut) == i && SpanEnd(s, cut) == j && i < j
    ensures TrimFunc(s, cut) == s[i..j]
  {
  }

  lemma {:induction false} SliceAfterPrefix(sp: string, a: string, i: nat, j: nat)
    requires i <= j <= |a|
    ensures (sp + a)[|sp| + i..|sp| + j] == a[i..j]
  {
  }

  lemma {:induction false} SpanStartSpaces(sp: string, a: string, cut: char -> bool)
    requires All(sp, cut)
    ensures SpanStart(sp + a, cut) == |sp| + SpanStart(a, cut)
    decreases |sp|
  {
    if |sp| > 0 {
      assert (sp + a)[0] == sp[0];
      assert (sp + a)[1..] == sp[1..] + a;
      assert All(sp[1..], cut) by {
        forall k | 0 <= k < |sp[1..]| ensures cut(sp[1..][k]) {
          assert sp[1..][k] == sp[k + 1];
        }
      }
      SpanStartSpaces(sp[1..], a, cut);
    } else {
      assert sp + a == a;
    }
  }

  lemma {:induction false} SpanEndAfter(sp: string, a: string, cut: char -> bool)
    requires !All(a, cut)
    ensures SpanEnd(sp + a, cut) == |sp| + SpanEnd(a, cut)
    decreases |a|
  {
    var s := sp + a;
    assert s[|s| - 1] == a[|a| - 1];
    if cut(a[|a| - 1]) {
      var a1 := a[..|a| - 1];
      var k :| 0 <= k < |a| && !cut(a[k]);
      assert k < |a1| && a1[k] == a[k];
      assert s[..|s| - 1] == sp + a1;
      SpanEndAfter(sp, a1, cut);
    }
  }

  predicate HasPrefix(s: string, p: string) {
    |p| <= |s| && s[..|p|] == p
  }

  predicate HasSuffix(s: string, p: string) {
    |p| <= |s| && s[|s| - |p|..] == p
  }

  /** Neither end of `s` is a space. */
  predicate Trimmed(s: string) {
    s == [] || (!IsSpace(s[0]) && !IsSpace(s[|s| - 1]))
  }

  lemma {:induction false} TrimSpaceTrimmed(s: string)
    requires Trimmed(s)
    ensures TrimSpace(s) == s
  {
    TrimFuncKeeps(s, IsSpace);
  }

  /** `strings.TrimPrefix`. */
  function TrimPrefix(s: string, p: string): (r: string)
    ensures HasPrefix(s, p) ==> p + r == s
    ensures !HasPrefix(s, p) ==> r == s
  {
    if HasPrefix(s, p) then
      assert s == s[..|p|] + s[|p|..];
      s[|p|..]
    else s
  }

  /** `strings.Contains`. */
  predicate Contains(s: string, sub: string)
    decreases |s|
  {
    HasPrefix(s, sub) || (|s| > 0 && Contains(s[1..], sub))
  }

  lemma {:induction false} ContainsAppend(a: string, sub: string, b: string)
    ensures Contains(a + sub + b, sub)
    decreases |a|
  {
    if |a| == 0 {
      assert (a + sub + b)[..|sub|] == sub;
    } else {
      assert (a + sub + b)[1..] == a[1..] + sub + b;
      ContainsAppend(a[1..], sub, b);
    }
  }

  lemma {:induction false} NotContainsShort(s: string, sub: string)
    requires |s| < |sub|
    ensures !Contains(s, sub)
    decreases |s|
  {
    if |s| > 0 {
      NotContainsShort(s[1..], sub);
    }
  }

  /** Index of the first occurrence of `c` in `s`. */
  function FirstIndex(s: string, c: char): (i: nat)
    requires c in s
    ensures i < |s| && s[i] == c && c !in s[..i]
    ensures forall k :: 0 <= k < i ==> s[k] != c
  {
    if s[0] == c then 0
    else
      assert c in s[1..];
      var k := FirstIndex(s[1..], c);
      assert s[..k + 1] == [s[0]] + s[1..][..k];
      k + 1
  }

  /** `strings.Join`. */
  function Join(parts: seq<string>, sep: string): string {
    if |parts| == 0 then ""
    else if |parts| == 1 then parts[0]
    else parts[0] + sep + Join(parts[1..], sep)
  }

  lemma {:induction false} JoinSnoc(parts: seq<string>, x: string, sep: string)
    requires |parts| >= 1
    ensures Join(parts + [x], sep) == Join(parts, sep) + sep + x
    decreases |parts|
  {
    if |parts| > 1 {
      assert (parts + [x])[1..] == parts[1..] + [x];
      JoinSnoc(parts[1..], x, sep);
    }
  }

  /** `strings.Split` with a one-character separator. */
  function Split(s: string, c: char): (r: seq<string>)
    ensures |r| >= 1
    ensures forall k :: 0 <= k < |r| ==> c !in r[k]
    ensures Join(r, [c]) == s
    decreases |s|
  {
    if c in s then
      var i := FirstIndex(s, c);
      var rest := Split(s[i + 1..], c);
      assert s == s[..i] + [c] + s[i + 1..];
      [s[..i]] + rest
    else [s]
  }

  /** Splitting a joined list recovers it when no piece holds the separator. */
  lemma {:induction false} SplitJoin(parts: seq<string>, c: char)
    requires |parts| >= 1
    requires forall k :: 0 <= k < |parts| ==> c !in parts[k]
    ensures Split(Join(parts, [c]), c) == parts
    decreases |parts|
  {
    if |parts| == 1 {
    } else {
      var s := Join(parts, [c]);
      var tail := Join(parts[1..], [c]);
      assert s == parts[0] + [c] + tail;
      assert c in s by { assert s[|parts[0]|] == c; }
      var i := FirstIndex(s, c);
      assert i == |parts[0]|;
      assert s[..i] == parts[0];
      assert s[i + 1..] == tail;
      SplitJoin(parts[1..], c);
    }
  }

  /** `strings.SplitN(s, sep, 2)` with a one-character separator, as a pair
      (before, after) when the separator occurs. */
  function Cut(s: string, c: char): (r: Option<(string, string)>)
    ensures r.None? <==> c !in s
    ensures r.Some? ==> r.value.0 + [c] + r.value.1 == s && c !in r.value.0
  {
    if c in s then
      var i := FirstIndex(s, c);
      assert s == s[..i] + [c] + s[i + 1..];
      Some((s[..i], s[i + 1..]))
    else None
  }

  /** The cut falls at the first separator: the one after a prefix without it. */
  lemma {:induction false} CutAt(a: string, c: char, b: string)
    requires c !in a
    ensures Cut(a + [c] + b, c) == Some((a, b))
  {
    var s := a + [c] + b;
    assert s[|a|] == c;
    assert forall m :: 0 <= m < |a| ==> s[m] == a[m];
    assert s[..|a|] == a && s[|a| + 1..] == b;
  }

  /** `strings.SplitN(s, " ", 2)` as a list: one piece without a separator, two with. */
  function SplitN2(s: string, c: char): (r: seq<string>)
    ensures 1 <= |r| <= 2
    ensures |r| == 2 <==> c in s
  {
    match Cut(s, c)
    case Some(p) => [p.0, p.1]
    case None => [s]
  }

  /** `strings.ReplaceAll(s, string(a), string(b))` for one-character strings. */
  function ReplaceChar(s: string, a: char, b: char): (r: string)
    ensures |r| == |s|
    ensures forall k :: 0 <= k < |s| ==> r[k] == (if s[k] == a then b else s[k])
  {
    if |s| == 0 then [] else [if s[0] == a then b else s[0]] + ReplaceChar(s[1..], a, b)
  }

  /** `strings.ReplaceAll(s, string([a, b]), string(r))`: every occurrence of the
      two-character pattern, scanned left to right without overlap, becomes `r`. */
  function ReplacePair(s: string, a: char, b: char, r: char): string
    decreases |s|
  {
    if |s| >= 2 && s[0] == a && s[1] == b then [r] + ReplacePair(s[2..], a, b, r)
    else if |s| == 0 then []
    else [s[0]] + ReplacePair(s[1..], a, b, r)
  }

  /** Lexicographic order on runes; for valid UTF-8 it agrees with Go's byte-wise `<`. */
  predicate Less(a: string, b: string)
    decreases |a|
  {
    if |a| == 0 then |b| > 0
    else if |b| == 0 then false
    else if a[0] != b[0] then a[0] < b[0]
    else Less(a[1..], b[1..])
  }

  lemma {:induction false} LessIrreflexive(a: string)
    ensures !Less(a, a)
    decreases |a|
  {
    if |a| > 0 {
      LessIrreflexive(a[1..]);
    }
  }

  lemma {:induction false} LessTransitive(a: string, b: string, c: string)
    requires Less(a, b) && Less(b, c)
    ensures Less(a, c)
    decreases |a|
  {
    if |a| > 0 && |b| > 0 && |c| > 0 && a[0] == b[0] && b[0] == c[0] {
      LessTransitive(a[1..], b[1..], c[1..]);
    }
  }

  lemma {:induction false} LessTotal(a: string, b: string)
    requires a != b
    ensures Less(a, b) || Less(b, a)
    decreases |a|
  {
    if |a| > 0 && |b| > 0 && a[0] == b[0] {
      assert a == [a[0]] + a[1..] && b == [b[0]] + b[1..];
      LessTotal(a[1..], b[1..]);
    }
  }

  /** `c` is one of the runes Go's simple case folding relates to the lower-case
      ASCII letter `lower` (the folding orbits of k and s hold a third rune). */
  predicate FoldsTo(c: char, lower: char) {
    c == lower || (('a' <= lower <= 'z') && c as int == lower as int - 32)
    || (lower == 's' && c == '\U{17F}') || (lower == 'k' && c == '\U{212A}')
  }

  /** `strings.EqualFold(s, lit)` for a lower-case ASCII literal `lit`. */
  predicate EqualFold(s: string, lit: string) {
    |s| == |lit| && forall k :: 0 <= k < |s| ==> FoldsTo(s[k], lit[k])
  }

  /** `unicode.ToLower(c) == lower` for a lower-case ASCII letter `lower`. */
  predicate LowersTo(c: char, lower: char) {
    c == lower || (('a' <= lower <= 'z') && c as int == lower as int - 32)
    || (lower == 'i' && c == '\U{130}') || (lower == 'k' && c == '\U{212A}')
  }

  predicate LowersToAt(s: string, i: nat, lit: string)
    requires i + |lit| <= |s|
  {
    forall k :: 0 <= k < |lit| ==> LowersTo(s[i + k], lit[k])
  }

  /** `strings.Contains(strings.ToLower(s), lit)` for a lower-case ASCII literal. */
  predicate ContainsLowered(s: string, lit: string) {
    exists i: nat :: i + |lit| <= |s| && LowersToAt(s, i, lit)
  }

  /** `strings.ToUpper(s) == "ALL"`: only a/A and l/L upper-case to those letters. */
  predicate UpperIsAll(s: string) {
    |s| == 3 && (s[0] == 'a' || s[0] == 'A') && (s[1] == 'l' || s[1] == 'L')
    && (s[2] == 'l' || s[2] == 'L')
  }

  /** Number of bytes of the UTF-8 encoding of `c`. */
  function Utf8Width(c: char): nat {
    if c as int < 0x80 then 1 else if c as int < 0x800 then 2 else if c as int < 0x10000 then 3 else 4
  }

  /** Go's `len(s)`: the byte length of the UTF-8 encoding. */
  function ByteLen(s: string): (n: nat)
    ensures |s| <= n <= 4 * |s|
  {
    if |s| == 0 then 0 else Utf8Width(s[0]) + ByteLen(s[1..])
  }

  lemma {:induction false} ByteLenAppend(a: string, b: string)
    ensures ByteLen(a + b) == ByteLen(a) + ByteLen(b)
    decreases |a|
  {
    if |a| > 0 {
      assert (a + b)[0] == a[0];
      assert (a + b)[1..] == a[1..] + b;
      ByteLenAppend(a[1..], b);
    } else {
      assert a + b == b;
    }
  }

  predicate IsDigit(c: char) {
    '0' <= c <= '9'
  }

  function DigitsValue(s: string): nat
    requires All(s, IsDigit)
  {
    if |s| == 0 then 0 else DigitsValue(s[..|s| - 1]) * 10 + (s[|s| - 1] as int - '0' as int)
  }

  /** Decimal digits of a natural number (`strconv.Itoa` for n >= 0). */
  function NatToString(n: nat): (r: string)
    ensures |r| >= 1 && All(r, IsDigit)
    ensures DigitsValue(r) == n
    ensures r[0] == '0' ==> n == 0
  {
    if n < 10 then ['0' + n as char]
    else
      var r := NatToString(n / 10) + ['0' + (n % 10) as char];
      assert r[..|r| - 1] == NatToString(n / 10);
      r
  }

  /** `strconv.Itoa` / `fmt.Sprintf("%d", n)`. */
  function IntToString(n: int): string {
    if n < 0 then "-" + NatToString(-n) else NatToString(n)
  }

  const MinInt64: int := -0x8000_0000_0000_0000
  const MaxInt64: int := 0x7FFF_FFFF_FFFF_FFFF

  /** `strconv.Atoi` on a 64-bit platform: an optional sign, then at least one
      decimal digit, and the value must fit in an int64. */
  function Atoi(s: string): (r: Result<int, string>)
    ensures r.Ok? ==> MinInt64 <= r.value <= MaxInt64
  {
    var neg := |s| > 0 && s[0] == '-';
    var body := if |s| > 0 && (s[0] == '-' || s[0] == '+') then s[1..] else s;
    if |body| == 0 || !All(body, IsDigit) then Err("invalid syntax")
    else
      var v := if neg then -(DigitsValue(body) as int) else DigitsValue(body) as int;
      if v < MinInt64 || v > MaxInt64 then Err("value out of range") else Ok(v)
  }

  lemma {:induction false} AtoiNatToString(n: nat)
    requires n <= MaxInt64
    ensures Atoi(NatToString(n)) == Ok(n)
  {
  }
}

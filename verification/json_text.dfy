/** Reading JSON text (RFC 8259) into `Json.Json` values, and the round trip
    with the serialiser: what `encoding/json` writes, the parser reads back. */
module JsonText {
  import opened Wrappers
  import opened Json
  import Text

  /** Insignificant whitespace between tokens. */
  predicate IsWs(c: char) {
    c == ' ' || c == '\t' || c == '\n' || c == '\r'
  }

  function SkipWs(s: string): (r: string)
    ensures |r| <= |s|
    ensures |r| > 0 ==> !IsWs(r[0])
    ensures |s| > 0 && !IsWs(s[0]) ==> r == s
  {
    if |s| > 0 && IsWs(s[0]) then SkipWs(s[1..]) else s
  }

  // ---------------------------------------------------------------------------
  // Numbers

  /** Characters that can occur in a number literal. */
  predicate IsNumChar(c: char) {
    Text.IsDigit(c) || c == '-' || c == '+' || c == '.' || c == 'e' || c == 'E'
  }

  function DigitRun(s: string): (n: nat)
    ensures n <= |s|
  {
    Text.SpanStart(s, Text.IsDigit)
  }

  /** A fraction part: `.` followed by at least one digit. Its length, or 0. */
  function FracLen(u: string): (n: nat)
    ensures n <= |u|
  {
    if |u| > 0 && u[0] == '.' && DigitRun(u[1..]) > 0 then 1 + DigitRun(u[1..]) else 0
  }

  /** An exponent part that spans the whole of `v`, or nothing at all. */
  predicate ExpOrEmpty(v: string) {
    |v| == 0 ||
    ((v[0] == 'e' || v[0] == 'E') &&
     var w := if |v| > 1 && (v[1] == '+' || v[1] == '-') then v[2..] else v[1..];
     |w| > 0 && Text.All(w, Text.IsDigit))
  }

  /** The JSON number grammar: an optional minus, an integer part without
      leading zeros, an optional fraction, an optional exponent. */
  predicate ValidNumber(s: string) {
    Text.All(s, IsNumChar) &&
    var t := if |s| > 0 && s[0] == '-' then s[1..] else s;
    |t| > 0 && Text.IsDigit(t[0]) &&
    var ip := if t[0] == '0' then 1 else DigitRun(t);
    var u := t[ip..];
    ExpOrEmpty(u[FracLen(u)..])
  }

  // ---------------------------------------------------------------------------
  // Strings

  predicate IsHexDigit(c: char) {
    Text.IsDigit(c) || ('a' <= c <= 'f') || ('A' <= c <= 'F')
  }

  function HexValue(c: char): (v: nat)
    requires IsHexDigit(c)
    ensures v < 16
  {
    if Text.IsDigit(c) then c as int - '0' as int
    else if 'a' <= c <= 'f' then c as int - 'a' as int + 10
    else c as int - 'A' as int + 10
  }

  function Hex4Value(h: string): (v: nat)
    requires |h| == 4 && Text.All(h, IsHexDigit)
    ensures v < 0x10000
  {
    4096 * HexValue(h[0]) + 256 * HexValue(h[1]) + 16 * HexValue(h[2]) + HexValue(h[3])
  }

  /** The character a backslash escape denotes, and how many characters after
      the backslash it occupies. A `\u` escape of a lone surrogate reads as
      U+FFFD; a surrogate pair reads as the character it encodes. */
  function EscapeAt(u: string): (r: Option<(char, nat)>)
    requires |u| > 0
    ensures r.Some? ==> 1 <= r.value.1 <= |u|
  {
    match u[0]
    case '"' => Some(('"', 1))
    case '\\' => Some(('\\', 1))
    case '/' => Some(('/', 1))
    case 'b' => Some(('\U{0008}', 1))
    case 'f' => Some(('\U{000C}', 1))
    case 'n' => Some(('\n', 1))
    case 'r' => Some(('\r', 1))
    case 't' => Some(('\t', 1))
    case 'u' =>
      if |u| < 5 || !Text.All(u[1..5], IsHexDigit) then None
      else
        var hi := Hex4Value(u[1..5]);
        if 0xD800 <= hi < 0xDC00 && |u| >= 11 && u[5] == '\\' && u[6] == 'u'
           && Text.All(u[7..11], IsHexDigit) && 0xDC00 <= Hex4Value(u[7..11]) < 0xE000
        then
          Some((((hi - 0xD800) * 0x400 + (Hex4Value(u[7..11]) - 0xDC00) + 0x10000) as char, 11))
        else if 0xD800 <= hi < 0xE000 then Some(('\U{FFFD}', 5))
        else Some((hi as char, 5))
    case _ => None
  }

  function Prepend(c: char, r: Option<(string, string)>): Option<(string, string)> {
    match r
    case Some((x, rest)) => Some(([c] + x, rest))
    case None => None
  }

  /** The body of a string literal after its opening quote: the decoded text
      and what follows the closing quote. Raw control characters are rejected. */
  function ParseStringBody(s: string): (r: Option<(string, string)>)
    ensures r.Some? ==> |r.value.1| < |s|
    decreases |s|
  {
    if |s| == 0 then None
    else if s[0] == '"' then Some(([], s[1..]))
    else if s[0] == '\\' then
      if |s| < 2 then None
      else
        match EscapeAt(s[1..])
        case Some((c, n)) => Prepend(c, ParseStringBody(s[1 + n..]))
        case None => None
    else if s[0] as int < 0x20 then None
    else Prepend(s[0], ParseStringBody(s[1..]))
  }

  // ---------------------------------------------------------------------------
  // Values

  /** One value at the start of `s` (after whitespace), and the text after it. */
  function ParseValue(s: string): (r: Option<(Json, string)>)
    ensures r.Some? ==> |r.value.1| < |s|
    decreases |s|, 1
  {
    ParseToken(SkipWs(s))
  }

  /** One value starting exactly at the start of `t`. */
  function ParseToken(t: string): (r: Option<(Json, string)>)
    ensures r.Some? ==> |r.value.1| < |t|
    decreases |t|, 0
  {
    if |t| == 0 then None
    else if t[0] == '[' then ParseArray(t[1..])
    else if t[0] == '{' then ParseObject(t[1..])
    else if t[0] == '"' then ParseString(t[1..])
    else if t[0] == 'n' || t[0] == 't' || t[0] == 'f' then ParseKeyword(t)
    else ParseNumber(t)
  }

  function ParseString(s: string): (r: Option<(Json, string)>)
    ensures r.Some? ==> |r.value.1| < |s|
  {
    match ParseStringBody(s)
    case Some((str, rest)) => Some((JStr(str), rest))
    case None => None
  }

  /** `null`, `true` or `false`. */
  function ParseKeyword(t: string): (r: Option<(Json, string)>)
    ensures r.Some? ==> |r.value.1| < |t|
  {
    if Text.HasPrefix(t, "null") then Some((JNull, t[4..]))
    else if Text.HasPrefix(t, "true") then Some((JBool(true), t[4..]))
    else if Text.HasPrefix(t, "false") then Some((JBool(false), t[5..]))
    else None
  }

  /** The longest run of number characters, which must form a valid number. */
  function ParseNumber(t: string): (r: Option<(Json, string)>)
    ensures r.Some? ==> |r.value.1| < |t|
  {
    var n := Text.SpanStart(t, IsNumChar);
    if n > 0 && ValidNumber(t[..n]) then Some((JNum(t[..n]), t[n..])) else None
  }

  /** The rest of an array after `[`. */
  function ParseArray(s: string): (r: Option<(Json, string)>)
    ensures r.Some? ==> |r.value.1| < |s|
    decreases |s|, 3
  {
    var t := SkipWs(s);
    if |t| > 0 && t[0] == ']' then Some((JArr([]), t[1..]))
    else ParseElems(s, [])
  }

  /** Elements of an array from the next one on; `acc` holds those already read. */
  function ParseElems(s: string, acc: seq<Json>): (r: Option<(Json, string)>)
    ensures r.Some? ==> |r.value.1| < |s|
    decreases |s|, 2
  {
    match ParseValue(s)
    case None => None
    case Some((v, rest)) =>
      var t := SkipWs(rest);
      if |t| == 0 then None
      else if t[0] == ',' then ParseElems(t[1..], acc + [v])
      else if t[0] == ']' then Some((JArr(acc + [v]), t[1..]))
      else None
  }

  /** The rest of an object after `{`. */
  function ParseObject(s: string): (r: Option<(Json, string)>)
    ensures r.Some? ==> |r.value.1| < |s|
    decreases |s|, 3
  {
    var t := SkipWs(s);
    if |t| > 0 && t[0] == '}' then Some((JObj([]), t[1..]))
    else ParseMembers(s, [])
  }

  /** Members of an object from the next one on; `acc` holds those already read. */
  function ParseMembers(s: string, acc: seq<Member>): (r: Option<(Json, string)>)
    ensures r.Some? ==> |r.value.1| < |s|
    decreases |s|, 2
  {
    var t := SkipWs(s);
    if |t| == 0 || t[0] != '"' then None
    else
      match ParseStringBody(t[1..])
      case None => None
      case Some((key, r1)) =>
        var u := SkipWs(r1);
        if |u| == 0 || u[0] != ':' then None
        else
          match ParseValue(u[1..])
          case None => None
          case Some((v, r2)) =>
            var w := SkipWs(r2);
            if |w| == 0 then None
            else if w[0] == ',' then ParseMembers(w[1..], acc + [Member(key, v)])
            else if w[0] == '}' then Some((JObj(acc + [Member(key, v)]), w[1..]))
            else None
  }

  /** A whole JSON text: one value with nothing but whitespace around it. */
  function Parse(s: string): (r: Option<Json>)
    ensures r.Some? ==> exists rest :: ParseValue(s) == Some((r.value, rest)) && SkipWs(rest) == []
  {
    match ParseValue(s)
    case Some((v, rest)) => if |SkipWs(rest)| == 0 then Some(v) else None
    case None => None
  }

  // ---------------------------------------------------------------------------
  // Round trip

  /** Values the serialiser can write faithfully: every number literal is one. */
  predicate Valid(j: Json)
    decreases j
  {
    match j
    case JNum(lit) => ValidNumber(lit)
    case JArr(es) => forall k :: 0 <= k < |es| ==> Valid(es[k])
    case JObj(ms) => forall k :: 0 <= k < |ms| ==> Valid(ms[k].value)
    case _ => true
  }

  /** Text that may follow a value inside a container or at the end. */
  predicate Delim(rest: string) {
    |rest| == 0 || rest[0] == ',' || rest[0] == ']' || rest[0] == '}'
  }

  function HexDigit(d: nat): (c: char)
    requires d < 16
    ensures IsHexDigit(c) && HexValue(c) == d
  {
    if d < 10 then ('0' as int + d) as char else ('a' as int + d - 10) as char
  }

  lemma {:induction false} HexDigitIsTable(d: nat)
    requires d < 16
    ensures HexDigits[d] == HexDigit(d)
  {
  }

  lemma {:induction false} Hex4Digits(n: nat)
    requires n < 0x10000
    ensures Hex4(n) == [HexDigit(n / 4096), HexDigit((n / 256) % 16), HexDigit((n / 16) % 16), HexDigit(n % 16)]
  {
    HexDigitIsTable(n / 4096);
    HexDigitIsTable((n / 256) % 16);
    HexDigitIsTable((n / 16) % 16);
    HexDigitIsTable(n % 16);
  }

  lemma {:induction false} Hex4RoundTrip(n: nat)
    requires n < 0x10000
    ensures Text.All(Hex4(n), IsHexDigit) && Hex4Value(Hex4(n)) == n
  {
    Hex4Digits(n);
    var a, b, c, d := n / 4096, (n / 256) % 16, (n / 16) % 16, n % 16;
    var h := Hex4(n);
    assert HexValue(h[0]) == a && HexValue(h[1]) == b && HexValue(h[2]) == c && HexValue(h[3]) == d;
    assert Hex4Value(h) == 4096 * a + 256 * b + 16 * c + d;
    DigitsOfHex(n);
  }

  lemma {:induction false} DigitsOfHex(n: nat)
    requires n < 0x10000
    ensures n == 4096 * (n / 4096) + 256 * ((n / 256) % 16) + 16 * ((n / 16) % 16) + n % 16
  {
    var q1 := n / 16;
    var q2 := q1 / 16;
    var q3 := q2 / 16;
    assert n == 16 * q1 + n % 16;
    assert q1 == 16 * q2 + q1 % 16;
    assert q2 == 16 * q3 + q2 % 16;
    assert q2 == n / 256;
    assert q3 == n / 4096;
  }

  /** Reading back one escaped character. */
  lemma {:induction false} EscapeCharRoundTrip(c: char, rest: string)
    ensures ParseStringBody(EscapeChar(c) + rest) == Prepend(c, ParseStringBody(rest))
  {
    if c == '"' || c == '\\' || c == '\n' || c == '\r' || c == '\t' {
      ShortEscapeRoundTrip(c, rest);
    } else if NeedsUnicodeEscape(c) {
      UnicodeEscapeRoundTrip(c, rest);
    } else {
      var s := EscapeChar(c) + rest;
      assert s == [c] + rest;
      DropFirst([c], rest);
    }
  }

  lemma {:induction false} ShortEscapeRoundTrip(c: char, rest: string)
    requires c == '"' || c == '\\' || c == '\n' || c == '\r' || c == '\t'
    ensures ParseStringBody(EscapeChar(c) + rest) == Prepend(c, ParseStringBody(rest))
  {
    var e := EscapeChar(c);
    var s := e + rest;
    assert |e| == 2 && e[0] == '\\';
    var u := s[1..];
    Assoc3([e[0]], [e[1]], rest);
    assert e == [e[0]] + [e[1]];
    DropFirst([e[0]], [e[1]] + rest);
    assert u == [e[1]] + rest;
    assert EscapeAt(u) == Some((c, 1));
    DropFirst([e[1]], rest);
    assert s[2..] == u[1..];
  }

  lemma {:induction false} UnicodeEscapeRoundTrip(c: char, rest: string)
    requires NeedsUnicodeEscape(c)
    ensures ParseStringBody(EscapeChar(c) + rest) == Prepend(c, ParseStringBody(rest))
  {
    Hex4RoundTrip(c as int);
    UnicodeEscapeAt(c, Hex4(c as int), rest);
  }

  lemma {:induction false} UnicodeEscapeAt(c: char, h: string, rest: string)
    requires |h| == 4 && Text.All(h, IsHexDigit) && Hex4Value(h) == c as int
    ensures ParseStringBody("\\u" + h + rest) == Prepend(c, ParseStringBody(rest))
  {
    var s := "\\u" + h + rest;
    assert s == "\\" + ("u" + h + rest);
    var u := s[1..];
    DropFirst("\\", "u" + h + rest);
    UnicodeSlices(h, rest);
    EscapeAtBmp(u);
    assert s[1 + 5..] == u[5..];
    StringBodyEscape(s, c, 5);
  }

  /** A backslash escape followed by the rest of the literal. */
  lemma {:induction false} StringBodyEscape(s: string, c: char, n: nat)
    requires |s| >= 2 && s[0] == '\\' && EscapeAt(s[1..]) == Some((c, n))
    ensures ParseStringBody(s) == Prepend(c, ParseStringBody(s[1 + n..]))
  {
  }

  lemma {:induction false} UnicodeSlices(h: string, rest: string)
    requires |h| == 4
    ensures var u := "u" + h + rest; |u| >= 5 && u[0] == 'u' && u[1..5] == h && u[5..] == rest
  {
  }

  /** A `\u` escape of a character outside the surrogate range. */
  lemma {:induction false} EscapeAtBmp(u: string)
    requires |u| >= 5 && u[0] == 'u' && Text.All(u[1..5], IsHexDigit)
    requires !(0xD800 <= Hex4Value(u[1..5]) < 0xE000)
    ensures EscapeAt(u) == Some((Hex4Value(u[1..5]) as char, 5))
  {
  }

  lemma {:induction false} StringRoundTrip(x: string, rest: string)
    ensures ParseStringBody(EscapeBody(x) + "\"" + rest) == Some((x, rest))
    decreases |x|
  {
    if |x| == 0 {
      assert EscapeBody(x) + "\"" + rest == "\"" + rest;
    } else {
      var tail := EscapeBody(x[1..]) + "\"" + rest;
      assert EscapeBody(x) + "\"" + rest == EscapeChar(x[0]) + tail;
      EscapeCharRoundTrip(x[0], tail);
      StringRoundTrip(x[1..], rest);
      assert [x[0]] + x[1..] == x;
    }
  }

  lemma {:induction false} QuoteRoundTrip(x: string, rest: string)
    ensures ParseValue(Quote(x) + rest) == Some((JStr(x), rest))
  {
    var s := Quote(x) + rest;
    QuoteShape(x, rest);
    StringToken(s);
    StringRoundTrip(x, rest);
  }

  lemma {:induction false} QuoteShape(x: string, rest: string)
    ensures var s := Quote(x) + rest;
            |s| > 0 && s[0] == '"' && s[1..] == EscapeBody(x) + "\"" + rest
  {
    var s := Quote(x) + rest;
    assert s[0] == '"';
    assert s[1..] == EscapeBody(x) + "\"" + rest;
  }

  lemma {:induction false} StringToken(s: string)
    requires |s| > 0 && s[0] == '"'
    ensures ParseValue(s) == ParseString(s[1..])
  {
    ValueAtToken(s);
  }

  /** A value that starts with a non-blank character is read from there. */
  lemma {:induction false} ValueAtToken(s: string)
    requires |s| > 0 && !IsWs(s[0])
    ensures ParseValue(s) == ParseToken(s)
  {
  }

  lemma {:induction false} NumberToken(s: string)
    requires |s| > 0 && (s[0] == '-' || Text.IsDigit(s[0]))
    ensures ParseValue(s) == ParseNumber(s)
  {
    ValueAtToken(s);
    assert s[0] != '[' && s[0] != '{' && s[0] != '"' && s[0] != 'n' && s[0] != 't' && s[0] != 'f';
  }

  lemma {:induction false} NumberRoundTrip(lit: string, rest: string)
    requires ValidNumber(lit) && Delim(rest)
    ensures ParseValue(lit + rest) == Some((JNum(lit), rest))
  {
    var s := lit + rest;
    assert s[0] == lit[0];
    NumberToken(s);
    Text.SpanStartAppend(lit, rest, IsNumChar);
    assert s[..|lit|] == lit && s[|lit|..] == rest;
  }

  /** A keyword literal followed by `rest`. */
  lemma {:induction false} KeywordRoundTrip(j: Json, rest: string)
    requires j.JNull? || j.JBool?
    ensures ParseValue(Serialize(j) + rest) == Some((j, rest))
  {
    var s := Serialize(j) + rest;
    var k := Serialize(j);
    assert s[..|k|] == k && s[|k|..] == rest;
    if j.JBool? && !j.b {
      assert !Text.HasPrefix(s, "null") by { assert s[..4][0] == 'f'; }
      assert !Text.HasPrefix(s, "true") by { assert s[..4][0] == 'f'; }
    } else if j.JBool? {
      assert !Text.HasPrefix(s, "null") by { assert s[..4][0] == 't'; }
    }
  }

  /** A serialised value never starts with whitespace or a closing bracket. */
  lemma {:induction false} FirstChar(j: Json, t: string)
    requires Valid(j)
    requires |Serialize(j)| <= |t| && t[..|Serialize(j)|] == Serialize(j)
    ensures |t| > 0 && !IsWs(t[0]) && t[0] != ']' && t[0] != '}' && t[0] != ','
  {
    var e := Serialize(j);
    assert |e| > 0 && e[0] == t[0];
    match j
    case JNum(lit) => assert lit[0] == '-' || Text.IsDigit(lit[0]);
    case _ =>
  }

  /** Whatever the serialiser writes for a valid value reads back as that
      value, followed by the untouched rest of the text. */
  lemma {:induction false} ValueRoundTrip(j: Json, rest: string)
    requires Valid(j) && Delim(rest)
    ensures ParseValue(Serialize(j) + rest) == Some((j, rest))
    decreases j, 1
  {
    match j
    case JNull => KeywordRoundTrip(j, rest);
    case JBool(_) => KeywordRoundTrip(j, rest);
    case JNum(lit) => NumberRoundTrip(lit, rest);
    case JStr(x) => QuoteRoundTrip(x, rest);
    case JArr(es) => ArrayRoundTrip(es, rest);
    case JObj(ms) => ObjectRoundTrip(ms, rest);
  }

  lemma {:induction false} OpenBracket(s: string)
    requires |s| > 0 && (s[0] == '[' || s[0] == '{')
    ensures s[0] == '[' ==> ParseValue(s) == ParseArray(s[1..])
    ensures s[0] == '{' ==> ParseValue(s) == ParseObject(s[1..])
  {
    ValueAtToken(s);
  }

  lemma {:induction false} ContainerBody(t: string)
    requires |t| > 0 && !IsWs(t[0])
    ensures t[0] != ']' ==> ParseArray(t) == ParseElems(t, [])
    ensures t[0] != '}' ==> ParseObject(t) == ParseMembers(t, [])
  {
    assert SkipWs(t) == t;
  }

  lemma {:induction false} ArrayRoundTrip(es: seq<Json>, rest: string)
    requires forall k :: 0 <= k < |es| ==> Valid(es[k])
    requires Delim(rest)
    ensures ParseValue("[" + SerializeElems(es) + "]" + rest) == Some((JArr(es), rest))
    decreases es, 1
  {
    if |es| == 0 {
      EmptyArray(es, rest);
    } else {
      ElemsRoundTrip(es, [], rest);
      ArrayOfElems(es, rest);
    }
  }

  lemma {:induction false} EmptyArray(es: seq<Json>, rest: string)
    requires |es| == 0
    ensures ParseValue("[" + SerializeElems(es) + "]" + rest) == Some((JArr(es), rest))
  {
    assert SerializeElems(es) == "";
    assert "[" + SerializeElems(es) + "]" + rest == ['[', ']'] + rest;
    EmptyContainer('[', ']', rest);
  }

  /** An array is its elements between brackets. */
  lemma {:induction false} ArrayOfElems(es: seq<Json>, rest: string)
    requires |es| > 0 && forall k :: 0 <= k < |es| ==> Valid(es[k])
    requires ParseElems(SerializeElems(es) + "]" + rest, []) == Some((JArr([] + es), rest))
    ensures ParseValue("[" + SerializeElems(es) + "]" + rest) == Some((JArr(es), rest))
  {
    var s := "[" + SerializeElems(es) + "]" + rest;
    var t := SerializeElems(es) + "]" + rest;
    Assoc3("[", SerializeElems(es), "]");
    Assoc3("[", SerializeElems(es) + "]", rest);
    DropFirst("[", t);
    OpenBracket(s);
    FirstElem(es, "]" + rest);
    ContainerBody(t);
    assert [] + es == es;
  }

  lemma {:induction false} FirstElem(es: seq<Json>, tail: string)
    requires |es| > 0
    requires forall k :: 0 <= k < |es| ==> Valid(es[k])
    ensures var t := SerializeElems(es) + tail; |t| > 0 && !IsWs(t[0]) && t[0] != ']'
  {
    var t := SerializeElems(es) + tail;
    var e := Serialize(es[0]);
    if |es| == 1 {
      assert t == e + tail;
    } else {
      assert t == e + ("," + SerializeElems(es[1..]) + tail);
    }
    assert t[..|e|] == e;
    FirstChar(es[0], t);
  }

  lemma {:induction false} ObjectRoundTrip(ms: seq<Member>, rest: string)
    requires forall k :: 0 <= k < |ms| ==> Valid(ms[k].value)
    requires Delim(rest)
    ensures ParseValue("{" + SerializeMembers(ms) + "}" + rest) == Some((JObj(ms), rest))
    decreases ms, 1
  {
    if |ms| == 0 {
      EmptyObject(ms, rest);
    } else {
      MembersRoundTrip(ms, [], rest);
      ObjectOfMembers(ms, rest);
    }
  }

  lemma {:induction false} EmptyObject(ms: seq<Member>, rest: string)
    requires |ms| == 0
    ensures ParseValue("{" + SerializeMembers(ms) + "}" + rest) == Some((JObj(ms), rest))
  {
    assert SerializeMembers(ms) == "";
    assert "{" + SerializeMembers(ms) + "}" + rest == ['{', '}'] + rest;
    EmptyContainer('{', '}', rest);
  }

  /** `[]` and `{}` read as the empty array and the empty object. */
  lemma {:induction false} EmptyContainer(open: char, close: char, rest: string)
    requires (open == '[' && close == ']') || (open == '{' && close == '}')
    ensures open == '[' ==> ParseValue([open, close] + rest) == Some((JArr([]), rest))
    ensures open == '{' ==> ParseValue([open, close] + rest) == Some((JObj([]), rest))
  {
    var s := [open, close] + rest;
    var t := [close] + rest;
    assert s[0] == open && s[1..] == t;
    OpenBracket(s);
    assert SkipWs(t) == t;
    assert t[0] == close && t[1..] == rest;
  }

  /** An object is its members between braces. */
  lemma {:induction false} ObjectOfMembers(ms: seq<Member>, rest: string)
    requires |ms| > 0
    requires ParseMembers(SerializeMembers(ms) + "}" + rest, []) == Some((JObj([] + ms), rest))
    ensures ParseValue("{" + SerializeMembers(ms) + "}" + rest) == Some((JObj(ms), rest))
  {
    var s := "{" + SerializeMembers(ms) + "}" + rest;
    var t := SerializeMembers(ms) + "}" + rest;
    Assoc3("{", SerializeMembers(ms), "}");
    Assoc3("{", SerializeMembers(ms) + "}", rest);
    DropFirst("{", t);
    OpenBracket(s);
    MembersSplit(ms, rest);
    var q := Quote(ms[0].key);
    assert q[0] == '"';
    assert t[0] == q[0];
    ContainerBody(t);
    assert [] + ms == ms;
  }

  /** Step of the array reader: one element, then a comma or the closing bracket. */
  lemma {:induction false} ElemsStep(s: string, acc: seq<Json>, v: Json, after: string)
    requires ParseValue(s) == Some((v, after))
    requires |after| > 0 && (after[0] == ',' || after[0] == ']')
    ensures after[0] == ',' ==> ParseElems(s, acc) == ParseElems(after[1..], acc + [v])
    ensures after[0] == ']' ==> ParseElems(s, acc) == Some((JArr(acc + [v]), after[1..]))
  {
    assert SkipWs(after) == after;
  }

  lemma {:induction false} ElemsRoundTrip(es: seq<Json>, acc: seq<Json>, rest: string)
    requires |es| > 0 && Delim(rest)
    requires forall k :: 0 <= k < |es| ==> Valid(es[k])
    ensures ParseElems(SerializeElems(es) + "]" + rest, acc) == Some((JArr(acc + es), rest))
    decreases es, 0
  {
    var s := SerializeElems(es) + "]" + rest;
    if |es| == 1 {
      assert SerializeElems(es) == Serialize(es[0]);
      Assoc3(Serialize(es[0]), "]", rest);
      ValueRoundTrip(es[0], "]" + rest);
      ElemsStep(s, acc, es[0], "]" + rest);
      DropFirst("]", rest);
      assert es == [es[0]];
    } else {
      var tail := SerializeElems(es[1..]) + "]" + rest;
      assert SerializeElems(es) == Serialize(es[0]) + "," + SerializeElems(es[1..]);
      Assoc4(Serialize(es[0]), ",", SerializeElems(es[1..]), "]", rest);
      Assoc3(",", SerializeElems(es[1..]), "]");
      Assoc3(",", SerializeElems(es[1..]) + "]", rest);
      ValueRoundTrip(es[0], "," + tail);
      ElemsStep(s, acc, es[0], "," + tail);
      DropFirst(",", tail);
      ElemsRoundTrip(es[1..], acc + [es[0]], rest);
      assert acc + [es[0]] + es[1..] == acc + es;
    }
  }

  /** Step of the object reader: a key, a colon, a value, then a comma or the closing brace. */
  lemma {:induction false} MembersStep(s: string, acc: seq<Member>, key: string, r1: string, v: Json, after: string)
    requires |s| > 0 && s[0] == '"' && ParseStringBody(s[1..]) == Some((key, r1))
    requires |r1| > 0 && r1[0] == ':' && ParseValue(r1[1..]) == Some((v, after))
    requires |after| > 0 && (after[0] == ',' || after[0] == '}')
    ensures after[0] == ',' ==> ParseMembers(s, acc) == ParseMembers(after[1..], acc + [Member(key, v)])
    ensures after[0] == '}' ==> ParseMembers(s, acc) == Some((JObj(acc + [Member(key, v)]), after[1..]))
  {
    assert SkipWs(s) == s;
    assert SkipWs(r1) == r1;
    assert SkipWs(after) == after;
  }

  /** The key, colon and value at the start of a serialised member. */
  lemma {:induction false} MemberText(key: string, v: Json, after: string)
    requires Valid(v) && |after| > 0 && (after[0] == ',' || after[0] == '}')
    ensures var s := Quote(key) + ":" + Serialize(v) + after;
            var r1 := ":" + Serialize(v) + after;
            |s| > 0 && s[0] == '"' && ParseStringBody(s[1..]) == Some((key, r1)) &&
            r1[1..] == Serialize(v) + after
  {
    var e := EscapeBody(key);
    var sv := Serialize(v);
    var r1 := ":" + sv + after;
    MemberShape(e, sv, after);
    DropFirst("\"", e + "\"" + r1);
    Assoc3(":", sv, after);
    DropFirst(":", sv + after);
    StringRoundTrip(key, r1);
  }

  lemma {:induction false} MemberShape(e: string, sv: string, after: string)
    ensures "\"" + e + "\"" + ":" + sv + after == "\"" + (e + "\"" + (":" + sv + after))
  {
  }

  /** What follows the first member of a serialised object body. */
  function MembersAfter(ms: seq<Member>, rest: string): (r: string)
    requires |ms| > 0
    ensures |r| > 0 && (r[0] == ',' || r[0] == '}')
  {
    if |ms| == 1 then "}" + rest else "," + SerializeMembers(ms[1..]) + "}" + rest
  }

  lemma {:induction false} MembersSplit(ms: seq<Member>, rest: string)
    requires |ms| > 0
    ensures SerializeMembers(ms) + "}" + rest
            == Quote(ms[0].key) + ":" + Serialize(ms[0].value) + MembersAfter(ms, rest)
  {
    var x := SerializeMember(ms[0]);
    assert x == Quote(ms[0].key) + ":" + Serialize(ms[0].value);
    if |ms| > 1 {
      var y := SerializeMembers(ms[1..]);
      assert SerializeMembers(ms) == x + "," + y;
      Assoc4(x, ",", y, "}", rest);
    } else {
      assert SerializeMembers(ms) == x;
      Assoc3(x, "}", rest);
    }
  }

  lemma {:induction false} DropFirst(a: string, b: string)
    requires |a| == 1
    ensures (a + b)[1..] == b
  {
  }

  lemma {:induction false} Assoc3(a: string, b: string, c: string)
    ensures a + b + c == a + (b + c)
  {
  }

  lemma {:induction false} Assoc4(a: string, b: string, c: string, d: string, e: string)
    ensures a + b + c + d + e == a + (b + c + d + e)
  {
  }

  lemma {:induction false} MembersRoundTrip(ms: seq<Member>, acc: seq<Member>, rest: string)
    requires |ms| > 0 && Delim(rest)
    requires forall k :: 0 <= k < |ms| ==> Valid(ms[k].value)
    ensures ParseMembers(SerializeMembers(ms) + "}" + rest, acc) == Some((JObj(acc + ms), rest))
    decreases ms, 0
  {
    var after := MembersAfter(ms, rest);
    ValueRoundTrip(ms[0].value, after);
    if |ms| == 1 {
      LastMember(ms, acc, rest);
    } else {
      MembersRoundTrip(ms[1..], acc + [ms[0]], rest);
      NextMember(ms, acc, rest);
    }
  }

  /** The first member, then the closing brace. */
  lemma {:induction false} LastMember(ms: seq<Member>, acc: seq<Member>, rest: string)
    requires |ms| == 1 && Valid(ms[0].value)
    requires ParseValue(Serialize(ms[0].value) + MembersAfter(ms, rest)) == Some((ms[0].value, MembersAfter(ms, rest)))
    ensures ParseMembers(SerializeMembers(ms) + "}" + rest, acc) == Some((JObj(acc + ms), rest))
  {
    var m := ms[0];
    var s := SerializeMembers(ms) + "}" + rest;
    var after := MembersAfter(ms, rest);
    MembersSplit(ms, rest);
    MemberText(m.key, m.value, after);
    MembersStep(s, acc, m.key, ":" + Serialize(m.value) + after, m.value, after);
    DropFirst("}", rest);
    assert ms == [m];
  }

  /** The first member, a comma, then the reading of the others. */
  lemma {:induction false} NextMember(ms: seq<Member>, acc: seq<Member>, rest: string)
    requires |ms| > 1 && Valid(ms[0].value)
    requires ParseValue(Serialize(ms[0].value) + MembersAfter(ms, rest)) == Some((ms[0].value, MembersAfter(ms, rest)))
    requires ParseMembers(SerializeMembers(ms[1..]) + "}" + rest, acc + [ms[0]]) == Some((JObj(acc + [ms[0]] + ms[1..]), rest))
    ensures ParseMembers(SerializeMembers(ms) + "}" + rest, acc) == Some((JObj(acc + ms), rest))
  {
    var m := ms[0];
    var s := SerializeMembers(ms) + "}" + rest;
    var after := MembersAfter(ms, rest);
    MembersSplit(ms, rest);
    MemberText(m.key, m.value, after);
    MembersStep(s, acc, m.key, ":" + Serialize(m.value) + after, m.value, after);
    CommaTail(ms, rest);
    ConsMember(acc, ms);
  }

  lemma {:induction false} CommaTail(ms: seq<Member>, rest: string)
    requires |ms| > 1
    ensures MembersAfter(ms, rest)[0] == ','
    ensures MembersAfter(ms, rest)[1..] == SerializeMembers(ms[1..]) + "}" + rest
  {
    var tail := SerializeMembers(ms[1..]) + "}" + rest;
    Assoc3(",", SerializeMembers(ms[1..]), "}");
    Assoc3(",", SerializeMembers(ms[1..]) + "}", rest);
    DropFirst(",", tail);
  }

  lemma {:induction false} ConsMember(acc: seq<Member>, ms: seq<Member>)
    requires |ms| > 0
    ensures acc + [ms[0]] + ms[1..] == acc + ms
  {
    assert [ms[0]] + ms[1..] == ms;
  }

  /** `Parse` inverts `Serialize` on valid values. */
  lemma {:induction false} ParseSerialize(j: Json)
    requires Valid(j)
    ensures Parse(Serialize(j)) == Some(j)
  {
    ValueRoundTrip(j, []);
    assert Serialize(j) + [] == Serialize(j);
  }
}

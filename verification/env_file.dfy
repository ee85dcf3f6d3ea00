/** The `.env` file as the cookie loaders read it and the savers write it
    (internal/browser/cookie.go, internal/browser/save_ordered.go): lines of
    `KEY=value`, blank lines and `#` comments. */
module EnvFile {
  import opened Wrappers
  import opened Text

  // ---------------------------------------------------------------------------
  // A Go map filled in a loop

  predicate Defines(e: Option<(string, string)>, k: string) {
    e.Some? && e.value.0 == k
  }

  predicate Defined(es: seq<Option<(string, string)>>, k: string) {
    exists i :: 0 <= i < |es| && Defines(es[i], k)
  }

  /** The map a loop `m[key] = value` over `es` leaves behind (None entries are
      skipped): a key is present exactly when some entry defines it. */
  function ToMap(es: seq<Option<(string, string)>>): (m: map<string, string>)
    ensures forall k :: k in m <==> Defined(es, k)
    decreases |es|
  {
    if |es| == 0 then map[]
    else
      var init := es[..|es| - 1];
      var m := ToMap(init);
      forall k | Defined(init, k) ensures Defined(es, k) {
        var i :| 0 <= i < |init| && Defines(init[i], k);
        assert Defines(es[i], k);
      }
      forall k | Defined(es, k) && !Defines(es[|es| - 1], k) ensures Defined(init, k) {
        var i :| 0 <= i < |es| && Defines(es[i], k);
        assert i < |es| - 1 && Defines(init[i], k);
      }
      Put(m, es[|es| - 1])
  }

  /** One assignment `m[key] = value`, or none for an entry without a pair. */
  function Put(m: map<string, string>, e: Option<(string, string)>): map<string, string> {
    match e
    case Some(kv) => m[kv.0 := kv.1]
    case None => m
  }

  lemma {:induction false} ToMapStep(es: seq<Option<(string, string)>>)
    requires |es| > 0
    ensures ToMap(es) == Put(ToMap(es[..|es| - 1]), es[|es| - 1])
  {
  }

  /** Later entries win: the value of a key is the one of its last defining entry. */
  lemma {:induction false} ToMapLast(es: seq<Option<(string, string)>>, i: nat, k: string)
    requires i < |es| && Defines(es[i], k)
    requires forall j :: i < j < |es| ==> !Defines(es[j], k)
    ensures k in ToMap(es) && ToMap(es)[k] == es[i].value.1
    decreases |es|
  {
    if i < |es| - 1 {
      var init := es[..|es| - 1];
      assert init[i] == es[i];
      forall j | i < j < |init| ensures !Defines(init[j], k) {
        assert init[j] == es[j];
      }
      ToMapLast(init, i, k);
    }
  }

  /** When every definition of `k` from position `lo` on gives `v`, and there
      is one, the map holds `v` for `k`. */
  lemma {:induction false} ToMapFrom(es: seq<Option<(string, string)>>, lo: nat, k: string, v: string)
    requires exists i :: lo <= i < |es| && Defines(es[i], k)
    requires forall j :: lo <= j < |es| && Defines(es[j], k) ==> es[j].value.1 == v
    ensures k in ToMap(es) && ToMap(es)[k] == v
    decreases |es|
  {
    var last := |es| - 1;
    if !Defines(es[last], k) {
      var init := es[..last];
      var i :| lo <= i < |es| && Defines(es[i], k);
      assert i < last && init[i] == es[i];
      forall j | lo <= j < |init| && Defines(init[j], k) ensures init[j].value.1 == v {
        assert init[j] == es[j];
      }
      ToMapFrom(init, lo, k, v);
    }
  }

  /** Every value of the map comes from an entry defining its key. */
  lemma {:induction false} ToMapValue(es: seq<Option<(string, string)>>, k: string)
    requires k in ToMap(es)
    ensures exists i :: 0 <= i < |es| && Defines(es[i], k) && ToMap(es)[k] == es[i].value.1
    decreases |es|
  {
    var last := |es| - 1;
    if !Defines(es[last], k) {
      var init := es[..last];
      ToMapValue(init, k);
      var i :| 0 <= i < |init| && Defines(init[i], k) && ToMap(init)[k] == init[i].value.1;
      assert es[i] == init[i];
    }
  }

  /** Entries that define nothing, appended at the end, change nothing. */
  lemma {:induction false} ToMapPadding(es: seq<Option<(string, string)>>, t: seq<Option<(string, string)>>)
    requires forall j :: 0 <= j < |t| ==> t[j].None?
    ensures ToMap(es + t) == ToMap(es)
    decreases |t|
  {
    if |t| > 0 {
      var t0 := t[..|t| - 1];
      assert (es + t)[..|es + t| - 1] == es + t0;
      ToMapPadding(es, t0);
    } else {
      assert es + t == es;
    }
  }

  /** A sequence of lines none of which defines anything gives the empty map. */
  lemma {:induction false} NoEntries(es: seq<Option<(string, string)>>)
    requires forall j :: 0 <= j < |es| ==> es[j].None?
    ensures ToMap(es) == map[]
  {
    ToMapPadding([], es);
    assert [] + es == es;
  }

  /** An entry that defines nothing changes nothing wherever it stands. */
  lemma {:induction false} ToMapSkip(a: seq<Option<(string, string)>>, b: seq<Option<(string, string)>>)
    ensures ToMap(a + [None] + b) == ToMap(a + b)
    decreases |b|
  {
    var s := a + [None] + b;
    var t := a + b;
    ToMapStep(s);
    if |b| == 0 {
      assert s[..|a|] == a;
      assert t == a;
    } else {
      var b0 := b[..|b| - 1];
      assert s[..|s| - 1] == a + [None] + b0;
      assert t[..|t| - 1] == a + b0;
      assert s[|s| - 1] == t[|t| - 1];
      ToMapStep(t);
      ToMapSkip(a, b0);
    }
  }

  // ---------------------------------------------------------------------------
  // Reading

  /** How `LoadMultiCookies` reads one line: trimmed; blank lines and `#`
      comments define nothing; otherwise the trimmed text before the first `=`
      is the key and the trimmed text after it the value. */
  function EnvEntry(line: string): (r: Option<(string, string)>)
    ensures r.Some? ==> var t := TrimSpace(line);
                        t != "" && !HasPrefix(t, "#") && '=' in t && '=' !in r.value.0
  {
    var t := TrimSpace(line);
    if t == "" || HasPrefix(t, "#") then None
    else
      match Cut(t, '=')
      case None => None
      case Some(p) =>
        assert '=' !in TrimSpace(p.0) by { TrimSpaceInside(p.0); }
        Some((TrimSpace(p.0), TrimSpace(p.1)))
  }

  /** Every character of `TrimSpace(s)` is one of `s`. */
  lemma {:induction false} TrimSpaceInside(s: string)
    ensures forall c :: c in TrimSpace(s) ==> c in s
  {
    var r := TrimSpace(s);
    var i := TrimmedAt(s);
    forall c | c in r ensures c in s {
      var k :| 0 <= k < |r| && r[k] == c;
      assert s[i + k] == c;
    }
  }

  /** The key `EnvEntry` reads is the trimmed text before the first `=` of the
      untrimmed line, as the savers compute it. */
  lemma {:induction false} EntryKey(line: string)
    requires '=' in TrimSpace(line)
    ensures Cut(line, '=').Some?
    ensures TrimSpace(Cut(line, '=').value.0) == TrimSpace(Cut(TrimSpace(line), '=').value.0)
  {
    var t := TrimSpace(line);
    var i := TrimmedAt(line);
    var sp := line[..i];
    assert line == sp + t + line[i + |t|..];
    CutShift(sp, t, line[i + |t|..]);
    TrimFuncLeading(sp, Cut(t, '=').value.0, IsSpace);
  }

  /** Where the trimmed text starts within the line. */
  lemma {:induction false} TrimmedAt(line: string) returns (i: nat)
    ensures i + |TrimSpace(line)| <= |line|
    ensures line[i..i + |TrimSpace(line)|] == TrimSpace(line) && All(line[..i], IsSpace)
  {
    i := Text.TrimFuncSlice(line, IsSpace);
  }

  /** Leading spaces hold no `=`: the cut falls where it falls in the rest. */
  lemma {:induction false} CutShift(sp: string, t: string, rest: string)
    requires All(sp, IsSpace) && '=' in t
    ensures Cut(sp + t + rest, '=') == Some((sp + Cut(t, '=').value.0, Cut(t, '=').value.1 + rest))
  {
    var a := Cut(t, '=').value.0;
    var b := Cut(t, '=').value.1;
    Regroup3(sp, a, b, rest);
    SpacesHoldNoSep(sp, a);
    CutAt(sp + a, '=', b + rest);
  }

  lemma {:induction false} Regroup3(sp: string, a: string, b: string, rest: string)
    ensures sp + (a + "=" + b) + rest == (sp + a) + ['='] + (b + rest)
  {
  }

  lemma {:induction false} SpacesHoldNoSep(sp: string, a: string)
    requires All(sp, IsSpace) && '=' !in a
    ensures '=' !in sp + a
  {
    assert forall m :: 0 <= m < |sp| ==> IsSpace(sp[m]);
  }

  function EnvEntries(lines: seq<string>): (r: seq<Option<(string, string)>>)
    ensures |r| == |lines|
    ensures forall k :: 0 <= k < |lines| ==> r[k] == EnvEntry(lines[k])
  {
    seq(|lines|, k requires 0 <= k < |lines| => EnvEntry(lines[k]))
  }

  /** Lines followed by empty lines define what the lines alone define. */
  lemma {:induction false} PaddedEntries(t: seq<string>, lines: seq<string>)
    requires |lines| <= |t| && t[..|lines|] == lines
    requires forall k :: |lines| <= k < |t| ==> t[k] == ""
    ensures ToMap(EnvEntries(t)) == ToMap(EnvEntries(lines))
  {
    var es := EnvEntries(t);
    var head := EnvEntries(lines);
    var pad := es[|lines|..];
    EmptyEntry();
    forall j | 0 <= j < |pad| ensures pad[j].None? {
      assert pad[j] == es[|lines| + j];
    }
    forall j | 0 <= j < |lines| ensures es[j] == head[j] {
      assert t[j] == lines[j];
    }
    assert es == head + pad;
    ToMapPadding(head, pad);
  }

  /** An empty line defines nothing. */
  lemma {:induction false} EmptyEntry()
    ensures EnvEntry("") == None
  {
    assert TrimSpace("") == "";
  }

  /** The key/value map of a `.env` text, later lines overriding earlier ones. */
  function ParseEnv(content: string): map<string, string> {
    ToMap(EnvEntries(Split(content, '\n')))
  }

  /** A Go map's zero value for a missing key. */
  function Get(m: map<string, string>, k: string): string {
    if k in m then m[k] else ""
  }

  // ---------------------------------------------------------------------------
  // Writing

  /** The existing lines: none when the file could not be read. */
  function OldLines(content: Option<string>): (r: seq<string>)
    ensures forall k :: 0 <= k < |r| ==> '\n' !in r[k]
  {
    match content
    case Some(c) => Split(c, '\n')
    case None => []
  }

  /** The lines joined with newlines, with a final newline added when missing. */
  function Finish(lines: seq<string>): (r: string)
    ensures HasSuffix(r, "\n")
  {
    var j := Join(lines, "\n");
    if HasSuffix(j, "\n") then j else j + "\n"
  }

  /** Reading a finished text back line by line gives the lines written,
      followed by at most two empty lines. */
  lemma {:induction false} FinishLines(lines: seq<string>)
    requires forall k :: 0 <= k < |lines| ==> '\n' !in lines[k]
    ensures var t := Split(Finish(lines), '\n');
            |lines| <= |t| && t[..|lines|] == lines
            && forall k :: |lines| <= k < |t| ==> t[k] == ""
  {
    var t := FinishSplit(lines);
    EmptyLinesAfter(lines, t);
  }

  /** The lines of a finished text: the lines written, then one or two empty ones. */
  lemma {:induction false} FinishSplit(lines: seq<string>) returns (t: seq<string>)
    requires forall k :: 0 <= k < |lines| ==> '\n' !in lines[k]
    ensures t == Split(Finish(lines), '\n')
    ensures t == lines || t == lines + [""] || (|lines| == 0 && t == ["", ""])
  {
    var j := Join(lines, "\n");
    if |lines| == 0 {
      assert Finish(lines) == Join(["", ""], "\n");
      SplitJoin(["", ""], '\n');
      t := ["", ""];
    } else if HasSuffix(j, "\n") {
      SplitJoin(lines, '\n');
      t := lines;
    } else {
      FinishAddsNewline(lines);
      t := lines + [""];
    }
  }

  lemma {:induction false} EmptyLinesAfter(lines: seq<string>, t: seq<string>)
    requires t == lines || t == lines + [""] || (|lines| == 0 && t == ["", ""])
    ensures |lines| <= |t| && t[..|lines|] == lines && forall k :: |lines| <= k < |t| ==> t[k] == ""
  {
  }

  lemma {:induction false} FinishAddsNewline(lines: seq<string>)
    requires |lines| >= 1 && !HasSuffix(Join(lines, "\n"), "\n")
    requires forall k :: 0 <= k < |lines| ==> '\n' !in lines[k]
    ensures Split(Finish(lines), '\n') == lines + [""]
  {
    var j := Join(lines, "\n");
    assert Finish(lines) == j + "\n";
    JoinSnoc(lines, "", "\n");
    assert j + "\n" + "" == j + "\n";
    var ext := lines + [""];
    assert forall k :: 0 <= k < |ext| ==> '\n' !in ext[k] by {
      forall k | 0 <= k < |ext| ensures '\n' !in ext[k] {
        if k < |lines| { assert ext[k] == lines[k]; }
      }
    }
    SplitJoin(ext, '\n');
  }

  /** Reading finished lines back defines what the lines define. */
  lemma {:induction false} FinishedEntries(lines: seq<string>)
    requires forall j :: 0 <= j < |lines| ==> '\n' !in lines[j]
    ensures ToMap(EnvEntries(Split(Finish(lines), '\n'))) == ToMap(EnvEntries(lines))
  {
    FinishLines(lines);
    PaddedEntries(Split(Finish(lines), '\n'), lines);
  }

  /** The first occurrence of `c` is the one with no `c` before it. */
  lemma {:induction false} FirstIndexAt(s: string, c: char, i: nat)
    requires i < |s| && s[i] == c
    requires forall k :: 0 <= k < i ==> s[k] != c
    ensures FirstIndex(s, c) == i
  {
  }

  /** A key the savers can write so that the reader gets it back. */
  predicate KeyOk(k: string) {
    k != "" && Trimmed(k) && '=' !in k && '\n' !in k && k[0] != '#'
  }

  predicate ValueOk(v: string) {
    Trimmed(v) && '\n' !in v
  }

  /** `fmt.Sprintf("%s=%s", key, val)`. */
  function KeyLine(k: string, v: string): (r: string)
    ensures |r| == |k| + 1 + |v|
  {
    k + "=" + v
  }

  /** The `key=value` lines of `keys`, in order. */
  function KeyLines(keys: seq<string>, m: map<string, string>): (r: seq<string>)
    requires forall j :: 0 <= j < |keys| ==> keys[j] in m
    ensures |r| == |keys| && forall j :: 0 <= j < |r| ==> r[j] == KeyLine(keys[j], m[keys[j]])
  {
    seq(|keys|, j requires 0 <= j < |keys| => KeyLine(keys[j], m[keys[j]]))
  }

  /** A written `KEY=value` line reads back as that key and value. */
  lemma {:induction false} KeyLineEntry(k: string, v: string)
    requires KeyOk(k) && ValueOk(v)
    ensures EnvEntry(KeyLine(k, v)) == Some((k, v))
    ensures '\n' !in KeyLine(k, v)
  {
    var line := KeyLine(k, v);
    KeyLineTrimmed(k, v);
    KeyLineCut(k, v);
    TrimSpaceTrimmed(k);
    TrimSpaceTrimmed(v);
    KeyLineNoNewline(k, v);
  }

  lemma {:induction false} KeyLineTrimmed(k: string, v: string)
    requires KeyOk(k) && ValueOk(v)
    ensures TrimSpace(KeyLine(k, v)) == KeyLine(k, v)
    ensures KeyLine(k, v) != "" && !HasPrefix(KeyLine(k, v), "#")
  {
    var line := KeyLine(k, v);
    assert line[0] == k[0];
    assert line[|line| - 1] == if v == "" then '=' else v[|v| - 1];
    TrimSpaceTrimmed(line);
  }

  lemma {:induction false} KeyLineCut(k: string, v: string)
    requires '=' !in k
    ensures Cut(KeyLine(k, v), '=') == Some((k, v))
  {
    var line := KeyLine(k, v);
    assert forall m :: 0 <= m < |k| ==> line[m] == k[m];
    FirstIndexAt(line, '=', |k|);
    assert line[..|k|] == k && line[|k| + 1..] == v;
  }

  lemma {:induction false} KeyLineNoNewline(k: string, v: string)
    requires '\n' !in k && '\n' !in v
    ensures '\n' !in KeyLine(k, v)
  {
    var line := KeyLine(k, v);
    forall m | 0 <= m < |line| ensures line[m] != '\n' {
      if m < |k| { assert line[m] == k[m]; }
      else if m > |k| { assert line[m] == v[m - |k| - 1]; }
    }
  }
}

/** `saveToEnvWithOrder` (internal/browser/save_ordered.go): rewrites the
    `.env` file so that it holds exactly the session cookies just fetched, in
    the caller's key order, and keeps every other line as it was. */
module SaveOrdered {
  import opened Wrappers
  import opened Text
  import opened EnvFile
  import Seqs

  /** Every session-cookie key starts with this. */
  const PsidPrefix: string := "__Secure-1PSID"

  /** An existing `KEY=value` line whose key is a session-cookie key: the
      saver drops it. Blank lines, comments and lines without `=` are never
      session lines. */
  predicate IsSessionLine(line: string) {
    var t := TrimSpace(line);
    t != "" && !HasPrefix(t, "#")
    && match Cut(line, '=')
       case None => false
       case Some(p) => HasPrefix(TrimSpace(p.0), PsidPrefix)
  }

  predicate NotSession(line: string) {
    !IsSessionLine(line)
  }

  /** The existing lines that survive, in their order and unchanged. */
  function KeptLines(lines: seq<string>): (r: seq<string>)
    ensures |r| <= |lines|
    ensures forall k :: 0 <= k < |r| ==> !IsSessionLine(r[k])
    ensures (forall k :: 0 <= k < |lines| ==> '\n' !in lines[k]) ==> forall k :: 0 <= k < |r| ==> '\n' !in r[k]
  {
    Seqs.Filter(NotSession, lines)
  }

  /** Every line that is not a session line survives. */
  lemma {:induction false} KeptLinesKeepOthers(lines: seq<string>, k: nat)
    requires k < |lines| && !IsSessionLine(lines[k])
    ensures lines[k] in KeptLines(lines)
  {
    Seqs.FilterKeeps(NotSession, lines, k);
  }

  /** The keys of `keys` that have a cookie, in key order. */
  function SavedKeys(keys: seq<string>, cookies: map<string, string>): (r: seq<string>)
    ensures forall j :: 0 <= j < |r| ==> r[j] in cookies && r[j] in keys
    ensures forall k :: k in keys && k in cookies ==> k in r
    decreases |keys|
  {
    if |keys| == 0 then []
    else
      var rest := SavedKeys(keys[1..], cookies);
      assert forall k :: k in keys[1..] ==> k in keys;
      assert forall k :: k in keys && k != keys[0] ==> k in keys[1..];
      if keys[0] in cookies then [keys[0]] + rest else rest
  }

  /** One `key=value` line per key of `keys` that has a cookie, in key order. */
  function CookieLines(keys: seq<string>, cookies: map<string, string>): seq<string> {
    KeyLines(SavedKeys(keys, cookies), cookies)
  }

  /** Every key of `sk` can be written and read back. */
  predicate WritableKeys(sk: seq<string>, cookies: map<string, string>) {
    forall j :: 0 <= j < |sk| ==> sk[j] in cookies && KeyOk(sk[j]) && ValueOk(cookies[sk[j]])
  }

  /** What the reader makes of the appended lines. */
  lemma {:induction false} LinesEntries(kept: seq<string>, sk: seq<string>, cookies: map<string, string>)
    requires WritableKeys(sk, cookies)
    ensures var es := EnvEntries(kept + KeyLines(sk, cookies));
            forall j :: 0 <= j < |sk| ==> es[|kept| + j] == Some((sk[j], cookies[sk[j]]))
  {
    var es := EnvEntries(kept + KeyLines(sk, cookies));
    forall j | 0 <= j < |sk| ensures es[|kept| + j] == Some((sk[j], cookies[sk[j]])) {
      assert (kept + KeyLines(sk, cookies))[|kept| + j] == KeyLine(sk[j], cookies[sk[j]]);
      KeyLineEntry(sk[j], cookies[sk[j]]);
    }
  }

  /** Lines appended after `kept` decide the value of every key they write. */
  lemma {:induction false} AppendedLinesWin(kept: seq<string>, sk: seq<string>, cookies: map<string, string>, k: string)
    requires WritableKeys(sk, cookies) && k in sk
    ensures var m := ToMap(EnvEntries(kept + KeyLines(sk, cookies)));
            k in m && m[k] == cookies[k]
  {
    var es := EnvEntries(kept + KeyLines(sk, cookies));
    LinesEntries(kept, sk, cookies);
    var j0 :| 0 <= j0 < |sk| && sk[j0] == k;
    assert Defines(es[|kept| + j0], k);
    forall j | |kept| <= j < |es| && Defines(es[j], k) ensures es[j].value.1 == cookies[k] {
      assert es[|kept| + (j - |kept|)] == Some((sk[j - |kept|], cookies[sk[j - |kept|]]));
    }
    ToMapFrom(es, |kept|, k, cookies[k]);
  }

  /** A key defined after lines that are not session lines, by appended lines
      alone, when it is a session key. */
  lemma {:induction false} SessionKeyFromAppended(kept: seq<string>, sk: seq<string>, cookies: map<string, string>, k: string)
    requires WritableKeys(sk, cookies) && HasPrefix(k, PsidPrefix)
    requires forall j :: 0 <= j < |kept| ==> !IsSessionLine(kept[j])
    requires k in ToMap(EnvEntries(kept + KeyLines(sk, cookies)))
    ensures k in sk
  {
    var lines := kept + KeyLines(sk, cookies);
    var es := EnvEntries(lines);
    LinesEntries(kept, sk, cookies);
    forall j | 0 <= j < |kept| ensures !Defines(es[j], k) {
      KeptLineKey(kept[j], k);
      assert lines[j] == kept[j];
    }
    var i :| 0 <= i < |es| && Defines(es[i], k);
    assert es[|kept| + (i - |kept|)] == Some((sk[i - |kept|], cookies[sk[i - |kept|]]));
  }

  /** A line that is not a session line does not define a session key. */
  lemma {:induction false} KeptLineKey(line: string, k: string)
    requires !IsSessionLine(line) && HasPrefix(k, PsidPrefix)
    ensures !Defines(EnvEntry(line), k)
  {
    if EnvEntry(line).Some? {
      EntryKey(line);
    }
  }

  /** The new file text; `content` is None when the file could not be read. */
  function SaveWithOrder(content: Option<string>, keys: seq<string>, cookies: map<string, string>): (r: string)
    ensures HasSuffix(r, "\n")
  {
    Finish(KeptLines(OldLines(content)) + CookieLines(keys, cookies))
  }

  /** The keys and values the saver can write so that they read back. */
  predicate Writable(keys: seq<string>, cookies: map<string, string>) {
    forall k :: k in keys && k in cookies ==> KeyOk(k) && ValueOk(cookies[k])
  }

  lemma {:induction false} SavedKeysWritable(keys: seq<string>, cookies: map<string, string>)
    requires Writable(keys, cookies)
    ensures WritableKeys(SavedKeys(keys, cookies), cookies)
  {
  }

  /** The lines of the saved file, as the reader splits them. */
  lemma {:induction false} SavedLines(content: Option<string>, keys: seq<string>, cookies: map<string, string>)
    requires Writable(keys, cookies)
    ensures ParseEnv(SaveWithOrder(content, keys, cookies))
            == ToMap(EnvEntries(KeptLines(OldLines(content)) + CookieLines(keys, cookies)))
  {
    var kept := KeptLines(OldLines(content));
    var sk := SavedKeys(keys, cookies);
    SavedKeysWritable(keys, cookies);
    LinesNoNewline(kept, sk, cookies);
    FinishedEntries(kept + KeyLines(sk, cookies));
  }

  lemma {:induction false} LinesNoNewline(kept: seq<string>, sk: seq<string>, cookies: map<string, string>)
    requires WritableKeys(sk, cookies)
    requires forall j :: 0 <= j < |kept| ==> '\n' !in kept[j]
    ensures var lines := kept + KeyLines(sk, cookies);
            forall j :: 0 <= j < |lines| ==> '\n' !in lines[j]
  {
    var cl := KeyLines(sk, cookies);
    var lines := kept + cl;
    forall j | 0 <= j < |lines| ensures '\n' !in lines[j] {
      if j < |kept| {
        assert lines[j] == kept[j];
      } else {
        assert lines[j] == cl[j - |kept|];
        KeyLineNoNewline(sk[j - |kept|], cookies[sk[j - |kept|]]);
      }
    }
  }

  /** Reading the saved file back gives every saved cookie its value. */
  lemma {:induction false} SavedCookiesReadBack(content: Option<string>, keys: seq<string>, cookies: map<string, string>, k: string)
    requires Writable(keys, cookies) && k in keys && k in cookies
    ensures var env := ParseEnv(SaveWithOrder(content, keys, cookies));
            k in env && env[k] == cookies[k]
  {
    SavedLines(content, keys, cookies);
    SavedKeysWritable(keys, cookies);
    AppendedLinesWin(KeptLines(OldLines(content)), SavedKeys(keys, cookies), cookies, k);
  }

  /** No session-cookie key of the old file survives: every session key the
      saved file defines is one of the saved cookies. */
  lemma {:induction false} NoStaleSessionKeys(content: Option<string>, keys: seq<string>, cookies: map<string, string>, k: string)
    requires Writable(keys, cookies) && HasPrefix(k, PsidPrefix)
    requires k in ParseEnv(SaveWithOrder(content, keys, cookies))
    ensures k in keys && k in cookies
  {
    SavedLines(content, keys, cookies);
    SavedKeysWritable(keys, cookies);
    SessionKeyFromAppended(KeptLines(OldLines(content)), SavedKeys(keys, cookies), cookies, k);
  }
}

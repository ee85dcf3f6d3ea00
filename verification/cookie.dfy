/** Loading session cookies (internal/browser/cookie.go): one account from the
    `.env` file or the browser, several accounts from `.env` keys with account
    suffixes, and the account-id list of the command line or environment. */
module Cookie {
  import opened Wrappers
  import opened Text
  import opened EnvFile
  import Seqs

  const PsidName: string := "__Secure-1PSID"
  const PsidtsName: string := "__Secure-1PSIDTS"

  // ---------------------------------------------------------------------------
  // Several accounts

  /** The two cookies one account needs. */
  datatype Account = Account(psid: string, psidts: string)

  /** The `.env` key of an account's session cookie: the bare name for the
      default account, the name with `_<id>` appended otherwise. */
  function PsidKey(id: string): string {
    if id == "" then PsidName else PsidName + "_" + id
  }

  function PsidtsKey(id: string): string {
    if id == "" then PsidtsName else PsidtsName + "_" + id
  }

  /** No string is listed twice. */
  predicate Distinct(s: seq<string>) {
    forall i, j :: 0 <= i < j < |s| ==> s[i] != s[j]
  }

  /** `order` lists every key of `keys` exactly once: an iteration order of a Go map. */
  predicate Enumerates(order: seq<string>, keys: set<string>) {
    Distinct(order) && (forall k :: k in order ==> k in keys) && (forall k :: k in keys ==> k in order)
  }

  /** No ids, or the single empty id, ask for auto-detection. */
  predicate AutoDetect(ids: seq<string>) {
    |ids| == 0 || ids == [""]
  }

  const SuffixPrefix: string := "__Secure-1PSID_"

  /** The account suffixes of the keys of the form `__Secure-1PSID_<suffix>`, in key order. */
  function Suffixes(keys: seq<string>): (r: seq<string>)
    ensures forall j :: 0 <= j < |r| ==> SuffixPrefix + r[j] in keys
    ensures forall k :: k in keys && HasPrefix(k, SuffixPrefix) ==> TrimPrefix(k, SuffixPrefix) in r
    decreases |keys|
  {
    if |keys| == 0 then []
    else
      var rest := Suffixes(keys[1..]);
      assert forall k :: k in keys[1..] ==> k in keys;
      assert forall k :: k in keys && k != keys[0] ==> k in keys[1..];
      if HasPrefix(keys[0], SuffixPrefix) then [TrimPrefix(keys[0], SuffixPrefix)] + rest else rest
  }

  /** The ids auto-detection finds: the default account when its session
      cookie is set, then one id per suffixed session key. */
  function DetectedIDs(env: map<string, string>, keyOrder: seq<string>): (r: seq<string>)
    ensures "" in r <==> Get(env, PsidName) != "" || SuffixPrefix in keyOrder
  {
    var sfx := Suffixes(keyOrder);
    assert SuffixPrefix + "" == SuffixPrefix;
    assert SuffixPrefix in keyOrder ==> HasPrefix(SuffixPrefix, SuffixPrefix) && TrimPrefix(SuffixPrefix, SuffixPrefix) == "";
    (if Get(env, PsidName) != "" then [""] else []) + sfx
  }

  /** The accounts of `ids` whose session cookie is set, with the ids used. */
  function LoadAccounts(env: map<string, string>, ids: seq<string>): (r: (seq<Account>, seq<string>))
    ensures |r.0| == |r.1| <= |ids|
    decreases |ids|
  {
    if |ids| == 0 then ([], [])
    else
      var (accs, used) := LoadAccounts(env, ids[1..]);
      var psid := Get(env, PsidKey(ids[0]));
      if psid == "" then (accs, used)
      else ([Account(psid, Get(env, PsidtsKey(ids[0])))] + accs, [ids[0]] + used)
  }

  /** `a` is the account stored under `id`, and its session cookie is set. */
  predicate LoadedFrom(env: map<string, string>, id: string, a: Account) {
    a == Account(Get(env, PsidKey(id)), Get(env, PsidtsKey(id))) && a.psid != ""
  }

  /** Each loaded account holds the two cookies of its id, and an id of `ids`
      is used exactly when its session cookie is set. */
  lemma {:induction false} LoadAccountsFacts(env: map<string, string>, ids: seq<string>)
    ensures forall j :: 0 <= j < |LoadAccounts(env, ids).1| ==>
              LoadedFrom(env, LoadAccounts(env, ids).1[j], LoadAccounts(env, ids).0[j])
    ensures forall id :: id in ids ==> (id in LoadAccounts(env, ids).1 <==> Get(env, PsidKey(id)) != "")
    ensures forall id :: id in LoadAccounts(env, ids).1 ==> id in ids
  {
    LoadedAccountsMatch(env, ids);
    LoadedIdsExact(env, ids);
  }

  lemma {:induction false} LoadedAccountsMatch(env: map<string, string>, ids: seq<string>)
    ensures forall j :: 0 <= j < |LoadAccounts(env, ids).1| ==>
              LoadedFrom(env, LoadAccounts(env, ids).1[j], LoadAccounts(env, ids).0[j])
    decreases |ids|
  {
    if |ids| > 0 {
      LoadedAccountsMatch(env, ids[1..]);
      var rest := LoadAccounts(env, ids[1..]);
      var psid := Get(env, PsidKey(ids[0]));
      if psid != "" {
        var a := Account(psid, Get(env, PsidtsKey(ids[0])));
        assert LoadAccounts(env, ids) == ([a] + rest.0, [ids[0]] + rest.1);
        Seqs.ZipCons((id, acc) => LoadedFrom(env, id, acc), ids[0], a, rest.1, rest.0);
      }
    }
  }

  lemma {:induction false} LoadedIdsExact(env: map<string, string>, ids: seq<string>)
    ensures forall id :: id in ids ==> (id in LoadAccounts(env, ids).1 <==> Get(env, PsidKey(id)) != "")
    ensures forall id :: id in LoadAccounts(env, ids).1 ==> id in ids
    decreases |ids|
  {
    if |ids| > 0 {
      LoadedIdsExact(env, ids[1..]);
      var used := LoadAccounts(env, ids).1;
      var rest := LoadAccounts(env, ids[1..]).1;
      if Get(env, PsidKey(ids[0])) == "" {
        assert used == rest;
        SkipUnset(ids, rest, id => Get(env, PsidKey(id)) != "");
      } else {
        assert used == [ids[0]] + rest;
        KeepSet(ids, rest, id => Get(env, PsidKey(id)) != "");
      }
    }
  }

  /** Membership after skipping an unset first id. */
  lemma {:induction false} SkipUnset(ids: seq<string>, rest: seq<string>, set_: string -> bool)
    requires |ids| > 0 && !set_(ids[0])
    requires forall id :: id in ids[1..] ==> (id in rest <==> set_(id))
    requires forall id :: id in rest ==> id in ids[1..]
    ensures forall id :: id in ids ==> (id in rest <==> set_(id))
    ensures forall id :: id in rest ==> id in ids
  {
    assert ids == [ids[0]] + ids[1..];
  }

  /** Membership after keeping a set first id. */
  lemma {:induction false} KeepSet(ids: seq<string>, rest: seq<string>, set_: string -> bool)
    requires |ids| > 0 && set_(ids[0])
    requires forall id :: id in ids[1..] ==> (id in rest <==> set_(id))
    requires forall id :: id in rest ==> id in ids[1..]
    ensures forall id :: id in ids ==> (id in [ids[0]] + rest <==> set_(id))
    ensures forall id :: id in [ids[0]] + rest ==> id in ids
  {
    assert ids == [ids[0]] + ids[1..];
  }

  /** The ids `LoadMultiCookies` tries. */
  function EffectiveIDs(ids: seq<string>, env: map<string, string>, keyOrder: seq<string>): seq<string> {
    if AutoDetect(ids) then DetectedIDs(env, keyOrder) else ids
  }

  /** `LoadMultiCookies`: `content` is the `.env` text (None when it cannot be
      read) and `keyOrder` the order in which the parsed map is iterated. */
  function LoadMultiCookies(content: Option<string>, accountIDs: seq<string>, keyOrder: seq<string>)
    : (r: Result<(seq<Account>, seq<string>), string>)
    requires content.Some? ==> Enumerates(keyOrder, ParseEnv(content.value).Keys)
    ensures content.None? ==> r.Err?
    ensures r.Ok? ==> var env := ParseEnv(content.value);
                      var (accs, used) := r.value;
                      |accs| == |used| > 0
                      && (forall j :: 0 <= j < |used| ==> LoadedFrom(env, used[j], accs[j]))
    ensures content.Some? ==>
              var ids := EffectiveIDs(accountIDs, ParseEnv(content.value), keyOrder);
              (r.Ok? <==> exists id :: id in ids && Get(ParseEnv(content.value), PsidKey(id)) != "")
              && (r.Ok? ==> forall id :: id in ids ==> (id in r.value.1 <==> Get(ParseEnv(content.value), PsidKey(id)) != ""))
  {
    match content
    case None => Err("failed to read .env file")
    case Some(c) =>
      var env := ParseEnv(c);
      var ids := EffectiveIDs(accountIDs, env, keyOrder);
      if AutoDetect(accountIDs) && |ids| == 0 then Err("no accounts configured in .env")
      else
        LoadAccountsFacts(env, ids);
        var (accs, used) := LoadAccounts(env, ids);
        if |accs| == 0 then
          assert forall id :: id in ids ==> Get(env, PsidKey(id)) == "";
          Err("no valid accounts found")
        else
          assert used[0] in ids;
          Ok((accs, used))
  }

  /** With auto-detection, every account the file configures is loaded: the
      default one exactly when its session cookie is set, a suffixed one
      exactly when its suffixed session cookie is set. */
  lemma {:induction false} AutoDetectFindsEveryAccount(content: string, accountIDs: seq<string>, keyOrder: seq<string>, id: string)
    requires Enumerates(keyOrder, ParseEnv(content).Keys) && AutoDetect(accountIDs)
    requires LoadMultiCookies(Some(content), accountIDs, keyOrder).Ok?
    ensures var env := ParseEnv(content);
            id in LoadMultiCookies(Some(content), accountIDs, keyOrder).value.1 <==> Get(env, PsidKey(id)) != ""
  {
    var env := ParseEnv(content);
    var r := LoadMultiCookies(Some(content), accountIDs, keyOrder);
    var ids := DetectedIDs(env, keyOrder);
    assert EffectiveIDs(accountIDs, env, keyOrder) == ids;
    if Get(env, PsidKey(id)) != "" {
      DetectedWhenSet(env, keyOrder, id);
    }
  }

  /** Every account whose session cookie is set is among the detected ids. */
  lemma {:induction false} DetectedWhenSet(env: map<string, string>, keyOrder: seq<string>, id: string)
    requires Enumerates(keyOrder, env.Keys) && Get(env, PsidKey(id)) != ""
    ensures id in DetectedIDs(env, keyOrder)
  {
    if id != "" {
      var k := PsidKey(id);
      assert k == SuffixPrefix + id;
      assert k in keyOrder;
      assert HasPrefix(k, SuffixPrefix) && TrimPrefix(k, SuffixPrefix) == id;
    }
  }

  // ---------------------------------------------------------------------------
  // Account ids

  predicate IsBracket(c: char) {
    c == '[' || c == ']' || c == '{' || c == '}'
  }

  /** The trimmed pieces that are not empty, in order. */
  function NonBlank(parts: seq<string>): (r: seq<string>)
    ensures |r| <= |parts|
    ensures forall j :: 0 <= j < |r| ==> r[j] != "" && exists i :: 0 <= i < |parts| && r[j] == TrimSpace(parts[i])
    decreases |parts|
  {
    if |parts| == 0 then []
    else
      var rest := NonBlank(parts[1..]);
      assert forall j :: 0 <= j < |rest| ==> exists i :: 0 <= i < |parts| && rest[j] == TrimSpace(parts[i]) by {
        forall j | 0 <= j < |rest| ensures exists i :: 0 <= i < |parts| && rest[j] == TrimSpace(parts[i]) {
          var i :| 0 <= i < |parts[1..]| && rest[j] == TrimSpace(parts[1..][i]);
          assert parts[i + 1] == parts[1..][i];
        }
      }
      var t := TrimSpace(parts[0]);
      if t == "" then rest else [t] + rest
  }

  /** `ParseAccountIDs`: brackets and braces around the list are dropped, the
      comma-separated ids trimmed and the empty ones skipped; no id at all is
      the single empty id of the default account. */
  function ParseAccountIDs(s: string): (r: seq<string>)
    ensures |r| >= 1
    ensures r != [""] ==> forall j :: 0 <= j < |r| ==> r[j] != "" && Trimmed(r[j]) && ',' !in r[j]
  {
    var t := TrimSpace(s);
    if t == "" then [""]
    else
      var parts := Split(TrimFunc(t, IsBracket), ',');
      var ids := NonBlank(parts);
      forall j | 0 <= j < |ids| ensures Trimmed(ids[j]) && ',' !in ids[j] {
        var i :| 0 <= i < |parts| && ids[j] == TrimSpace(parts[i]);
        TrimSpaceInside(parts[i]);
      }
      if |ids| == 0 then [""] else ids
  }

  /** An id list as a user writes it. */
  predicate WellFormedIDs(ids: seq<string>) {
    |ids| >= 1 && (forall j :: 0 <= j < |ids| ==> ids[j] != "" && Trimmed(ids[j]) && ',' !in ids[j])
    && !IsBracket(ids[0][0]) && !IsBracket(ids[|ids| - 1][|ids[|ids| - 1]| - 1])
  }

  lemma {:induction false} NonBlankKeeps(ids: seq<string>)
    requires forall j :: 0 <= j < |ids| ==> ids[j] != "" && Trimmed(ids[j])
    ensures NonBlank(ids) == ids
    decreases |ids|
  {
    if |ids| > 0 {
      TrimSpaceTrimmed(ids[0]);
      NonBlankKeeps(ids[1..]);
    }
  }

  lemma {:induction false} JoinEnds(ids: seq<string>, sep: string)
    requires |ids| >= 1 && forall j :: 0 <= j < |ids| ==> ids[j] != ""
    ensures var s := Join(ids, sep);
            |s| > 0 && s[0] == ids[0][0] && s[|s| - 1] == ids[|ids| - 1][|ids[|ids| - 1]| - 1]
    decreases |ids|
  {
    if |ids| > 1 {
      JoinEnds(ids[1..], sep);
    }
  }

  /** A comma-separated list reads back as the ids it lists. */
  lemma {:induction false} ParseJoinedIDs(ids: seq<string>)
    requires WellFormedIDs(ids)
    ensures ParseAccountIDs(Join(ids, ",")) == ids
  {
    var s := Join(ids, ",");
    JoinEnds(ids, ",");
    TrimSpaceTrimmed(s);
    TrimFuncKeeps(s, IsBracket);
    SplitJoin(ids, ',');
    NonBlankKeeps(ids);
  }

  /** So does the bracketed form `[a,b]`. */
  lemma {:induction false} ParseBracketedIDs(ids: seq<string>)
    requires WellFormedIDs(ids)
    ensures ParseAccountIDs("[" + Join(ids, ",") + "]") == ids
  {
    var j := Join(ids, ",");
    var s := "[" + j + "]";
    JoinEnds(ids, ",");
    TrimSpaceTrimmed(s);
    assert s == "[" + (j + "]");
    TrimFuncLeading("[", j + "]", IsBracket);
    assert SpanEnd(j + "]", IsBracket) == |j| by {
      assert (j + "]")[..|j|] == j;
    }
    assert SpanStart(j + "]", IsBracket) == 0;
    assert TrimFunc(j + "]", IsBracket) == j by {
      assert (j + "]")[0..|j|] == j;
    }
    SplitJoin(ids, ',');
    NonBlankKeeps(ids);
  }

  // ---------------------------------------------------------------------------
  // Saving: saveToEnv

  /** A line `saveToEnv` rewrites: not blank, not a comment, and holding `=`. */
  predicate IsKeyLine(line: string) {
    var t := TrimSpace(line);
    t != "" && !HasPrefix(t, "#") && '=' in line
  }

  /** The trimmed text before the first `=`. */
  function LineKey(line: string): (k: string)
    requires '=' in line
    ensures Trimmed(k) && '=' !in k
    ensures '\n' !in line ==> '\n' !in k
  {
    var p := Cut(line, '=').value;
    TrimSpaceInside(p.0);
    PartsOfLine(p.0, p.1, line);
    TrimSpace(p.0)
  }

  /** The trimmed text after the first `=`. */
  function LineValue(line: string): (v: string)
    requires '=' in line
    ensures '\n' !in line ==> ValueOk(v)
  {
    var p := Cut(line, '=').value;
    TrimSpaceInside(p.1);
    PartsOfLine(p.0, p.1, line);
    TrimSpace(p.1)
  }

  lemma {:induction false} PartsOfLine(a: string, b: string, line: string)
    requires a + "=" + b == line
    ensures forall c :: c in a || c in b ==> c in line
  {
    forall c | c in a || c in b ensures c in line {
      if c in a {
        var i :| 0 <= i < |a| && a[i] == c;
        assert line[i] == c;
      } else {
        var i :| 0 <= i < |b| && b[i] == c;
        assert line[|a| + 1 + i] == c;
      }
    }
  }

  /** What the first pass of `saveToEnv` reads from a line as written: every
      line holding `=`, comments included. */
  function RawEntry(line: string): Option<(string, string)> {
    if '=' in line then Some((LineKey(line), LineValue(line))) else None
  }

  /** The first pass restricted to the lines the rewriting pass treats as
      `KEY=value` lines. */
  function KeyEntry(line: string): Option<(string, string)> {
    if IsKeyLine(line) then Some((LineKey(line), LineValue(line))) else None
  }

  function RawEntries(lines: seq<string>): (r: seq<Option<(string, string)>>)
    ensures |r| == |lines| && forall i :: 0 <= i < |lines| ==> r[i] == RawEntry(lines[i])
  {
    seq(|lines|, i requires 0 <= i < |lines| => RawEntry(lines[i]))
  }

  function KeyEntries(lines: seq<string>): (r: seq<Option<(string, string)>>)
    ensures |r| == |lines| && forall i :: 0 <= i < |lines| ==> r[i] == KeyEntry(lines[i])
  {
    seq(|lines|, i requires 0 <= i < |lines| => KeyEntry(lines[i]))
  }

  /** The rewriting pass: a key line whose key the map holds becomes
      `key=value`; every other line stays as it was. */
  function RewriteLine(line: string, m: map<string, string>): string {
    if IsKeyLine(line) && LineKey(line) in m then KeyLine(LineKey(line), m[LineKey(line)]) else line
  }

  function Rewrite(lines: seq<string>, m: map<string, string>): (r: seq<string>)
    ensures |r| == |lines| && forall i :: 0 <= i < |lines| ==> r[i] == RewriteLine(lines[i], m)
  {
    seq(|lines|, i requires 0 <= i < |lines| => RewriteLine(lines[i], m))
  }

  /** The keys the rewriting pass wrote. */
  function Processed(lines: seq<string>, m: map<string, string>): set<string> {
    set i | 0 <= i < |lines| && IsKeyLine(lines[i]) && LineKey(lines[i]) in m :: LineKey(lines[i])
  }

  /** The keys appended at the end: those of the map the rewriting pass did
      not write, in map-iteration order `order`. */
  function AppendedKeys(order: seq<string>, m: map<string, string>, processed: set<string>): (r: seq<string>)
    ensures forall j :: 0 <= j < |r| ==> r[j] in m && r[j] !in processed && r[j] in order
    ensures forall k :: k in order && k in m && k !in processed ==> k in r
    decreases |order|
  {
    if |order| == 0 then []
    else
      var rest := AppendedKeys(order[1..], m, processed);
      assert forall k :: k in order[1..] ==> k in order;
      assert forall k :: k in order && k != order[0] ==> k in order[1..];
      if order[0] in m && order[0] !in processed then [order[0]] + rest else rest
  }

  /** Keys listed once in `order` are appended at most once. */
  lemma {:induction false} AppendedDistinct(order: seq<string>, m: map<string, string>, processed: set<string>)
    requires Distinct(order)
    ensures Distinct(AppendedKeys(order, m, processed))
    decreases |order|
  {
    if |order| > 0 {
      var tail := order[1..];
      assert Distinct(tail) by {
        forall i, j | 0 <= i < j < |tail| ensures tail[i] != tail[j] {
          assert tail[i] == order[i + 1] && tail[j] == order[j + 1];
        }
      }
      AppendedDistinct(tail, m, processed);
      var rest := AppendedKeys(tail, m, processed);
      assert Distinct(rest);
      forall j | 0 <= j < |rest| ensures rest[j] != order[0] {
        var i :| 0 <= i < |tail| && tail[i] == rest[j];
        assert tail[i] == order[i + 1];
      }
      var r := AppendedKeys(order, m, processed);
      if order[0] in m && order[0] !in processed {
        assert r == [order[0]] + rest;
        forall i, j | 0 <= i < j < |r| ensures r[i] != r[j] {
          assert r[j] == rest[j - 1];
          if i > 0 {
            assert r[i] == rest[i - 1];
          }
        }
      } else {
        assert r == rest;
      }
    }
  }

  /** When `order` visits every key of the map once, as `range` does, the
      appended keys are every key the rewriting pass did not write, each once. */
  lemma {:induction false} AppendedKeysExact(order: seq<string>, m: map<string, string>, processed: set<string>)
    requires Enumerates(order, m.Keys)
    ensures Enumerates(AppendedKeys(order, m, processed), m.Keys - processed)
  {
    AppendedDistinct(order, m, processed);
  }

  /** The new text, given the map the first pass built. */
  function SaveWith(lines: seq<string>, m: map<string, string>, order: seq<string>): string {
    var rewritten := Rewrite(lines, m);
    var appended := AppendedKeys(order, m, Processed(lines, m));
    Finish(rewritten + KeyLines(appended, m))
  }

  /** The first pass as written, the cookies laid over it. */
  function SaveEnvMapAsWritten(lines: seq<string>, cookies: map<string, string>): map<string, string> {
    ToMap(RawEntries(lines)) + cookies
  }

  /** `saveToEnv` as written: `content` is the old text (None when it cannot be
      read), `order` the order in which `range envMap` visits every key of
      the key map. */
  function SaveToEnvAsWritten(content: Option<string>, cookies: map<string, string>, order: seq<string>): (r: string)
    requires Enumerates(order, SaveEnvMapAsWritten(OldLines(content), cookies).Keys)
    ensures HasSuffix(r, "\n")
    ensures SafeMap(cookies) ==> SavesCookies(r, cookies)
  {
    var lines := OldLines(content);
    var m := SaveEnvMapAsWritten(lines, cookies);
    if SafeMap(cookies) then
      FirstPassSafe(lines, cookies);
      SaveWithSaves(lines, m, order, cookies);
      SaveWith(lines, m, order)
    else SaveWith(lines, m, order)
  }

  /** The first pass reading only the lines the rewriting pass rewrites. */
  function SaveEnvMap(lines: seq<string>, cookies: map<string, string>): (m: map<string, string>)
    ensures forall k :: k in cookies ==> k in m && m[k] == cookies[k]
  {
    ToMap(KeyEntries(lines)) + cookies
  }

  /** `saveToEnv` with the first pass skipping blank and comment lines, like
      the rewriting pass and the readers do. */
  function SaveToEnv(content: Option<string>, cookies: map<string, string>, order: seq<string>): (r: string)
    requires Enumerates(order, SaveEnvMap(OldLines(content), cookies).Keys)
    ensures HasSuffix(r, "\n")
    ensures SafeMap(cookies) ==> SavesCookies(r, cookies)
  {
    var lines := OldLines(content);
    var m := SaveEnvMap(lines, cookies);
    if SafeMap(cookies) then
      FirstPassSafe(lines, cookies);
      SaveWithSaves(lines, m, order, cookies);
      SaveWith(lines, m, order)
    else SaveWith(lines, m, order)
  }

  /** A commented-out `KEY=value` line, such as `#a=b`. */
  predicate CommentedPair(k: string, v: string) {
    k != "" && k[0] == '#' && Trimmed(k) && '=' !in k && '\n' !in k && ValueOk(v)
  }

  /** As written, a file holding only a commented-out `#KEY=value` line gets
      the same comment line appended again on a save with nothing to add:
      `#a=b` becomes `#a=b`, an empty line, `#a=b`; every later save appends
      one more copy. */
  lemma {:induction false} CommentCopiedOnSave(k: string, v: string)
    requires CommentedPair(k, v)
    ensures var line := KeyLine(k, v);
            Enumerates([k], SaveEnvMapAsWritten(OldLines(Some(line + "\n")), map[]).Keys)
            && SaveToEnvAsWritten(Some(line + "\n"), map[], [k]) == line + "\n\n" + line + "\n"
  {
    var line := KeyLine(k, v);
    CommentText(k, v);
    AsWrittenReadsComment(k, v);
    CommentFileUntouched(k, v, map[k := v]);
    KeyLineNoNewline(k, v);
    assert line[0] == '#';
    CopiedSteps(Some(line + "\n"), line, k, v);
  }

  /** The save as written of a file whose first pass reads one pair from its
      only line, and whose rewriting pass touches nothing. */
  lemma {:induction false} CopiedSteps(content: Option<string>, line: string, k: string, v: string)
    requires line != "" && '\n' !in line && KeyLine(k, v) == line
    requires OldLines(content) == [line, ""]
    requires SaveEnvMapAsWritten([line, ""], map[]) == map[k := v]
    requires Rewrite([line, ""], map[k := v]) == [line, ""] && Processed([line, ""], map[k := v]) == {}
    ensures Enumerates([k], SaveEnvMapAsWritten(OldLines(content), map[]).Keys)
            && SaveToEnvAsWritten(content, map[], [k]) == line + "\n\n" + line + "\n"
  {
    var lines := [line, ""];
    var m := map[k := v];
    SaveWithOne(lines, m, k);
    assert KeyLine(k, m[k]) == line;
    assert lines + [line] == [line, "", line];
    assert line[|line| - 1] in line;
    CopiedText(line);
    AsWrittenSteps(content, lines, m, [k], line + "\n\n" + line + "\n");
  }

  /** With the first pass corrected, the same save leaves the file as it was. */
  lemma {:induction false} CommentKeptOnSave(k: string, v: string)
    requires CommentedPair(k, v)
    ensures var line := KeyLine(k, v);
            Enumerates([], SaveEnvMap(OldLines(Some(line + "\n")), map[]).Keys)
            && SaveToEnv(Some(line + "\n"), map[], []) == line + "\n"
  {
    var line := KeyLine(k, v);
    var lines := [line, ""];
    CommentText(k, v);
    CorrectedSkipsComment(k, v);
    CommentFileUntouched(k, v, map[]);
    SaveWithNothing(lines, map[]);
    FinishTwo(line);
    SaveSteps(Some(line + "\n"), lines, map[], [], line + "\n");
  }

  /** The saver as written is the rewriting pass over the map its first pass
      builds from the old lines. */
  lemma {:induction false} AsWrittenSteps(content: Option<string>, lines: seq<string>, m: map<string, string>, order: seq<string>, out: string)
    requires OldLines(content) == lines && SaveEnvMapAsWritten(lines, map[]) == m && SaveWith(lines, m, order) == out
    requires Enumerates(order, m.Keys)
    ensures SaveToEnvAsWritten(content, map[], order) == out
  {
  }

  /** So is the corrected saver. */
  lemma {:induction false} SaveSteps(content: Option<string>, lines: seq<string>, m: map<string, string>, order: seq<string>, out: string)
    requires OldLines(content) == lines && SaveEnvMap(lines, map[]) == m && SaveWith(lines, m, order) == out
    requires Enumerates(order, m.Keys)
    ensures SaveToEnv(content, map[], order) == out
  {
  }

  /** The first pass as written reads the commented-out pair as a live one. */
  lemma {:induction false} AsWrittenReadsComment(k: string, v: string)
    requires CommentedPair(k, v)
    ensures SaveEnvMapAsWritten([KeyLine(k, v), ""], map[]) == map[k := v]
  {
    CommentLine(k, v);
    ReadsOnePair(KeyLine(k, v), k, v);
  }

  lemma {:induction false} ReadsOnePair(line: string, k: string, v: string)
    requires RawEntry(line) == Some((k, v)) && RawEntry("") == None
    ensures SaveEnvMapAsWritten([line, ""], map[]) == map[k := v]
  {
    var es := RawEntries([line, ""]);
    assert es[0] == Some((k, v)) && es[1].None?;
    OneEntry(es, k, v);
    NothingLaidOver(ToMap(es));
  }

  /** The corrected first pass reads nothing from it. */
  lemma {:induction false} CorrectedSkipsComment(k: string, v: string)
    requires CommentedPair(k, v)
    ensures SaveEnvMap([KeyLine(k, v), ""], map[]) == map[]
  {
    CommentLine(k, v);
    SkipsNonKeyLines(KeyLine(k, v));
  }

  /** The corrected first pass reads nothing from a file without key lines. */
  lemma {:induction false} SkipsNonKeyLines(line: string)
    requires !IsKeyLine(line) && !IsKeyLine("")
    ensures SaveEnvMap([line, ""], map[]) == map[]
  {
    var es := KeyEntries([line, ""]);
    assert es[0].None? && es[1].None?;
    NoEntries(es);
    NothingLaidOver(ToMap(es));
  }

  /** The rewriting pass leaves the file `#KEY=value` alone, whatever the map. */
  lemma {:induction false} CommentFileUntouched(k: string, v: string, m: map<string, string>)
    requires CommentedPair(k, v)
    ensures var lines := [KeyLine(k, v), ""];
            Rewrite(lines, m) == lines && Processed(lines, m) == {}
  {
    CommentLine(k, v);
    NoKeyLinesTwo(KeyLine(k, v), m);
  }

  lemma {:induction false} NoKeyLinesTwo(line: string, m: map<string, string>)
    requires !IsKeyLine(line) && !IsKeyLine("")
    ensures Rewrite([line, ""], m) == [line, ""] && Processed([line, ""], m) == {}
  {
    NoKeyLines([line, ""], m);
  }

  /** With no key to append and no line rewritten, the saver only finishes the lines. */
  lemma {:induction false} SaveWithNothing(lines: seq<string>, m: map<string, string>)
    requires Rewrite(lines, m) == lines
    ensures SaveWith(lines, m, []) == Finish(lines)
  {
    assert AppendedKeys([], m, Processed(lines, m)) == [];
    assert lines + KeyLines([], m) == lines;
  }

  /** With no line rewritten and one key to append, the saver appends its line. */
  lemma {:induction false} SaveWithOne(lines: seq<string>, m: map<string, string>, k: string)
    requires Rewrite(lines, m) == lines && Processed(lines, m) == {} && k in m
    ensures SaveWith(lines, m, [k]) == Finish(lines + [KeyLine(k, m[k])])
  {
    AppendOne(k, m);
  }

  /** The old text `#KEY=value` plus a newline splits into the line and an empty one. */
  lemma {:induction false} CommentText(k: string, v: string)
    requires CommentedPair(k, v)
    ensures var line := KeyLine(k, v);
            OldLines(Some(line + "\n")) == [line, ""]
  {
    var line := KeyLine(k, v);
    KeyLineNoNewline(k, v);
    assert Join([line, ""], "\n") == line + "\n" + "";
    assert line + "\n" + "" == line + "\n";
    SplitJoin([line, ""], '\n');
  }

  /** How both passes see the line `#KEY=value`: the first pass as written
      reads the pair, the rewriting pass sees a comment. */
  lemma {:induction false} CommentLine(k: string, v: string)
    requires CommentedPair(k, v)
    ensures RawEntry(KeyLine(k, v)) == Some((k, v)) && !IsKeyLine(KeyLine(k, v))
    ensures RawEntry("") == None && !IsKeyLine("")
  {
    CommentPairRead(k, v);
    CommentSkipped(k, v);
    EmptyLine();
  }

  lemma {:induction false} CommentPairRead(k: string, v: string)
    requires CommentedPair(k, v)
    ensures RawEntry(KeyLine(k, v)) == Some((k, v))
  {
    var line := KeyLine(k, v);
    KeyLineCut(k, v);
    assert line[|k|] == '=';
    TrimSpaceTrimmed(k);
    TrimSpaceTrimmed(v);
  }

  lemma {:induction false} CommentSkipped(k: string, v: string)
    requires CommentedPair(k, v)
    ensures !IsKeyLine(KeyLine(k, v))
  {
    var line := KeyLine(k, v);
    assert line[0] == '#';
    assert line[|line| - 1] == if v == "" then '=' else v[|v| - 1];
    TrimSpaceTrimmed(line);
    assert line[..1] == "#";
  }

  lemma {:induction false} EmptyLine()
    ensures RawEntry("") == None && !IsKeyLine("")
  {
    assert TrimSpace("") == "";
  }

  /** A line and an empty line, finished into one text. */
  lemma {:induction false} FinishTwo(line: string)
    ensures Finish([line, ""]) == line + "\n"
  {
    assert Join([line, ""], "\n") == line + "\n" + "";
    assert line + "\n" + "" == line + "\n";
  }

  /** The three lines `line`, empty, `line` finished into one text. */
  lemma {:induction false} CopiedText(line: string)
    requires line != "" && line[|line| - 1] != '\n'
    ensures Finish([line, "", line]) == line + "\n\n" + line + "\n"
  {
    var lines := [line, "", line];
    assert lines[1..] == ["", line] && lines[1..][1..] == [line];
    assert Join(lines[1..][1..], "\n") == line;
    assert Join(lines[1..], "\n") == "" + "\n" + line;
    var j := Join(lines, "\n");
    assert j == line + "\n" + ("" + "\n" + line);
    assert j[|j| - 1] == line[|line| - 1];
  }

  lemma {:induction false} AppendOne(k: string, m: map<string, string>)
    requires k in m
    ensures AppendedKeys([k], m, {}) == [k]
    ensures KeyLines([k], m) == [KeyLine(k, m[k])]
  {
    assert [k][1..] == [];
  }

  lemma {:induction false} OneEntry(es: seq<Option<(string, string)>>, k: string, v: string)
    requires |es| == 2 && es[0] == Some((k, v)) && es[1].None?
    ensures ToMap(es) == map[k := v]
  {
    ToMapStep(es);
    var init := es[..1];
    ToMapStep(init);
    assert init[..0] == [];
  }

  lemma {:induction false} NothingLaidOver(m: map<string, string>)
    ensures m + map[] == m
  {
  }

  /** Without key lines, the rewriting pass writes no key. */
  lemma {:induction false} NoKeyLines(lines: seq<string>, m: map<string, string>)
    requires forall i :: 0 <= i < |lines| ==> !IsKeyLine(lines[i])
    ensures Processed(lines, m) == {}
    ensures Rewrite(lines, m) == lines
  {
  }

  /** With the first pass corrected, the only lines appended are cookies whose
      key no `KEY=value` line of the file holds; in particular a save that
      brings no new key appends nothing. */
  lemma {:induction false} SaveAppendsOnlyNewCookies(lines: seq<string>, cookies: map<string, string>, order: seq<string>, j: nat)
    requires var m := SaveEnvMap(lines, cookies);
             j < |AppendedKeys(order, m, Processed(lines, m))|
    ensures var m := SaveEnvMap(lines, cookies);
            var k := AppendedKeys(order, m, Processed(lines, m))[j];
            k in cookies && (forall i :: 0 <= i < |lines| && IsKeyLine(lines[i]) ==> LineKey(lines[i]) != k)
  {
    var m := SaveEnvMap(lines, cookies);
    var processed := Processed(lines, m);
    var k := AppendedKeys(order, m, processed)[j];
    assert k in m && k !in processed;
    FileKeysProcessed(lines, cookies);
    forall i | 0 <= i < |lines| && IsKeyLine(lines[i]) ensures LineKey(lines[i]) != k {
      LineKeyProcessed(lines, m, i);
    }
  }

  lemma {:induction false} LineKeyProcessed(lines: seq<string>, m: map<string, string>, i: nat)
    requires i < |lines| && IsKeyLine(lines[i]) && LineKey(lines[i]) in m
    ensures LineKey(lines[i]) in Processed(lines, m)
  {
  }

  /** Every key the corrected first pass reads from the file is rewritten in place. */
  lemma {:induction false} FileKeysProcessed(lines: seq<string>, cookies: map<string, string>)
    ensures forall k :: k in ToMap(KeyEntries(lines)) ==> k in Processed(lines, SaveEnvMap(lines, cookies))
  {
    var m := SaveEnvMap(lines, cookies);
    var es := KeyEntries(lines);
    forall k | k in ToMap(es) ensures k in Processed(lines, m) {
      var i :| 0 <= i < |es| && Defines(es[i], k);
      assert IsKeyLine(lines[i]) && LineKey(lines[i]) == k;
      LineKeyProcessed(lines, m, i);
    }
  }

  // ---------------------------------------------------------------------------
  // One account: LoadCookies

  /** How `LoadCookies` reads one `.env` line: only the two session cookies,
      written `NAME=value` at the start of the trimmed line. */
  function EnvCookieEntry(line: string): (r: Option<(string, string)>)
    ensures r.Some? ==> r.value.0 == PsidName || r.value.0 == PsidtsName
  {
    var t := TrimSpace(line);
    if HasPrefix(t, PsidName + "=") then Some((PsidName, TrimPrefix(t, PsidName + "=")))
    else if HasPrefix(t, PsidtsName + "=") then Some((PsidtsName, TrimPrefix(t, PsidtsName + "=")))
    else None
  }

  function EnvCookieEntries(lines: seq<string>): (r: seq<Option<(string, string)>>)
    ensures |r| == |lines| && forall i :: 0 <= i < |lines| ==> r[i] == EnvCookieEntry(lines[i])
  {
    seq(|lines|, i requires 0 <= i < |lines| => EnvCookieEntry(lines[i]))
  }

  /** The session cookies of a `.env` text; none when it cannot be read. */
  function EnvCookies(content: Option<string>): (m: map<string, string>)
    ensures forall k :: k in m ==> k == PsidName || k == PsidtsName
  {
    match content
    case None => map[]
    case Some(c) =>
      var es := EnvCookieEntries(Split(c, '\n'));
      var m := ToMap(es);
      forall k | k in m ensures k == PsidName || k == PsidtsName {
        var i :| 0 <= i < |es| && Defines(es[i], k);
      }
      m
  }

  /** A cookie as the browser store returns it. */
  datatype BrowserCookie = BrowserCookie(name: string, value: string, domain: string)

  /** The browser cookies `LoadCookies` takes: the two session cookies of a
      domain containing `google.com`. */
  function BrowserEntry(c: BrowserCookie): Option<(string, string)> {
    if (c.name == PsidName || c.name == PsidtsName) && Contains(c.domain, "google.com")
    then Some((c.name, c.value)) else None
  }

  /** Cookie `c` is one the loop copies, and under the name `k`. */
  predicate Selected(c: BrowserCookie, k: string) {
    c.name == k && (k == PsidName || k == PsidtsName) && Contains(c.domain, "google.com")
  }

  /** The map the copy loop builds: a name is present exactly when some
      selected cookie carries it, and it holds the value of the last one. */
  function BrowserCookies(cs: seq<BrowserCookie>): (m: map<string, string>)
    ensures forall k :: k in m ==> k == PsidName || k == PsidtsName
    ensures forall k :: k in m <==> exists i :: 0 <= i < |cs| && Selected(cs[i], k)
    ensures forall k, i :: 0 <= i < |cs| && Selected(cs[i], k) && (forall j :: i < j < |cs| ==> !Selected(cs[j], k))
                           ==> k in m && m[k] == cs[i].value
  {
    var es := seq(|cs|, i requires 0 <= i < |cs| => BrowserEntry(cs[i]));
    assert forall i, k :: 0 <= i < |cs| ==> (Defines(es[i], k) <==> Selected(cs[i], k));
    var m := ToMap(es);
    forall k | k in m ensures k == PsidName || k == PsidtsName {
      var i :| 0 <= i < |es| && Defines(es[i], k);
    }
    forall k, i | 0 <= i < |cs| && Selected(cs[i], k) && (forall j :: i < j < |cs| ==> !Selected(cs[j], k))
      ensures k in m && m[k] == cs[i].value
    {
      ToMapLast(es, i, k);
    }
    m
  }

  /** The `.env` cookies with the browser's laid over them. */
  function Merged(content: Option<string>, browser: seq<BrowserCookie>): (m: map<string, string>)
    ensures forall k :: k in m ==> k == PsidName || k == PsidtsName
  {
    EnvCookies(content) + BrowserCookies(browser)
  }

  /** What `LoadCookies` returns, and the `.env` text it writes, if any. */
  datatype Loaded = Loaded(result: Result<map<string, string>, string>, saved: Option<string>)

  /** The choice `LoadCookies` makes, given the text its saver would write
      for the merged cookies. */
  function LoadCookiesWith(content: Option<string>, browser: seq<BrowserCookie>, saved: string): (r: Loaded)
    ensures r.result.Ok? ==> Get(r.result.value, PsidName) != ""
    ensures r.result.Ok? ==> forall k :: k in r.result.value ==> k == PsidName || k == PsidtsName
    ensures Get(EnvCookies(content), PsidName) != "" ==> r == Loaded(Ok(EnvCookies(content)), None)
    ensures Get(EnvCookies(content), PsidName) == "" ==>
              (r.result.Ok? <==> Get(BrowserCookies(browser), PsidName) != "")
              && (r.result.Ok? ==> r.result.value == Merged(content, browser) && r.saved == Some(saved))
              && (r.result.Err? ==> r.saved.None?)
  {
    var fromEnv := EnvCookies(content);
    if Get(fromEnv, PsidName) != "" then Loaded(Ok(fromEnv), None)
    else
      var all := Merged(content, browser);
      if Get(all, PsidName) == "" then
        Loaded(Err("cookie '__Secure-1PSID' not found in env or Firefox. Please create a .env file"), None)
      else Loaded(Ok(all), Some(saved))
  }

  /** `LoadCookies`: the `.env` session cookie wins when set; otherwise the
      browser's cookies are laid over the file's, and when a session cookie
      results they are saved to the file by `saveToEnv` as written. A saved
      file gives the session cookie back, so the next load reads it from
      `.env`. `order` is the order `saveToEnv` visits its key map in. */
  function LoadCookies(content: Option<string>, browser: seq<BrowserCookie>, order: seq<string>): (r: Loaded)
    requires Enumerates(order, SaveEnvMapAsWritten(OldLines(content), Merged(content, browser)).Keys)
    ensures r.result.Ok? ==> Get(r.result.value, PsidName) != ""
    ensures r.result.Ok? ==> forall k :: k in r.result.value ==> k == PsidName || k == PsidtsName
    ensures Get(EnvCookies(content), PsidName) != "" ==> r == Loaded(Ok(EnvCookies(content)), None)
    ensures Get(EnvCookies(content), PsidName) == "" ==>
              (r.result.Ok? <==> Get(BrowserCookies(browser), PsidName) != "")
              && (r.result.Ok? ==> r.result.value == Merged(content, browser)
                                   && r.saved == Some(SaveToEnvAsWritten(content, Merged(content, browser), order)))
              && (r.result.Err? ==> r.saved.None?)
    ensures r.saved.Some? && SafeMap(Merged(content, browser)) ==>
              r.result.Ok? && Get(EnvCookies(r.saved), PsidName) == Get(r.result.value, PsidName) != ""
  {
    LoadCookiesWith(content, browser, SaveToEnvAsWritten(content, Merged(content, browser), order))
  }

  /** `LoadCookies` saving with the corrected `saveToEnv`. */
  function LoadCookiesIntended(content: Option<string>, browser: seq<BrowserCookie>, order: seq<string>): (r: Loaded)
    requires Enumerates(order, SaveEnvMap(OldLines(content), Merged(content, browser)).Keys)
    ensures r.result.Ok? ==> Get(r.result.value, PsidName) != ""
    ensures r.result.Ok? ==> forall k :: k in r.result.value ==> k == PsidName || k == PsidtsName
    ensures Get(EnvCookies(content), PsidName) != "" ==> r == Loaded(Ok(EnvCookies(content)), None)
    ensures Get(EnvCookies(content), PsidName) == "" ==>
              (r.result.Ok? <==> Get(BrowserCookies(browser), PsidName) != "")
              && (r.result.Ok? ==> r.result.value == Merged(content, browser)
                                   && r.saved == Some(SaveToEnv(content, Merged(content, browser), order)))
              && (r.result.Err? ==> r.saved.None?)
    ensures r.saved.Some? && SafeMap(Merged(content, browser)) ==>
              r.result.Ok? && Get(EnvCookies(r.saved), PsidName) == Get(r.result.value, PsidName) != ""
  {
    LoadCookiesWith(content, browser, SaveToEnv(content, Merged(content, browser), order))
  }

  // ---------------------------------------------------------------------------
  // Reading a saved file back

  /** Keys and values that `key=value` lines carry unchanged: keys trimmed and
      free of `=` and newlines, values trimmed and free of newlines. */
  predicate SafeMap(m: map<string, string>) {
    forall k :: k in m ==> Trimmed(k) && '=' !in k && '\n' !in k && ValueOk(m[k])
  }

  /** Both first passes read only safe pairs from lines without newlines, so
      the map the saver writes is safe when the cookies are. */
  lemma {:induction false} FirstPassSafe(lines: seq<string>, cookies: map<string, string>)
    requires forall i :: 0 <= i < |lines| ==> '\n' !in lines[i]
    requires SafeMap(cookies)
    ensures SafeMap(SaveEnvMapAsWritten(lines, cookies)) && SafeMap(SaveEnvMap(lines, cookies))
  {
    EntriesSafe(lines, RawEntries(lines));
    EntriesSafe(lines, KeyEntries(lines));
  }

  lemma {:induction false} EntriesSafe(lines: seq<string>, es: seq<Option<(string, string)>>)
    requires forall i :: 0 <= i < |lines| ==> '\n' !in lines[i]
    requires |es| == |lines|
    requires forall i :: 0 <= i < |es| && es[i].Some? ==>
               '=' in lines[i] && es[i] == Some((LineKey(lines[i]), LineValue(lines[i])))
    ensures SafeMap(ToMap(es))
  {
    var m := ToMap(es);
    forall k | k in m ensures Trimmed(k) && '=' !in k && '\n' !in k && ValueOk(m[k]) {
      ToMapValue(es, k);
      var i :| 0 <= i < |es| && Defines(es[i], k) && m[k] == es[i].value.1;
      assert k == LineKey(lines[i]) && m[k] == LineValue(lines[i]);
    }
  }

  /** How the reader sees a line written from a safe pair: a key starting with
      `#` turns it into a comment; otherwise it reads back as the pair. */
  lemma {:induction false} KeyLineRead(k: string, v: string)
    requires Trimmed(k) && '=' !in k && '\n' !in k && ValueOk(v)
    ensures TrimSpace(KeyLine(k, v)) == KeyLine(k, v) && '\n' !in KeyLine(k, v)
    ensures EnvEntry(KeyLine(k, v)) == if k != "" && k[0] == '#' then None else Some((k, v))
  {
    var line := KeyLine(k, v);
    assert line[0] == if k == "" then '=' else k[0];
    assert line[|line| - 1] == if v == "" then '=' else v[|v| - 1];
    TrimSpaceTrimmed(line);
    KeyLineCut(k, v);
    TrimSpaceTrimmed(k);
    TrimSpaceTrimmed(v);
    KeyLineNoNewline(k, v);
    assert line[..1] == [line[0]];
  }

  /** A line the session reader takes a session cookie from is one the full
      reader takes the same key from. */
  lemma {:induction false} CookieEntryDefines(line: string, n: string)
    requires n == PsidName || n == PsidtsName
    requires Defines(EnvCookieEntry(line), n)
    ensures Defines(EnvEntry(line), n)
  {
    var t := TrimSpace(line);
    var p := n + "=";
    assert HasPrefix(t, p);
    var rest := t[|p|..];
    assert t == n + ['='] + rest by { assert t == t[..|p|] + rest; }
    CutAt(n, '=', rest);
    assert Trimmed(n);
    TrimSpaceTrimmed(n);
    assert t[0] == '_' && t[..1] == [t[0]];
  }

  /** Where a session cookie sits in a written line: only in the line written
      for its own key, with that line's value. */
  lemma {:induction false} KeyLineCookie(k: string, v: string, n: string)
    requires Trimmed(k) && '=' !in k && '\n' !in k && ValueOk(v)
    requires n == PsidName || n == PsidtsName
    ensures Defines(EnvCookieEntry(KeyLine(k, v)), n) ==> k == n
    ensures k == n ==> EnvCookieEntry(KeyLine(k, v)) == Some((n, v))
  {
    var line := KeyLine(k, v);
    KeyLineRead(k, v);
    if Defines(EnvCookieEntry(line), n) {
      CookieEntryDefines(line, n);
    }
    if k == n {
      assert line == (n + "=") + v;
      if n == PsidtsName {
        assert line[14] == 'T';
        assert !HasPrefix(line, PsidName + "=");
      }
    }
  }

  /** The lines `SaveWith` joins: the old lines through the rewriting pass,
      then one line per appended key. */
  function SavedLines(lines: seq<string>, m: map<string, string>, order: seq<string>): seq<string> {
    Rewrite(lines, m) + KeyLines(AppendedKeys(order, m, Processed(lines, m)), m)
  }

  /** What each saved line can tell either reader about a key of the map: the
      line either defines it with the map's value or does not define it. */
  lemma {:induction false} SavedLineFacts(lines: seq<string>, m: map<string, string>, order: seq<string>, j: nat, k: string)
    requires forall i :: 0 <= i < |lines| ==> '\n' !in lines[i]
    requires SafeMap(m) && k in m && j < |SavedLines(lines, m, order)|
    ensures var line := SavedLines(lines, m, order)[j];
            '\n' !in line
            && (Defines(EnvEntry(line), k) ==> EnvEntry(line).value.1 == m[k])
            && ((k == PsidName || k == PsidtsName) && Defines(EnvCookieEntry(line), k) ==> EnvCookieEntry(line).value.1 == m[k])
  {
    var out := SavedLines(lines, m, order);
    var appended := AppendedKeys(order, m, Processed(lines, m));
    var line := out[j];
    var session := k == PsidName || k == PsidtsName;
    if j < |lines| {
      assert line == RewriteLine(lines[j], m);
      if IsKeyLine(lines[j]) && LineKey(lines[j]) in m {
        var key := LineKey(lines[j]);
        KeyLineRead(key, m[key]);
        if session { KeyLineCookie(key, m[key], k); }
      } else {
        assert line == lines[j];
        KeptLineSilent(line, m, k);
        if session && Defines(EnvCookieEntry(line), k) {
          CookieEntryDefines(line, k);
        }
      }
    } else {
      var a := appended[j - |lines|];
      assert line == KeyLine(a, m[a]);
      KeyLineRead(a, m[a]);
      if session { KeyLineCookie(a, m[a], k); }
    }
  }

  /** A line the rewriting pass keeps as it was defines no key of the map. */
  lemma {:induction false} KeptLineSilent(line: string, m: map<string, string>, k: string)
    requires k in m && !(IsKeyLine(line) && LineKey(line) in m)
    ensures !Defines(EnvEntry(line), k)
  {
    if EnvEntry(line).Some? {
      EntryKey(line);
      assert IsKeyLine(line) && LineKey(line) == EnvEntry(line).value.0;
    }
  }

  /** Every key of the map gets a line of its own: rewritten in place when a
      key line holds it, appended otherwise. */
  lemma {:induction false} SavedKeyLine(lines: seq<string>, m: map<string, string>, order: seq<string>, k: string) returns (j: nat)
    requires Enumerates(order, m.Keys) && k in m
    ensures j < |SavedLines(lines, m, order)| && SavedLines(lines, m, order)[j] == KeyLine(k, m[k])
  {
    if k in Processed(lines, m) {
      j := RewrittenKeyLine(lines, m, order, k);
    } else {
      j := AppendedKeyLine(lines, m, order, k);
    }
  }

  lemma {:induction false} RewrittenKeyLine(lines: seq<string>, m: map<string, string>, order: seq<string>, k: string) returns (j: nat)
    requires k in Processed(lines, m)
    ensures j < |lines| && SavedLines(lines, m, order)[j] == KeyLine(k, m[k])
  {
    var i :| 0 <= i < |lines| && IsKeyLine(lines[i]) && LineKey(lines[i]) in m && LineKey(lines[i]) == k;
    var rewritten := Rewrite(lines, m);
    assert SavedLines(lines, m, order)[i] == rewritten[i];
    j := i;
  }

  lemma {:induction false} AppendedKeyLine(lines: seq<string>, m: map<string, string>, order: seq<string>, k: string) returns (j: nat)
    requires Enumerates(order, m.Keys) && k in m && k !in Processed(lines, m)
    ensures j < |SavedLines(lines, m, order)| && SavedLines(lines, m, order)[j] == KeyLine(k, m[k])
  {
    var a := AppendedAt(order, m, Processed(lines, m), k);
    AppendedLine(lines, m, order, a);
    j := |lines| + a;
  }

  /** Where a listed key that no line rewrote sits among the appended keys. */
  lemma {:induction false} AppendedAt(order: seq<string>, m: map<string, string>, processed: set<string>, k: string) returns (a: nat)
    requires k in order && k in m && k !in processed
    ensures a < |AppendedKeys(order, m, processed)| && AppendedKeys(order, m, processed)[a] == k
  {
    var appended := AppendedKeys(order, m, processed);
    a :| 0 <= a < |appended| && appended[a] == k;
  }

  /** The saved line after the old lines at offset `a` is the `a`-th appended key's line. */
  lemma {:induction false} AppendedLine(lines: seq<string>, m: map<string, string>, order: seq<string>, a: nat)
    requires a < |AppendedKeys(order, m, Processed(lines, m))|
    ensures var key := AppendedKeys(order, m, Processed(lines, m))[a];
            |lines| + a < |SavedLines(lines, m, order)| && key in m
            && SavedLines(lines, m, order)[|lines| + a] == KeyLine(key, m[key])
  {
    var added := KeyLines(AppendedKeys(order, m, Processed(lines, m)), m);
    assert SavedLines(lines, m, order) == Rewrite(lines, m) + added;
  }

  /** The saved text split into lines: the saved lines, then empty ones. */
  lemma {:induction false} SavedText(lines: seq<string>, m: map<string, string>, order: seq<string>, k: string)
    requires forall i :: 0 <= i < |lines| ==> '\n' !in lines[i]
    requires SafeMap(m) && k in m
    ensures var out := SavedLines(lines, m, order);
            var t := Split(SaveWith(lines, m, order), '\n');
            |out| <= |t| && t[..|out|] == out && forall i :: |out| <= i < |t| ==> t[i] == ""
  {
    var out := SavedLines(lines, m, order);
    assert SaveWith(lines, m, order) == Finish(out);
    forall i | 0 <= i < |out| ensures '\n' !in out[i] {
      SavedLineFacts(lines, m, order, i, k);
    }
    FinishLines(out);
  }

  /** Reading back the text `SaveWith` writes from a safe map whose keys
      `order` lists gives every key the reader accepts its value. */
  lemma {:induction false} SaveWithReadsBack(lines: seq<string>, m: map<string, string>, order: seq<string>, k: string)
    requires forall i :: 0 <= i < |lines| ==> '\n' !in lines[i]
    requires SafeMap(m) && Enumerates(order, m.Keys) && k in m && KeyOk(k)
    ensures var env := ParseEnv(SaveWith(lines, m, order));
            k in env && env[k] == m[k]
  {
    var out := SavedLines(lines, m, order);
    var t := Split(SaveWith(lines, m, order), '\n');
    SavedText(lines, m, order, k);
    var j := SavedKeyLine(lines, m, order, k);
    assert t[j] == out[j];
    KeyLineRead(k, m[k]);
    var es := EnvEntries(t);
    assert Defines(es[j], k);
    forall i | 0 <= i < |es| && Defines(es[i], k) ensures es[i].value.1 == m[k] {
      if i < |out| {
        assert t[i] == out[i];
        SavedLineFacts(lines, m, order, i, k);
      } else {
        EmptyEntry();
      }
    }
    ToMapFrom(es, 0, k, m[k]);
  }

  /** The session reader gets each session cookie of the map back too. */
  lemma {:induction false} SaveWithSessionReadsBack(lines: seq<string>, m: map<string, string>, order: seq<string>, k: string)
    requires forall i :: 0 <= i < |lines| ==> '\n' !in lines[i]
    requires SafeMap(m) && Enumerates(order, m.Keys) && k in m && (k == PsidName || k == PsidtsName)
    ensures var env := EnvCookies(Some(SaveWith(lines, m, order)));
            k in env && env[k] == m[k]
  {
    var out := SavedLines(lines, m, order);
    var t := Split(SaveWith(lines, m, order), '\n');
    SavedText(lines, m, order, k);
    var j := SavedKeyLine(lines, m, order, k);
    assert t[j] == out[j];
    KeyLineCookie(k, m[k], k);
    var cs := EnvCookieEntries(t);
    assert Defines(cs[j], k);
    SessionDefinersAgree(lines, m, order, k, t);
    ToMapFrom(cs, 0, k, m[k]);
  }

  /** Every line of the saved text that gives the session reader a session
      cookie gives it the map's value. */
  lemma {:induction false} SessionDefinersAgree(lines: seq<string>, m: map<string, string>, order: seq<string>, k: string, t: seq<string>)
    requires forall i :: 0 <= i < |lines| ==> '\n' !in lines[i]
    requires SafeMap(m) && k in m && (k == PsidName || k == PsidtsName)
    requires var out := SavedLines(lines, m, order);
             |out| <= |t| && t[..|out|] == out && forall i :: |out| <= i < |t| ==> t[i] == ""
    ensures var cs := EnvCookieEntries(t);
            forall i :: 0 <= i < |cs| && Defines(cs[i], k) ==> cs[i].value.1 == m[k]
  {
    var out := SavedLines(lines, m, order);
    var cs := EnvCookieEntries(t);
    forall i | 0 <= i < |cs| && Defines(cs[i], k) ensures cs[i].value.1 == m[k] {
      if i < |out| {
        assert t[i] == out[i];
        SavedLineFacts(lines, m, order, i, k);
      }
    }
  }

  /** The session-cookie keys can be written and read back. */
  lemma {:induction false} SessionKeysOk()
    ensures KeyOk(PsidName) && KeyOk(PsidtsName)
  {
    assert PsidName[0] == '_' && PsidName[|PsidName| - 1] == 'D';
    assert PsidtsName[0] == '_' && PsidtsName[|PsidtsName| - 1] == 'S';
  }

  /** `saved` holds the cookies: every cookie with a readable key reads back
      from it with its value, and each session cookie also reads back the way
      `LoadCookies` reads `.env`. */
  predicate SavesCookies(saved: string, cookies: map<string, string>) {
    (forall k :: k in cookies && KeyOk(k) ==> k in ParseEnv(saved) && ParseEnv(saved)[k] == cookies[k])
    && (forall k :: k in cookies && (k == PsidName || k == PsidtsName) ==>
          k in EnvCookies(Some(saved)) && EnvCookies(Some(saved))[k] == cookies[k])
  }

  /** Both savers lay the cookies over the file's pairs, so what `SaveWith`
      writes holds the cookies. */
  lemma {:induction false} SaveWithSaves(lines: seq<string>, m: map<string, string>, order: seq<string>, cookies: map<string, string>)
    requires forall i :: 0 <= i < |lines| ==> '\n' !in lines[i]
    requires SafeMap(m) && Enumerates(order, m.Keys)
    requires forall k :: k in cookies ==> k in m && m[k] == cookies[k]
    ensures SavesCookies(SaveWith(lines, m, order), cookies)
  {
    var saved := SaveWith(lines, m, order);
    SessionKeysOk();
    forall k | k in cookies && KeyOk(k) ensures k in ParseEnv(saved) && ParseEnv(saved)[k] == cookies[k] {
      SaveWithReadsBack(lines, m, order, k);
    }
    forall k | k in cookies && (k == PsidName || k == PsidtsName)
      ensures k in EnvCookies(Some(saved)) && EnvCookies(Some(saved))[k] == cookies[k]
    {
      SaveWithSessionReadsBack(lines, m, order, k);
    }
  }
}

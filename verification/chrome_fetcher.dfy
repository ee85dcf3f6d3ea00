/** The interactive cookie fetcher (internal/browser/chrome_fetcher.go): list
    the Chrome profiles, let the user pick some, fetch each one's session
    cookies (three attempts at most) and save them to `.env` under
    per-profile keys. The directory listing, the `Local State` names, the
    typed selection, the outcome of every fetch attempt, the completion order
    of the fetches and the old `.env` text are parameters. */
module ChromeFetcher {
  import opened Wrappers
  import opened Text
  import opened EnvFile
  import opened SaveOrdered
  import Cookie
  import Retry
  import Seqs

  const DefaultProfile: string := "Default"
  const ProfilePrefix: string := "Profile "

  datatype Profile = Profile(name: string, displayName: string)

  /** An entry of Chrome's user-data directory: its name, whether it is a
      directory, and whether it holds a `Network/Cookies` file. */
  datatype DirEntry = DirEntry(name: string, isDir: bool, hasCookies: bool)

  // ---------------------------------------------------------------------------
  // Listing profiles

  predicate IsProfileDir(e: DirEntry) {
    e.isDir && (e.name == DefaultProfile || HasPrefix(e.name, ProfilePrefix)) && e.hasCookies
  }

  /** The name `Local State` gives the profile, or its directory name when it gives none. */
  function DisplayName(names: map<string, string>, dir: string): (r: string)
    ensures dir != "" ==> r != ""
    ensures Get(names, dir) != "" ==> r == names[dir]
  {
    if Get(names, dir) == "" then dir else names[dir]
  }

  /** The profile directories, in listing order. */
  function Candidates(entries: seq<DirEntry>, names: map<string, string>): (r: seq<Profile>)
    ensures forall j :: 0 <= j < |r| ==> r[j].displayName != ""
    ensures forall j :: 0 <= j < |r| ==> exists e :: e in entries && IsProfileDir(e) && r[j] == Profile(e.name, DisplayName(names, e.name))
    ensures forall e :: e in entries && IsProfileDir(e) ==> Profile(e.name, DisplayName(names, e.name)) in r
    decreases |entries|
  {
    if |entries| == 0 then []
    else
      var rest := Candidates(entries[1..], names);
      assert forall e :: e in entries[1..] ==> e in entries;
      assert forall e :: e in entries && e != entries[0] ==> e in entries[1..];
      var e := entries[0];
      if IsProfileDir(e) then
        assert e.name != "" by { assert e.name == DefaultProfile || |e.name| >= |ProfilePrefix|; }
        [Profile(e.name, DisplayName(names, e.name))] + rest
      else rest
  }

  /** The sort comparator: `Default` before everything, then names ascending. */
  predicate Before(a: Profile, b: Profile) {
    a.name == DefaultProfile || (b.name != DefaultProfile && Less(a.name, b.name))
  }

  predicate Sorted(ps: seq<Profile>) {
    forall i, j :: 0 <= i < j < |ps| ==> !Before(ps[j], ps[i])
  }

  predicate DistinctNames(ps: seq<Profile>) {
    forall i, j :: 0 <= i < j < |ps| ==> ps[i].name != ps[j].name
  }

  lemma {:induction false} BeforeTransitive(a: Profile, b: Profile, c: Profile)
    requires Before(a, b) && Before(b, c)
    ensures Before(a, c)
  {
    if a.name != DefaultProfile {
      LessTransitive(a.name, b.name, c.name);
    }
  }

  lemma {:induction false} BeforeTotal(a: Profile, b: Profile)
    requires a.name != b.name
    ensures Before(a, b) || Before(b, a)
  {
    LessTotal(a.name, b.name);
  }

  lemma {:induction false} BeforeAsymmetric(a: Profile, b: Profile)
    requires a.name != b.name && Before(a, b)
    ensures !Before(b, a)
  {
    if b.name != DefaultProfile && a.name != DefaultProfile && Less(b.name, a.name) {
      LessTransitive(a.name, b.name, a.name);
      LessIrreflexive(a.name);
    }
  }

  /** `p` placed before the first element that does not come before it. */
  function Insert(p: Profile, s: seq<Profile>): (r: seq<Profile>)
    ensures multiset(r) == multiset(s) + multiset{p}
    decreases |s|
  {
    if |s| == 0 || !Before(s[0], p) then [p] + s
    else
      assert s == [s[0]] + s[1..];
      [s[0]] + Insert(p, s[1..])
  }

  lemma {:induction false} InsertSorted(p: Profile, s: seq<Profile>)
    requires Sorted(s) && forall j :: 0 <= j < |s| ==> s[j].name != p.name
    ensures Sorted(Insert(p, s))
    decreases |s|
  {
    if |s| == 0 {
    } else if !Before(s[0], p) {
      NothingBefore(p, s);
      ConsSorted(p, s);
    } else {
      InsertSorted(p, s[1..]);
      var t := Insert(p, s[1..]);
      HeadStaysFirst(p, s, t);
      ConsSorted(s[0], t);
    }
  }

  /** In a sorted list, nothing comes before `p` once the head does not. */
  lemma {:induction false} NothingBefore(p: Profile, s: seq<Profile>)
    requires Sorted(s) && |s| > 0 && !Before(s[0], p)
    requires forall j :: 0 <= j < |s| ==> s[j].name != p.name
    ensures forall j :: 0 <= j < |s| ==> !Before(s[j], p)
  {
    forall j | 0 < j < |s| ensures !Before(s[j], p) {
      if Before(s[j], p) {
        BeforeTotal(s[0], s[j]);
        BeforeTransitive(s[0], s[j], p);
      }
    }
  }

  /** Nothing inserted after the head comes before it. */
  lemma {:induction false} HeadStaysFirst(p: Profile, s: seq<Profile>, t: seq<Profile>)
    requires Sorted(s) && |s| > 0 && Before(s[0], p) && s[0].name != p.name
    requires multiset(t) == multiset(s[1..]) + multiset{p}
    ensures forall j :: 0 <= j < |t| ==> !Before(t[j], s[0])
  {
    forall j | 0 <= j < |t| ensures !Before(t[j], s[0]) {
      var x := t[j];
      assert x in multiset(t);
      assert x in multiset(s[1..]) + multiset{p};
      if x == p {
        BeforeAsymmetric(s[0], p);
      } else {
        assert x in s[1..];
        var i :| 0 <= i < |s[1..]| && s[1..][i] == x;
        assert s[i + 1] == x;
      }
    }
  }

  lemma {:induction false} ConsSorted(x: Profile, t: seq<Profile>)
    requires Sorted(t) && forall j :: 0 <= j < |t| ==> !Before(t[j], x)
    ensures Sorted([x] + t)
  {
    var r := [x] + t;
    forall i, j | 0 <= i < j < |r| ensures !Before(r[j], r[i]) {
      assert r[j] == t[j - 1];
      if i > 0 {
        assert r[i] == t[i - 1];
      }
    }
  }

  /** `sort.Slice` with the comparator above (on distinct names the order is
      total, so every sort algorithm gives this result). */
  function SortProfiles(ps: seq<Profile>): (r: seq<Profile>)
    ensures multiset(r) == multiset(ps)
    decreases |ps|
  {
    if |ps| == 0 then []
    else
      assert ps == [ps[0]] + ps[1..];
      Insert(ps[0], SortProfiles(ps[1..]))
  }

  lemma {:induction false} SortProfilesSorted(ps: seq<Profile>)
    requires DistinctNames(ps)
    ensures Sorted(SortProfiles(ps))
    decreases |ps|
  {
    if |ps| > 0 {
      var rest := SortProfiles(ps[1..]);
      SortProfilesSorted(ps[1..]);
      forall j | 0 <= j < |rest| ensures rest[j].name != ps[0].name {
        assert rest[j] in multiset(ps[1..]);
        var i :| 0 <= i < |ps[1..]| && ps[1..][i] == rest[j];
        assert ps[i + 1] == rest[j];
      }
      InsertSorted(ps[0], rest);
    }
  }

  /** `ListChromeProfiles`: the profile directories, sorted. */
  function ListProfiles(entries: seq<DirEntry>, names: map<string, string>): seq<Profile> {
    SortProfiles(Candidates(entries, names))
  }

  /** Directory names are unique within the listing. */
  predicate DistinctEntries(entries: seq<DirEntry>) {
    forall i, j :: 0 <= i < j < |entries| ==> entries[i].name != entries[j].name
  }

  /** The listed profiles are exactly the profile directories, each once,
      `Default` first and the others by name, each with its display name. */
  lemma {:induction false} ListedProfiles(entries: seq<DirEntry>, names: map<string, string>)
    requires DistinctEntries(entries)
    ensures var ps := ListProfiles(entries, names);
            Sorted(ps) && multiset(ps) == multiset(Candidates(entries, names))
    ensures var ps := ListProfiles(entries, names);
            forall e :: e in entries && IsProfileDir(e) ==> Profile(e.name, DisplayName(names, e.name)) in ps
    ensures var ps := ListProfiles(entries, names);
            forall j :: 0 <= j < |ps| ==> ps[j].displayName != ""
  {
    var cs := Candidates(entries, names);
    CandidatesDistinct(entries, names);
    SortProfilesSorted(cs);
    var ps := ListProfiles(entries, names);
    forall j | 0 <= j < |ps| ensures ps[j].displayName != "" {
      assert ps[j] in multiset(cs);
    }
    forall e | e in entries && IsProfileDir(e) ensures Profile(e.name, DisplayName(names, e.name)) in ps {
      assert Profile(e.name, DisplayName(names, e.name)) in multiset(cs);
    }
  }

  lemma {:induction false} CandidatesDistinct(entries: seq<DirEntry>, names: map<string, string>)
    requires DistinctEntries(entries)
    ensures DistinctNames(Candidates(entries, names))
    decreases |entries|
  {
    if |entries| > 0 {
      DistinctTail(entries);
      CandidatesDistinct(entries[1..], names);
      if IsProfileDir(entries[0]) {
        LaterNamesDiffer(entries, names);
        ConsDistinct(Profile(entries[0].name, DisplayName(names, entries[0].name)), Candidates(entries[1..], names));
      }
    }
  }

  lemma {:induction false} DistinctTail(entries: seq<DirEntry>)
    requires |entries| > 0 && DistinctEntries(entries)
    ensures DistinctEntries(entries[1..])
  {
    var t := entries[1..];
    forall i, j | 0 <= i < j < |t| ensures t[i].name != t[j].name {
      assert t[i] == entries[i + 1] && t[j] == entries[j + 1];
    }
  }

  /** No later profile directory shares the first entry's name. */
  lemma {:induction false} LaterNamesDiffer(entries: seq<DirEntry>, names: map<string, string>)
    requires |entries| > 0 && DistinctEntries(entries)
    ensures var rest := Candidates(entries[1..], names);
            forall j :: 0 <= j < |rest| ==> rest[j].name != entries[0].name
  {
    var rest := Candidates(entries[1..], names);
    forall j | 0 <= j < |rest| ensures rest[j].name != entries[0].name {
      var e :| e in entries[1..] && IsProfileDir(e) && rest[j] == Profile(e.name, DisplayName(names, e.name));
      var i :| 0 <= i < |entries[1..]| && entries[1..][i] == e;
      assert entries[i + 1] == e;
    }
  }

  lemma {:induction false} ConsDistinct(p: Profile, rest: seq<Profile>)
    requires DistinctNames(rest) && forall j :: 0 <= j < |rest| ==> rest[j].name != p.name
    ensures DistinctNames([p] + rest)
  {
    var ps := [p] + rest;
    forall i, j | 0 <= i < j < |ps| ensures ps[i].name != ps[j].name {
      assert ps[j] == rest[j - 1];
      if i > 0 {
        assert ps[i] == rest[i - 1];
      }
    }
  }

  /** When a `Default` profile is listed, it is listed first: no later
      position holds it. */
  lemma {:induction false} DefaultFirst(ps: seq<Profile>)
    requires Sorted(ps)
    ensures forall j :: 0 < j < |ps| ==> ps[j].name != DefaultProfile
  {
    forall j | 0 < j < |ps| ensures ps[j].name != DefaultProfile {
      assert !Before(ps[j], ps[0]);
    }
  }

  // ---------------------------------------------------------------------------
  // The selection

  /** The 0-based profile index a comma-separated token names, if it is an
      integer between 1 and `n`. */
  function TokenIndex(token: string, n: nat): (r: Option<nat>)
    ensures r.Some? ==> r.value < n
  {
    match Atoi(TrimSpace(token))
    case Ok(v) => if 1 <= v <= n then Some((v - 1) as nat) else None
    case Err(_) => None
  }

  /** The indices of the valid tokens, in order, duplicates kept. */
  function TokenIndices(tokens: seq<string>, n: nat): (r: seq<nat>)
    ensures forall j :: 0 <= j < |r| ==> r[j] < n
    ensures |r| <= |tokens|
    decreases |tokens|
  {
    if |tokens| == 0 then []
    else
      match TokenIndex(tokens[0], n)
      case Some(i) => [i] + TokenIndices(tokens[1..], n)
      case None => TokenIndices(tokens[1..], n)
  }

  function AllIndices(n: nat): (r: seq<nat>)
    ensures |r| == n && forall j :: 0 <= j < n ==> r[j] == j
  {
    seq(n, j requires 0 <= j < n => j)
  }

  /** The selected profile indices: all of them for `ALL` in any case, else
      those of the valid tokens. */
  function SelectIndices(input: string, n: nat): (r: seq<nat>)
    ensures forall j :: 0 <= j < |r| ==> r[j] < n
    ensures UpperIsAll(TrimSpace(input)) ==> r == AllIndices(n)
  {
    var t := TrimSpace(input);
    if UpperIsAll(t) then AllIndices(n) else TokenIndices(Split(t, ','), n)
  }

  /** The selected profiles; an empty selection is an error. */
  function SelectProfiles(profiles: seq<Profile>, input: string): (r: Result<seq<Profile>, string>)
    ensures r.Ok? ==> |r.value| > 0 && forall j :: 0 <= j < |r.value| ==> r.value[j] in profiles
    ensures UpperIsAll(TrimSpace(input)) && |profiles| > 0 ==> r == Ok(profiles)
    ensures r.Err? <==> |SelectIndices(input, |profiles|)| == 0
  {
    var idx := SelectIndices(input, |profiles|);
    if |idx| == 0 then Err("no profiles selected")
    else Ok(Pick(profiles, idx))
  }

  /** The profiles at the given indices. */
  function Pick(profiles: seq<Profile>, idx: seq<nat>): (r: seq<Profile>)
    requires forall j :: 0 <= j < |idx| ==> idx[j] < |profiles|
    ensures |r| == |idx| && forall j :: 0 <= j < |idx| ==> r[j] == profiles[idx[j]]
    ensures idx == AllIndices(|profiles|) ==> r == profiles
  {
    seq(|idx|, j requires 0 <= j < |idx| => profiles[idx[j]])
  }

  /** The selection a user types as 1-based numbers separated by commas. */
  function Numbers(ks: seq<nat>): string {
    Join(Numerals(ks), ",")
  }

  /** Each number written in decimal. */
  function Numerals(ks: seq<nat>): seq<string> {
    seq(|ks|, j requires 0 <= j < |ks| => NatToString(ks[j]))
  }

  /** Typing valid numbers selects exactly those profiles, in the order typed,
      repetitions included. */
  lemma {:induction false} NumbersSelect(ks: seq<nat>, n: nat)
    requires |ks| > 0 && n <= MaxInt64
    requires forall j :: 0 <= j < |ks| ==> 1 <= ks[j] <= n
    ensures var r := SelectIndices(Numbers(ks), n);
            |r| == |ks| && forall j :: 0 <= j < |ks| ==> r[j] + 1 == ks[j]
  {
    var toks := Numerals(ks);
    var idx := seq(|ks|, j requires 0 <= j < |ks| => (ks[j] - 1) as nat);
    forall j | 0 <= j < |toks| ensures TokenIndex(toks[j], n) == Some(idx[j]) {
      NumberToken(ks[j], n);
    }
    TokenIndicesOf(toks, idx, n);
    NumbersSplit(ks);
  }

  /** The typed numbers, split at the commas, are the numbers' digits again. */
  lemma {:induction false} NumbersSplit(ks: seq<nat>)
    requires |ks| > 0
    ensures var s := Numbers(ks);
            TrimSpace(s) == s && !UpperIsAll(s)
            && Split(s, ',') == Numerals(ks)
  {
    var toks := Numerals(ks);
    var s := Numbers(ks);
    assert s == Join(toks, ",");
    forall j | 0 <= j < |toks| ensures |toks[j]| >= 1 && All(toks[j], IsDigit) && ',' !in toks[j] {
      DigitsTrimmed(toks[j]);
    }
    SplitJoin(toks, ',');
    NumbersTrimmed(toks);
    assert !UpperIsAll(s) by {
      assert IsDigit(s[0]);
    }
  }

  /** One typed number names the profile one below it. */
  lemma {:induction false} NumberToken(k: nat, n: nat)
    requires 1 <= k <= n <= MaxInt64
    ensures TokenIndex(NatToString(k), n) == Some((k - 1) as nat)
  {
    DigitsTrimmed(NatToString(k));
    AtoiNatToString(k);
  }

  lemma {:induction false} DigitsTrimmed(t: string)
    requires |t| >= 1 && All(t, IsDigit)
    ensures TrimSpace(t) == t && ',' !in t
  {
    assert IsDigit(t[0]) && IsDigit(t[|t| - 1]);
    TrimSpaceTrimmed(t);
  }

  lemma {:induction false} NumbersTrimmed(toks: seq<string>)
    requires |toks| > 0 && forall j :: 0 <= j < |toks| ==> |toks[j]| >= 1 && All(toks[j], IsDigit)
    ensures var s := Join(toks, ",");
            TrimSpace(s) == s && |s| > 0 && IsDigit(s[0])
  {
    var s := Join(toks, ",");
    JoinFirstLast(toks, ",");
    assert IsDigit(toks[0][0]) && IsDigit(toks[|toks| - 1][|toks[|toks| - 1]| - 1]);
    TrimSpaceTrimmed(s);
  }

  /** A join starts with the first part and ends with the last. */
  lemma {:induction false} JoinFirstLast(parts: seq<string>, sep: string)
    requires |parts| > 0 && forall j :: 0 <= j < |parts| ==> |parts[j]| > 0
    ensures var s := Join(parts, sep);
            |s| > 0 && s[0] == parts[0][0] && s[|s| - 1] == parts[|parts| - 1][|parts[|parts| - 1]| - 1]
    decreases |parts|
  {
    if |parts| > 1 {
      JoinFirstLast(parts[1..], sep);
    }
  }

  /** Tokens that are all valid select their indices, in order. */
  lemma {:induction false} TokenIndicesOf(toks: seq<string>, idx: seq<nat>, n: nat)
    requires |toks| == |idx|
    requires forall j :: 0 <= j < |toks| ==> TokenIndex(toks[j], n) == Some(idx[j])
    ensures TokenIndices(toks, n) == idx
    decreases |toks|
  {
    if |toks| > 0 {
      assert TokenIndex(toks[0], n) == Some(idx[0]);
      TokenIndicesOf(toks[1..], idx[1..], n);
      assert idx == [idx[0]] + idx[1..];
    }
  }

  /** An invalid token is skipped wherever it stands. */
  lemma {:induction false} InvalidTokenSkipped(tokens: seq<string>, i: nat, bad: string, n: nat)
    requires i <= |tokens| && TokenIndex(bad, n).None?
    ensures TokenIndices(tokens[..i] + [bad] + tokens[i..], n) == TokenIndices(tokens, n)
    decreases i
  {
    var t := tokens[..i] + [bad] + tokens[i..];
    if i == 0 {
      assert t[1..] == tokens;
    } else {
      assert t[0] == tokens[0];
      assert t[1..] == tokens[1..][..i - 1] + [bad] + tokens[1..][i - 1..];
      InvalidTokenSkipped(tokens[1..], i - 1, bad, n);
    }
  }

  // ---------------------------------------------------------------------------
  // Fetching one profile

  /** The cookies kept from the browser's answer: the two session cookies of a
      domain containing `google.com`; without a session cookie the fetch fails. */
  function FetchResult(cs: seq<Cookie.BrowserCookie>): (r: Result<map<string, string>, string>)
    ensures r.Ok? <==> Get(Cookie.BrowserCookies(cs), Cookie.PsidName) != ""
    ensures r.Ok? ==> r.value == Cookie.BrowserCookies(cs)
  {
    var cookies := Cookie.BrowserCookies(cs);
    if Get(cookies, Cookie.PsidName) == "" then Err("cookie not found, please login to Google in this profile")
    else Ok(cookies)
  }

  /** One attempt: the browser session either fails (Chrome does not start,
      DevTools or the WebSocket cannot be reached, the answer times out) or
      returns the cookie list. */
  function Attempt(outcome: Result<seq<Cookie.BrowserCookie>, string>): Result<map<string, string>, string> {
    match outcome
    case Err(e) => Err(e)
    case Ok(cs) => FetchResult(cs)
  }

  /** Every fetched cookie map holds a session cookie and nothing but the two
      session cookies. */
  lemma {:induction false} FetchedCookiesShape(outcome: Result<seq<Cookie.BrowserCookie>, string>)
    requires Attempt(outcome).Ok?
    ensures var m := Attempt(outcome).value;
            Get(m, Cookie.PsidName) != "" && forall k :: k in m ==> k == Cookie.PsidName || k == Cookie.PsidtsName
  {
  }

  // ---------------------------------------------------------------------------
  // Collecting the results

  /** The results, placed in their slots in completion order `arrivals`
      (`allResults[res.index] = res`). */
  function Place<R>(slots: seq<Option<R>>, arrivals: seq<(nat, R)>): (r: seq<Option<R>>)
    ensures |r| == |slots|
    decreases |arrivals|
  {
    if |arrivals| == 0 then slots
    else
      var (i, res) := arrivals[0];
      var next := if i < |slots| then slots[i := Some(res)] else slots;
      Place(next, arrivals[1..])
  }

  /** A slot no arrival names is untouched. */
  lemma {:induction false} PlaceUntouched<R>(slots: seq<Option<R>>, arrivals: seq<(nat, R)>, i: nat)
    requires i < |slots| && forall k :: 0 <= k < |arrivals| ==> arrivals[k].0 != i
    ensures Place(slots, arrivals)[i] == slots[i]
    decreases |arrivals|
  {
    if |arrivals| > 0 {
      var (j, res) := arrivals[0];
      var next := if j < |slots| then slots[j := Some(res)] else slots;
      assert forall k :: 0 <= k < |arrivals[1..]| ==> arrivals[1..][k] == arrivals[k + 1];
      PlaceUntouched(next, arrivals[1..], i);
    }
  }

  /** A slot holds what the last arrival for it brought. */
  lemma {:induction false} PlaceLast<R>(slots: seq<Option<R>>, arrivals: seq<(nat, R)>, i: nat, k: nat)
    requires i < |slots| && k < |arrivals| && arrivals[k].0 == i
    requires forall l :: k < l < |arrivals| ==> arrivals[l].0 != i
    ensures Place(slots, arrivals)[i] == Some(arrivals[k].1)
    decreases |arrivals|
  {
    var (j, res) := arrivals[0];
    var next := if j < |slots| then slots[j := Some(res)] else slots;
    var rest := arrivals[1..];
    assert forall l :: 0 <= l < |rest| ==> rest[l] == arrivals[l + 1];
    if k == 0 {
      PlaceUntouched(next, rest, i);
    } else {
      PlaceLast(next, rest, i, k - 1);
    }
  }

  /** Whatever the completion order, when every fetch reports once with its
      own index, slot `i` holds the result of the `i`-th selected profile. */
  lemma {:induction false} PlacedByIndex<R>(results: seq<R>, arrivals: seq<(nat, R)>)
    requires forall k :: 0 <= k < |arrivals| ==> arrivals[k].0 < |results| && arrivals[k].1 == results[arrivals[k].0]
    requires forall i :: 0 <= i < |results| ==> Arrived(arrivals, i)
    ensures var placed := Place(Unfilled(|results|), arrivals);
            |placed| == |results| && forall i :: 0 <= i < |results| ==> placed[i] == Some(results[i])
  {
    var slots: seq<Option<R>> := Unfilled(|results|);
    var placed := Place(slots, arrivals);
    forall i | 0 <= i < |results| ensures placed[i] == Some(results[i]) {
      var k := LastArrival(arrivals, i);
      PlaceLast(slots, arrivals, i, k);
    }
  }

  /** `n` empty slots. */
  function Unfilled<R>(n: nat): seq<Option<R>> {
    seq(n, i => None)
  }

  predicate Arrived<R>(arrivals: seq<(nat, R)>, i: nat) {
    exists k :: 0 <= k < |arrivals| && arrivals[k].0 == i
  }

  /** The last arrival for slot `i`, when there is one. */
  lemma {:induction false} LastArrival<R>(arrivals: seq<(nat, R)>, i: nat) returns (k: nat)
    requires Arrived(arrivals, i)
    ensures k < |arrivals| && arrivals[k].0 == i
    ensures forall l :: k < l < |arrivals| ==> arrivals[l].0 != i
  {
    var k0 :| 0 <= k0 < |arrivals| && arrivals[k0].0 == i;
    k := k0;
    while exists l :: k < l < |arrivals| && arrivals[l].0 == i
      invariant k < |arrivals| && arrivals[k].0 == i
      decreases |arrivals| - k
    {
      var l :| k < l < |arrivals| && arrivals[l].0 == i;
      k := l;
    }
  }

  // ---------------------------------------------------------------------------
  // Keys and the saved file

  /** The account id a profile's cookies are saved under: none for `Default`,
      otherwise the display name with spaces turned into `_`. */
  function AccountID(p: Profile): string {
    if p.name == DefaultProfile then "" else ReplaceChar(p.displayName, ' ', '_')
  }

  /** The key suffix: "" for `Default`, otherwise `_` and the account id. */
  function Suffix(p: Profile): (r: string)
    ensures ' ' !in r && (r == "" || r[0] == '_')
    ensures p.name == DefaultProfile <==> r == ""
  {
    if p.name == DefaultProfile then "" else "_" + AccountID(p)
  }

  /** The suffixed keys are the ones the multi-account loader reads for the
      profile's account id. */
  lemma {:induction false} SuffixKeys(p: Profile)
    requires p.name == DefaultProfile || p.displayName != ""
    ensures Cookie.PsidName + Suffix(p) == Cookie.PsidKey(AccountID(p))
    ensures Cookie.PsidtsName + Suffix(p) == Cookie.PsidtsKey(AccountID(p))
  {
    if p.name != DefaultProfile {
      assert AccountID(p) != "";
      assert Cookie.PsidName + ("_" + AccountID(p)) == Cookie.PsidName + "_" + AccountID(p);
      assert Cookie.PsidtsName + ("_" + AccountID(p)) == Cookie.PsidtsName + "_" + AccountID(p);
    } else {
      assert Cookie.PsidName + "" == Cookie.PsidName;
      assert Cookie.PsidtsName + "" == Cookie.PsidtsName;
    }
  }

  /** One profile's result after the retries. */
  datatype Fetched = Fetched(profile: Profile, result: Result<map<string, string>, string>)

  /** The `allCookies` assignments of one result: the two suffixed session
      keys for a success, nothing for a failure. */
  function ResultEntries(f: Fetched): (r: seq<Option<(string, string)>>)
    ensures |r| == 2
  {
    match f.result
    case Ok(c) =>
      [Some((Cookie.PsidName + Suffix(f.profile), Get(c, Cookie.PsidName))),
       Some((Cookie.PsidtsName + Suffix(f.profile), Get(c, Cookie.PsidtsName)))]
    case Err(_) => [None, None]
  }

  function AllEntries(rs: seq<Fetched>): (r: seq<Option<(string, string)>>)
    ensures |r| == 2 * |rs|
    ensures forall i :: 0 <= i < |rs| ==> r[2 * i] == ResultEntries(rs[i])[0] && r[2 * i + 1] == ResultEntries(rs[i])[1]
    decreases |rs|
  {
    if |rs| == 0 then []
    else
      var rest := AllEntries(rs[1..]);
      assert Seqs.PairsOf(ResultEntries, rs[1..], rest);
      Seqs.PairsCons(ResultEntries, rs, rest);
      ResultEntries(rs[0]) + rest
  }

  /** `allCookies`: the session keys of every success, a later result with the
      same suffix overriding an earlier one. */
  function AllCookies(rs: seq<Fetched>): map<string, string> {
    ToMap(AllEntries(rs))
  }

  /** `orderedKeys`: the two session keys of each success, in selection order. */
  function OrderedKeys(rs: seq<Fetched>): (r: seq<string>)
    ensures forall k :: k in r <==> Defined(AllEntries(rs), k)
    decreases |rs|
  {
    if |rs| == 0 then []
    else
      var rest := OrderedKeys(rs[1..]);
      var es := AllEntries(rs);
      assert es == ResultEntries(rs[0]) + AllEntries(rs[1..]);
      forall k ensures Defined(es, k) <==> (Defined(ResultEntries(rs[0]), k) || Defined(AllEntries(rs[1..]), k)) {
        DefinedAppend(ResultEntries(rs[0]), AllEntries(rs[1..]), k);
      }
      match rs[0].result
      case Ok(_) => [Cookie.PsidName + Suffix(rs[0].profile), Cookie.PsidtsName + Suffix(rs[0].profile)] + rest
      case Err(_) => rest
  }

  lemma {:induction false} DefinedAppend(a: seq<Option<(string, string)>>, b: seq<Option<(string, string)>>, k: string)
    ensures Defined(a + b, k) <==> Defined(a, k) || Defined(b, k)
  {
    if Defined(a + b, k) {
      var i :| 0 <= i < |a + b| && Defines((a + b)[i], k);
      if i >= |a| { assert b[i - |a|] == (a + b)[i]; }
    }
    if Defined(b, k) {
      var i :| 0 <= i < |b| && Defines(b[i], k);
      assert (a + b)[|a| + i] == b[i];
    }
    if Defined(a, k) {
      var i :| 0 <= i < |a| && Defines(a[i], k);
      assert (a + b)[i] == a[i];
    }
  }

  /** `orderedCookies`: `allCookies` restricted to the ordered keys, which is
      all of it. */
  function OrderedCookies(rs: seq<Fetched>): (m: map<string, string>)
    ensures m == AllCookies(rs)
  {
    var all := AllCookies(rs);
    map k | k in OrderedKeys(rs) :: all[k]
  }

  /** The fetched results, the new `.env` text or the error that stopped the
      run. */
  function Collect(content: Option<string>, rs: seq<Fetched>): (r: Result<string, string>)
    ensures r.Ok? ==> r.value == SaveWithOrder(content, OrderedKeys(rs), OrderedCookies(rs))
  {
    if |AllCookies(rs)| == 0 then Err("no cookies fetched")
    else Ok(SaveWithOrder(content, OrderedKeys(rs), OrderedCookies(rs)))
  }

  /** The run fails at the end exactly when no selected profile was fetched. */
  lemma {:induction false} CollectFailsWithoutSuccess(content: Option<string>, rs: seq<Fetched>)
    ensures Collect(content, rs).Err? <==> forall i :: 0 <= i < |rs| ==> rs[i].result.Err?
  {
    CollectErr(content, rs);
    if i :| 0 <= i < |rs| && rs[i].result.Ok? {
      SuccessGivesCookies(rs, i);
    } else {
      NoSuccessNoCookies(rs);
    }
  }

  lemma {:induction false} CollectErr(content: Option<string>, rs: seq<Fetched>)
    ensures Collect(content, rs).Err? <==> |AllCookies(rs)| == 0
  {
  }

  lemma {:induction false} SuccessGivesCookies(rs: seq<Fetched>, i: nat)
    requires i < |rs| && rs[i].result.Ok?
    ensures |AllCookies(rs)| > 0
  {
    var es := AllEntries(rs);
    var m := AllCookies(rs);
    var k := Cookie.PsidName + Suffix(rs[i].profile);
    assert Defines(es[2 * i], k);
    assert k in m;
    assert m.Keys != {};
  }

  lemma {:induction false} NoSuccessNoCookies(rs: seq<Fetched>)
    requires forall i :: 0 <= i < |rs| ==> rs[i].result.Err?
    ensures AllCookies(rs) == map[]
  {
    var es := AllEntries(rs);
    forall j | 0 <= j < |es| ensures es[j].None? {
      var l := j / 2;
      assert es[2 * l] == ResultEntries(rs[l])[0] && es[2 * l + 1] == ResultEntries(rs[l])[1];
    }
    NoEntries(es);
  }

  /** `RunFetchCookies`: `entries` and `names` describe the user-data
      directory, `input` is the typed selection, `outcome(i, k)` the outcome of
      attempt `k` for the `i`-th selected profile, and `content` the old
      `.env` text. The result is the new `.env` text. */
  function RunFetchCookies(entries: seq<DirEntry>, names: map<string, string>, input: string,
                           outcome: (nat, nat) -> Result<seq<Cookie.BrowserCookie>, string>,
                           content: Option<string>): (r: Result<string, string>)
    ensures |ListProfiles(entries, names)| == 0 ==> r.Err?
    ensures SelectProfiles(ListProfiles(entries, names), input).Err? ==> r.Err?
  {
    var profiles := ListProfiles(entries, names);
    if |profiles| == 0 then Err("no Chrome profiles found")
    else
      match SelectProfiles(profiles, input)
      case Err(e) => Err(e)
      case Ok(sel) =>
        var rs := seq(|sel|, i requires 0 <= i < |sel| =>
                        Fetched(sel[i], Retry.Attempts(k => Attempt(outcome(i, k))).0));
        Collect(content, rs)
  }

  // ---------------------------------------------------------------------------
  // What the saved file holds

  /** A display name whose key and values the `.env` file can hold. */
  predicate NameOk(p: Profile) {
    (p.name == DefaultProfile || p.displayName != "")
    && forall c :: c in p.displayName ==> c == ' ' || (!IsSpace(c) && c != '=')
  }

  predicate ValuesOk(rs: seq<Fetched>) {
    forall i :: 0 <= i < |rs| && rs[i].result.Ok? ==>
      ValueOk(Get(rs[i].result.value, Cookie.PsidName)) && ValueOk(Get(rs[i].result.value, Cookie.PsidtsName))
  }

  lemma {:induction false} SuffixedKeyOk(base: string, p: Profile)
    requires NameOk(p) && base != "" && Trimmed(base) && '=' !in base && '\n' !in base && base[0] != '#'
    ensures KeyOk(base + Suffix(p))
  {
    var sfx := Suffix(p);
    if sfx == "" {
      assert base + sfx == base;
    } else {
      SuffixChars(p);
      KeyWithSuffix(base, sfx);
    }
  }

  /** A non-empty suffix is `_` and display-name characters, none of them `=`
      or a line break, and it does not end in a blank. */
  lemma {:induction false} SuffixChars(p: Profile)
    requires NameOk(p) && Suffix(p) != ""
    ensures var sfx := Suffix(p);
            '=' !in sfx && '\n' !in sfx && !IsSpace(sfx[|sfx| - 1])
  {
    var sfx := Suffix(p);
    var d := p.displayName;
    var id := ReplaceChar(d, ' ', '_');
    assert sfx == "_" + id;
    forall m | 0 <= m < |sfx| ensures sfx[m] != '=' && sfx[m] != '\n' && (m == |sfx| - 1 ==> !IsSpace(sfx[m])) {
      if m > 0 {
        assert sfx[m] == id[m - 1];
        assert d[m - 1] in d;
      }
    }
  }

  lemma {:induction false} KeyWithSuffix(base: string, sfx: string)
    requires KeyOk(base) && |sfx| > 0 && '=' !in sfx && '\n' !in sfx && !IsSpace(sfx[|sfx| - 1])
    ensures KeyOk(base + sfx)
  {
    var k := base + sfx;
    assert k[0] == base[0] && k[|k| - 1] == sfx[|sfx| - 1];
    forall m | 0 <= m < |k| ensures k[m] != '=' && k[m] != '\n' {
      if m < |base| {
        assert k[m] == base[m];
      } else {
        assert k[m] == sfx[m - |base|];
      }
    }
  }

  /** Every key and value written can be read back. */
  lemma {:induction false} CollectedWritable(rs: seq<Fetched>)
    requires ValuesOk(rs) && forall i :: 0 <= i < |rs| ==> NameOk(rs[i].profile)
    ensures Writable(OrderedKeys(rs), OrderedCookies(rs))
  {
    forall k | k in OrderedKeys(rs) && k in OrderedCookies(rs) ensures KeyOk(k) && ValueOk(OrderedCookies(rs)[k]) {
      CollectedKeyWritable(rs, k);
    }
  }

  lemma {:induction false} CollectedKeyWritable(rs: seq<Fetched>, k: string)
    requires ValuesOk(rs) && forall i :: 0 <= i < |rs| ==> NameOk(rs[i].profile)
    requires k in AllCookies(rs)
    ensures KeyOk(k) && ValueOk(AllCookies(rs)[k])
  {
    var es := AllEntries(rs);
    ToMapValue(es, k);
    var j :| 0 <= j < |es| && Defines(es[j], k) && AllCookies(rs)[k] == es[j].value.1;
    EntryWritable(rs, j);
  }

  /** Every assignment of `allCookies` has a writable key and value. */
  lemma {:induction false} EntryWritable(rs: seq<Fetched>, j: nat)
    requires ValuesOk(rs) && forall i :: 0 <= i < |rs| ==> NameOk(rs[i].profile)
    requires j < |AllEntries(rs)| && AllEntries(rs)[j].Some?
    ensures KeyOk(AllEntries(rs)[j].value.0) && ValueOk(AllEntries(rs)[j].value.1)
  {
    var i := j / 2;
    assert j == 2 * i || j == 2 * i + 1;
    EntryOfResult(rs, i);
    ResultWritable(rs, i);
  }

  /** Entries `2i` and `2i+1` are result `i`'s; both are set exactly when it succeeded. */
  lemma {:induction false} EntryOfResult(rs: seq<Fetched>, i: nat)
    requires i < |rs|
    ensures 2 * i + 1 < |AllEntries(rs)|
    ensures AllEntries(rs)[2 * i].Some? <==> rs[i].result.Ok?
    ensures AllEntries(rs)[2 * i + 1].Some? <==> rs[i].result.Ok?
  {
  }

  lemma {:induction false} ResultWritable(rs: seq<Fetched>, i: nat)
    requires ValuesOk(rs) && forall i :: 0 <= i < |rs| ==> NameOk(rs[i].profile)
    requires i < |rs| && rs[i].result.Ok?
    ensures 2 * i + 1 < |AllEntries(rs)|
    ensures KeyOk(AllEntries(rs)[2 * i].value.0) && ValueOk(AllEntries(rs)[2 * i].value.1)
    ensures KeyOk(AllEntries(rs)[2 * i + 1].value.0) && ValueOk(AllEntries(rs)[2 * i + 1].value.1)
  {
    var kp, kt := SessionEntries(rs, i);
    SessionNamesOk();
    SuffixedKeyOk(Cookie.PsidName, rs[i].profile);
    SuffixedKeyOk(Cookie.PsidtsName, rs[i].profile);
  }

  lemma {:induction false} SessionNamesOk()
    ensures Cookie.PsidName != "" && Trimmed(Cookie.PsidName) && '=' !in Cookie.PsidName && '\n' !in Cookie.PsidName && Cookie.PsidName[0] != '#'
    ensures Cookie.PsidtsName != "" && Trimmed(Cookie.PsidtsName) && '=' !in Cookie.PsidtsName && '\n' !in Cookie.PsidtsName && Cookie.PsidtsName[0] != '#'
  {
  }

  /** Reading the saved file back, the account id of every successful profile
      whose suffix no later success shares has the session cookies that
      profile's fetch returned. */
  lemma {:induction false} SavedProfileReadsBack(content: Option<string>, rs: seq<Fetched>, i: nat)
    requires ValuesOk(rs) && forall j :: 0 <= j < |rs| ==> NameOk(rs[j].profile)
    requires i < |rs| && rs[i].result.Ok?
    requires forall j :: i < j < |rs| && rs[j].result.Ok? ==> Suffix(rs[j].profile) != Suffix(rs[i].profile)
    ensures Collect(content, rs).Ok?
    ensures var env := ParseEnv(Collect(content, rs).value);
            var id := AccountID(rs[i].profile);
            var c := rs[i].result.value;
            Get(env, Cookie.PsidKey(id)) == Get(c, Cookie.PsidName)
            && Get(env, Cookie.PsidtsKey(id)) == Get(c, Cookie.PsidtsName)
  {
    var p := rs[i].profile;
    var c := rs[i].result.value;
    var kp := Cookie.PsidName + Suffix(p);
    var kt := Cookie.PsidtsName + Suffix(p);
    var m := AllCookies(rs);
    ProfileCookies(rs, i);
    assert |m| > 0 by { assert kp in m.Keys; }
    var keys := OrderedKeys(rs);
    assert kp in keys && kt in keys;
    var text := SaveWithOrder(content, keys, OrderedCookies(rs));
    assert Collect(content, rs) == Ok(text);
    CollectedWritable(rs);
    SavedCookiesReadBack(content, keys, OrderedCookies(rs), kp);
    SavedCookiesReadBack(content, keys, OrderedCookies(rs), kt);
    SuffixKeys(p);
  }

  /** `allCookies` holds the cookies of result `i` under its suffixed keys
      when no later success shares the suffix. */
  lemma {:induction false} ProfileCookies(rs: seq<Fetched>, i: nat)
    requires i < |rs| && rs[i].result.Ok?
    requires forall j :: i < j < |rs| && rs[j].result.Ok? ==> Suffix(rs[j].profile) != Suffix(rs[i].profile)
    ensures var m := AllCookies(rs);
            var p := rs[i].profile;
            var c := rs[i].result.value;
            Cookie.PsidName + Suffix(p) in m && m[Cookie.PsidName + Suffix(p)] == Get(c, Cookie.PsidName)
            && Cookie.PsidtsName + Suffix(p) in m && m[Cookie.PsidtsName + Suffix(p)] == Get(c, Cookie.PsidtsName)
  {
    var kp, kt := SessionEntries(rs, i);
    LastForSuffix(rs, i, kp, kt);
    var es := AllEntries(rs);
    ToMapLast(es, 2 * i, kp);
    ToMapLast(es, 2 * i + 1, kt);
  }

  /** The two entries result `i` contributes, with their keys. */
  lemma {:induction false} SessionEntries(rs: seq<Fetched>, i: nat) returns (kp: string, kt: string)
    requires i < |rs| && rs[i].result.Ok?
    ensures kp == Cookie.PsidName + Suffix(rs[i].profile) && kt == Cookie.PsidtsName + Suffix(rs[i].profile)
    ensures 2 * i + 1 < |AllEntries(rs)|
    ensures AllEntries(rs)[2 * i] == Some((kp, Get(rs[i].result.value, Cookie.PsidName)))
    ensures AllEntries(rs)[2 * i + 1] == Some((kt, Get(rs[i].result.value, Cookie.PsidtsName)))
  {
    kp := Cookie.PsidName + Suffix(rs[i].profile);
    kt := Cookie.PsidtsName + Suffix(rs[i].profile);
  }

  /** No later entry assigns either key of result `i`. */
  lemma {:induction false} LastForSuffix(rs: seq<Fetched>, i: nat, kp: string, kt: string)
    requires i < |rs| && rs[i].result.Ok?
    requires kp == Cookie.PsidName + Suffix(rs[i].profile) && kt == Cookie.PsidtsName + Suffix(rs[i].profile)
    requires forall j :: i < j < |rs| && rs[j].result.Ok? ==> Suffix(rs[j].profile) != Suffix(rs[i].profile)
    ensures forall j :: 2 * i < j < |AllEntries(rs)| ==> !Defines(AllEntries(rs)[j], kp)
    ensures forall j :: 2 * i + 1 < j < |AllEntries(rs)| ==> !Defines(AllEntries(rs)[j], kt)
  {
    var es := AllEntries(rs);
    var s := Suffix(rs[i].profile);
    forall j | 2 * i < j < |es| ensures !Defines(es[j], kp) && (j > 2 * i + 1 ==> !Defines(es[j], kt)) {
      var l := j / 2;
      assert j == 2 * l || j == 2 * l + 1;
      assert es[2 * l] == ResultEntries(rs[l])[0] && es[2 * l + 1] == ResultEntries(rs[l])[1];
      if rs[l].result.Ok? {
        var t := Suffix(rs[l].profile);
        if j == 2 * i + 1 {
          assert es[j].value.0 == Cookie.PsidtsName + s;
          TwoNames(s, s);
        } else {
          assert l > i && t != s;
          TwoNames(t, s);
          TwoNames(s, t);
        }
      }
    }
  }

  /** The two session names followed by suffixes (each empty or starting with
      `_`) are distinct keys, and equal keys have equal suffixes. */
  lemma {:induction false} TwoNames(t: string, s: string)
    requires t == "" || t[0] == '_'
    requires s == "" || s[0] == '_'
    ensures Cookie.PsidName + t != Cookie.PsidtsName + s
    ensures t != s ==> Cookie.PsidName + t != Cookie.PsidName + s && Cookie.PsidtsName + t != Cookie.PsidtsName + s
  {
    var n := |Cookie.PsidName|;
    var a := Cookie.PsidName + t;
    var b := Cookie.PsidtsName + s;
    assert b[n] == 'T';
    assert |a| == n || a[n] == '_';
    assert (Cookie.PsidName + t)[n..] == t && (Cookie.PsidName + s)[n..] == s;
    assert (Cookie.PsidtsName + t)[n + 2..] == t && (Cookie.PsidtsName + s)[n + 2..] == s;
  }
}

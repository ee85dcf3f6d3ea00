/** One pass of the background account loader (`loadAccountsAsync` in
    cmd/server/main.go), run sequentially: the accounts read from `.env` are
    compared with the credential hashes remembered from the previous pass,
    only new or changed accounts are initialised (each with up to three
    attempts), and the pool is handed the full id list plus the clients that
    came up. The pool's `ReplaceAccounts` is not part of this model: the pass
    returns what it would be called with. */
module Reconcile {
  import opened Wrappers
  import opened EnvFile
  import Cookie
  import Retry
  import Seqs

  // ---------------------------------------------------------------------------
  // Credential hashes

  /** The cookie map `LoadMultiCookies` builds for one account. */
  function CookieMap(a: Cookie.Account): map<string, string> {
    map[Cookie.PsidName := a.psid, Cookie.PsidtsName := a.psidts]
  }

  /** `cookieHash`: the session cookie, a bar, the timestamp cookie (a missing
      key reads as ""). */
  function CookieHash(cookies: map<string, string>): string {
    Get(cookies, Cookie.PsidName) + "|" + Get(cookies, Cookie.PsidtsName)
  }

  function AccountHash(a: Cookie.Account): string {
    CookieHash(CookieMap(a))
  }

  /** In `p + "|" + t` with no bar in `p`, the first bar stands right after `p`. */
  lemma {:induction false} FirstBar(p: string, t: string)
    requires '|' !in p
    ensures forall i :: 0 <= i < |p| ==> (p + "|" + t)[i] != '|'
    ensures (p + "|" + t)[|p|] == '|'
  {
    forall i | 0 <= i < |p| ensures (p + "|" + t)[i] != '|' {
      assert (p + "|" + t)[i] == p[i];
    }
  }

  /** When the session cookies hold no bar, two cookie maps hash alike
      exactly when both cookies agree. */
  lemma {:induction false} HashSeparates(a: map<string, string>, b: map<string, string>)
    requires '|' !in Get(a, Cookie.PsidName) && '|' !in Get(b, Cookie.PsidName)
    ensures CookieHash(a) == CookieHash(b)
            <==> Get(a, Cookie.PsidName) == Get(b, Cookie.PsidName) && Get(a, Cookie.PsidtsName) == Get(b, Cookie.PsidtsName)
  {
    var pa, ta := Get(a, Cookie.PsidName), Get(a, Cookie.PsidtsName);
    var pb, tb := Get(b, Cookie.PsidName), Get(b, Cookie.PsidtsName);
    var ha, hb := pa + "|" + ta, pb + "|" + tb;
    FirstBar(pa, ta);
    FirstBar(pb, tb);
    if ha == hb {
      assert |pa| == |pb| by {
        assert !(|pa| < |pb|) by { assert hb[|pa|] == ha[|pa|]; }
        assert !(|pb| < |pa|) by { assert ha[|pb|] == hb[|pb|]; }
      }
      assert pa == ha[..|pa|] && pb == hb[..|pb|];
      assert ta == ha[|pa| + 1..] && tb == hb[|pb| + 1..];
    }
  }

  /** Without that condition the hash can confuse two accounts. */
  lemma {:induction false} BarConfusesHash()
    ensures var a := map[Cookie.PsidName := "a|b", Cookie.PsidtsName := "c"];
            var b := map[Cookie.PsidName := "a", Cookie.PsidtsName := "b|c"];
            CookieHash(a) == CookieHash(b) && Get(a, Cookie.PsidName) != Get(b, Cookie.PsidName)
  {
    var a := map[Cookie.PsidName := "a|b", Cookie.PsidtsName := "c"];
    var b := map[Cookie.PsidName := "a", Cookie.PsidtsName := "b|c"];
    assert Get(a, Cookie.PsidName) == "a|b" && Get(a, Cookie.PsidtsName) == "c";
    assert Get(b, Cookie.PsidName) == "a" && Get(b, Cookie.PsidtsName) == "b|c";
    assert Get(a, Cookie.PsidName)[1] != Get(b, Cookie.PsidName)[0] || |Get(a, Cookie.PsidName)| != |Get(b, Cookie.PsidName)|;
  }

  /** The assignments `newCookies[accountIDs[i]] = cookieHash(cookies)`, in load order. */
  function HashEntries(accs: seq<Cookie.Account>, ids: seq<string>): (es: seq<Option<(string, string)>>)
    requires |accs| == |ids|
    ensures |es| == |ids|
  {
    seq(|ids|, i requires 0 <= i < |ids| => Some((ids[i], AccountHash(accs[i]))))
  }

  /** The hashes of one load: one per loaded id. */
  function NewHashes(accs: seq<Cookie.Account>, ids: seq<string>): map<string, string>
    requires |accs| == |ids|
  {
    ToMap(HashEntries(accs, ids))
  }

  /** No later position holds the same id as position `i`. */
  predicate LastOf(ids: seq<string>, i: nat)
    requires i < |ids|
  {
    forall j :: i < j < |ids| ==> ids[j] != ids[i]
  }

  /** The new hashes cover exactly the loaded ids, and an id loaded twice
      takes the hash of its later account. */
  lemma {:induction false} NewHashesFacts(accs: seq<Cookie.Account>, ids: seq<string>)
    requires |accs| == |ids|
    ensures forall id :: id in NewHashes(accs, ids) <==> id in ids
    ensures forall i :: 0 <= i < |ids| && LastOf(ids, i) ==> NewHashes(accs, ids)[ids[i]] == AccountHash(accs[i])
  {
    var es := HashEntries(accs, ids);
    forall id ensures id in NewHashes(accs, ids) <==> id in ids {
      if id in ids {
        var i :| 0 <= i < |ids| && ids[i] == id;
        assert Defines(es[i], id);
      }
      if Defined(es, id) {
        var i :| 0 <= i < |es| && Defines(es[i], id);
        assert ids[i] == id;
      }
    }
    forall i | 0 <= i < |ids| && LastOf(ids, i) ensures NewHashes(accs, ids)[ids[i]] == AccountHash(accs[i]) {
      assert Defines(es[i], ids[i]);
      forall j | i < j < |es| ensures !Defines(es[j], ids[i]) {
        assert ids[j] != ids[i];
      }
      ToMapLast(es, i, ids[i]);
    }
  }

  // ---------------------------------------------------------------------------
  // Which accounts to initialise

  /** An account needs initialising when its id was not known before or its
      hash changed. */
  predicate Changed(before: map<string, string>, after: map<string, string>, id: string) {
    id !in before || before[id] != Get(after, id)
  }

  /** The test that keeps an id in `toKeep`. */
  function Unchanged(before: map<string, string>, after: map<string, string>): string -> bool {
    id => !Changed(before, after, id)
  }

  /** The positions the `toInit`/`toKeep` loop appends to `toInit`, in load order. */
  function ToInit(ids: seq<string>, before: map<string, string>, after: map<string, string>): seq<nat>
    decreases |ids|
  {
    if |ids| == 0 then []
    else
      var i := |ids| - 1;
      ToInit(ids[..i], before, after) + (if Changed(before, after, ids[i]) then [i] else [])
  }

  /** The ids the same loop appends to `toKeep`, in load order. */
  function ToKeep(ids: seq<string>, before: map<string, string>, after: map<string, string>): seq<string>
    decreases |ids|
  {
    if |ids| == 0 then []
    else
      var i := |ids| - 1;
      ToKeep(ids[..i], before, after) + (if Changed(before, after, ids[i]) then [] else [ids[i]])
  }

  /** A position is in `toInit` exactly when its account changed, and
      `toInit` is increasing. */
  lemma {:induction false} ToInitFacts(ids: seq<string>, before: map<string, string>, after: map<string, string>)
    ensures forall k :: 0 <= k < |ToInit(ids, before, after)| ==> ToInit(ids, before, after)[k] < |ids|
    ensures forall i :: 0 <= i < |ids| ==> (i in ToInit(ids, before, after) <==> Changed(before, after, ids[i]))
    ensures forall a, b :: 0 <= a < b < |ToInit(ids, before, after)| ==> ToInit(ids, before, after)[a] < ToInit(ids, before, after)[b]
    decreases |ids|
  {
    if |ids| > 0 {
      var i := |ids| - 1;
      var front := ids[..i];
      ToInitFacts(front, before, after);
      assert forall j :: 0 <= j < i ==> front[j] == ids[j];
    }
  }

  /** `toKeep` is the unchanged ids in load order, and the two lists together
      are as long as the load: every account lands in exactly one. */
  lemma {:induction false} ToKeepFacts(ids: seq<string>, before: map<string, string>, after: map<string, string>)
    ensures ToKeep(ids, before, after) == Seqs.Filter(Unchanged(before, after), ids)
    ensures |ToInit(ids, before, after)| + |ToKeep(ids, before, after)| == |ids|
    decreases |ids|
  {
    if |ids| > 0 {
      var i := |ids| - 1;
      ToKeepFacts(ids[..i], before, after);
      assert ids == ids[..i] + [ids[i]];
      Seqs.FilterSnoc(Unchanged(before, after), ids[..i], ids[i]);
    }
  }

  // ---------------------------------------------------------------------------
  // Initialising the changed accounts

  /** Up to three attempts at initialising a client from one account's
      cookies; `init(cookies, k)` is the outcome of attempt `k`, a timeout
      included. */
  function InitAccount<C>(init: (map<string, string>, nat) -> Result<C, string>, cookies: map<string, string>): (r: Result<C, string>)
    ensures r.Ok? <==> exists k :: 1 <= k <= Retry.MaxAttempts && init(cookies, k).Ok?
    ensures r.Ok? ==> exists k :: 1 <= k <= Retry.MaxAttempts && r == init(cookies, k)
                                  && forall j :: 1 <= j < k ==> init(cookies, j).Err?
  {
    var a := Retry.Attempts(k => init(cookies, k));
    assert a.0 == init(cookies, a.1);
    a.0
  }

  /** Draining the results channel into `changedAccounts`: each success sets
      its id's client; failures send nothing. */
  function Collect<C>(rs: seq<(string, Result<C, string>)>): map<string, C>
    decreases |rs|
  {
    if |rs| == 0 then map[]
    else
      var rest := Collect(rs[..|rs| - 1]);
      var r := rs[|rs| - 1];
      if r.1.Ok? then rest[r.0 := r.1.value] else rest
  }

  /** The collected map holds an id exactly when some result for it is a
      success, and then one of those clients. */
  lemma {:induction false} CollectFacts<C>(rs: seq<(string, Result<C, string>)>)
    ensures forall id :: id in Collect(rs) <==> exists k :: 0 <= k < |rs| && rs[k].0 == id && rs[k].1.Ok?
    ensures forall id :: id in Collect(rs) ==> exists k :: 0 <= k < |rs| && rs[k] == (id, Ok(Collect(rs)[id]))
    decreases |rs|
  {
    if |rs| > 0 {
      var front := rs[..|rs| - 1];
      CollectFacts(front);
      assert forall k :: 0 <= k < |front| ==> rs[k] == front[k];
    }
  }

  /** The results listed in another order: position `k` holds result `perm[k]`. */
  function Rearrange<C>(rs: seq<(string, Result<C, string>)>, perm: seq<nat>): (qs: seq<(string, Result<C, string>)>)
    requires forall k :: 0 <= k < |perm| ==> perm[k] < |rs|
    ensures |qs| == |perm| && forall k :: 0 <= k < |perm| ==> qs[k] == rs[perm[k]]
  {
    seq(|perm|, k requires 0 <= k < |perm| => rs[perm[k]])
  }

  /** The order in which the goroutines finish does not matter when the ids
      are distinct: the results drained in any order collect into the same
      map. */
  lemma {:induction false} CollectOrderFree<C>(rs: seq<(string, Result<C, string>)>, perm: seq<nat>)
    requires forall a, b :: 0 <= a < b < |rs| ==> rs[a].0 != rs[b].0
    requires |perm| == |rs| && (forall k :: 0 <= k < |perm| ==> perm[k] < |rs|)
    requires forall i :: 0 <= i < |rs| ==> i in perm
    ensures Collect(Rearrange(rs, perm)) == Collect(rs)
  {
    var qs := Rearrange(rs, perm);
    CollectFacts(rs);
    CollectFacts(qs);
    forall id ensures id in Collect(qs) <==> id in Collect(rs) {
      if id in Collect(qs) {
        var k :| 0 <= k < |qs| && qs[k].0 == id && qs[k].1.Ok?;
        assert rs[perm[k]] == qs[k];
      }
      if id in Collect(rs) {
        var j :| 0 <= j < |rs| && rs[j].0 == id && rs[j].1.Ok?;
        assert j in perm;
        var k :| 0 <= k < |perm| && perm[k] == j;
        assert qs[k] == rs[j];
      }
    }
    forall id | id in Collect(rs) ensures Collect(qs)[id] == Collect(rs)[id] {
      var k :| 0 <= k < |qs| && qs[k] == (id, Ok(Collect(qs)[id]));
      var j :| 0 <= j < |rs| && rs[j] == (id, Ok(Collect(rs)[id]));
      assert rs[perm[k]].0 == rs[j].0;
      assert perm[k] == j;
    }
  }

  /** With an id listed twice, the drain order decides: the later success wins. */
  lemma {:induction false} DuplicateIdLastWins<C>(id: string, a: C, b: C)
    ensures Collect([(id, Ok(a)), (id, Ok(b))]) == map[id := b]
    ensures Collect([(id, Ok(b)), (id, Ok(a))]) == map[id := a]
  {
    TwoResults(id, a, b);
    TwoResults(id, b, a);
  }

  lemma {:induction false} TwoResults<C>(id: string, a: C, b: C)
    ensures Collect([(id, Ok(a)), (id, Ok(b))]) == map[id := b]
  {
    var rs: seq<(string, Result<C, string>)> := [(id, Ok(a)), (id, Ok(b))];
    var first := rs[..1];
    assert first[..0] == [];
    assert Collect(first[..0]) == map[];
    assert Collect(first) == map[id := a];
    assert Collect(rs) == Collect(first)[id := b];
  }

  /** Account `idx` came up. */
  predicate CameUp<C>(accs: seq<Cookie.Account>, init: (map<string, string>, nat) -> Result<C, string>, idx: nat)
    requires idx < |accs|
  {
    InitAccount(init, CookieMap(accs[idx])).Ok?
  }

  /** The outcome of each account at positions `toInit`, with its id. */
  function InitResults<C>(accs: seq<Cookie.Account>, ids: seq<string>, toInit: seq<nat>,
                          init: (map<string, string>, nat) -> Result<C, string>): (rs: seq<(string, Result<C, string>)>)
    requires |accs| == |ids|
    requires forall k :: 0 <= k < |toInit| ==> toInit[k] < |ids|
    ensures |rs| == |toInit|
  {
    seq(|toInit|, k requires 0 <= k < |toInit| => (ids[toInit[k]], InitAccount(init, CookieMap(accs[toInit[k]]))))
  }

  /** `changedAccounts`: the clients of the accounts at positions `toInit`
      whose initialisation succeeded, keyed by account id. */
  function Changes<C>(accs: seq<Cookie.Account>, ids: seq<string>, toInit: seq<nat>,
                      init: (map<string, string>, nat) -> Result<C, string>): map<string, C>
    requires |accs| == |ids|
    requires forall k :: 0 <= k < |toInit| ==> toInit[k] < |ids|
  {
    Collect(InitResults(accs, ids, toInit, init))
  }

  /** With distinct ids, an account to initialise is in the map exactly when it
      came up, and then with its own client. */
  lemma {:induction false} ChangedClient<C>(accs: seq<Cookie.Account>, ids: seq<string>, toInit: seq<nat>,
                                            init: (map<string, string>, nat) -> Result<C, string>, k: nat)
    requires |accs| == |ids|
    requires forall j :: 0 <= j < |toInit| ==> toInit[j] < |ids|
    requires forall a, b :: 0 <= a < b < |ids| ==> ids[a] != ids[b]
    requires forall a, b :: 0 <= a < b < |toInit| ==> toInit[a] != toInit[b]
    requires k < |toInit|
    ensures ids[toInit[k]] in Changes(accs, ids, toInit, init) <==> CameUp(accs, init, toInit[k])
    ensures CameUp(accs, init, toInit[k])
            ==> InitAccount(init, CookieMap(accs[toInit[k]])) == Ok(Changes(accs, ids, toInit, init)[ids[toInit[k]]])
  {
    var rs := InitResults(accs, ids, toInit, init);
    CollectFacts(rs);
    var id := ids[toInit[k]];
    if id in Collect(rs) {
      var k' :| 0 <= k' < |rs| && rs[k'] == (id, Ok(Collect(rs)[id]));
      assert ids[toInit[k']] == ids[toInit[k]];
      assert k' == k;
    } else {
      assert rs[k].0 == id;
    }
  }

  // ---------------------------------------------------------------------------
  // One pass

  /** What a pass leaves behind: the remembered hashes, and the arguments of
      `ReplaceAccounts` when it is called. */
  datatype Outcome<C> = Outcome(hashes: map<string, string>, replaced: Option<(seq<string>, map<string, C>)>)

  /** `loadAccountsAsync`: `loaded` is what `LoadMultiCookies` returned, `before`
      the hashes of the previous pass. */
  function LoadPass<C>(loaded: Result<(seq<Cookie.Account>, seq<string>), string>, before: map<string, string>,
                       init: (map<string, string>, nat) -> Result<C, string>): (o: Outcome<C>)
    requires loaded.Ok? ==> |loaded.value.0| == |loaded.value.1|
    ensures loaded.Err? ==> o == Outcome(before, None)
    ensures o.replaced.None? ==> o.hashes == before
    ensures o.replaced.Some? ==> loaded.Ok? && o.replaced.value.0 == loaded.value.1
                                 && o.hashes == NewHashes(loaded.value.0, loaded.value.1)
  {
    match loaded
    case Err(_) => Outcome(before, None)
    case Ok((accs, ids)) =>
      var after := NewHashes(accs, ids);
      var toInit := ToInit(ids, before, after);
      if |toInit| == 0 then Outcome(before, None)
      else
        ToInitFacts(ids, before, after);
        Outcome(after, Some((ids, Changes(accs, ids, toInit, init))))
  }

  /** A pass calls `ReplaceAccounts` exactly when some loaded account is new or
      changed; otherwise it leaves the hashes alone. */
  lemma {:induction false} PassReplacesIffChanged<C>(accs: seq<Cookie.Account>, ids: seq<string>, before: map<string, string>,
                                                     init: (map<string, string>, nat) -> Result<C, string>)
    requires |accs| == |ids|
    ensures LoadPass(Ok((accs, ids)), before, init).replaced.Some?
            <==> exists i :: 0 <= i < |ids| && Changed(before, NewHashes(accs, ids), ids[i])
  {
    var after := NewHashes(accs, ids);
    ToInitFacts(ids, before, after);
    var toInit := ToInit(ids, before, after);
    if |toInit| > 0 {
      assert toInit[0] in toInit;
    }
  }

  /** After a pass with changes, the stored hashes are the new ones for every
      loaded account, whether or not its client came up. */
  lemma {:induction false} PassStoresEveryHash<C>(accs: seq<Cookie.Account>, ids: seq<string>, before: map<string, string>,
                                                  init: (map<string, string>, nat) -> Result<C, string>, i: nat)
    requires |accs| == |ids| && i < |ids| && LastOf(ids, i)
    requires LoadPass(Ok((accs, ids)), before, init).replaced.Some?
    ensures ids[i] in LoadPass(Ok((accs, ids)), before, init).hashes
    ensures LoadPass(Ok((accs, ids)), before, init).hashes[ids[i]] == AccountHash(accs[i])
  {
    NewHashesFacts(accs, ids);
  }

  /** A changed account that came up has its id collected. */
  lemma {:induction false} ChangedUpCollected<C>(accs: seq<Cookie.Account>, ids: seq<string>, before: map<string, string>,
                                                 after: map<string, string>, init: (map<string, string>, nat) -> Result<C, string>, i: nat)
    requires |accs| == |ids| && i < |ids|
    requires forall k :: 0 <= k < |ToInit(ids, before, after)| ==> ToInit(ids, before, after)[k] < |ids|
    requires Changed(before, after, ids[i]) && CameUp(accs, init, i)
    ensures ids[i] in Changes(accs, ids, ToInit(ids, before, after), init)
  {
    ToInitFacts(ids, before, after);
    var toInit := ToInit(ids, before, after);
    var rs := InitResults(accs, ids, toInit, init);
    CollectFacts(rs);
    assert i in toInit;
    var k :| 0 <= k < |toInit| && toInit[k] == i;
    assert rs[k].0 == ids[i] && rs[k].1.Ok?;
  }

  /** A collected id belongs to a changed account that came up. */
  lemma {:induction false} CollectedChangedUp<C>(accs: seq<Cookie.Account>, ids: seq<string>, before: map<string, string>,
                                                 after: map<string, string>, init: (map<string, string>, nat) -> Result<C, string>, id: string)
    requires |accs| == |ids|
    requires forall k :: 0 <= k < |ToInit(ids, before, after)| ==> ToInit(ids, before, after)[k] < |ids|
    requires id in Changes(accs, ids, ToInit(ids, before, after), init)
    ensures exists i :: 0 <= i < |ids| && ids[i] == id && Changed(before, after, id) && CameUp(accs, init, i)
  {
    ToInitFacts(ids, before, after);
    var toInit := ToInit(ids, before, after);
    var rs := InitResults(accs, ids, toInit, init);
    CollectFacts(rs);
    var k :| 0 <= k < |rs| && rs[k].0 == id && rs[k].1.Ok?;
    assert toInit[k] in toInit;
  }

  /** The clients collected are exactly those of changed accounts that came up. */
  lemma {:induction false} ChangesAreChangedAndUp<C>(accs: seq<Cookie.Account>, ids: seq<string>, before: map<string, string>,
                                                     after: map<string, string>, init: (map<string, string>, nat) -> Result<C, string>, id: string)
    requires |accs| == |ids|
    requires forall k :: 0 <= k < |ToInit(ids, before, after)| ==> ToInit(ids, before, after)[k] < |ids|
    ensures id in Changes(accs, ids, ToInit(ids, before, after), init)
            <==> exists i :: 0 <= i < |ids| && ids[i] == id && Changed(before, after, id) && CameUp(accs, init, i)
  {
    if id in Changes(accs, ids, ToInit(ids, before, after), init) {
      CollectedChangedUp(accs, ids, before, after, init, id);
    }
    if exists i :: 0 <= i < |ids| && ids[i] == id && Changed(before, after, id) && CameUp(accs, init, i) {
      var i :| 0 <= i < |ids| && ids[i] == id && Changed(before, after, id) && CameUp(accs, init, i);
      ChangedUpCollected(accs, ids, before, after, init, i);
    }
  }

  /** The clients handed over are exactly those of changed accounts that came up. */
  lemma {:induction false} PassHandsOverChanged<C>(accs: seq<Cookie.Account>, ids: seq<string>, before: map<string, string>,
                                                   init: (map<string, string>, nat) -> Result<C, string>, id: string)
    requires |accs| == |ids|
    requires LoadPass(Ok((accs, ids)), before, init).replaced.Some?
    ensures id in LoadPass(Ok((accs, ids)), before, init).replaced.value.1
            <==> exists i :: 0 <= i < |ids| && ids[i] == id && Changed(before, NewHashes(accs, ids), id) && CameUp(accs, init, i)
  {
    var after := NewHashes(accs, ids);
    ToInitFacts(ids, before, after);
    ChangesAreChangedAndUp(accs, ids, before, after, init, id);
  }

  /** Running the same load again right after a pass changes nothing: every
      account now matches its stored hash. */
  lemma {:induction false} SecondPassQuiet<C, D>(accs: seq<Cookie.Account>, ids: seq<string>, before: map<string, string>,
                                                 init: (map<string, string>, nat) -> Result<C, string>,
                                                 again: (map<string, string>, nat) -> Result<D, string>)
    requires |accs| == |ids|
    ensures var first := LoadPass(Ok((accs, ids)), before, init);
            LoadPass(Ok((accs, ids)), first.hashes, again) == Outcome(first.hashes, None)
  {
    var after := NewHashes(accs, ids);
    var first := LoadPass(Ok((accs, ids)), before, init);
    PassReplacesIffChanged(accs, ids, first.hashes, again);
    if first.replaced.Some? {
      NewHashesFacts(accs, ids);
      forall i | 0 <= i < |ids| ensures !Changed(after, after, ids[i]) {
        assert ids[i] in after;
      }
    } else {
      PassReplacesIffChanged(accs, ids, before, init);
    }
  }
}

/** The account pool (internal/balancer/balancer.go), taken sequentially: the
    lock and the atomic cursor become one state record threaded through the
    operations. */
module Pool {
  import opened Wrappers

  /** The cursor is an unsigned 64-bit counter. */
  const Word: nat := 0x1_0000_0000_0000_0000

  datatype Entry<C> = Entry(client: C, accountID: string)

  datatype AccountPool<C> = AccountPool(entries: seq<Entry<C>>, index: nat)
  {
    ghost predicate Valid() {
      index < Word
    }
  }

  function Empty<C>(): (r: AccountPool<C>)
    ensures r.Valid() && |r.entries| == 0
  {
    AccountPool([], 0)
  }

  /** `Clear`: no entries and the cursor back at 0. */
  function Clear<C>(p: AccountPool<C>): (r: AccountPool<C>)
    ensures r.Valid() && r.entries == [] && r.index == 0
  {
    AccountPool([], 0)
  }

  /** `Add`: one entry at the end; everything else as it was. */
  function Add<C>(p: AccountPool<C>, client: C, accountID: string): (r: AccountPool<C>)
    ensures |r.entries| == |p.entries| + 1
    ensures r.entries[..|p.entries|] == p.entries && r.entries[|p.entries|] == Entry(client, accountID)
    ensures r.index == p.index
  {
    AccountPool(p.entries + [Entry(client, accountID)], p.index)
  }

  function Size<C>(p: AccountPool<C>): (n: nat)
    ensures n == |p.entries|
  {
    |p.entries|
  }

  /** `Next`: nothing from an empty pool, which keeps its cursor; otherwise the
      entry under the cursor, and the cursor moves on by one (wrapping at 2^64). */
  function Next<C>(p: AccountPool<C>): (r: (AccountPool<C>, Option<Entry<C>>))
    requires p.Valid()
    ensures r.0.Valid() && r.0.entries == p.entries
    ensures |p.entries| == 0 <==> r.1.None?
    ensures |p.entries| == 0 ==> r.0 == p
    ensures |p.entries| > 0 ==> r.1 == Some(p.entries[p.index % |p.entries|])
                                && r.0.index == (if p.index + 1 == Word then 0 else p.index + 1)
  {
    if |p.entries| == 0 then (p, None)
    else
      var idx := p.index;
      (p.(index := (p.index + 1) % Word), Some(p.entries[idx % |p.entries|]))
  }

  /** The positions `m` consecutive `Next` calls read, and the pool afterwards. */
  function NextRun<C>(p: AccountPool<C>, m: nat): (r: (AccountPool<C>, seq<nat>))
    requires p.Valid() && |p.entries| > 0
    ensures r.0.Valid() && r.0.entries == p.entries && |r.1| == m
    ensures forall t :: 0 <= t < |r.1| ==> r.1[t] < |p.entries|
    decreases m
  {
    if m == 0 then (p, [])
    else
      var pos := p.index % |p.entries|;
      var (p1, _) := Next(p);
      var (fin, rest) := NextRun(p1, m - 1);
      (fin, [pos] + rest)
  }

  // ---------------------------------------------------------------------------
  // Fairness

  /** The position after `c` in a rotation over `n` positions. */
  function Rot(c: nat, n: nat): (r: nat)
    requires c < n
    ensures r < n
  {
    if c + 1 == n then 0 else c + 1
  }

  /** The positions a rotation visits from `c` in `m` steps. */
  function Rotation(c: nat, n: nat, m: nat): (r: seq<nat>)
    requires c < n
    ensures |r| == m
    decreases m
  {
    if m == 0 then [] else [c] + Rotation(Rot(c, n), n, m - 1)
  }

  /** A multiple of `n` strictly between `-n` and `n` is zero. */
  lemma {:induction false} SmallMultiple(d: int, n: nat)
    requires n > 0 && -(n as int) < d * n < n
    ensures d == 0
  {
  }

  /** The remainder is the unique `r` in [0, n) with `x == q * n + r`. */
  lemma {:induction false} ModUnique(x: nat, n: nat, q: int, r: int)
    requires n > 0 && 0 <= r < n && x == q * n + r
    ensures x % n == r
  {
    var q1 := x / n;
    var r1 := x % n;
    assert x == q1 * n + r1;
    assert (q1 - q) * n == r - r1;
    SmallMultiple(q1 - q, n);
  }

  lemma {:induction false} ModSucc(x: nat, n: nat)
    requires n > 0
    ensures (x + 1) % n == Rot(x % n, n)
  {
    var q := x / n;
    var r := x % n;
    assert x == q * n + r;
    if r + 1 == n {
      assert x + 1 == (q + 1) * n + 0;
      ModUnique(x + 1, n, q + 1, 0);
    } else {
      ModUnique(x + 1, n, q, r + 1);
    }
  }

  /** While the 64-bit cursor does not wrap, `Next` walks a rotation over the
      entries starting at the cursor's position. */
  lemma {:induction false} NextRunIsRotation<C>(p: AccountPool<C>, m: nat)
    requires p.Valid() && |p.entries| > 0 && p.index + m <= Word
    ensures NextRun(p, m).1 == Rotation(p.index % |p.entries|, |p.entries|, m)
    decreases m
  {
    if m > 0 {
      var p1 := Next(p).0;
      assert p1.index == p.index + 1 || m == 1;
      if m > 1 {
        NextRunIsRotation(p1, m - 1);
        ModSucc(p.index, |p.entries|);
      }
    }
  }

  function Count(s: seq<nat>, e: nat): nat
    decreases |s|
  {
    if |s| == 0 then 0 else (if s[0] == e then 1 else 0) + Count(s[1..], e)
  }

  /** The number of steps from `c` until the rotation reaches `e`. */
  function Dist(c: nat, e: nat, n: nat): (d: nat)
    requires c < n && e < n
    ensures d < n
  {
    if e >= c then e - c else e + n - c
  }

  /** Within one lap a rotation reaches `e` once if the lap is long enough, else not at all. */
  lemma {:induction false} PartialLap(c: nat, e: nat, n: nat, m: nat)
    requires c < n && e < n && m <= n
    ensures Count(Rotation(c, n, m), e) == (if Dist(c, e, n) < m then 1 else 0)
    decreases m
  {
    if m > 0 {
      PartialLap(Rot(c, n), e, n, m - 1);
      assert Rotation(c, n, m)[1..] == Rotation(Rot(c, n), n, m - 1);
    }
  }

  lemma {:induction false} RotationSplit(c: nat, n: nat, a: nat, b: nat)
    requires c < n
    ensures Rotation(c, n, a + b) == Rotation(c, n, a) + Rotation(Jump(c, n, a), n, b)
    decreases a
  {
    if a > 0 {
      RotationSplit(Rot(c, n), n, a - 1, b);
      assert a + b - 1 == (a - 1) + b;
    }
  }

  /** Where a rotation from `c` stands after `a` steps. */
  function Jump(c: nat, n: nat, a: nat): (r: nat)
    requires c < n
    ensures r < n
    decreases a
  {
    if a == 0 then c else Jump(Rot(c, n), n, a - 1)
  }

  lemma {:induction false} JumpLap(c: nat, n: nat, a: nat)
    requires c < n && a <= n
    ensures Jump(c, n, a) == (if c + a < n then c + a else c + a - n)
    decreases a
  {
    if a > 0 {
      JumpLap(Rot(c, n), n, a - 1);
    }
  }

  lemma {:induction false} CountAppend(s: seq<nat>, t: seq<nat>, e: nat)
    ensures Count(s + t, e) == Count(s, e) + Count(t, e)
    decreases |s|
  {
    if |s| == 0 {
      assert s + t == t;
    } else {
      assert (s + t)[0] == s[0];
      assert (s + t)[1..] == s[1..] + t;
      CountAppend(s[1..], t, e);
    }
  }

  /** Over `q` full laps and `r` more steps every position is visited `q` or
      `q + 1` times: the floor or the ceiling of the number of steps over the
      number of entries. */
  lemma {:induction false} RotationFair(c: nat, e: nat, n: nat, q: nat, r: nat)
    requires c < n && e < n && r < n
    ensures Count(Rotation(c, n, q * n + r), e) == q + (if Dist(c, e, n) < r then 1 else 0)
    decreases q
  {
    if q == 0 {
      PartialLap(c, e, n, r);
    } else {
      assert q * n + r == n + ((q - 1) * n + r);
      RotationSplit(c, n, n, (q - 1) * n + r);
      JumpLap(c, n, n);
      PartialLap(c, e, n, n);
      RotationFair(c, e, n, q - 1, r);
      CountAppend(Rotation(c, n, n), Rotation(c, n, (q - 1) * n + r), e);
    }
  }

  /** `m` consecutive `Next` calls that do not wrap the cursor choose each entry
      position ⌊m/n⌋ or ⌈m/n⌉ times; `n` consecutive calls choose each exactly once. */
  lemma {:induction false} NextIsFair<C>(p: AccountPool<C>, q: nat, r: nat, e: nat)
    requires p.Valid() && |p.entries| > 0 && r < |p.entries| && e < |p.entries|
    requires p.index + q * |p.entries| + r <= Word
    ensures var c := Count(NextRun(p, q * |p.entries| + r).1, e);
            c == q || (r > 0 && c == q + 1)
    ensures r == 0 ==> Count(NextRun(p, q * |p.entries|).1, e) == q
  {
    FairRun(p, q, r, e, q * |p.entries| + r);
    if r == 0 {
      FairRun(p, q, 0, e, q * |p.entries|);
    }
  }

  lemma {:induction false} FairRun<C>(p: AccountPool<C>, q: nat, r: nat, e: nat, m: nat)
    requires p.Valid() && |p.entries| > 0 && r < |p.entries| && e < |p.entries|
    requires m == q * |p.entries| + r && p.index + m <= Word
    ensures Count(NextRun(p, m).1, e) == q + (if Dist(p.index % |p.entries|, e, |p.entries|) < r then 1 else 0)
  {
    NextRunIsRotation(p, m);
    RotationFair(p.index % |p.entries|, e, |p.entries|, q, r);
  }

  /** Fairness needs the no-wrap bound: with three entries, the call at the last
      cursor value and the one after the wrap both choose position 0. */
  lemma {:induction false} WrapRepeatsPosition<C>(p: AccountPool<C>)
    requires |p.entries| == 3 && p.index == Word - 1
    ensures NextRun(p, 2).1 == [0, 0]
  {
    assert (Word - 1) % 3 == 0;
  }
}

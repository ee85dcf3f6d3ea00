/** Sequences read or written element by element. */
module Seqs {
  /** `f` applied to each element of `s`, in order. */
  function Map<A, B>(f: A -> B, s: seq<A>): (r: seq<B>)
    ensures |r| == |s| && forall i :: 0 <= i < |s| ==> r[i] == f(s[i])
  {
    seq(|s|, i requires 0 <= i < |s| => f(s[i]))
  }

  /** Mapping distributes over concatenation. */
  lemma {:induction false} MapAppend<A, B>(f: A -> B, x: seq<A>, y: seq<A>)
    ensures Map(f, x + y) == Map(f, x) + Map(f, y)
  {
    var l := Map(f, x + y);
    var r := Map(f, x) + Map(f, y);
    forall i | 0 <= i < |l| ensures l[i] == r[i] {
      if i < |x| {
        assert (x + y)[i] == x[i];
      } else {
        assert (x + y)[i] == y[i - |x|];
      }
    }
  }

  lemma {:induction false} MapOne<A, B>(f: A -> B, a: A)
    ensures Map(f, [a]) == [f(a)]
  {
  }

  /** A relation that holds position by position survives putting one more related pair in front. */
  lemma {:induction false} ZipCons<A, B>(p: (A, B) -> bool, x: A, y: B, xs: seq<A>, ys: seq<B>)
    requires p(x, y) && |xs| == |ys|
    requires forall j :: 0 <= j < |xs| ==> p(xs[j], ys[j])
    ensures forall j :: 0 <= j < |[x] + xs| ==> p(([x] + xs)[j], ([y] + ys)[j])
  {
    forall j | 0 < j < |[x] + xs|
      ensures p(([x] + xs)[j], ([y] + ys)[j])
    {
      assert ([x] + xs)[j] == xs[j - 1] && ([y] + ys)[j] == ys[j - 1];
    }
  }

  /** The elements of `s` that `keep` accepts, in order. */
  function Filter<A>(keep: A -> bool, s: seq<A>): (r: seq<A>)
    ensures |r| <= |s|
    ensures forall k :: 0 <= k < |r| ==> keep(r[k]) && r[k] in s
    decreases |s|
  {
    if |s| == 0 then []
    else
      var rest := Filter(keep, s[1..]);
      assert forall x :: x in s[1..] ==> x in s;
      if keep(s[0]) then [s[0]] + rest else rest
  }

  /** Every accepted element survives the filter. */
  lemma {:induction false} FilterKeeps<A>(keep: A -> bool, s: seq<A>, k: nat)
    requires k < |s| && keep(s[k])
    ensures s[k] in Filter(keep, s)
    decreases |s|
  {
    if k > 0 {
      assert s[1..][k - 1] == s[k];
      FilterKeeps(keep, s[1..], k - 1);
    }
  }

  /** Filtering a sequence one element longer at the end. */
  lemma {:induction false} FilterSnoc<A>(keep: A -> bool, s: seq<A>, x: A)
    ensures Filter(keep, s + [x]) == Filter(keep, s) + (if keep(x) then [x] else [])
    decreases |s|
  {
    if |s| > 0 {
      assert (s + [x])[1..] == s[1..] + [x];
      FilterSnoc(keep, s[1..], x);
    } else {
      assert s + [x] == [x];
    }
  }

  /** `r` lays out two elements per element of `s`: those `f` gives it. */
  predicate PairsOf<A, B(==)>(f: A -> seq<B>, s: seq<A>, r: seq<B>) {
    |r| == 2 * |s|
    && forall i :: 0 <= i < |s| ==> |f(s[i])| == 2 && r[2 * i] == f(s[i])[0] && r[2 * i + 1] == f(s[i])[1]
  }

  /** Laying out one more element in front. */
  lemma {:induction false} PairsCons<A, B>(f: A -> seq<B>, s: seq<A>, r: seq<B>)
    requires |s| > 0 && |f(s[0])| == 2 && PairsOf(f, s[1..], r)
    ensures PairsOf(f, s, f(s[0]) + r)
  {
    var t := f(s[0]) + r;
    forall i | 0 <= i < |s| ensures |f(s[i])| == 2 && t[2 * i] == f(s[i])[0] && t[2 * i + 1] == f(s[i])[1] {
      if i > 0 {
        assert s[i] == s[1..][i - 1];
        assert t[2 * i] == r[2 * (i - 1)] && t[2 * i + 1] == r[2 * (i - 1) + 1];
      }
    }
  }
}

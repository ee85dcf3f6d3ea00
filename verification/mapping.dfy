/** The `MODEL_MAPPING` table (internal/config/mapping.go): a comma-separated
    list of `source:target` pairs that renames the models clients ask for. The
    environment variable is a parameter. */
module Mapping {
  import opened Wrappers
  import opened Text
  import opened EnvFile
  import Seqs

  /** How one comma-separated piece is read: trimmed; a blank piece, one
      without `:`, or one with an empty side defines nothing; otherwise the
      trimmed text before the first `:` maps to the trimmed text after it. */
  function PairEntry(piece: string): (r: Option<(string, string)>)
    ensures r.Some? ==> r.value.0 != "" && r.value.1 != "" && Trimmed(r.value.0) && Trimmed(r.value.1)
  {
    var t := TrimSpace(piece);
    if t == "" then None
    else
      match Cut(t, ':')
      case None => None
      case Some(p) =>
        var source := TrimSpace(p.0);
        var target := TrimSpace(p.1);
        if source != "" && target != "" then Some((source, target)) else None
  }

  function PairEntries(pieces: seq<string>): (r: seq<Option<(string, string)>>)
    ensures |r| == |pieces| && forall i :: 0 <= i < |pieces| ==> r[i] == PairEntry(pieces[i])
  {
    Seqs.Map(PairEntry, pieces)
  }

  /** `LoadModelMapping`: the table the environment string describes, a later
      pair overriding an earlier one with the same source. */
  function LoadModelMapping(s: string): (m: map<string, string>)
    ensures s == "" ==> m == map[]
  {
    if s == "" then map[] else ToMap(PairEntries(Split(s, ',')))
  }

  /** `MapModel`: the mapped target, or the model itself when it is not mapped. */
  function MapModel(m: map<string, string>, model: string): string {
    if model in m then m[model] else model
  }

  /** Every source and target of the table is non-empty and trimmed; a source
      holds no `:` and neither side holds a `,`. */
  lemma {:induction false} MappingWellFormed(s: string, k: string)
    requires k in LoadModelMapping(s)
    ensures var m := LoadModelMapping(s);
            k != "" && m[k] != "" && Trimmed(k) && Trimmed(m[k])
    ensures var m := LoadModelMapping(s);
            ':' !in k && ',' !in k && ',' !in m[k]
  {
    var pieces := Split(s, ',');
    var es := PairEntries(pieces);
    ToMapValue(es, k);
    var i :| 0 <= i < |es| && Defines(es[i], k) && ToMap(es)[k] == es[i].value.1;
    PairEntryChars(pieces[i]);
  }

  /** A read pair's source holds no `:`, and both sides come from the piece. */
  lemma {:induction false} PairEntryChars(piece: string)
    requires PairEntry(piece).Some?
    ensures var e := PairEntry(piece).value;
            ':' !in e.0 && forall c :: c in e.0 || c in e.1 ==> c in piece
  {
    var t := TrimSpace(piece);
    TrimSpaceInside(piece);
    var p := Cut(t, ':').value;
    PiecesOfCut(p.0, p.1, t);
    TrimSpaceInside(p.0);
    TrimSpaceInside(p.1);
  }

  lemma {:induction false} PiecesOfCut(a: string, b: string, t: string)
    requires a + ":" + b == t
    ensures forall c :: c in a || c in b ==> c in t
  {
    forall c | c in a || c in b ensures c in t {
      if c in a {
        var i :| 0 <= i < |a| && a[i] == c;
        assert t[i] == c;
      } else {
        var i :| 0 <= i < |b| && b[i] == c;
        assert t[|a| + 1 + i] == c;
      }
    }
  }

  // ---------------------------------------------------------------------------
  // Writing a table down and reading it back

  /** A pair that a `MODEL_MAPPING` string can express. */
  predicate PairOk(p: (string, string)) {
    p.0 != "" && p.1 != "" && Trimmed(p.0) && Trimmed(p.1)
    && ':' !in p.0 && ',' !in p.0 && ',' !in p.1
  }

  function PairText(p: (string, string)): string {
    p.0 + ":" + p.1
  }

  function Texts(pairs: seq<(string, string)>): (r: seq<string>)
    ensures |r| == |pairs| && forall i :: 0 <= i < |pairs| ==> r[i] == PairText(pairs[i])
  {
    seq(|pairs|, i requires 0 <= i < |pairs| => PairText(pairs[i]))
  }

  /** The `MODEL_MAPPING` string listing `pairs` in order. */
  function Format(pairs: seq<(string, string)>): string {
    Join(Texts(pairs), ",")
  }

  function Defs(pairs: seq<(string, string)>): (r: seq<Option<(string, string)>>)
    ensures |r| == |pairs| && forall i :: 0 <= i < |pairs| ==> r[i] == Some(pairs[i])
  {
    seq(|pairs|, i requires 0 <= i < |pairs| => Some(pairs[i]))
  }

  /** A written pair reads back as itself. */
  lemma {:induction false} PairRoundTrip(p: (string, string))
    requires PairOk(p)
    ensures PairEntry(PairText(p)) == Some(p)
    ensures ',' !in PairText(p)
  {
    var t := PairText(p);
    assert t[0] == p.0[0] && t[|t| - 1] == p.1[|p.1| - 1];
    TrimSpaceTrimmed(t);
    CutAt(p.0, ':', p.1);
    TrimSpaceTrimmed(p.0);
    TrimSpaceTrimmed(p.1);
    forall m | 0 <= m < |t| ensures t[m] != ',' {
      if m < |p.0| { assert t[m] == p.0[m]; }
      else if m > |p.0| { assert t[m] == p.1[m - |p.0| - 1]; }
    }
  }

  /** Reading a written list of pairs gives the table a loop assigning the
      pairs in order leaves behind. */
  lemma {:induction false} FormatRoundTrip(pairs: seq<(string, string)>)
    requires forall i :: 0 <= i < |pairs| ==> PairOk(pairs[i])
    ensures LoadModelMapping(Format(pairs)) == ToMap(Defs(pairs))
  {
    if |pairs| > 0 {
      var texts := Texts(pairs);
      forall i | 0 <= i < |texts| ensures ',' !in texts[i] && PairEntry(texts[i]) == Some(pairs[i]) {
        PairRoundTrip(pairs[i]);
      }
      SplitJoin(texts, ',');
      assert |Join(texts, ",")| >= |texts[0]| > 0;
      var es := PairEntries(texts);
      assert es == Defs(pairs);
      var f := Format(pairs);
      assert f == Join(texts, ",") && f != "";
      assert Split(f, ',') == texts;
      LoadPieces(f);
    } else {
      assert Format(pairs) == "";
      assert Defs(pairs) == [];
    }
  }

  lemma {:induction false} LoadPieces(s: string)
    requires s != ""
    ensures LoadModelMapping(s) == ToMap(PairEntries(Split(s, ',')))
  {
  }

  /** A later pair overrides an earlier one: the model maps to the target of
      the last pair naming it. */
  lemma {:induction false} LastPairWins(pairs: seq<(string, string)>, i: nat)
    requires forall j :: 0 <= j < |pairs| ==> PairOk(pairs[j])
    requires i < |pairs| && forall j :: i < j < |pairs| ==> pairs[j].0 != pairs[i].0
    ensures MapModel(LoadModelMapping(Format(pairs)), pairs[i].0) == pairs[i].1
  {
    FormatRoundTrip(pairs);
    ToMapLast(Defs(pairs), i, pairs[i].0);
  }

  /** A model no pair names passes through unchanged. */
  lemma {:induction false} UnmappedPassesThrough(pairs: seq<(string, string)>, model: string)
    requires forall j :: 0 <= j < |pairs| ==> PairOk(pairs[j])
    requires forall j :: 0 <= j < |pairs| ==> pairs[j].0 != model
    ensures MapModel(LoadModelMapping(Format(pairs)), model) == model
  {
    FormatRoundTrip(pairs);
    var es := Defs(pairs);
    assert !Defined(es, model);
  }

  /** Blank pieces, pieces without `:` and pieces with an empty side are
      skipped: inserting such a piece anywhere changes nothing. */
  lemma {:induction false} SkippedPieceChangesNothing(pieces: seq<string>, i: nat, junk: string)
    requires i <= |pieces| && PairEntry(junk).None?
    ensures ToMap(PairEntries(pieces[..i] + [junk] + pieces[i..])) == ToMap(PairEntries(pieces))
  {
    var x := pieces[..i];
    var y := pieces[i..];
    EntriesAround(x, y, junk);
    assert x + y == pieces;
    ToMapSkip(PairEntries(x), PairEntries(y));
  }

  lemma {:induction false} EntriesAround(x: seq<string>, y: seq<string>, junk: string)
    requires PairEntry(junk).None?
    ensures PairEntries(x + [junk] + y) == PairEntries(x) + [None] + PairEntries(y)
    ensures PairEntries(x + y) == PairEntries(x) + PairEntries(y)
  {
    Seqs.MapAppend(PairEntry, x + [junk], y);
    Seqs.MapAppend(PairEntry, x, [junk]);
    Seqs.MapOne(PairEntry, junk);
    Seqs.MapAppend(PairEntry, x, y);
  }
}

/** Decoding the upstream's streamed answer (internal/adapter/handler.go):
    each line is an XSSI-guarded JSON array whose parts carry, at index 2, a
    second JSON document encoded as a string; its element 4 lists the
    candidates, whose text and thoughts grow frame by frame. */
module GeminiDecode {
  import opened Wrappers
  import opened Json
  import JsonText
  import Text
  import Cleanup

  // ---------------------------------------------------------------------------
  // Lines and parts

  function DropCR(line: string): string {
    if |line| > 0 && line[|line| - 1] == '\r' then line[..|line| - 1] else line
  }

  /** `bufio.Scanner` with `ScanLines`: pieces between newlines, a trailing
      carriage return dropped from each, and no empty token after a final newline. */
  function ScanLines(body: string): (r: seq<string>)
    ensures forall k :: 0 <= k < |r| ==> '\n' !in r[k]
  {
    var pieces := Text.Split(body, '\n');
    var kept := if pieces[|pieces| - 1] == "" then pieces[..|pieces| - 1] else pieces;
    seq(|kept|, k requires 0 <= k < |kept| => DropCR(kept[k]))
  }

  const XssiPrefix: string := ")]}'"

  /** A line with the XSSI guard removed and surrounding blanks trimmed. */
  function NormalizeLine(line: string): string {
    Text.TrimSpace(Text.TrimPrefix(line, XssiPrefix))
  }

  /** The parts of one line: the elements of its outer array, or none for a
      blank line or one that is not a JSON array. */
  function LineParts(line: string): (r: seq<Json>)
    ensures |r| > 0 ==> JsonText.Parse(NormalizeLine(line)) == Some(JArr(r))
    ensures forall es :: JsonText.Parse(NormalizeLine(line)) == Some(JArr(es)) ==> r == es
  {
    var t := NormalizeLine(line);
    if t == "" then []
    else
      match JsonText.Parse(t)
      case Some(JArr(es)) => es
      case _ => []
  }

  /** All parts of all lines, in order. */
  function AllParts(lines: seq<string>): seq<Json>
    decreases |lines|
  {
    if |lines| == 0 then [] else LineParts(lines[0]) + AllParts(lines[1..])
  }

  /** `part.Get("2").String()`: the inner payload text of a part. */
  function PartData(part: Json): string {
    GjsonString(Get(part, ["2"]))
  }

  /** The inner payload of a part, when its text is non-empty and parses. */
  function PartInner(part: Json): (r: Option<Json>)
    ensures r.Some? ==> PartData(part) != ""
  {
    var d := PartData(part);
    if d == "" then None else JsonText.Parse(d)
  }

  /** The candidate list `inner.Get("4")` of a part, when it is an array. */
  function PartCandidates(part: Json): seq<Json> {
    var c := GetOpt(PartInner(part), ["4"]);
    if IsArray(c) then c.value.elems else []
  }

  function CandidatesOf(parts: seq<Json>): seq<Json>
    decreases |parts|
  {
    if |parts| == 0 then [] else PartCandidates(parts[0]) + CandidatesOf(parts[1..])
  }

  /** `candidate.Get("1.0").String()`. */
  function RawText(cand: Json): string {
    GjsonString(Get(cand, ["1", "0"]))
  }

  /** `candidate.Get("37.0.0").String()`. */
  function RawThoughts(cand: Json): string {
    GjsonString(Get(cand, ["37", "0", "0"]))
  }

  // ---------------------------------------------------------------------------
  // Deltas

  /** One tracker for the whole response, shared by every candidate of every line. */
  datatype Tracker = Tracker(lastText: string, lastThoughts: string)

  /** The suffix of `raw` past the remembered length, and the new memory. The
      source's second branch (memory empty, `raw` non-empty) is subsumed by the
      first, so a delta exists exactly when `raw` is longer. */
  function Advance(last: string, raw: string): (r: (string, string))
    ensures |raw| > |last| ==> r == (raw[|last|..], raw)
    ensures |raw| <= |last| ==> r == ("", last)
  {
    if |raw| > |last| then (raw[|last|..], raw)
    else if |last| == 0 && |raw| > 0 then (raw, raw)
    else ("", last)
  }

  /** The raw text and thoughts one candidate carries in one frame. */
  datatype Frame = Frame(text: string, thoughts: string)

  /** The growth of text and thoughts one candidate contributes: the same two
      strings as a frame, holding only what is new. */
  type Step = Frame

  function FrameOf(cand: Json): Frame {
    Frame(RawText(cand), RawThoughts(cand))
  }

  function FramesOf(cands: seq<Json>): (r: seq<Frame>)
    ensures |r| == |cands|
  {
    seq(|cands|, k requires 0 <= k < |cands| => FrameOf(cands[k]))
  }

  function CandidateStep(tr: Tracker, f: Frame): (Tracker, Step) {
    var (dt, mt) := Advance(tr.lastText, f.text);
    var (dh, mh) := Advance(tr.lastThoughts, f.thoughts);
    (Tracker(mt, mh), Frame(dt, dh))
  }

  function Steps(tr: Tracker, frames: seq<Frame>): (r: (Tracker, seq<Step>))
    ensures |r.1| == |frames|
    decreases |frames|
  {
    if |frames| == 0 then (tr, [])
    else
      var (tr1, st) := CandidateStep(tr, frames[0]);
      var (fin, rest) := Steps(tr1, frames[1..]);
      (fin, [st] + rest)
  }

  /** A single tracker fed a sequence of frames: final memory and the deltas. */
  function AdvanceAll(last: string, raws: seq<string>): (r: (string, seq<string>))
    ensures |r.1| == |raws|
    decreases |raws|
  {
    if |raws| == 0 then (last, [])
    else
      var (d, m) := Advance(last, raws[0]);
      var (fin, ds) := AdvanceAll(m, raws[1..]);
      (fin, [d] + ds)
  }

  function Concat(ss: seq<string>): string
    decreases |ss|
  {
    if |ss| == 0 then "" else ss[0] + Concat(ss[1..])
  }

  function TextsOf(frames: seq<Frame>): (r: seq<string>)
    ensures |r| == |frames|
  {
    seq(|frames|, k requires 0 <= k < |frames| => frames[k].text)
  }

  function ThoughtsOf(frames: seq<Frame>): (r: seq<string>)
    ensures |r| == |frames|
  {
    seq(|frames|, k requires 0 <= k < |frames| => frames[k].thoughts)
  }

  /** Text and thoughts are tracked independently: each column of the steps is
      what a lone tracker fed only that column's frames would produce. */
  lemma {:induction false} StepsAreTwoTrackers(tr: Tracker, frames: seq<Frame>)
    ensures AdvanceAll(tr.lastText, TextsOf(frames)) == (Steps(tr, frames).0.lastText, TextsOf(Steps(tr, frames).1))
    ensures AdvanceAll(tr.lastThoughts, ThoughtsOf(frames)) == (Steps(tr, frames).0.lastThoughts, ThoughtsOf(Steps(tr, frames).1))
    decreases |frames|
  {
    if |frames| > 0 {
      var (tr1, st) := CandidateStep(tr, frames[0]);
      StepsAreTwoTrackers(tr1, frames[1..]);
      assert TextsOf(frames)[1..] == TextsOf(frames[1..]);
      assert ThoughtsOf(frames)[1..] == ThoughtsOf(frames[1..]);
      var (fin, rest) := Steps(tr1, frames[1..]);
      assert TextsOf([st] + rest) == [st.text] + TextsOf(rest);
      assert ThoughtsOf([st] + rest) == [st.thoughts] + ThoughtsOf(rest);
    }
  }

  /** `a` is a prefix of `b`. */
  predicate Extends(a: string, b: string) {
    |a| <= |b| && b[..|a|] == a
  }

  /** Every frame extends the one before it (the first extends `last`). */
  predicate Chained(last: string, raws: seq<string>) {
    (|raws| > 0 ==> Extends(last, raws[0])) &&
    forall k :: 1 <= k < |raws| ==> Extends(raws[k - 1], raws[k])
  }

  /** When frames only grow, the deltas put together rebuild the last frame. */
  lemma {:induction false} ChainedDeltasRebuildFrame(last: string, raws: seq<string>)
    requires Chained(last, raws)
    ensures AdvanceAll(last, raws).0 == (if |raws| == 0 then last else raws[|raws| - 1])
    ensures last + Concat(AdvanceAll(last, raws).1) == AdvanceAll(last, raws).0
    decreases |raws|
  {
    if |raws| > 0 {
      var raw := raws[0];
      var tail := raws[1..];
      var d := AdvanceExtends(last, raw);
      ChainedTail(last, raws);
      ChainedDeltasRebuildFrame(raw, tail);
      var (fin, ds) := AdvanceAll(raw, tail);
      AdvanceAllStep(last, raws, d, fin, ds);
      Assoc(last, d, Concat(ds));
      LastOfTail(raws);
    }
  }

  /** A frame that extends the last one yields the new part and becomes the last one. */
  lemma {:induction false} AdvanceExtends(last: string, raw: string) returns (d: string)
    requires Extends(last, raw)
    ensures Advance(last, raw) == (d, raw) && last + d == raw
  {
    if |raw| > |last| {
      d := raw[|last|..];
      assert raw == raw[..|last|] + raw[|last|..];
    } else {
      d := "";
      assert raw == last;
    }
  }

  lemma {:induction false} ChainedTail(last: string, raws: seq<string>)
    requires Chained(last, raws) && |raws| > 0
    ensures Chained(raws[0], raws[1..])
  {
    var tail := raws[1..];
    forall k | 1 <= k < |tail| ensures Extends(tail[k - 1], tail[k]) {
      assert tail[k - 1] == raws[k] && tail[k] == raws[k + 1];
    }
    if |tail| > 0 {
      assert Extends(raws[0], raws[1]);
    }
  }

  lemma {:induction false} AdvanceAllStep(last: string, raws: seq<string>, d: string, fin: string, ds: seq<string>)
    requires |raws| > 0 && Advance(last, raws[0]) == (d, raws[0]) && AdvanceAll(raws[0], raws[1..]) == (fin, ds)
    ensures AdvanceAll(last, raws) == (fin, [d] + ds)
    ensures Concat([d] + ds) == d + Concat(ds)
  {
    assert ([d] + ds)[1..] == ds;
  }

  lemma {:induction false} Assoc(a: string, b: string, c: string)
    ensures a + (b + c) == a + b + c
  {
  }

  lemma {:induction false} LastOfTail(raws: seq<string>)
    requires |raws| > 0
    ensures |raws[1..]| > 0 ==> raws[1..][|raws[1..]| - 1] == raws[|raws| - 1]
  {
  }

  /** Presenting the same candidate twice in a row yields nothing the second time. */
  lemma {:induction false} RepeatedFrameIsSilent(tr: Tracker, f: Frame)
    ensures var tr1 := CandidateStep(tr, f).0;
            CandidateStep(tr1, f) == (tr1, Frame("", ""))
  {
  }

  /** The tracker is shared across candidates: after a longer text from one
      candidate, a second candidate whose text is not longer contributes no text. */
  lemma {:induction false} SharedTrackerHidesShorterCandidate(tr: Tracker, a: Frame, b: Frame)
    requires |a.text| > |tr.lastText| && |b.text| <= |a.text|
    ensures CandidateStep(CandidateStep(tr, a).0, b).1.text == ""
  {
  }

  // ---------------------------------------------------------------------------
  // Chunks

  /** The text cleanup, in the streaming order: unescape, then drop placeholders. */
  function Clean(s: string): string {
    Cleanup.FilterImagePlaceholders(Cleanup.UnescapeMarkdown(s))
  }

  datatype Chunk = Chunk(text: string, thought: string)

  /** What `onChunk` receives for a step: only the text is cleaned, and a chunk
      is delivered only when something is left. */
  function ChunkOf(st: Step): (r: Option<Chunk>)
    ensures r.Some? <==> Clean(st.text) != "" || st.thoughts != ""
    ensures r.Some? ==> r.value == Chunk(Clean(st.text), st.thoughts)
  {
    if st.text == "" && st.thoughts == "" then None
    else
      var t := Clean(st.text);
      if t != "" || st.thoughts != "" then Some(Chunk(t, st.thoughts)) else None
  }

  function Emitted(steps: seq<Step>): (r: seq<Chunk>)
    ensures |r| <= |steps|
    ensures forall k :: 0 <= k < |r| ==> r[k].text != "" || r[k].thought != ""
    decreases |steps|
  {
    if |steps| == 0 then []
    else
      match ChunkOf(steps[0])
      case Some(c) => [c] + Emitted(steps[1..])
      case None => Emitted(steps[1..])
  }

  /** `parseGeminiResponse`: the chunks delivered for a whole response body. */
  function Decode(body: string): (r: seq<Chunk>)
    ensures forall k :: 0 <= k < |r| ==> r[k].text != "" || r[k].thought != ""
    ensures forall frames :: body == Terminated(FrameLines(frames)) ==> r == Emitted(Steps(Tracker("", ""), frames).1)
  {
    forall frames | body == Terminated(FrameLines(frames))
      ensures FramesOf(ResponseCandidates(body)) == frames
    {
      FramedBodyFrames(frames);
    }
    Emitted(Steps(Tracker("", ""), FramesOf(ResponseCandidates(body))).1)
  }

  /** Every candidate of every part of every line, in stream order. */
  function ResponseCandidates(body: string): seq<Json> {
    CandidatesOf(AllParts(ScanLines(body)))
  }

  // ---------------------------------------------------------------------------
  // Bodies written one frame per line

  /** The lines, each followed by a newline. */
  function Terminated(lines: seq<string>): string
    decreases |lines|
  {
    if |lines| == 0 then "" else lines[0] + "\n" + Terminated(lines[1..])
  }

  /** A line the scanner returns unchanged: no newline, no final carriage return. */
  predicate PlainLine(line: string) {
    '\n' !in line && (line == [] || line[|line| - 1] != '\r')
  }

  lemma {:induction false} SplitAfterLine(line: string, rest: string)
    requires '\n' !in line
    ensures Text.Split(line + "\n" + rest, '\n') == [line] + Text.Split(rest, '\n')
  {
    var s := line + "\n" + rest;
    assert s[|line|] == '\n';
    var i := Text.FirstIndex(s, '\n');
    assert i == |line|;
    assert s[..i] == line && s[i + 1..] == rest;
  }

  lemma {:induction false} SplitTerminated(lines: seq<string>)
    requires forall k :: 0 <= k < |lines| ==> '\n' !in lines[k]
    ensures Text.Split(Terminated(lines), '\n') == lines + [""]
    decreases |lines|
  {
    if |lines| == 0 {
      assert '\n' !in "";
    } else {
      var tail := lines[1..];
      assert forall k :: 0 <= k < |tail| ==> tail[k] == lines[k + 1];
      SplitTerminated(tail);
      assert lines == [lines[0]] + tail;
      SplitTerminatedCons(lines[0], tail);
    }
  }

  lemma {:induction false} SplitTerminatedCons(line: string, tail: seq<string>)
    requires '\n' !in line && Text.Split(Terminated(tail), '\n') == tail + [""]
    ensures Text.Split(Terminated([line] + tail), '\n') == [line] + tail + [""]
  {
    var ls := [line] + tail;
    assert ls[0] == line && ls[1..] == tail;
    assert Terminated(ls) == line + "\n" + Terminated(tail);
    SplitAfterLine(line, Terminated(tail));
    assert [line] + (tail + [""]) == [line] + tail + [""];
  }

  /** The scanner gives back exactly the lines of a body in which each plain
      line is followed by a newline. */
  lemma {:induction false} ScanTerminated(lines: seq<string>)
    requires forall k :: 0 <= k < |lines| ==> PlainLine(lines[k])
    ensures ScanLines(Terminated(lines)) == lines
  {
    var pieces := Text.Split(Terminated(lines), '\n');
    SplitTerminated(lines);
    assert pieces[|pieces| - 1] == "";
    var kept := pieces[..|pieces| - 1];
    assert kept == lines;
    forall k | 0 <= k < |kept| ensures DropCR(kept[k]) == lines[k] {
      assert PlainLine(lines[k]);
    }
  }

  /** A candidate whose text is `f.text` (at path 1.0) and whose thoughts are
      `f.thoughts` (at path 37.0.0). */
  function FrameCandidate(f: Frame): Json {
    JObj([Member("1", JArr([JStr(f.text)])), Member("37", JArr([JArr([JStr(f.thoughts)])]))])
  }

  /** An inner payload listing that one candidate at index 4. */
  function FrameInner(f: Frame): Json {
    JArr([JNull, JNull, JNull, JNull, JArr([FrameCandidate(f)])])
  }

  /** A part carrying the serialised inner payload as a string at index 2. */
  function FramePart(f: Frame): Json {
    JArr([JNull, JNull, JStr(Serialize(FrameInner(f)))])
  }

  /** The line the upstream sends for one frame. */
  function FrameLine(f: Frame): string {
    Serialize(JArr([FramePart(f)]))
  }

  function FrameLines(frames: seq<Frame>): (r: seq<string>)
    ensures |r| == |frames|
  {
    seq(|frames|, k requires 0 <= k < |frames| => FrameLine(frames[k]))
  }

  lemma {:induction false} EscapeBodyNoNewline(s: string)
    ensures '\n' !in EscapeBody(s)
    decreases |s|
  {
    if |s| > 0 {
      EscapeBodyNoNewline(s[1..]);
      var c := s[0];
      if c != '"' && c != '\\' && c != '\n' && c != '\r' && c != '\t' && NeedsUnicodeEscape(c) {
        JsonText.Hex4Digits(c as int);
      }
    }
  }

  /** A one-part line whose part carries `x` as its payload string. */
  lemma {:induction false} PayloadLine(x: string)
    ensures Serialize(JArr([JArr([JNull, JNull, JStr(x)])])) == "[[null,null," + Quote(x) + "]]"
  {
    var q := Quote(x);
    var tail2: seq<Json> := [JStr(x)];
    var tail1: seq<Json> := [JNull, JStr(x)];
    var es: seq<Json> := [JNull, JNull, JStr(x)];
    assert SerializeElems(tail2) == q;
    assert tail1[1..] == tail2;
    assert SerializeElems(tail1) == "null" + "," + q;
    assert es[1..] == tail1;
    assert SerializeElems(es) == "null" + "," + ("null" + "," + q);
    var part := Serialize(JArr(es));
    assert part == "[" + SerializeElems(es) + "]";
    assert SerializeElems([JArr(es)]) == part;
  }

  lemma {:induction false} PayloadLinePlain(x: string)
    ensures var line := "[[null,null," + Quote(x) + "]]";
            PlainLine(line) && NormalizeLine(line) == line
  {
    var line := "[[null,null," + Quote(x) + "]]";
    EscapeBodyNoNewline(x);
    assert '\n' !in Quote(x);
    assert '\n' !in "[[null,null," && '\n' !in "]]";
    assert line[0] == '[' && line[|line| - 1] == ']';
    assert !Text.HasPrefix(line, XssiPrefix) by {
      assert XssiPrefix[0] == ')';
    }
    Text.TrimSpaceTrimmed(line);
  }

  lemma {:induction false} FrameLineShape(f: Frame)
    ensures PlainLine(FrameLine(f)) && NormalizeLine(FrameLine(f)) == FrameLine(f)
  {
    PayloadLine(Serialize(FrameInner(f)));
    PayloadLinePlain(Serialize(FrameInner(f)));
  }

  /** The one part of a frame line. */
  lemma {:induction false} FrameLineParts(f: Frame)
    ensures LineParts(FrameLine(f)) == [FramePart(f)]
  {
    FrameLineShape(f);
    var v := JArr([FramePart(f)]);
    assert JsonText.Valid(FramePart(f));
    assert JsonText.Valid(v);
    JsonText.ParseSerialize(v);
  }

  lemma {:induction false} FrameInnerValid(f: Frame)
    ensures JsonText.Valid(FrameInner(f))
  {
    var c := FrameCandidate(f);
    assert JsonText.Valid(JArr([JStr(f.text)]));
    assert JsonText.Valid(JArr([JStr(f.thoughts)]));
    assert JsonText.Valid(JArr([JArr([JStr(f.thoughts)])]));
    assert JsonText.Valid(c);
    assert JsonText.Valid(JArr([c]));
  }

  /** The candidate reads back as the frame it was built from. */
  lemma {:induction false} FrameCandidateReads(f: Frame)
    ensures FrameOf(FrameCandidate(f)) == f
  {
    var c := FrameCandidate(f);
    assert Text.All("0", Text.IsDigit) && Text.DigitsValue("0") == 0;
    assert Get(c, ["1"]) == Some(JArr([JStr(f.text)]));
    assert Get(c, ["1", "0"]) == Some(JStr(f.text));
    var later := c.members[1..];
    assert later == [Member("37", JArr([JArr([JStr(f.thoughts)])]))];
    assert FirstMember(later, "37") == Some(JArr([JArr([JStr(f.thoughts)])]));
    assert FirstMember(c.members, "37") == FirstMember(later, "37");
    assert Get(c, ["37"]) == Some(JArr([JArr([JStr(f.thoughts)])]));
    assert Get(c, ["37", "0", "0"]) == Some(JStr(f.thoughts));
  }

  /** The one candidate of a frame part. */
  lemma {:induction false} FramePartCandidates(f: Frame)
    ensures PartCandidates(FramePart(f)) == [FrameCandidate(f)]
  {
    var inner := FrameInner(f);
    assert Text.All("2", Text.IsDigit) && Text.DigitsValue("2") == 2;
    assert Text.All("4", Text.IsDigit) && Text.DigitsValue("4") == 4;
    assert Get(FramePart(f), ["2"]) == Some(JStr(Serialize(inner)));
    assert Serialize(inner)[0] == '[';
    FrameInnerValid(f);
    JsonText.ParseSerialize(inner);
    assert PartInner(FramePart(f)) == Some(inner);
    assert Get(inner, ["4"]) == Some(JArr([FrameCandidate(f)]));
  }

  function FrameParts(frames: seq<Frame>): (r: seq<Json>)
    ensures |r| == |frames|
  {
    seq(|frames|, k requires 0 <= k < |frames| => FramePart(frames[k]))
  }

  function FrameCandidates(frames: seq<Frame>): (r: seq<Json>)
    ensures |r| == |frames|
  {
    seq(|frames|, k requires 0 <= k < |frames| => FrameCandidate(frames[k]))
  }

  /** Lines of one part each give those parts, in order. */
  lemma {:induction false} OnePartEach(lines: seq<string>, parts: seq<Json>)
    requires |lines| == |parts|
    requires forall k :: 0 <= k < |lines| ==> LineParts(lines[k]) == [parts[k]]
    ensures AllParts(lines) == parts
    decreases |lines|
  {
    if |lines| > 0 {
      OnePartEach(lines[1..], parts[1..]);
      assert parts == [parts[0]] + parts[1..];
    }
  }

  lemma {:induction false} FramedParts(frames: seq<Frame>)
    ensures AllParts(FrameLines(frames)) == FrameParts(frames)
  {
    forall k | 0 <= k < |frames| ensures LineParts(FrameLines(frames)[k]) == [FrameParts(frames)[k]] {
      FrameLineParts(frames[k]);
    }
    OnePartEach(FrameLines(frames), FrameParts(frames));
  }

  lemma {:induction false} FramedCandidates(frames: seq<Frame>)
    ensures CandidatesOf(FrameParts(frames)) == FrameCandidates(frames)
    decreases |frames|
  {
    if |frames| > 0 {
      FramedCandidates(frames[1..]);
      assert FrameParts(frames)[1..] == FrameParts(frames[1..]);
      FramePartCandidates(frames[0]);
      assert FrameCandidates(frames) == [FrameCandidate(frames[0])] + FrameCandidates(frames[1..]);
    }
  }

  lemma {:induction false} FramedFrames(frames: seq<Frame>)
    ensures FramesOf(FrameCandidates(frames)) == frames
  {
    forall k | 0 <= k < |frames| ensures FramesOf(FrameCandidates(frames))[k] == frames[k] {
      FrameCandidateReads(frames[k]);
    }
  }

  /** A body written one frame per line reads back as those frames, in
      order: no line is lost or reordered. */
  lemma {:induction false} FramedBodyFrames(frames: seq<Frame>)
    ensures FramesOf(ResponseCandidates(Terminated(FrameLines(frames)))) == frames
  {
    forall k | 0 <= k < |frames| ensures PlainLine(FrameLines(frames)[k]) {
      FrameLineShape(frames[k]);
    }
    ScanTerminated(FrameLines(frames));
    FramedParts(frames);
    FramedCandidates(frames);
    FramedFrames(frames);
  }

  function ChunkTexts(cs: seq<Chunk>): string
    decreases |cs|
  {
    if |cs| == 0 then "" else cs[0].text + ChunkTexts(cs[1..])
  }

  function ChunkThoughts(cs: seq<Chunk>): string
    decreases |cs|
  {
    if |cs| == 0 then "" else cs[0].thought + ChunkThoughts(cs[1..])
  }

  function CleanAll(ss: seq<string>): (r: seq<string>)
    ensures |r| == |ss|
  {
    seq(|ss|, k requires 0 <= k < |ss| => Clean(ss[k]))
  }

  /** Dropping chunks loses nothing: the delivered thoughts are all the thought
      deltas, and the delivered text is all the cleaned text deltas. */
  lemma {:induction false} EmittedKeepsEverything(steps: seq<Step>)
    ensures ChunkThoughts(Emitted(steps)) == Concat(ThoughtsOf(steps))
    ensures ChunkTexts(Emitted(steps)) == Concat(CleanAll(TextsOf(steps)))
  {
    EmittedKeepsThoughts(steps);
    EmittedKeepsTexts(steps);
  }

  lemma {:induction false} EmittedKeepsThoughts(steps: seq<Step>)
    ensures ChunkThoughts(Emitted(steps)) == Concat(ThoughtsOf(steps))
    decreases |steps|
  {
    if |steps| > 0 {
      EmittedKeepsThoughts(steps[1..]);
      assert ThoughtsOf(steps)[1..] == ThoughtsOf(steps[1..]);
      match ChunkOf(steps[0])
      case Some(c) =>
        assert Emitted(steps)[1..] == Emitted(steps[1..]);
      case None =>
        assert steps[0].thoughts == "";
    }
  }

  lemma {:induction false} EmittedKeepsTexts(steps: seq<Step>)
    ensures ChunkTexts(Emitted(steps)) == Concat(CleanAll(TextsOf(steps)))
    decreases |steps|
  {
    if |steps| > 0 {
      EmittedKeepsTexts(steps[1..]);
      assert TextsOf(steps)[1..] == TextsOf(steps[1..]);
      assert CleanAll(TextsOf(steps))[1..] == CleanAll(TextsOf(steps[1..]));
      match ChunkOf(steps[0])
      case Some(c) =>
        assert Emitted(steps)[1..] == Emitted(steps[1..]);
      case None =>
        assert Clean(steps[0].text) == "";
    }
  }

  /** Frames that only grow, fed to a fresh tracker, come out as deltas that
      put together give the last frame: for the text column and the thoughts column. */
  lemma {:induction false} TextsFromScratch(frames: seq<Frame>)
    requires |frames| > 0 && Chained("", TextsOf(frames))
    ensures Concat(AdvanceAll("", TextsOf(frames)).1) == frames[|frames| - 1].text
  {
    ChainedDeltasRebuildFrame("", TextsOf(frames));
  }

  lemma {:induction false} ThoughtsFromScratch(frames: seq<Frame>)
    requires |frames| > 0 && Chained("", ThoughtsOf(frames))
    ensures Concat(AdvanceAll("", ThoughtsOf(frames)).1) == frames[|frames| - 1].thoughts
  {
    ChainedDeltasRebuildFrame("", ThoughtsOf(frames));
  }

  lemma {:induction false} FreshTextColumn(frames: seq<Frame>)
    ensures Concat(TextsOf(Steps(Tracker("", ""), frames).1)) == Concat(AdvanceAll("", TextsOf(frames)).1)
  {
    StepsAreTwoTrackers(Tracker("", ""), frames);
  }

  lemma {:induction false} FreshThoughtColumn(frames: seq<Frame>)
    ensures Concat(ThoughtsOf(Steps(Tracker("", ""), frames).1)) == Concat(AdvanceAll("", ThoughtsOf(frames)).1)
  {
    StepsAreTwoTrackers(Tracker("", ""), frames);
  }

  /** Growing thoughts arrive whole: when every candidate's thoughts extend the
      previous ones, the delivered thoughts are exactly the last frame's. */
  lemma {:induction false} GrowingThoughtsArriveWhole(frames: seq<Frame>)
    requires |frames| > 0 && Chained("", ThoughtsOf(frames))
    ensures ChunkThoughts(Emitted(Steps(Tracker("", ""), frames).1)) == frames[|frames| - 1].thoughts
  {
    ThoughtsFromScratch(frames);
    FreshThoughtColumn(frames);
    EmittedKeepsEverything(Steps(Tracker("", ""), frames).1);
  }

  /** Growing text arrives in pieces: the raw text deltas put together are
      exactly the last frame's text (each piece is then cleaned on its own, see
      EmittedKeepsEverything). */
  lemma {:induction false} GrowingTextArrivesInPieces(frames: seq<Frame>)
    requires |frames| > 0 && Chained("", TextsOf(frames))
    ensures Concat(TextsOf(Steps(Tracker("", ""), frames).1)) == frames[|frames| - 1].text
  {
    TextsFromScratch(frames);
    FreshTextColumn(frames);
  }

  /** Cleaning piece by piece is not cleaning the whole: an escape split across
      two frames survives. */
  lemma {:induction false} PieceCleanupDiffersFromWhole()
    ensures Clean("a\\") + Clean("<") != Clean("a\\<")
  {
    CleanTrailingBackslash();
    CleanMark();
    CleanSplitEscape();
  }

  lemma {:induction false} CleanTrailingBackslash()
    ensures Clean("a\\") == "a\\"
  {
    assert Cleanup.UnescapeMarkdown("a\\") == "a\\";
    Cleanup.FilterShort("a\\");
  }

  lemma {:induction false} CleanMark()
    ensures Clean("<") == "<"
  {
    Cleanup.UnescapeWithoutBackslash("<");
    Cleanup.FilterShort("<");
  }

  lemma {:induction false} CleanSplitEscape()
    ensures Clean("a\\<") == "a<"
  {
    assert Cleanup.UnescapeMarkdown("a\\<") == "a<";
    Cleanup.FilterShort("a<");
  }

  // ---------------------------------------------------------------------------
  // Image URLs (the non-streaming readers: whole body, lines split on '\n')

  /** The parts of a whole response body read at once. */
  function BodyParts(content: string): seq<Json> {
    AllParts(Text.Split(content, '\n'))
  }

  /** The part whose inner payload has an element 4 holds the answer. */
  predicate HasBody(part: Json) {
    GetOpt(PartInner(part), ["4"]).Some?
  }

  function BodyIndexFrom(parts: seq<Json>, i: nat): (r: Option<nat>)
    ensures r.Some? ==> i <= r.value < |parts| && HasBody(parts[r.value])
                        && forall k :: i <= k < r.value ==> !HasBody(parts[k])
    ensures r.None? ==> forall k :: i <= k < |parts| ==> !HasBody(parts[k])
    decreases |parts| - i
  {
    if i >= |parts| then None
    else if HasBody(parts[i]) then Some(i)
    else BodyIndexFrom(parts, i + 1)
  }

  /** The index of the first part that holds the answer. */
  function BodyIndex(parts: seq<Json>): (r: Option<nat>)
    ensures r.Some? ==> r.value < |parts| && HasBody(parts[r.value])
                        && forall k :: 0 <= k < r.value ==> !HasBody(parts[k])
    ensures r.None? ==> forall k :: 0 <= k < |parts| ==> !HasBody(parts[k])
  {
    BodyIndexFrom(parts, 0)
  }

  /** Generated images that are only placeholders carry this prefix. */
  const PlaceholderURLPrefix: string := "http://googleusercontent.com/image_generation_content"

  predicate AcceptImageURL(url: string) {
    url != "" && !Text.HasPrefix(url, PlaceholderURLPrefix)
  }

  /** `genImg.Get("0.3.3").String()`. */
  function GenImageURL(genImg: Json): string {
    GjsonString(Get(genImg, ["0", "3", "3"]))
  }

  /** The URLs of a generated-image list that are kept, in list order. */
  function AcceptedURLs(imgs: seq<Json>): (r: seq<string>)
    ensures forall k :: 0 <= k < |r| ==> AcceptImageURL(r[k])
    ensures forall k :: 0 <= k < |imgs| && AcceptImageURL(GenImageURL(imgs[k])) ==> GenImageURL(imgs[k]) in r
    decreases |imgs|
  {
    if |imgs| == 0 then []
    else
      var u := GenImageURL(imgs[0]);
      var rest := AcceptedURLs(imgs[1..]);
      assert forall k :: 1 <= k < |imgs| ==> imgs[k] == imgs[1..][k - 1];
      if AcceptImageURL(u) then [u] + rest else rest
  }

  /** The generated-image list of candidate `idx` in a part: `inner.Get("4.idx")`
      and then `.Get("12.7.0")`. */
  function ImageList(part: Json, idx: nat): Option<Json> {
    GetOpt(GetOpt(PartInner(part), ["4", Text.NatToString(idx)]), ["12", "7", "0"])
  }

  /** The accepted URLs of candidate 0 of a part (none when it has no image list). */
  function PartURLs(part: Json): seq<string> {
    AcceptedURLs(ForEachValues(ImageList(part, 0)))
  }

  /** Scanning parts from `i` on and stopping at the first that yields anything. */
  function FirstNonEmpty<T>(parts: seq<Json>, i: nat, f: Json -> seq<T>): (r: seq<T>)
    ensures r == [] <==> forall k :: i <= k < |parts| ==> f(parts[k]) == []
    ensures r != [] ==> exists k :: i <= k < |parts| && r == f(parts[k])
                                    && forall m :: i <= m < k ==> f(parts[m]) == []
    decreases |parts| - i
  {
    if i >= |parts| then []
    else if f(parts[i]) != [] then f(parts[i])
    else FirstNonEmpty(parts, i + 1, f)
  }

  /** `extractImageURLsFromResponse`: the kept URLs of the first part, from the
      answer part on, whose candidate 0 yields any. */
  function ExtractImageURLs(content: string): (r: seq<string>)
    ensures forall k :: 0 <= k < |r| ==> AcceptImageURL(r[k])
    ensures BodyIndex(BodyParts(content)).None? ==> r == []
    ensures r != [] ==>
              var parts := BodyParts(content);
              var b := BodyIndex(parts).value;
              exists k :: b <= k < |parts| && r == PartURLs(parts[k])
                          && forall m :: b <= m < k ==> PartURLs(parts[m]) == []
  {
    var parts := BodyParts(content);
    match BodyIndex(parts)
    case None => []
    case Some(b) =>
      var r := FirstNonEmpty(parts, b, PartURLs);
      assert r != [] ==> exists k :: b <= k < |parts| && r == PartURLs(parts[k]);
      r
  }

  /** Full-size rendering: append "=s2048" unless a size is already given. */
  function FullSize(url: string): (r: string)
    ensures Text.Contains(r, "=s")
    ensures Text.Contains(url, "=s") ==> r == url
    ensures !Text.Contains(url, "=s") ==> r == url + "=s2048"
  {
    if Text.Contains(url, "=s") then url
    else
      Text.ContainsAppend(url, "=s", "2048");
      assert url + "=s2048" == url + "=s" + "2048";
      url + "=s2048"
  }

  /** An entry of the images response. */
  datatype ImageItem = UrlItem(url: string) | B64Item(data: string)

  /** The items a part's URLs yield: full-size URLs for the "url" format,
      otherwise the fetched data of each, an empty fetch result being dropped.
      The fetch is a parameter: it is network I/O. */
  function ItemsOf(urls: seq<string>, format: string, fetch: string -> string): (r: seq<ImageItem>)
    ensures format == "url" ==> |r| == |urls| && forall k :: 0 <= k < |r| ==> r[k] == UrlItem(FullSize(urls[k]))
    ensures format != "url" ==> |r| <= |urls| && forall k :: 0 <= k < |r| ==> r[k].B64Item? && r[k].data != ""
    decreases |urls|
  {
    if |urls| == 0 then []
    else
      var rest := ItemsOf(urls[1..], format, fetch);
      if format == "url" then [UrlItem(FullSize(urls[0]))] + rest
      else
        var d := fetch(FullSize(urls[0]));
        if d != "" then [B64Item(d)] + rest else rest
  }

  /** `extractImagesFromResponse`: the items of the first part, from the answer
      part on, whose candidate 0 yields any. */
  function ExtractImages(content: string, format: string, fetch: string -> string): (r: seq<ImageItem>)
    ensures BodyIndex(BodyParts(content)).None? ==> r == []
  {
    var parts := BodyParts(content);
    match BodyIndex(parts)
    case None => []
    case Some(b) => FirstNonEmpty(parts, b, (p: Json) => ItemsOf(PartURLs(p), format, fetch))
  }

  /** With the "url" format the images endpoint lists exactly the full-size
      forms of the URLs the chat image reader finds. */
  lemma {:induction false} UrlFormatMatchesChatReader(content: string, fetch: string -> string)
    ensures var items := ExtractImages(content, "url", fetch);
            var urls := ExtractImageURLs(content);
            |items| == |urls| && forall k :: 0 <= k < |items| ==> items[k] == UrlItem(FullSize(urls[k]))
  {
    var parts := BodyParts(content);
    match BodyIndex(parts)
    case None =>
    case Some(b) =>
      var f := (p: Json) => ItemsOf(PartURLs(p), "url", fetch);
      FirstNonEmptyMap(parts, b, PartURLs, f);
  }

  /** When one per-part reader is the other's image under a length-preserving
      map, scanning with either stops at the same part. */
  lemma {:induction false} FirstNonEmptyMap(parts: seq<Json>, i: nat, f: Json -> seq<string>, g: Json -> seq<ImageItem>)
    requires forall p :: |g(p)| == |f(p)| && forall k :: 0 <= k < |g(p)| ==> g(p)[k] == UrlItem(FullSize(f(p)[k]))
    ensures var a := FirstNonEmpty(parts, i, f);
            var b := FirstNonEmpty(parts, i, g);
            |b| == |a| && forall k :: 0 <= k < |b| ==> b[k] == UrlItem(FullSize(a[k]))
    decreases |parts| - i
  {
    if i < |parts| {
      FirstNonEmptyMap(parts, i + 1, f, g);
    }
  }

  // ---------------------------------------------------------------------------
  // The whole-body reader with images (`parseGeminiResponseFromBytes`)

  /** One callback of the whole-body reader: text, thoughts and image URL. */
  datatype ImageChunk = ImageChunk(text: string, thought: string, imgURL: string)

  /** The cleanup applied to a finished text found next to the images: the
      placeholders are dropped first and unescaping comes second. */
  function CleanFinished(s: string): string {
    Cleanup.UnescapeMarkdown(Cleanup.FilterImagePlaceholders(s))
  }

  function LastOr(us: seq<string>): (r: string)
    ensures |us| == 0 ==> r == ""
    ensures |us| > 0 ==> r == us[|us| - 1]
  {
    if |us| == 0 then "" else us[|us| - 1]
  }

  /** The scan for candidate `idx` from part `i` on: each part with an image
      list for that candidate may replace the text by its finished text, and
      the last kept URL of the first part with any ends the scan. */
  function ScanCandidate(parts: seq<Json>, i: nat, idx: nat, text: string): (r: (string, string))
    ensures r.1 == "" || AcceptImageURL(r.1)
    decreases |parts| - i
  {
    if i >= |parts| then (text, "")
    else
      var cand := GetOpt(PartInner(parts[i]), ["4", Text.NatToString(idx)]);
      var list := GetOpt(cand, ["12", "7", "0"]);
      if list.None? then ScanCandidate(parts, i + 1, idx, text)
      else
        var finished := GjsonString(GetOpt(cand, ["1", "0"]));
        var text1 := if finished != "" then CleanFinished(finished) else text;
        var url := LastOr(AcceptedURLs(ForEachValues(list)));
        if url != "" then (text1, url) else ScanCandidate(parts, i + 1, idx, text1)
  }

  /** The callback for candidate `idx` of the answer. */
  function CandidateChunk(parts: seq<Json>, b: nat, idx: nat, cand: Json): (r: ImageChunk)
    ensures r.imgURL == "" || AcceptImageURL(r.imgURL)
    ensures r.thought == RawThoughts(cand)
    ensures Get(cand, ["12", "7", "0"]).None? ==> r == ImageChunk(Clean(RawText(cand)), RawThoughts(cand), "")
  {
    var text := Clean(RawText(cand));
    if Get(cand, ["12", "7", "0"]).Some? then
      var (t, u) := ScanCandidate(parts, b, idx, text);
      ImageChunk(t, RawThoughts(cand), u)
    else ImageChunk(text, RawThoughts(cand), "")
  }

  /** `parseGeminiResponseFromBytes`: one callback per candidate of the answer
      part, in order, whether or not anything is in it. */
  function DecodeWithImages(content: string): (r: seq<ImageChunk>)
    ensures forall k :: 0 <= k < |r| ==> r[k].imgURL == "" || AcceptImageURL(r[k].imgURL)
    ensures var parts := BodyParts(content);
            match BodyIndex(parts)
            case None => r == []
            case Some(b) => |r| == |GjsonArray(GetOpt(PartInner(parts[b]), ["4"]))|
  {
    var parts := BodyParts(content);
    match BodyIndex(parts)
    case None => []
    case Some(b) =>
      var cands := GjsonArray(GetOpt(PartInner(parts[b]), ["4"]));
      seq(|cands|, k requires 0 <= k < |cands| => CandidateChunk(parts, b, k, cands[k]))
  }
}

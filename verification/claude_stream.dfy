/** The Claude-compatible event stream (internal/claude/streaming.go): a
    `StreamingState` that renders message and content-block events, and a
    `StreamProcessor` that reads the upstream's lines, opens one thinking or
    text block at a time and closes everything at the end. Events are values
    here rather than `event:`/`data:` text, and an event the source renders as
    "" (and so never writes) is simply absent. */
module ClaudeStream {
  import opened Wrappers
  import opened Json
  import JsonText
  import Cleanup
  import GeminiDecode

  // ---------------------------------------------------------------------------
  // Events

  datatype Delta = TextDelta(text: string) | ThinkingDelta(thinking: string)

  /** The `content_block` of a start event: its type, and for a `tool_use`
      block started with extra fields, their `id` and `name`. */
  datatype Block = Block(blockType: string, tool: Option<(Json, Json)>)

  datatype Event =
    | MessageStart(id: string, model: string)
    | BlockStart(index: nat, block: Block)
    | BlockDelta(index: nat, delta: Delta)
    | BlockStop(index: nat)
    | MessageDelta(stopReason: string, outputTokens: int)
    | MessageStop

  // ---------------------------------------------------------------------------
  // StreamingState

  /** The block index only ever counts up from 0, so it is a `nat` here. */
  datatype State = State(messageId: string, model: string, startSent: bool, stopSent: bool,
                         blockIndex: nat, currentBlockType: string, outputTokens: int)

  /** The state and the events one step writes. */
  datatype Out = Out(st: State, events: seq<Event>)

  /** `NewStreamingState`; the message id is derived from the clock, so it is a parameter. */
  function NewState(model: string, messageId: string): (s: State)
    ensures !s.startSent && !s.stopSent && s.blockIndex == 0 && s.currentBlockType == "" && s.outputTokens == 0
    ensures s.model == model && s.messageId == messageId
  {
    State(messageId, model, false, false, 0, "", 0)
  }

  /** `EmitMessageStart`: the start event the first time, nothing afterwards. */
  function EmitMessageStart(s: State): (r: Out)
    ensures r.st.startSent && r.st == s.(startSent := true)
    ensures r.events == if s.startSent then [] else [MessageStart(s.messageId, s.model)]
  {
    if s.startSent then Out(s, [])
    else Out(s.(startSent := true), [MessageStart(s.messageId, s.model)])
  }

  /** `message_start` is written at most once per state. */
  lemma {:induction false} MessageStartOnce(s: State)
    ensures |EmitMessageStart(s).events| + |EmitMessageStart(EmitMessageStart(s).st).events| <= 1
  {
  }

  /** The fields a start event's block gets from `extra` when it is a `tool_use`
      block; a key `extra` lacks reads as null. */
  function ToolFields(blockType: string, extra: Option<map<string, Json>>): Option<(Json, Json)> {
    match extra
    case Some(m) =>
      if blockType == "tool_use" then
        Some((if "id" in m then m["id"] else JNull, if "name" in m then m["name"] else JNull))
      else None
    case None => None
  }

  /** `EmitContentBlockStart`: a start event at the current index; the block
      becomes the current one and the index stays. */
  function EmitContentBlockStart(s: State, blockType: string, extra: Option<map<string, Json>>): (r: Out)
    ensures r.st == s.(currentBlockType := blockType)
    ensures r.events == [BlockStart(s.blockIndex, Block(blockType, ToolFields(blockType, extra)))]
  {
    Out(s.(currentBlockType := blockType), [BlockStart(s.blockIndex, Block(blockType, ToolFields(blockType, extra)))])
  }

  /** `EmitContentBlockDelta`: a thinking delta for "thinking", a text delta for
      any other type, at the current index; the state is left alone. */
  function EmitContentBlockDelta(s: State, blockType: string, content: string): (e: Event)
    ensures e.BlockDelta? && e.index == s.blockIndex
    ensures e.delta.ThinkingDelta? <==> blockType == "thinking"
    ensures e.delta == TextDelta(content) || e.delta == ThinkingDelta(content)
  {
    BlockDelta(s.blockIndex, if blockType == "thinking" then ThinkingDelta(content) else TextDelta(content))
  }

  /** `EmitContentBlockStop`: a stop event at the current index, after which
      the index moves on by one and no block is current. */
  function EmitContentBlockStop(s: State): (r: Out)
    ensures r.events == [BlockStop(s.blockIndex)]
    ensures r.st == s.(blockIndex := s.blockIndex + 1, currentBlockType := "")
  {
    Out(s.(blockIndex := s.blockIndex + 1, currentBlockType := ""), [BlockStop(s.blockIndex)])
  }

  function EmitMessageDelta(stopReason: string, outputTokens: int): Event {
    MessageDelta(stopReason, outputTokens)
  }

  /** `EmitMessageStop`: the stop event the first time, nothing afterwards. */
  function EmitMessageStop(s: State): (r: Out)
    ensures r.st.stopSent && r.st == s.(stopSent := true)
    ensures r.events == if s.stopSent then [] else [MessageStop]
  {
    if s.stopSent then Out(s, [])
    else Out(s.(stopSent := true), [MessageStop])
  }

  /** `message_stop` is written at most once per state. */
  lemma {:induction false} MessageStopOnce(s: State)
    ensures |EmitMessageStop(s).events| + |EmitMessageStop(EmitMessageStop(s).st).events| <= 1
  {
  }

  // ---------------------------------------------------------------------------
  // The shape of a well-formed stream

  /** Where a reader of the events stands: whether the message has started,
      the index the next block event must carry, and the type of the open
      block, if any. */
  datatype Phase = Phase(started: bool, next: nat, open: Option<string>)

  const Fresh: Phase := Phase(false, 0, None)

  function DeltaType(d: Delta): string {
    if d.ThinkingDelta? then "thinking" else "text"
  }

  /** One event of the message body: the message starts once, then blocks
      follow one at a time, each a start, deltas of its own type and a stop,
      all at the same index, the indices counting 0, 1, 2, ... */
  function Accept(ph: Phase, e: Event): Option<Phase> {
    match e
    case MessageStart(_, _) => if !ph.started then Some(ph.(started := true)) else None
    case BlockStart(i, b) =>
      if ph.started && ph.open.None? && i == ph.next then Some(ph.(open := Some(b.blockType))) else None
    case BlockDelta(i, d) =>
      if ph.started && ph.open == Some(DeltaType(d)) && i == ph.next then Some(ph) else None
    case BlockStop(i) =>
      if ph.started && ph.open.Some? && i == ph.next then Some(Phase(true, ph.next + 1, None)) else None
    case _ => None
  }

  /** Reading a run of body events from `ph`: where the reader ends, or None
      when some event is out of place. */
  function Scan(ph: Phase, evs: seq<Event>): Option<Phase>
    decreases |evs|
  {
    if |evs| == 0 then Some(ph)
    else
      match Accept(ph, evs[0])
      case Some(q) => Scan(q, evs[1..])
      case None => None
  }

  lemma {:induction false} ScanAppend(ph: Phase, a: seq<Event>, b: seq<Event>)
    ensures Scan(ph, a + b) == match Scan(ph, a) case Some(q) => Scan(q, b) case None => None
    decreases |a|
  {
    if |a| > 0 {
      assert (a + b)[0] == a[0] && (a + b)[1..] == a[1..] + b;
      match Accept(ph, a[0])
      case Some(q) => ScanAppend(q, a[1..], b);
      case None =>
    } else {
      assert a + b == b;
    }
  }

  /** Scanning two runs one after the other. */
  lemma {:induction false} ScanThen(p0: Phase, p1: Phase, p2: Phase, a: seq<Event>, b: seq<Event>)
    requires Scan(p0, a) == Some(p1) && Scan(p1, b) == Some(p2)
    ensures Scan(p0, a + b) == Some(p2)
  {
    ScanAppend(p0, a, b);
  }

  function Count(evs: seq<Event>, p: Event -> bool): nat
    decreases |evs|
  {
    if |evs| == 0 then 0 else (if p(evs[0]) then 1 else 0) + Count(evs[1..], p)
  }

  predicate IsStart(e: Event) { e.BlockStart? }
  predicate IsStop(e: Event) { e.BlockStop? }
  predicate IsMessageStart(e: Event) { e.MessageStart? }

  function Bit(b: bool): nat { if b then 1 else 0 }

  /** What a scan says about the numbers of events: every stop closes one
      start, every stop moves the index on, and the message starts at most once. */
  lemma {:induction false} ScanCounts(ph: Phase, evs: seq<Event>)
    requires Scan(ph, evs).Some?
    ensures var q := Scan(ph, evs).value;
            Count(evs, IsStop) == q.next - ph.next
            && Count(evs, IsStart) + Bit(ph.open.Some?) == Count(evs, IsStop) + Bit(q.open.Some?)
            && Count(evs, IsMessageStart) + Bit(ph.started) == Bit(q.started)
    decreases |evs|
  {
    if |evs| > 0 {
      var q := Accept(ph, evs[0]).value;
      ScanCounts(q, evs[1..]);
    }
  }

  /** A stream read from the start to a state with no open block holds as
      many block stops as block starts, and at most one message start. */
  lemma {:induction false} BalancedBlocks(evs: seq<Event>)
    requires Scan(Fresh, evs).Some? && Scan(Fresh, evs).value.open.None?
    ensures Count(evs, IsStart) == Count(evs, IsStop) == Scan(Fresh, evs).value.next
    ensures Count(evs, IsMessageStart) <= 1
  {
    ScanCounts(Fresh, evs);
  }

  // ---------------------------------------------------------------------------
  // StreamProcessor

  /** The processor: its state and the two mode flags (`inToolUse` and the
      tool buffer are never used and are left out). */
  datatype Proc = Proc(st: State, inThinking: bool, inText: bool)

  datatype POut = POut(p: Proc, events: seq<Event>)

  /** The modes agree with the state: at most one is on, and it is the type
      of the current block. */
  predicate Inv(p: Proc) {
    !(p.inThinking && p.inText)
    && p.st.currentBlockType == (if p.inThinking then "thinking" else if p.inText then "text" else "")
  }

  /** Where a reader of what the processor wrote so far stands. */
  function PhaseOf(p: Proc): Phase {
    Phase(p.st.startSent, p.st.blockIndex,
          if p.inThinking then Some("thinking") else if p.inText then Some("text") else None)
  }

  /** The message id, model, stop flag and token count are never touched
      while reading the upstream. */
  predicate Keeps(p: Proc, q: Proc) {
    q.st.messageId == p.st.messageId && q.st.model == p.st.model
    && q.st.stopSent == p.st.stopSent && q.st.outputTokens == p.st.outputTokens
  }

  function NewProcessor(model: string, messageId: string): (p: Proc)
    ensures Inv(p) && PhaseOf(p) == Fresh
  {
    Proc(NewState(model, messageId), false, false)
  }

  /** The text of a part: its first element when that is a string, else "". */
  function PartText(part: seq<Json>): string {
    if |part| > 0 && part[0].JStr? then part[0].s else ""
  }

  /** A part is a thought when its element 2 is the boolean true. */
  predicate IsThoughtPart(part: seq<Json>) {
    |part| > 2 && part[2] == JBool(true)
  }

  /** The delta a part with text contributes: its text with the markdown
      escapes removed and `html` (the HTML-entity decoder) applied, as
      thinking or as text. */
  function PartDelta(part: seq<Json>, html: string -> string): Delta {
    var t := html(Cleanup.UnescapeMarkdown(PartText(part)));
    if IsThoughtPart(part) then ThinkingDelta(t) else TextDelta(t)
  }

  /** Close the open block of the other kind, open one of this kind when none
      is, then write the delta. */
  function Switch(p: Proc, thought: bool, text: string): (r: POut)
    requires Inv(p) && p.st.startSent
    ensures Inv(r.p) && Keeps(p, r.p) && r.p.st.startSent
    ensures r.p.inThinking == thought && r.p.inText == !thought
    ensures Scan(PhaseOf(p), r.events) == Some(PhaseOf(r.p))
  {
    var kind := if thought then "thinking" else "text";
    var other := if thought then p.inText else p.inThinking;
    var same := if thought then p.inThinking else p.inText;
    var a := if other then EmitContentBlockStop(p.st) else Out(p.st, []);
    var b := if !same then EmitContentBlockStart(a.st, kind, None) else Out(a.st, []);
    var d := EmitContentBlockDelta(b.st, kind, text);
    var q := Proc(b.st, thought, !thought);
    var ph1 := Phase(true, a.st.blockIndex, if same then Some(kind) else None);
    assert Scan(PhaseOf(p), a.events) == Some(ph1);
    assert Scan(ph1, b.events) == Some(PhaseOf(q));
    assert Scan(PhaseOf(q), [d]) == Some(PhaseOf(q));
    ScanThen(PhaseOf(p), ph1, PhaseOf(q), a.events, b.events);
    ScanThen(PhaseOf(p), PhaseOf(q), PhaseOf(q), a.events + b.events, [d]);
    POut(q, a.events + b.events + [d])
  }

  /** `processPart`: nothing for an empty part or one without text; otherwise
      the markdown escapes are removed, `html` (the HTML-entity decoder) is
      applied, and the text goes to a thinking or text block. */
  function ProcessPart(p: Proc, part: seq<Json>, html: string -> string): (r: POut)
    requires Inv(p) && p.st.startSent
    ensures Inv(r.p) && Keeps(p, r.p) && r.p.st.startSent
    ensures Scan(PhaseOf(p), r.events) == Some(PhaseOf(r.p))
    ensures PartText(part) == "" ==> r == POut(p, [])
    ensures PartText(part) != "" ==> r.p.inThinking == IsThoughtPart(part) && r.p.inText == !IsThoughtPart(part)
    // a part of the kind already open only adds its delta
    ensures PartText(part) != "" && (if IsThoughtPart(part) then p.inThinking else p.inText)
            ==> r.events == [BlockDelta(p.st.blockIndex, PartDelta(part, html))]
    // a part of the other kind closes the open block and opens its own
    ensures PartText(part) != "" && (if IsThoughtPart(part) then p.inText else p.inThinking)
            ==> r.events == [BlockStop(p.st.blockIndex),
                             BlockStart(p.st.blockIndex + 1, Block(DeltaType(PartDelta(part, html)), None)),
                             BlockDelta(p.st.blockIndex + 1, PartDelta(part, html))]
  {
    var text := PartText(part);
    if text == "" then POut(p, [])
    else Switch(p, IsThoughtPart(part), html(Cleanup.UnescapeMarkdown(text)))
  }

  /** The parts loop of one candidate: array parts are processed, others skipped. */
  function ProcessParts(p: Proc, parts: seq<Json>, html: string -> string): (r: POut)
    requires Inv(p) && p.st.startSent
    ensures Inv(r.p) && Keeps(p, r.p) && r.p.st.startSent
    ensures Scan(PhaseOf(p), r.events) == Some(PhaseOf(r.p))
    decreases |parts|
  {
    if |parts| == 0 then POut(p, [])
    else
      var a := if parts[0].JArr? then ProcessPart(p, parts[0].elems, html) else POut(p, []);
      var b := ProcessParts(a.p, parts[1..], html);
      ScanThen(PhaseOf(p), PhaseOf(a.p), PhaseOf(b.p), a.events, b.events);
      POut(b.p, a.events + b.events)
  }

  /** `candidate["1"]["1"]` when the candidate and its content are objects and
      the parts an array. */
  function CandidateParts(cand: Json): Option<seq<Json>> {
    if cand.JObj? then
      match Field(cand, "1")
      case Some(content) =>
        if content.JObj? then
          match Field(content, "1")
          case Some(JArr(parts)) => Some(parts)
          case _ => None
        else None
      case None => None
    else None
  }

  /** The candidates loop. */
  function ProcessCandidates(p: Proc, cands: seq<Json>, html: string -> string): (r: POut)
    requires Inv(p) && p.st.startSent
    ensures Inv(r.p) && Keeps(p, r.p) && r.p.st.startSent
    ensures Scan(PhaseOf(p), r.events) == Some(PhaseOf(r.p))
    decreases |cands|
  {
    if |cands| == 0 then POut(p, [])
    else
      var a := match CandidateParts(cands[0])
               case Some(parts) => ProcessParts(p, parts, html)
               case None => POut(p, []);
      var b := ProcessCandidates(a.p, cands[1..], html);
      ScanThen(PhaseOf(p), PhaseOf(a.p), PhaseOf(b.p), a.events, b.events);
      POut(b.p, a.events + b.events)
  }

  /** The candidate list `data["4"]`, read from the inner payload decoded as a
      Go map: only an object payload has one. */
  function InnerCandidates(data: Json): Option<seq<Json>> {
    match Field(data, "4")
    case Some(JArr(cands)) => Some(cands)
    case _ => None
  }

  /** `processGeminiData`: the message starts (once) before anything is looked
      up; then the candidates, if `data["4"]` is an array. */
  function ProcessGeminiData(p: Proc, data: Json, html: string -> string): (r: POut)
    requires Inv(p)
    ensures Inv(r.p) && Keeps(p, r.p) && r.p.st.startSent
    ensures Scan(PhaseOf(p), r.events) == Some(PhaseOf(r.p))
    ensures !p.st.startSent ==> |r.events| > 0 && r.events[0] == MessageStart(p.st.messageId, p.st.model)
    ensures InnerCandidates(data).None? ==> r.events == EmitMessageStart(p.st).events
  {
    var s := EmitMessageStart(p.st);
    var q := p.(st := s.st);
    assert Scan(PhaseOf(p), s.events) == Some(PhaseOf(q));
    match InnerCandidates(data)
    case Some(cands) =>
      var b := ProcessCandidates(q, cands, html);
      ScanThen(PhaseOf(p), PhaseOf(q), PhaseOf(b.p), s.events, b.events);
      POut(b.p, s.events + b.events)
    case None => POut(q, s.events)
  }

  /** The inner payload of one item of a line, as the processor decodes it:
      the item must be an array of at least three elements whose element 2 is
      a non-empty string holding an object or null (null decodes to a nil map). */
  function ItemInner(item: Json): Option<Json> {
    if item.JArr? && |item.elems| >= 3 && item.elems[2].JStr? && item.elems[2].s != "" then
      match JsonText.Parse(item.elems[2].s)
      case Some(JObj(ms)) => Some(JObj(ms))
      case Some(JNull) => Some(JNull)
      case _ => None
    else None
  }

  /** The items loop of `processLine`: malformed items are skipped. */
  function ProcessItems(p: Proc, items: seq<Json>, html: string -> string): (r: POut)
    requires Inv(p)
    ensures Inv(r.p) && Keeps(p, r.p)
    ensures Scan(PhaseOf(p), r.events) == Some(PhaseOf(r.p))
    ensures (forall k :: 0 <= k < |items| ==> ItemInner(items[k]).None?) ==> r == POut(p, [])
    decreases |items|
  {
    if |items| == 0 then POut(p, [])
    else
      var a := match ItemInner(items[0])
               case Some(data) => ProcessGeminiData(p, data, html)
               case None => POut(p, []);
      var b := ProcessItems(a.p, items[1..], html);
      ScanThen(PhaseOf(p), PhaseOf(a.p), PhaseOf(b.p), a.events, b.events);
      assert (forall k :: 0 <= k < |items| ==> ItemInner(items[k]).None?)
             ==> forall k :: 0 <= k < |items[1..]| ==> ItemInner(items[1..][k]).None? by {
        if forall k :: 0 <= k < |items| ==> ItemInner(items[k]).None? {
          forall k | 0 <= k < |items[1..]| ensures ItemInner(items[1..][k]).None? {
            assert items[1..][k] == items[k + 1];
          }
        }
      }
      POut(b.p, a.events + b.events)
  }

  /** The items of a line: the elements of the JSON array it holds, or none
      when it holds anything else (null decodes to an empty slice). */
  function LineItems(line: string): (r: seq<Json>)
    ensures r != [] ==> JsonText.Parse(line) == Some(JArr(r))
    ensures forall items :: JsonText.Parse(line) == Some(JArr(items)) ==> r == items
  {
    match JsonText.Parse(line)
    case Some(JArr(items)) => items
    case _ => []
  }

  /** One line of `ProcessGeminiStream`: the guard is stripped, the line
      trimmed, and a blank line skipped. */
  function ProcessLine(p: Proc, line: string, html: string -> string): (r: POut)
    requires Inv(p)
    ensures Inv(r.p) && Keeps(p, r.p)
    ensures Scan(PhaseOf(p), r.events) == Some(PhaseOf(r.p))
    ensures forall items :: JsonText.Parse(GeminiDecode.NormalizeLine(line)) == Some(JArr(items))
                            ==> r == ProcessItems(p, items, html)
    ensures JsonText.Parse(GeminiDecode.NormalizeLine(line)).None? ==> r == POut(p, [])
  {
    var t := GeminiDecode.NormalizeLine(line);
    if t == "" then POut(p, []) else ProcessItems(p, LineItems(t), html)
  }

  /** An item whose payload is a JSON array: the shape the upstream actually sends. */
  predicate ArrayPayload(item: Json) {
    item.JArr? && |item.elems| >= 3 && item.elems[2].JStr?
    && JsonText.Parse(item.elems[2].s).Some? && JsonText.Parse(item.elems[2].s).value.JArr?
  }

  /** Since the inner payload is decoded as an object keyed "4", a line whose
      items all carry array payloads writes nothing at all, not even
      `message_start`. */
  lemma {:induction false} ArrayPayloadsIgnored(p: Proc, line: string, html: string -> string)
    requires Inv(p)
    requires forall k :: 0 <= k < |LineItems(GeminiDecode.NormalizeLine(line))| ==> ArrayPayload(LineItems(GeminiDecode.NormalizeLine(line))[k])
    ensures ProcessLine(p, line, html) == POut(p, [])
  {
    var items := LineItems(GeminiDecode.NormalizeLine(line));
    forall k | 0 <= k < |items| ensures ItemInner(items[k]).None? {
      assert ArrayPayload(items[k]);
    }
  }

  function ProcessLines(p: Proc, lines: seq<string>, html: string -> string): (r: POut)
    requires Inv(p)
    ensures Inv(r.p) && Keeps(p, r.p)
    ensures Scan(PhaseOf(p), r.events) == Some(PhaseOf(r.p))
    decreases |lines|
  {
    if |lines| == 0 then POut(p, [])
    else
      var a := ProcessLine(p, lines[0], html);
      var b := ProcessLines(a.p, lines[1..], html);
      ScanThen(PhaseOf(p), PhaseOf(a.p), PhaseOf(b.p), a.events, b.events);
      POut(b.p, a.events + b.events)
  }

  /** `finalize`: the open block is closed, then `message_delta` with
      "end_turn" and the token count, then `message_stop` unless already sent.
      The mode flags are not reset. */
  function Finalize(p: Proc): (r: POut)
    ensures r.p.inThinking == p.inThinking && r.p.inText == p.inText
    ensures r.p.st.stopSent
    ensures forall k :: 0 <= k < |r.events| ==> !r.events[k].MessageStart?
  {
    var a := if p.inThinking then EmitContentBlockStop(p.st) else Out(p.st, []);
    var b := if p.inText then EmitContentBlockStop(a.st) else Out(a.st, []);
    var c := EmitMessageStop(b.st);
    POut(p.(st := c.st), a.events + b.events + [EmitMessageDelta("end_turn", b.st.outputTokens)] + c.events)
  }

  /** Finalising closes the open block and ends with `message_delta` and
      `message_stop`. */
  lemma {:induction false} FinalizeCloses(p: Proc)
    requires Inv(p) && p.st.startSent && !p.st.stopSent
    ensures var r := Finalize(p);
            |r.events| >= 2
            && r.events[|r.events| - 2] == MessageDelta("end_turn", p.st.outputTokens)
            && r.events[|r.events| - 1] == MessageStop
            && Scan(PhaseOf(p), r.events[..|r.events| - 2]) == Some(Phase(true, r.p.st.blockIndex, None))
  {
    var r := Finalize(p);
    var a := if p.inThinking then EmitContentBlockStop(p.st) else Out(p.st, []);
    var b := if p.inText then EmitContentBlockStop(a.st) else Out(a.st, []);
    assert r.events[..|r.events| - 2] == a.events + b.events;
    assert Scan(PhaseOf(p), a.events) == Some(Phase(true, a.st.blockIndex, if p.inText then Some("text") else None));
    ScanThen(PhaseOf(p), Phase(true, a.st.blockIndex, if p.inText then Some("text") else None),
             Phase(true, b.st.blockIndex, None), a.events, b.events);
  }

  /** A second finalisation writes no second `message_stop`. */
  lemma {:induction false} FinalizeStopsOnce(p: Proc)
    ensures forall k :: 0 <= k < |Finalize(Finalize(p).p).events| ==> !Finalize(Finalize(p).p).events[k].MessageStop?
  {
    var q := Finalize(p);
    var a := if q.p.inThinking then EmitContentBlockStop(q.p.st) else Out(q.p.st, []);
    var b := if q.p.inText then EmitContentBlockStop(a.st) else Out(a.st, []);
    assert b.st.stopSent;
  }

  /** `ProcessGeminiStream` on a whole response body, from a fresh processor. */
  function Run(model: string, messageId: string, body: string, html: string -> string): seq<Event> {
    var p0 := NewProcessor(model, messageId);
    var r := ProcessLines(p0, GeminiDecode.ScanLines(body), html);
    r.events + Finalize(r.p).events
  }

  /** A body of plain lines, each followed by a newline, is processed line by
      line: exactly those lines, in order. */
  lemma {:induction false} RunOfLines(model: string, messageId: string, lines: seq<string>, html: string -> string)
    requires forall k :: 0 <= k < |lines| ==> GeminiDecode.PlainLine(lines[k])
    ensures var r := ProcessLines(NewProcessor(model, messageId), lines, html);
            Run(model, messageId, GeminiDecode.Terminated(lines), html) == r.events + Finalize(r.p).events
  {
    GeminiDecode.ScanTerminated(lines);
  }

  /** A well-formed stream: a body the reader accepts from the start, with
      every block closed, then `message_delta` with "end_turn" and 0 output
      tokens, then `message_stop`. */
  predicate WellFormed(evs: seq<Event>) {
    |evs| >= 2
    && evs[|evs| - 2] == MessageDelta("end_turn", 0) && evs[|evs| - 1] == MessageStop
    && Scan(Fresh, evs[..|evs| - 2]).Some? && Scan(Fresh, evs[..|evs| - 2]).value.open.None?
  }

  /** Whatever the upstream sends, the stream is well formed. */
  lemma {:induction false} RunWellFormed(model: string, messageId: string, body: string, html: string -> string)
    ensures WellFormed(Run(model, messageId, body, html))
  {
    var p0 := NewProcessor(model, messageId);
    var r := ProcessLines(p0, GeminiDecode.ScanLines(body), html);
    assert Run(model, messageId, body, html) == r.events + Finalize(r.p).events;
    if r.p.st.startSent {
      EndStarted(p0, r);
    } else {
      EndUnstarted(p0, r);
    }
  }

  /** The end of a stream whose message has started. */
  lemma {:induction false} EndStarted(p0: Proc, r: POut)
    requires Inv(r.p) && Keeps(p0, r.p) && PhaseOf(p0) == Fresh && !p0.st.stopSent && p0.st.outputTokens == 0
    requires Scan(Fresh, r.events) == Some(PhaseOf(r.p)) && r.p.st.startSent
    ensures WellFormed(r.events + Finalize(r.p).events)
  {
    var f := Finalize(r.p);
    var evs := r.events + f.events;
    FinalizeCloses(r.p);
    assert evs[..|evs| - 2] == r.events + f.events[..|f.events| - 2];
    ScanThen(Fresh, PhaseOf(r.p), Phase(true, f.p.st.blockIndex, None), r.events, f.events[..|f.events| - 2]);
  }

  /** The end of a stream whose message never started: nothing but the closing pair. */
  lemma {:induction false} EndUnstarted(p0: Proc, r: POut)
    requires Inv(p0) && Inv(r.p) && Keeps(p0, r.p) && PhaseOf(p0) == Fresh && !p0.st.stopSent && p0.st.outputTokens == 0
    requires Scan(Fresh, r.events) == Some(PhaseOf(r.p)) && !r.p.st.startSent
    ensures WellFormed(r.events + Finalize(r.p).events)
  {
    NothingBeforeStart(p0, r.p, r.events);
    var f := Finalize(r.p);
    var evs := r.events + f.events;
    assert f.events == [MessageDelta("end_turn", 0), MessageStop];
    assert evs[..|evs| - 2] == r.events;
  }

  /** Before the message starts no block can have been opened. */
  lemma {:induction false} NothingBeforeStart(p: Proc, q: Proc, evs: seq<Event>)
    requires Inv(p) && PhaseOf(p) == Fresh && Inv(q) && !q.st.startSent
    requires Scan(PhaseOf(p), evs) == Some(PhaseOf(q))
    ensures !q.inThinking && !q.inText
  {
    ScanNotStarted(PhaseOf(p), evs);
  }

  /** A scan that ends unstarted has accepted nothing. */
  lemma {:induction false} ScanNotStarted(ph: Phase, evs: seq<Event>)
    requires !ph.started && Scan(ph, evs).Some? && !Scan(ph, evs).value.started
    ensures Scan(ph, evs) == Some(ph)
  {
    if |evs| > 0 {
      ScanStaysStarted(Accept(ph, evs[0]).value, evs[1..]);
    }
  }

  lemma {:induction false} ScanStaysStarted(ph: Phase, evs: seq<Event>)
    requires ph.started && Scan(ph, evs).Some?
    ensures Scan(ph, evs).value.started
    decreases |evs|
  {
    if |evs| > 0 {
      ScanStaysStarted(Accept(ph, evs[0]).value, evs[1..]);
    }
  }
}

/** The translation of a Claude Messages request into the upstream
    generate request (internal/claude/request.go): conversation contents,
    generation settings, tool declarations with their cleaned JSON schemas,
    and the outer envelope. */
module ClaudeRequest {
  import opened Wrappers
  import opened Json
  import Text
  import Seqs
  import T = ClaudeTypes

  // ---------------------------------------------------------------------------
  // JSON-schema cleaning

  /** The keys `cleanJSONSchema` deletes by name. */
  const Blacklist: seq<string> := ["$schema", "additionalProperties", "default", "examples", "x-", "definitions", "$ref", "$defs"]

  /** A schema key the cleaner deletes: blacklisted, or starting "x-" or "$". */
  predicate Dropped(key: string) {
    key in Blacklist || Text.HasPrefix(key, "x-") || Text.HasPrefix(key, "$")
  }

  predicate Kept(key: string) {
    !Dropped(key)
  }

  function KeyOf(m: Member): string {
    m.key
  }

  /** `cleanJSONSchema` on a schema object: dropped keys go, the schemas
      under "properties" and "items" are cleaned in turn, everything else
      stays as it was. The members of a decoded Go map are read with the
      last duplicate winning, so cleaning every duplicate is cleaning the one
      that counts. */
  function CleanMembers(ms: seq<Member>): seq<Member>
    decreases ms
  {
    if |ms| == 0 then []
    else
      (if Dropped(ms[0].key) then [] else [Member(ms[0].key, CleanChild(ms[0].key, ms[0].value))])
      + CleanMembers(ms[1..])
  }

  /** A kept member's value: only an object under "properties" or "items" is descended into. */
  function CleanChild(key: string, v: Json): Json
    decreases v
  {
    if key == "properties" && v.JObj? then JObj(CleanProps(v.members))
    else if key == "items" && v.JObj? then JObj(CleanMembers(v.members))
    else v
  }

  /** Each property whose schema is an object is cleaned; property names are never dropped. */
  function CleanProps(ps: seq<Member>): seq<Member>
    decreases ps
  {
    if |ps| == 0 then []
    else
      (if ps[0].value.JObj? then [Member(ps[0].key, JObj(CleanMembers(ps[0].value.members)))] else [ps[0]])
      + CleanProps(ps[1..])
  }

  /** A schema object with nothing left to clean, at any depth the cleaner visits. */
  predicate CleanObject(ms: seq<Member>)
    decreases ms
  {
    |ms| == 0 || (Kept(ms[0].key) && CleanValue(ms[0].key, ms[0].value) && CleanObject(ms[1..]))
  }

  predicate CleanValue(key: string, v: Json)
    decreases v
  {
    (key == "properties" && v.JObj? ==> CleanPropsObject(v.members))
    && (key == "items" && v.JObj? ==> CleanObject(v.members))
  }

  predicate CleanPropsObject(ps: seq<Member>)
    decreases ps
  {
    |ps| == 0 || ((ps[0].value.JObj? ==> CleanObject(ps[0].value.members)) && CleanPropsObject(ps[1..]))
  }

  /** The cleaned object's keys are the original keys the cleaner keeps, in order. */
  lemma {:induction false} CleanKeys(ms: seq<Member>)
    ensures Seqs.Map(KeyOf, CleanMembers(ms)) == Seqs.Filter(Kept, Seqs.Map(KeyOf, ms))
    decreases |ms|
  {
    if |ms| > 0 {
      CleanKeys(ms[1..]);
      var keys := Seqs.Map(KeyOf, ms);
      assert keys[1..] == Seqs.Map(KeyOf, ms[1..]);
      var head: seq<Member> := if Dropped(ms[0].key) then [] else [Member(ms[0].key, CleanChild(ms[0].key, ms[0].value))];
      Seqs.MapAppend(KeyOf, head, CleanMembers(ms[1..]));
    }
  }

  /** No key of a cleaned schema is one the cleaner drops. */
  lemma {:induction false} CleanDropsAll(ms: seq<Member>, key: string)
    requires Dropped(key)
    ensures Lookup(CleanMembers(ms), key).None?
  {
    CleanKeys(ms);
    LookupFacts(CleanMembers(ms), key);
  }

  /** Cleaning leaves nothing to clean. */
  lemma {:induction false} CleanedObject(ms: seq<Member>)
    ensures CleanObject(CleanMembers(ms))
    decreases ms
  {
    if |ms| > 0 {
      CleanedObject(ms[1..]);
      var r := CleanMembers(ms);
      if Kept(ms[0].key) {
        CleanedValue(ms[0].key, ms[0].value);
        assert r[1..] == CleanMembers(ms[1..]);
      } else {
        assert r == CleanMembers(ms[1..]);
      }
    }
  }

  lemma {:induction false} CleanedValue(key: string, v: Json)
    ensures CleanValue(key, CleanChild(key, v))
    decreases v
  {
    if key == "properties" && v.JObj? {
      CleanedProps(v.members);
    } else if key == "items" && v.JObj? {
      CleanedObject(v.members);
    }
  }

  lemma {:induction false} CleanedProps(ps: seq<Member>)
    ensures CleanPropsObject(CleanProps(ps))
    decreases ps
  {
    if |ps| > 0 {
      CleanedProps(ps[1..]);
      if ps[0].value.JObj? {
        CleanedObject(ps[0].value.members);
      }
      var r := CleanProps(ps);
      assert r[1..] == CleanProps(ps[1..]);
    }
  }

  /** A schema with nothing left to clean is left as it is. */
  lemma {:induction false} CleanObjectFixed(ms: seq<Member>)
    requires CleanObject(ms)
    ensures CleanMembers(ms) == ms
    decreases ms
  {
    if |ms| > 0 {
      CleanObjectFixed(ms[1..]);
      CleanValueFixed(ms[0].key, ms[0].value);
      assert ms == [ms[0]] + ms[1..];
    }
  }

  lemma {:induction false} CleanValueFixed(key: string, v: Json)
    requires CleanValue(key, v)
    ensures CleanChild(key, v) == v
    decreases v
  {
    if key == "properties" && v.JObj? {
      CleanPropsFixed(v.members);
    } else if key == "items" && v.JObj? {
      CleanObjectFixed(v.members);
    }
  }

  lemma {:induction false} CleanPropsFixed(ps: seq<Member>)
    requires CleanPropsObject(ps)
    ensures CleanProps(ps) == ps
    decreases ps
  {
    if |ps| > 0 {
      CleanPropsFixed(ps[1..]);
      if ps[0].value.JObj? {
        CleanObjectFixed(ps[0].value.members);
      }
      assert ps == [ps[0]] + ps[1..];
    }
  }

  /** Cleaning twice is cleaning once. */
  lemma CleanIdempotent(ms: seq<Member>)
    ensures CleanMembers(CleanMembers(ms)) == CleanMembers(ms)
  {
    CleanedObject(ms);
    CleanObjectFixed(CleanMembers(ms));
  }

  // ---------------------------------------------------------------------------
  // Contents

  /** A part of an upstream content. An empty `signature` is a part without
      `thoughtSignature`, which the source only sets when non-empty. */
  datatype Part =
    | TextPart(text: string)
    | ThoughtPart(thought: string, signature: string)
    | InlineData(mimeType: string, data: string)
    | FunctionCall(name: string, args: Option<Json>, id: string, signature: string)
    | FunctionResponse(name: string, result: string, id: string, signature: string)

  datatype Content = Content(role: string, parts: seq<Part>)

  /** What the block loop carries across blocks and messages: tool names by
      tool-use ID, and the last thought signature seen. */
  datatype Carry = Carry(toolNames: map<string, string>, lastSignature: string)

  const NoCarry: Carry := Carry(map[], "")

  function RoleOf(role: string): string {
    if role == "assistant" then "model" else role
  }

  /** The name a tool result answers to: the name its tool use recorded,
      else (unknown or empty) the tool-use ID itself. */
  function ToolName(c: Carry, toolUseId: string): string {
    var n := if toolUseId in c.toolNames then c.toolNames[toolUseId] else "";
    if n == "" then toolUseId else n
  }

  /** The text of a tool result's raw content: a string as is, a list of
      objects as their string "text" fields joined by newlines, any other
      value as its JSON text. */
  function ToolResultText(content: Option<Json>): string {
    match content
    case None => ""
    case Some(JNull) => ""
    case Some(JStr(s)) => s
    case Some(JArr(es)) =>
      if forall k :: 0 <= k < |es| ==> es[k].JObj? || es[k].JNull? then Text.Join(TextFields(es), "\n")
      else Serialize(JArr(es))
    case Some(j) => Serialize(j)
  }

  /** The string "text" fields of a list of objects, skipping the rest. */
  function TextFields(es: seq<Json>): seq<string>
    decreases |es|
  {
    if |es| == 0 then []
    else (match FieldStr(es[0], "text") case Some(t) => [t] case None => []) + TextFields(es[1..])
  }

  /** Tool output given as text blocks reads as their texts, one per line. */
  lemma {:induction false} TextBlocksResult(ts: seq<string>)
    ensures ToolResultText(Some(JArr(Seqs.Map(T.TextBlockJson, ts)))) == Text.Join(ts, "\n")
  {
    var es := Seqs.Map(T.TextBlockJson, ts);
    assert forall k :: 0 <= k < |es| ==> es[k].JObj?;
    TextFieldsOfBlocks(ts);
  }

  lemma {:induction false} TextFieldsOfBlocks(ts: seq<string>)
    ensures TextFields(Seqs.Map(T.TextBlockJson, ts)) == ts
    decreases |ts|
  {
    if |ts| > 0 {
      var es := Seqs.Map(T.TextBlockJson, ts);
      assert es[1..] == Seqs.Map(T.TextBlockJson, ts[1..]);
      T.TwoMembers("text", ts[0], "text");
      TextFieldsOfBlocks(ts[1..]);
    }
  }

  const FailedNoOutput := "Tool execution failed with no output."
  const SucceededNoOutput := "Command executed successfully."

  /** A blank tool result is replaced by a fixed message chosen by `is_error`. */
  function ResultText(b: T.ContentBlock): (r: string)
    ensures Text.TrimSpace(ToolResultText(b.content)) != "" ==> r == ToolResultText(b.content)
    ensures Text.TrimSpace(ToolResultText(b.content)) == "" ==>
              r == (if b.isError == Some(true) then FailedNoOutput else SucceededNoOutput)
  {
    var s := ToolResultText(b.content);
    if Text.TrimSpace(s) != "" then s
    else if b.isError.Some? && b.isError.value then FailedNoOutput
    else SucceededNoOutput
  }

  function InlinePart(b: T.ContentBlock): seq<Part> {
    if b.source.Some? && b.source.value.sourceType == "base64" then
      [InlineData(b.source.value.mediaType, b.source.value.data)]
    else []
  }

  /** One block of `buildContents`: the part it adds, if any, and the carry after it. */
  function BlockStep(b: T.ContentBlock, thinking: bool, c: Carry): (r: (seq<Part>, Carry))
    ensures |r.0| <= 1
    ensures b.blockType == "text" ==> r.1 == c && (r.0 != [] <==> Text.TrimSpace(b.text) != "")
    ensures b.blockType == "thinking" && !thinking ==> r == (if b.thinking == "" then [] else [TextPart(b.thinking)], c)
    ensures b.blockType == "thinking" && thinking && b.thinking == "" ==> r == ([TextPart("...")], c)
    ensures b.blockType == "thinking" && thinking && b.thinking != "" ==>
              r.0 == [ThoughtPart(b.thinking, b.signature)]
              && r.1 == c.(lastSignature := if b.signature != "" then b.signature else c.lastSignature)
    ensures b.blockType == "tool_use" ==>
              r.1.toolNames == c.toolNames[b.id := b.name]
              && r.0 == [FunctionCall(b.name, b.input, b.id, r.1.lastSignature)]
              && r.1.lastSignature == (if b.signature != "" then b.signature else c.lastSignature)
    ensures b.blockType == "tool_result" ==>
              r.1 == c && r.0 == [FunctionResponse(ToolName(c, b.toolUseId), ResultText(b), b.toolUseId, c.lastSignature)]
    ensures b.blockType !in {"text", "thinking", "image", "document", "tool_use", "tool_result", "redacted_thinking"} ==> r == ([], c)
    ensures r.1.toolNames.Keys >= c.toolNames.Keys
  {
    match b.blockType
    case "text" => (if Text.TrimSpace(b.text) != "" then [TextPart(b.text)] else [], c)
    case "thinking" =>
      if !thinking then (if b.thinking != "" then [TextPart(b.thinking)] else [], c)
      else if b.thinking == "" then ([TextPart("...")], c)
      else if b.signature != "" then ([ThoughtPart(b.thinking, b.signature)], c.(lastSignature := b.signature))
      else ([ThoughtPart(b.thinking, "")], c)
    case "image" => (InlinePart(b), c)
    case "document" => (InlinePart(b), c)
    case "tool_use" =>
      var names := c.toolNames[b.id := b.name];
      if b.signature != "" then
        ([FunctionCall(b.name, b.input, b.id, b.signature)], Carry(names, b.signature))
      else
        ([FunctionCall(b.name, b.input, b.id, c.lastSignature)], Carry(names, c.lastSignature))
    case "tool_result" =>
      ([FunctionResponse(ToolName(c, b.toolUseId), ResultText(b), b.toolUseId, c.lastSignature)], c)
    case "redacted_thinking" => ([TextPart("[Redacted Thinking: " + b.data + "]")], c)
    case _ => ([], c)
  }

  /** The block loop of one message. */
  function BlockSteps(bs: seq<T.ContentBlock>, thinking: bool, c: Carry): (r: (seq<Part>, Carry))
    ensures |r.0| <= |bs|
    decreases |bs|
  {
    if |bs| == 0 then ([], c)
    else
      var (p, c1) := BlockStep(bs[0], thinking, c);
      var (ps, c2) := BlockSteps(bs[1..], thinking, c1);
      (p + ps, c2)
  }

  /** The parts of one message: non-blank string content as one text part,
      otherwise the parts of its blocks. */
  function MessageParts(m: T.Message, thinking: bool, c: Carry): (r: Result<(seq<Part>, Carry), string>)
    ensures r.Err? <==> T.ParseMessageContent(m.content).Err?
  {
    var (blocks, str) :- T.ParseMessageContent(m.content);
    if str != "" then Ok((if Text.TrimSpace(str) != "" then [TextPart(str)] else [], c))
    else Ok(BlockSteps(blocks, thinking, c))
  }

  /** `buildContents`: one content per message that yields parts, with
      "assistant" renamed "model"; the first unparsable message content fails
      the whole request. */
  function Contents(ms: seq<T.Message>, thinking: bool, c: Carry): (r: Result<(seq<Content>, Carry), string>)
    ensures r.Err? <==> exists k :: 0 <= k < |ms| && T.ParseMessageContent(ms[k].content).Err?
    ensures r.Ok? ==> |r.value.0| <= |ms|
    decreases |ms|
  {
    if |ms| == 0 then Ok(([], c))
    else
      match MessageParts(ms[0], thinking, c)
      case Err(e) => Err(e)
      case Ok((parts, c1)) =>
        match Contents(ms[1..], thinking, c1)
        case Err(e) =>
          assert exists k :: 1 <= k < |ms| && T.ParseMessageContent(ms[k].content).Err? by {
            var k :| 0 <= k < |ms[1..]| && T.ParseMessageContent(ms[1..][k].content).Err?;
            assert ms[1..][k] == ms[k + 1];
          }
          Err(e)
        case Ok((cs, c2)) =>
          assert forall k :: 1 <= k < |ms| ==> ms[k] == ms[1..][k - 1];
          Ok(((if parts == [] then [] else [Content(RoleOf(ms[0].role), parts)]) + cs, c2))
  }

  /** Every content has parts, and none keeps the role "assistant". */
  lemma {:induction false} ContentsShape(ms: seq<T.Message>, thinking: bool, c: Carry)
    requires Contents(ms, thinking, c).Ok?
    ensures forall k :: 0 <= k < |Contents(ms, thinking, c).value.0| ==>
              Contents(ms, thinking, c).value.0[k].parts != [] && Contents(ms, thinking, c).value.0[k].role != "assistant"
    decreases |ms|
  {
    if |ms| > 0 {
      var (parts, c1) := MessageParts(ms[0], thinking, c).value;
      ContentsShape(ms[1..], thinking, c1);
    }
  }

  /** The content a non-blank string message becomes. */
  function TextContent(m: (string, string)): Content {
    Content(RoleOf(m.0), [TextPart(m.1)])
  }

  /** A non-blank string message contributes its text content in front of the rest's. */
  lemma {:induction false} StringMessageStep(xs: seq<T.Message>, m: (string, string), thinking: bool, c: Carry, cs: seq<Content>)
    requires |xs| > 0 && xs[0] == T.StringMessage(m) && Text.TrimSpace(m.1) != ""
    requires Contents(xs[1..], thinking, c) == Ok((cs, c))
    ensures Contents(xs, thinking, c) == Ok(([TextContent(m)] + cs, c))
  {
    assert m.1 != "";
    assert T.ParseMessageContent(xs[0].content) == Ok(([], m.1));
    assert MessageParts(xs[0], thinking, c) == Ok(([TextPart(m.1)], c));
  }

  /** A conversation of string messages, none blank, becomes one text
      content per message in order, with the role renamed where needed. */
  lemma {:induction false} StringConversation(ms: seq<(string, string)>, thinking: bool, c: Carry)
    requires forall k :: 0 <= k < |ms| ==> Text.TrimSpace(ms[k].1) != ""
    ensures Contents(Seqs.Map(T.StringMessage, ms), thinking, c) == Ok((Seqs.Map(TextContent, ms), c))
    decreases |ms|
  {
    if |ms| > 0 {
      var xs := Seqs.Map(T.StringMessage, ms);
      var ys := Seqs.Map(TextContent, ms);
      assert xs[1..] == Seqs.Map(T.StringMessage, ms[1..]);
      assert ys == [TextContent(ms[0])] + Seqs.Map(TextContent, ms[1..]);
      assert forall k :: 0 <= k < |ms| - 1 ==> ms[1..][k] == ms[k + 1];
      StringConversation(ms[1..], thinking, c);
      assert Text.TrimSpace(ms[0].1) != "";
      StringMessageStep(xs, ms[0], thinking, c, Seqs.Map(TextContent, ms[1..]));
    }
  }

  /** A message with blank string content adds no content and changes no carry. */
  lemma {:induction false} BlankMessageSkipped(m: T.Message, rest: seq<T.Message>, thinking: bool, c: Carry)
    requires m.content.Some? && m.content.value.JStr? && Text.TrimSpace(m.content.value.s) == ""
    ensures Contents([m] + rest, thinking, c) == Contents(rest, thinking, c)
  {
    var ms := [m] + rest;
    assert ms[0] == m && ms[1..] == rest;
    var s := m.content.value.s;
    assert T.ParseMessageContent(m.content) == Ok(([], s));
    assert MessageParts(m, thinking, c) == Ok(([], c));
    match Contents(rest, thinking, c)
    case Err(e) =>
    case Ok((cs, c2)) =>
      assert Contents(ms, thinking, c) == Ok(([] + cs, c2));
      assert [] + cs == cs;
  }

  /** A tool result following the tool use with its ID answers to that
      tool's name (when the name is non-empty) and carries the use's signature. */
  lemma UseThenResult(use: T.ContentBlock, result: T.ContentBlock, thinking: bool, c: Carry)
    requires use.blockType == "tool_use" && result.blockType == "tool_result"
    requires result.toolUseId == use.id && use.name != ""
    ensures BlockSteps([use, result], thinking, c).0
            == [FunctionCall(use.name, use.input, use.id, BlockStep(use, thinking, c).1.lastSignature),
                FunctionResponse(use.name, ResultText(result), use.id, BlockStep(use, thinking, c).1.lastSignature)]
  {
    var c1 := BlockStep(use, thinking, c).1;
    assert [use, result][1..] == [result];
    assert BlockSteps([result], thinking, c1).0 == BlockStep(result, thinking, c1).0;
  }

  /** A signed thought lends its signature to the tool use after it when that
      use has none of its own. */
  lemma SignatureCarriedToToolUse(thought: T.ContentBlock, use: T.ContentBlock, c: Carry)
    requires thought.blockType == "thinking" && thought.thinking != "" && thought.signature != ""
    requires use.blockType == "tool_use" && use.signature == ""
    ensures BlockSteps([thought, use], true, c).0
            == [ThoughtPart(thought.thinking, thought.signature), FunctionCall(use.name, use.input, use.id, thought.signature)]
  {
    var c1 := BlockStep(thought, true, c).1;
    assert [thought, use][1..] == [use];
    assert BlockSteps([use], true, c1).0 == BlockStep(use, true, c1).0;
  }

  // ---------------------------------------------------------------------------
  // Tools

  /** A function declaration sent upstream. */
  datatype FunctionDecl = FunctionDecl(name: string, parameters: Json, description: Option<string>)

  /** The tools entry of the upstream request. */
  datatype ToolsOut = GoogleSearch | FunctionDeclarations(decls: seq<FunctionDecl>)

  /** The schema used when a tool has none, or one that is not an object. */
  const DefaultSchema: seq<Member> := [Member("type", JStr("object")), Member("properties", JObj([]))]

  /** A tool's parameters: its cleaned schema object; null decodes to a nil
      map and stays null; anything else is replaced by the default. */
  function ToolSchema(schema: Option<Json>): (r: Json)
    ensures r.JObj? ==> CleanObject(r.members)
  {
    match schema
    case Some(JObj(ms)) => CleanedObject(ms); JObj(CleanMembers(ms))
    case Some(JNull) => JNull
    case _ => CleanedObject(DefaultSchema); JObj(CleanMembers(DefaultSchema))
  }

  /** The tools that become function declarations: named and not web search. */
  predicate Declared(t: T.Tool) {
    !T.IsWebSearch(t) && t.name.Some?
  }

  function Decl(t: T.Tool): FunctionDecl
    requires Declared(t)
  {
    FunctionDecl(t.name.value, ToolSchema(t.inputSchema), t.description)
  }

  /** The declaration loop of `buildTools`. */
  function Decls(tools: seq<T.Tool>): (r: seq<FunctionDecl>)
    ensures |r| <= |tools|
    decreases |tools|
  {
    if |tools| == 0 then []
    else (if Declared(tools[0]) then [Decl(tools[0])] else []) + Decls(tools[1..])
  }

  /** The declarations are exactly those of the declared tools, in order. */
  lemma {:induction false} DeclsNames(tools: seq<T.Tool>)
    ensures Seqs.Map((d: FunctionDecl) => d.name, Decls(tools))
            == Seqs.Map((t: T.Tool) => t.name.GetOr(""), Seqs.Filter(Declared, tools))
    decreases |tools|
  {
    var dn := (d: FunctionDecl) => d.name;
    var tn := (t: T.Tool) => t.name.GetOr("");
    if |tools| > 0 {
      DeclsNames(tools[1..]);
      var head: seq<FunctionDecl> := if Declared(tools[0]) then [Decl(tools[0])] else [];
      Seqs.MapAppend(dn, head, Decls(tools[1..]));
      var kept: seq<T.Tool> := if Declared(tools[0]) then [tools[0]] else [];
      Seqs.MapAppend(tn, kept, Seqs.Filter(Declared, tools[1..]));
    }
  }

  lemma {:induction false} DeclsEmpty(tools: seq<T.Tool>)
    ensures Decls(tools) == [] <==> forall k :: 0 <= k < |tools| ==> !Declared(tools[k])
    decreases |tools|
  {
    if |tools| > 0 {
      DeclsEmpty(tools[1..]);
      assert forall k :: 1 <= k < |tools| ==> tools[k] == tools[1..][k - 1];
    }
  }

  predicate HasWebSearch(tools: seq<T.Tool>) {
    exists k :: 0 <= k < |tools| && T.IsWebSearch(tools[k])
  }

  /** `buildTools`: no tools at all when nothing is declared and no web search
      is asked for; Google Search alone when only web search is; otherwise the
      declarations, web search dropped. */
  function BuildTools(tools: seq<T.Tool>): (r: Option<ToolsOut>)
    ensures r.None? <==> Decls(tools) == [] && !HasWebSearch(tools)
    ensures r == Some(GoogleSearch) <==> Decls(tools) == [] && HasWebSearch(tools)
    ensures r.Some? && r.value.FunctionDeclarations? ==> r.value.decls == Decls(tools) && Decls(tools) != []
  {
    if |tools| == 0 then None
    else if Decls(tools) == [] && HasWebSearch(tools) then Some(GoogleSearch)
    else if Decls(tools) != [] then Some(FunctionDeclarations(Decls(tools)))
    else None
  }

  // ---------------------------------------------------------------------------
  // The request

  /** The five harm categories, each with threshold "OFF". */
  const SafetySettings: seq<(string, string)> := [
    ("HARM_CATEGORY_HARASSMENT", "OFF"), ("HARM_CATEGORY_HATE_SPEECH", "OFF"),
    ("HARM_CATEGORY_SEXUALLY_EXPLICIT", "OFF"), ("HARM_CATEGORY_DANGEROUS_CONTENT", "OFF"),
    ("HARM_CATEGORY_CIVIC_INTEGRITY", "OFF")]

  const DefaultMaxOutputTokens := 8192
  const DefaultThinkingBudget := 10000

  datatype GenConfig = GenConfig(
    maxOutputTokens: int, temperature: Option<string>, topP: Option<string>, topK: Option<int>,
    thinkingBudget: Option<int>)

  /** The inner request. `autoToolConfig` is the `toolConfig` entry with
      function-calling mode "AUTO". */
  datatype Inner = Inner(
    contents: seq<Content>, systemInstruction: Option<string>, safetySettings: seq<(string, string)>,
    generationConfig: GenConfig, tools: Option<ToolsOut>, autoToolConfig: bool)

  datatype Envelope = Envelope(
    project: string, requestId: string, model: string, userAgent: string, requestType: string, request: Inner)

  predicate ThinkingEnabled(req: T.ClaudeRequest) {
    req.thinking.Some? && req.thinking.value.thinkingType == "enabled"
  }

  /** The generation settings: the client's values when given, the defaults otherwise. */
  function Config(req: T.ClaudeRequest): (g: GenConfig)
    ensures g.maxOutputTokens == req.maxTokens.GetOr(DefaultMaxOutputTokens)
    ensures g.temperature == req.temperature && g.topP == req.topP && g.topK == req.topK
    ensures g.thinkingBudget.Some? <==> ThinkingEnabled(req)
    ensures ThinkingEnabled(req) ==> g.thinkingBudget.value == req.thinking.value.budgetTokens.GetOr(DefaultThinkingBudget)
  {
    GenConfig(
      if req.maxTokens.Some? then req.maxTokens.value else DefaultMaxOutputTokens,
      req.temperature, req.topP, req.topK,
      if ThinkingEnabled(req) then
        Some(if req.thinking.value.budgetTokens.Some? then req.thinking.value.budgetTokens.value else DefaultThinkingBudget)
      else None)
  }

  /** The system instruction: present only for a non-empty system prompt; a
      system value that fails to parse is ignored. */
  function SystemInstruction(system: Option<Json>): (r: Option<string>)
    ensures r.Some? <==> T.ParseSystemPrompt(system).Ok? && T.ParseSystemPrompt(system).value != ""
    ensures r.Some? ==> r.value == T.ParseSystemPrompt(system).value
  {
    match T.ParseSystemPrompt(system)
    case Ok(s) => if s != "" then Some(s) else None
    case Err(_) => None
  }

  /** The tools entry and whether `toolConfig` is set, including the source's
      fallback for web search without tools. */
  function ToolsEntry(tools: seq<T.Tool>): (Option<ToolsOut>, bool) {
    var built := BuildTools(tools);
    if built.Some? then (built, true)
    else if HasWebSearch(tools) then (Some(GoogleSearch), false)
    else (None, false)
  }

  /** `TransformRequest`. `nanos` stands for the wall clock read for the request ID. */
  function TransformRequest(req: T.ClaudeRequest, projectId: string, nanos: int): (r: Result<Envelope, string>)
    ensures r.Err? <==> exists k :: 0 <= k < |req.messages| && T.ParseMessageContent(req.messages[k].content).Err?
    ensures r.Ok? ==>
              && r.value.project == projectId && r.value.model == req.model
              && r.value.requestId == "claude-" + Text.IntToString(nanos)
              && r.value.userAgent == "gemini-web2api" && r.value.requestType == "agent"
              && r.value.request.safetySettings == SafetySettings
              && r.value.request.generationConfig == Config(req)
              && r.value.request.systemInstruction == SystemInstruction(req.system)
              && r.value.request.contents == Contents(req.messages, ThinkingEnabled(req), NoCarry).value.0
  {
    match Contents(req.messages, ThinkingEnabled(req), NoCarry)
    case Err(e) => Err("failed to build contents: " + e)
    case Ok((contents, _)) =>
      var (tools, auto) := ToolsEntry(req.tools);
      Ok(Envelope(projectId, "claude-" + Text.IntToString(nanos), req.model, "gemini-web2api", "agent",
                  Inner(contents, SystemInstruction(req.system), SafetySettings, Config(req), tools, auto)))
  }

  /** The web-search fallback after `buildTools` never applies: a web-search
      tool always makes `buildTools` return tools, so every tools entry comes
      with the AUTO tool config. */
  lemma WebSearchFallbackUnreachable(tools: seq<T.Tool>)
    ensures ToolsEntry(tools).1 <==> ToolsEntry(tools).0.Some?
    ensures ToolsEntry(tools).0 == BuildTools(tools)
  {
  }

  /** The request's tools: nothing without tools, Google Search when only web
      search was asked for, the declarations otherwise. */
  lemma RequestTools(req: T.ClaudeRequest, projectId: string, nanos: int)
    requires TransformRequest(req, projectId, nanos).Ok?
    ensures TransformRequest(req, projectId, nanos).value.request.tools == BuildTools(req.tools)
    ensures TransformRequest(req, projectId, nanos).value.request.autoToolConfig <==> BuildTools(req.tools).Some?
  {
    WebSearchFallbackUnreachable(req.tools);
  }
}

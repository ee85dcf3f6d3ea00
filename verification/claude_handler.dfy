/** The Claude-compatible endpoints (internal/adapter/claude_handler.go):
    the flattening of a conversation into one web prompt, the non-streaming
    answer, the token estimate of `count_tokens`, and the order in which the
    messages endpoint answers with an error. */
module ClaudeHandler {
  import opened Wrappers
  import opened Json
  import Text
  import Seqs
  import T = ClaudeTypes
  import CS = ClaudeStream
  import CR = ClaudeResponse
  import GeminiDecode
  import Mapping
  import Payload

  // ---------------------------------------------------------------------------
  // Prompt flattening (`buildClaudePrompt`)

  /** The label a message is written under. */
  function RoleLabel(role: string): (r: string)
    ensures r in {"Model", "System", "User"}
    ensures r == "Model" <==> role == "assistant"
    ensures r == "System" <==> role == "system"
  {
    if role == "assistant" then "Model" else if role == "system" then "System" else "User"
  }

  function RoleHead(role: string): string {
    "**" + RoleLabel(role) + "**: "
  }

  /** A tool result's content when it is a JSON string; anything else reads as "". */
  function StringContent(content: Option<Json>): string {
    if content.Some? && content.value.JStr? then content.value.s else ""
  }

  const ThinkOpen: string := "<thinking>"
  const ThinkClose: string := "</thinking>"
  const UseOpen: string := "<tool_use id=\""
  const UseClose: string := "</tool_use>"
  const ResultOpen: string := "<tool_result id=\""
  const ResultClose: string := "</tool_result>"
  /** What follows the quote closing a tool use's id, up to its name. */
  const NameRest: string := " name=\""
  const NameAttr: string := "\"" + NameRest

  /** The text one block writes and the file it uploads. `upload` stands for
      decoding the base64 data, naming the file from the clock and uploading
      it, with `None` for a failure at any of these; `marshal` stands for
      `json.Marshal` of the tool input. The tagged renderings read back
      through `ReadThinking`, `ReadToolUse` and `ReadToolResult` whenever the
      ids and the name hold no quote. */
  function BlockText(b: T.ContentBlock, upload: string -> Option<Payload.FileData>, marshal: Option<Json> -> string)
    : (r: (string, seq<Payload.FileData>))
    ensures |r.1| <= 1
    ensures r.1 != [] ==> r.0 == "[Image]"
    ensures b.blockType == "text" ==> r == (b.text, [])
    ensures b.blockType == "thinking" ==> r.1 == [] && ReadThinking(r.0) == Some(b.thinking)
    ensures b.blockType == "tool_use" ==> r.1 == []
    ensures b.blockType == "tool_use" && '"' !in b.id && '"' !in b.name ==>
              ReadToolUse(r.0) == Some((b.id, b.name, marshal(b.input)))
    ensures b.blockType == "tool_result" ==> r.1 == []
    ensures b.blockType == "tool_result" && '"' !in b.toolUseId ==>
              ReadToolResult(r.0) == Some((b.toolUseId, StringContent(b.content)))
    ensures b.blockType !in {"text", "thinking", "tool_use", "tool_result", "image"} ==> r == ("", [])
  {
    match b.blockType
    case "text" => (b.text, [])
    case "thinking" =>
      EnclosedOf(ThinkOpen, b.thinking, ThinkClose);
      (ThinkOpen + b.thinking + ThinkClose, [])
    case "tool_use" =>
      var json := marshal(b.input);
      ToolUseReads(b.id, b.name, json);
      (UseOpen + b.id + NameAttr + b.name + "\">" + json + UseClose, [])
    case "tool_result" =>
      var content := StringContent(b.content);
      ToolResultReads(b.toolUseId, content);
      (ResultOpen + b.toolUseId + "\">" + content + ResultClose, [])
    case "image" =>
      if b.source.Some? && b.source.value.sourceType == "base64" then
        match upload(b.source.value.data)
        case Some(f) => ("[Image]", [f])
        case None => ("", [])
      else ("", [])
    case _ => ("", [])
  }

  /** The text between `open` and `close` when `s` is exactly `open`,
      something, `close`. */
  function Enclosed(s: string, open: string, close: string): (r: Option<string>)
    ensures r.Some? ==> s == open + r.value + close
  {
    if |open| + |close| <= |s| && Text.HasPrefix(s, open) && Text.HasSuffix(s, close) then
      var x := s[|open|..|s| - |close|];
      assert s == s[..|open|] + x + s[|s| - |close|..];
      Some(x)
    else None
  }

  lemma {:induction false} EnclosedOf(open: string, x: string, close: string)
    ensures Enclosed(open + x + close, open, close) == Some(x)
  {
    var s := open + x + close;
    assert s[..|open|] == open && s[|s| - |close|..] == close;
    assert s[|open|..|s| - |close|] == x;
  }

  /** The thoughts inside a rendered thinking block. */
  function ReadThinking(s: string): Option<string> {
    Enclosed(s, ThinkOpen, ThinkClose)
  }

  /** The id, name and input text of a rendered tool use: the id runs to the
      first quote, the name to the next one. */
  function ReadToolUse(s: string): Option<(string, string, string)> {
    match Enclosed(s, UseOpen, UseClose)
    case None => None
    case Some(inner) =>
      match Text.Cut(inner, '"')
      case None => None
      case Some((id, rest)) =>
        if !Text.HasPrefix(rest, NameRest) then None
        else
          match Text.Cut(rest[|NameRest|..], '"')
          case None => None
          case Some((name, tail)) => if Text.HasPrefix(tail, ">") then Some((id, name, tail[1..])) else None
  }

  /** The id and content of a rendered tool result: the id runs to the first quote. */
  function ReadToolResult(s: string): Option<(string, string)> {
    match Enclosed(s, ResultOpen, ResultClose)
    case None => None
    case Some(inner) =>
      match Text.Cut(inner, '"')
      case None => None
      case Some((id, tail)) => if Text.HasPrefix(tail, ">") then Some((id, tail[1..])) else None
  }

  lemma {:induction false} ToolUseReads(id: string, name: string, json: string)
    ensures '"' !in id && '"' !in name ==>
              ReadToolUse(UseOpen + id + NameAttr + name + "\">" + json + UseClose) == Some((id, name, json))
  {
    if '"' in id || '"' in name { return; }
    var tail := ">" + json;
    var rest := NameRest + name + ['"'] + tail;
    var inner := id + ['"'] + rest;
    assert UseOpen + id + NameAttr + name + "\">" + json + UseClose == UseOpen + inner + UseClose;
    EnclosedOf(UseOpen, inner, UseClose);
    Text.CutAt(id, '"', rest);
    assert rest[..|NameRest|] == NameRest;
    assert rest[|NameRest|..] == name + ['"'] + tail;
    Text.CutAt(name, '"', tail);
    assert tail[..1] == ">" && tail[1..] == json;
  }

  lemma {:induction false} ToolResultReads(id: string, content: string)
    ensures '"' !in id ==> ReadToolResult(ResultOpen + id + "\">" + content + ResultClose) == Some((id, content))
  {
    if '"' in id { return; }
    var tail := ">" + content;
    var inner := id + ['"'] + tail;
    assert ResultOpen + id + "\">" + content + ResultClose == ResultOpen + inner + ResultClose;
    EnclosedOf(ResultOpen, inner, ResultClose);
    Text.CutAt(id, '"', tail);
    assert tail[..1] == ">" && tail[1..] == content;
  }

  function BlocksText(bs: seq<T.ContentBlock>, upload: string -> Option<Payload.FileData>, marshal: Option<Json> -> string)
    : (r: (string, seq<Payload.FileData>))
    ensures |r.1| <= |bs|
    decreases |bs|
  {
    if |bs| == 0 then ("", [])
    else
      var (t, fs) := BlockText(bs[0], upload, marshal);
      var (u, gs) := BlocksText(bs[1..], upload, marshal);
      (t + u, fs + gs)
  }

  /** One message: its role head, then (when its content parses) its text
      and a blank line. */
  function MessageText(m: T.Message, upload: string -> Option<Payload.FileData>, marshal: Option<Json> -> string)
    : (r: (string, seq<Payload.FileData>))
    ensures Text.HasPrefix(r.0, RoleHead(m.role))
    ensures T.ParseMessageContent(m.content).Err? ==> r == (RoleHead(m.role), [])
    ensures T.ParseMessageContent(m.content).Ok? ==> Text.HasSuffix(r.0, "\n\n")
  {
    var head := RoleHead(m.role);
    match T.ParseMessageContent(m.content)
    case Err(_) => (head, [])
    case Ok((blocks, str)) =>
      if str != "" then (head + str + "\n\n", [])
      else
        var (t, fs) := BlocksText(blocks, upload, marshal);
        assert (head + t + "\n\n")[..|head|] == head;
        (head + t + "\n\n", fs)
  }

  function MessagesText(ms: seq<T.Message>, upload: string -> Option<Payload.FileData>, marshal: Option<Json> -> string)
    : (r: (string, seq<Payload.FileData>))
    ensures |ms| > 0 ==> Text.HasPrefix(r.0, RoleHead(ms[0].role))
    ensures |ms| == 0 ==> r == ("", [])
    decreases |ms|
  {
    if |ms| == 0 then ("", [])
    else
      var (t, fs) := MessageText(ms[0], upload, marshal);
      var (u, gs) := MessagesText(ms[1..], upload, marshal);
      assert (t + u)[..|RoleHead(ms[0].role)|] == t[..|RoleHead(ms[0].role)|];
      (t + u, fs + gs)
  }

  /** The system prompt section: written only for a non-empty system prompt
      that parses. */
  function SystemSection(system: Option<Json>): (r: string)
    ensures r != "" <==> T.ParseSystemPrompt(system).Ok? && T.ParseSystemPrompt(system).value != ""
    ensures r != "" ==> r == "**System**: " + T.ParseSystemPrompt(system).value + "\n\n"
  {
    if system.None? then ""
    else
      match T.ParseSystemPrompt(system)
      case Ok(s) => if s != "" then "**System**: " + s + "\n\n" else ""
      case Err(_) => ""
  }

  /** `buildClaudePrompt`: the prompt and the uploaded files, in block order. */
  function BuildClaudePrompt(req: T.ClaudeRequest, upload: string -> Option<Payload.FileData>, marshal: Option<Json> -> string)
    : (r: (string, seq<Payload.FileData>))
    ensures r.1 == MessagesText(req.messages, upload, marshal).1
    ensures Text.HasPrefix(r.0, SystemSection(req.system))
    ensures |req.messages| > 0 ==> Text.HasSuffix(r.0, MessagesText(req.messages, upload, marshal).0)
  {
    var (body, files) := MessagesText(req.messages, upload, marshal);
    var written := SystemSection(req.system) + body;
    assert written[..|SystemSection(req.system)|] == SystemSection(req.system);
    assert written[|written| - |body|..] == body;
    if written == "" then ("Hello", files) else (written, files)
  }

  /** The prompt is the placeholder "Hello" exactly when nothing was written:
      no messages and no system prompt. */
  lemma HelloOnlyWhenEmpty(req: T.ClaudeRequest, upload: string -> Option<Payload.FileData>, marshal: Option<Json> -> string)
    ensures BuildClaudePrompt(req, upload, marshal).0 == "Hello" <==> |req.messages| == 0 && SystemSection(req.system) == ""
  {
    var body := MessagesText(req.messages, upload, marshal).0;
    var written := SystemSection(req.system) + body;
    if SystemSection(req.system) != "" {
      assert written[0] == '*';
    } else if |req.messages| > 0 {
      assert written == body && body[0] == '*';
    }
  }

  /** The prompt of a conversation of string messages: each text under its
      role head, followed by a blank line. */
  function StringPrompt(ms: seq<(string, string)>): string
    decreases |ms|
  {
    if |ms| == 0 then "" else RoleHead(ms[0].0) + ms[0].1 + "\n\n" + StringPrompt(ms[1..])
  }

  /** A non-empty string message is written as its head, text and a blank line. */
  lemma StringMessageText(m: (string, string), upload: string -> Option<Payload.FileData>, marshal: Option<Json> -> string)
    requires m.1 != ""
    ensures MessageText(T.StringMessage(m), upload, marshal) == (RoleHead(m.0) + m.1 + "\n\n", [])
  {
    assert T.ParseMessageContent(T.StringMessage(m).content) == Ok(([], m.1));
  }

  /** Flattening a conversation of non-empty string messages writes each
      message under its role head and uploads nothing. */
  lemma {:induction false} StringMessagesFlatten(ms: seq<(string, string)>, upload: string -> Option<Payload.FileData>,
                                                 marshal: Option<Json> -> string)
    requires forall k :: 0 <= k < |ms| ==> ms[k].1 != ""
    ensures MessagesText(Seqs.Map(T.StringMessage, ms), upload, marshal) == (StringPrompt(ms), [])
    decreases |ms|
  {
    if |ms| > 0 {
      var xs := Seqs.Map(T.StringMessage, ms);
      assert xs[1..] == Seqs.Map(T.StringMessage, ms[1..]);
      assert forall k :: 0 <= k < |ms| - 1 ==> ms[1..][k] == ms[k + 1];
      StringMessagesFlatten(ms[1..], upload, marshal);
      assert xs[0] == T.StringMessage(ms[0]);
      StringMessageText(ms[0], upload, marshal);
      var t := RoleHead(ms[0].0) + ms[0].1 + "\n\n";
      var empty: seq<Payload.FileData> := [];
      assert MessagesText(xs, upload, marshal) == (t + StringPrompt(ms[1..]), empty + empty);
      assert empty + empty == empty;
      assert StringPrompt(ms) == t + StringPrompt(ms[1..]);
    }
  }

  /** A conversation of non-empty string messages is written as the system
      section, then each message under its role head. */
  lemma {:induction false} StringConversationPrompt(req: T.ClaudeRequest, ms: seq<(string, string)>,
                                                    upload: string -> Option<Payload.FileData>, marshal: Option<Json> -> string)
    requires |ms| > 0 && req.messages == Seqs.Map(T.StringMessage, ms)
    requires forall k :: 0 <= k < |ms| ==> ms[k].1 != ""
    ensures BuildClaudePrompt(req, upload, marshal) == (SystemSection(req.system) + StringPrompt(ms), [])
  {
    StringMessagesFlatten(ms, upload, marshal);
    assert StringPrompt(ms)[0] == '*';
  }

  /** Text blocks are written one after another with nothing between them. */
  lemma {:induction false} TextBlocksFlatten(ts: seq<string>, upload: string -> Option<Payload.FileData>,
                                             marshal: Option<Json> -> string)
    ensures BlocksText(Seqs.Map(T.TextBlock, ts), upload, marshal) == (GeminiDecode.Concat(ts), [])
    decreases |ts|
  {
    if |ts| > 0 {
      var bs := Seqs.Map(T.TextBlock, ts);
      assert bs[1..] == Seqs.Map(T.TextBlock, ts[1..]);
      TextBlocksFlatten(ts[1..], upload, marshal);
    }
  }

  /** What each block writes on its own. */
  function Renderings(bs: seq<T.ContentBlock>, upload: string -> Option<Payload.FileData>, marshal: Option<Json> -> string)
    : (r: seq<string>)
    ensures |r| == |bs|
  {
    seq(|bs|, k requires 0 <= k < |bs| => BlockText(bs[k], upload, marshal).0)
  }

  /** A block list is written as each block's own rendering, in order, with
      nothing between them; so thinking, tool-use and tool-result blocks
      appear as their tagged texts. */
  lemma {:induction false} BlocksTextConcat(bs: seq<T.ContentBlock>, upload: string -> Option<Payload.FileData>,
                                            marshal: Option<Json> -> string)
    ensures BlocksText(bs, upload, marshal).0 == GeminiDecode.Concat(Renderings(bs, upload, marshal))
    decreases |bs|
  {
    if |bs| > 0 {
      BlocksTextConcat(bs[1..], upload, marshal);
      assert Renderings(bs, upload, marshal)[1..] == Renderings(bs[1..], upload, marshal);
    }
  }

  /** A message that does not parse leaves its role head and nothing else,
      so the next message follows on the same line. */
  lemma UnparsableMessageRunsOn(bad: T.Message, next: T.Message, upload: string -> Option<Payload.FileData>,
                                marshal: Option<Json> -> string)
    requires T.ParseMessageContent(bad.content).Err?
    ensures Text.HasPrefix(MessagesText([bad, next], upload, marshal).0, RoleHead(bad.role) + RoleHead(next.role))
  {
    var xs := [bad, next];
    assert xs[1..] == [next];
    var u := MessageText(next, upload, marshal).0;
    assert MessagesText([next], upload, marshal).0 == u + "";
    var w := RoleHead(bad.role) + u;
    assert MessagesText(xs, upload, marshal).0 == w + "";
    assert w[..|RoleHead(bad.role)|] == RoleHead(bad.role);
    assert u[..|RoleHead(next.role)|] == RoleHead(next.role);
    assert w[..|RoleHead(bad.role) + RoleHead(next.role)|] == RoleHead(bad.role) + u[..|RoleHead(next.role)|];
  }

  // ---------------------------------------------------------------------------
  // count_tokens

  /** A quarter of the UTF-8 length, rounded down. */
  function Quarter(s: string): nat {
    Text.ByteLen(s) / 4
  }

  function BlockTokens(bs: seq<T.ContentBlock>): nat
    decreases |bs|
  {
    if |bs| == 0 then 0
    else (if bs[0].blockType == "text" then Quarter(bs[0].text) else 0) + BlockTokens(bs[1..])
  }

  /** One message's estimate: its string content, or its text blocks; a
      content that does not parse counts nothing. */
  function MessageTokens(m: T.Message): nat {
    match T.ParseMessageContent(m.content)
    case Err(_) => 0
    case Ok((blocks, str)) => if str != "" then Quarter(str) else BlockTokens(blocks)
  }

  /** The `input_tokens` of `count_tokens`. */
  function CountTokens(ms: seq<T.Message>): nat
    decreases |ms|
  {
    if |ms| == 0 then 0 else MessageTokens(ms[0]) + CountTokens(ms[1..])
  }

  /** The estimate adds up over conversations. */
  lemma {:induction false} CountTokensAppend(a: seq<T.Message>, b: seq<T.Message>)
    ensures CountTokens(a + b) == CountTokens(a) + CountTokens(b)
    decreases |a|
  {
    if |a| > 0 {
      assert (a + b)[1..] == a[1..] + b;
      CountTokensAppend(a[1..], b);
    } else {
      assert a + b == b;
    }
  }

  /** Each text of a text-block message is estimated on its own, so the
      rounding happens per block. */
  lemma {:induction false} TextBlocksTokens(role: string, ts: seq<string>)
    ensures MessageTokens(T.Message(role, Some(JArr(Seqs.Map(T.TextBlockJson, ts))))) == SumQuarters(ts)
  {
    T.TextBlocksRead(ts);
    BlockTokensOfTexts(ts);
  }

  function SumQuarters(ts: seq<string>): nat
    decreases |ts|
  {
    if |ts| == 0 then 0 else Quarter(ts[0]) + SumQuarters(ts[1..])
  }

  lemma {:induction false} BlockTokensOfTexts(ts: seq<string>)
    ensures BlockTokens(Seqs.Map(T.TextBlock, ts)) == SumQuarters(ts)
    decreases |ts|
  {
    if |ts| > 0 {
      var bs := Seqs.Map(T.TextBlock, ts);
      assert bs[1..] == Seqs.Map(T.TextBlock, ts[1..]);
      BlockTokensOfTexts(ts[1..]);
    }
  }

  /** A string message is estimated at a quarter of its UTF-8 length. */
  lemma StringMessageTokens(m: (string, string))
    ensures MessageTokens(T.StringMessage(m)) == Text.ByteLen(m.1) / 4
  {
  }

  lemma QuarterOfSum(a: nat, b: nat)
    ensures a / 4 + b / 4 <= (a + b) / 4 <= a / 4 + b / 4 + 1
  {
  }

  lemma SumQuartersPair(x: string, y: string)
    ensures SumQuarters([x, y]) == Quarter(x) + Quarter(y)
  {
    assert [x, y][1..] == [y] && [y][1..] == [];
    assert SumQuarters([y]) == Quarter(y) + SumQuarters([]);
  }

  /** Splitting a text over two blocks can only lower the estimate, by at most one. */
  lemma SplitTextTokens(role: string, x: string, y: string)
    ensures MessageTokens(T.Message(role, Some(JArr(Seqs.Map(T.TextBlockJson, [x, y])))))
            <= MessageTokens(T.StringMessage((role, x + y)))
            <= MessageTokens(T.Message(role, Some(JArr(Seqs.Map(T.TextBlockJson, [x, y]))))) + 1
  {
    TextBlocksTokens(role, [x, y]);
    SumQuartersPair(x, y);
    StringMessageTokens((role, x + y));
    Text.ByteLenAppend(x, y);
    QuarterOfSum(Text.ByteLen(x), Text.ByteLen(y));
  }

  // ---------------------------------------------------------------------------
  // The messages endpoint

  /** An error answer: its status and the `type` and `message` of its `error` object. */
  datatype ApiError = ApiError(status: int, errorType: string, message: string)

  /** The body of an error answer. */
  function ErrorBody(e: ApiError): Json {
    JObj([Member("type", JStr("error")),
          Member("error", JObj([Member("type", JStr(e.errorType)), Member("message", JStr(e.message))]))])
  }

  datatype Reply =
    | Failed(err: ApiError)
    | Streamed(events: seq<CS.Event>)
    | Answered(response: CR.ClaudeResponse)

  /** The blocks of the non-streaming answer: the collected thoughts, then
      the collected text, each only when non-empty; one empty text block when
      both are. */
  function AnswerBlocks(text: string, thinking: string): (r: seq<T.ContentBlock>)
    ensures 1 <= |r| <= 2
    ensures |r| == 2 <==> text != "" && thinking != ""
    ensures thinking != "" ==> r[0] == T.ZeroBlock.(blockType := "thinking", thinking := thinking)
    ensures text != "" ==> r[|r| - 1] == T.TextBlock(text)
    ensures text == "" ==> (r[|r| - 1] == T.TextBlock("") <==> thinking == "")
  {
    var th: seq<T.ContentBlock> := if thinking != "" then [T.ZeroBlock.(blockType := "thinking", thinking := thinking)] else [];
    var tx: seq<T.ContentBlock> := if text != "" then [T.TextBlock(text)] else [];
    if th + tx == [] then [T.TextBlock("")] else th + tx
  }

  /** The non-streaming answer built from the whole upstream body. */
  function Answer(model: string, msgStamp: int, body: string): (r: CR.ClaudeResponse)
    ensures r.stopReason == "end_turn" && r.usage == CR.Usage(0, 0, None)
    ensures r.model == model && r.role == "assistant" && r.responseType == "message"
  {
    var chunks := GeminiDecode.Decode(body);
    CR.ClaudeResponse("msg_" + Text.IntToString(msgStamp), "message", "assistant", model,
                      AnswerBlocks(GeminiDecode.ChunkTexts(chunks), GeminiDecode.ChunkThoughts(chunks)),
                      "end_turn", CR.Usage(0, 0, None))
  }

  const NoAccounts := ApiError(503, "overloaded_error", "No available accounts")
  const EmptyMessages := ApiError(400, "invalid_request_error", "messages array is required and cannot be empty")

  /** `ClaudeMessagesHandler`. `poolEmpty` is whether the pool handed out no
      client; `body` is the decoded request or the decoder's error;
      `upstream` is the generate call, from prompt, mapped model and files to
      the response body or an error. */
  function MessagesHandler(
    poolEmpty: bool, body: Result<T.ClaudeRequest, string>, mapping: map<string, string>,
    upload: string -> Option<Payload.FileData>, marshal: Option<Json> -> string,
    upstream: (string, string, seq<Payload.FileData>) -> Result<string, string>,
    html: string -> string, msgStamp: int): (r: Reply)
    ensures poolEmpty ==> r == Failed(NoAccounts)
    ensures !poolEmpty && body.Err? ==> r == Failed(ApiError(400, "invalid_request_error", "Invalid request body: " + body.error))
    ensures !poolEmpty && body.Ok? && |body.value.messages| == 0 ==> r == Failed(EmptyMessages)
    ensures r.Streamed? || r.Answered? ==> !poolEmpty && body.Ok? && |body.value.messages| > 0
  {
    if poolEmpty then Failed(NoAccounts)
    else if body.Err? then Failed(ApiError(400, "invalid_request_error", "Invalid request body: " + body.error))
    else
      var req := body.value;
      if |req.messages| == 0 then Failed(EmptyMessages)
      else
        var (prompt, files) := BuildClaudePrompt(req, upload, marshal);
        match upstream(prompt, Mapping.MapModel(mapping, req.model), files)
        case Err(e) => Failed(ApiError(500, "api_error", "Failed to communicate with Gemini: " + e))
        case Ok(respBody) =>
          var msgId := "msg_" + Text.IntToString(msgStamp);
          if req.stream then Streamed(CS.Run(req.model, msgId, respBody, html))
          else Answered(Answer(req.model, msgStamp, respBody))
  }

  /** Once the request is accepted, the upstream call decides between an
      `api_error` and an answer, and the stream flag between the two kinds of
      answer; a streamed answer is a well-formed event stream. */
  lemma AcceptedRequest(
    body: Result<T.ClaudeRequest, string>, mapping: map<string, string>,
    upload: string -> Option<Payload.FileData>, marshal: Option<Json> -> string,
    upstream: (string, string, seq<Payload.FileData>) -> Result<string, string>,
    html: string -> string, msgStamp: int)
    requires body.Ok? && |body.value.messages| > 0
    ensures var req := body.value;
            var prompt := BuildClaudePrompt(req, upload, marshal);
            var up := upstream(prompt.0, Mapping.MapModel(mapping, req.model), prompt.1);
            var r := MessagesHandler(false, body, mapping, upload, marshal, upstream, html, msgStamp);
            && (up.Err? <==> r.Failed?)
            && (up.Err? ==> r.err.status == 500 && r.err.errorType == "api_error")
            && (up.Ok? && req.stream ==> r.Streamed? && CS.WellFormed(r.events))
            && (up.Ok? && !req.stream ==> r.Answered?)
  {
    var req := body.value;
    var prompt := BuildClaudePrompt(req, upload, marshal);
    var up := upstream(prompt.0, Mapping.MapModel(mapping, req.model), prompt.1);
    if up.Ok? && req.stream {
      CS.RunWellFormed(req.model, "msg_" + Text.IntToString(msgStamp), up.value, html);
    }
  }

  /** `ClaudeCountTokensHandler`: the estimate, or the decoder's error. */
  function CountTokensHandler(body: Result<T.ClaudeRequest, string>): (r: Result<nat, ApiError>)
    ensures body.Err? <==> r.Err?
    ensures r.Err? ==> r.error == ApiError(400, "invalid_request_error", "Invalid request body: " + body.error)
    ensures r.Ok? ==> r.value == CountTokens(body.value.messages)
  {
    match body
    case Err(e) => Err(ApiError(400, "invalid_request_error", "Invalid request body: " + e))
    case Ok(req) => Ok(CountTokens(req.messages))
  }
}

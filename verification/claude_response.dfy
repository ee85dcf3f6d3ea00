/** The translation of an upstream generate response into a Claude Messages
    response (internal/claude/response.go): content blocks from the first
    candidate's parts, the stop reason, a web-search block for grounded
    answers, and the token usage. */
module ClaudeResponse {
  import opened Wrappers
  import opened Json
  import Text
  import T = ClaudeTypes

  datatype FunctionCall = FunctionCall(name: string, id: Option<string>, args: Option<Json>)

  /** A part of a candidate; every field may be absent. */
  datatype GeminiPart = GeminiPart(
    text: Option<string>, thought: Option<bool>, thoughtSignature: Option<string>, functionCall: Option<FunctionCall>)

  /** Grounding metadata: the search queries and how many grounding chunks came back. */
  datatype Grounding = Grounding(webSearchQueries: seq<string>, chunkCount: nat)

  /** A candidate; `content` is the parts of its content, absent when the content is. */
  datatype Candidate = Candidate(content: Option<seq<GeminiPart>>, finishReason: Option<string>, grounding: Option<Grounding>)

  datatype UsageMetadata = UsageMetadata(promptTokens: Option<int>, candidatesTokens: Option<int>, cachedTokens: Option<int>)

  datatype GeminiResponse = GeminiResponse(candidates: seq<Candidate>, usage: Option<UsageMetadata>)

  datatype Usage = Usage(inputTokens: int, outputTokens: int, cacheReadInputTokens: Option<int>)

  datatype ClaudeResponse = ClaudeResponse(
    id: string, responseType: string, role: string, model: string,
    content: seq<T.ContentBlock>, stopReason: string, usage: Usage)

  /** The stop reason the finish reason gives in `TransformResponse`:
      MAX_TOKENS counts as a normal end of turn there. */
  function FinishStop(reason: Option<string>): string {
    if reason.None? then "end_turn"
    else
      match reason.value
      case "STOP" => "end_turn"
      case "MAX_TOKENS" => "end_turn"
      case "SAFETY" => "stop_sequence"
      case "RECITATION" => "stop_sequence"
      case "TOOL_USE" => "tool_use"
      case _ => "end_turn"
  }

  /** `MapFinishReason`: the same table, except that MAX_TOKENS maps to "max_tokens". */
  function MapFinishReason(reason: string): (r: string)
    ensures reason == "MAX_TOKENS" <==> r == "max_tokens"
    ensures reason != "MAX_TOKENS" ==> r == FinishStop(Some(reason))
  {
    match reason
    case "STOP" => "end_turn"
    case "MAX_TOKENS" => "max_tokens"
    case "SAFETY" => "stop_sequence"
    case "RECITATION" => "stop_sequence"
    case "TOOL_USE" => "tool_use"
    case _ => "end_turn"
  }

  /** The two tables disagree on MAX_TOKENS, and only there. */
  lemma MaxTokensMappedTwoWays()
    ensures FinishStop(Some("MAX_TOKENS")) == "end_turn" && MapFinishReason("MAX_TOKENS") == "max_tokens"
  {
  }

  predicate IsThought(p: GeminiPart) {
    p.thought == Some(true) && p.text.Some?
  }

  predicate IsText(p: GeminiPart) {
    !IsThought(p) && p.text.Some? && p.text.value != ""
  }

  /** A part taken as a function call: only when it is neither a thought nor non-empty text. */
  predicate IsCall(p: GeminiPart) {
    !IsThought(p) && !IsText(p) && p.functionCall.Some?
  }

  /** The block a part becomes, if any. `stamp` is the clock read that names
      a function call without an ID of its own. */
  function PartBlock(p: GeminiPart, stamp: int): (r: Option<T.ContentBlock>)
    ensures r.None? <==> !IsThought(p) && !IsText(p) && !IsCall(p)
    ensures IsThought(p) ==> r == Some(T.ZeroBlock.(blockType := "thinking", thinking := p.text.value, signature := p.thoughtSignature.GetOr("")))
    ensures IsText(p) ==> r == Some(T.TextBlock(p.text.value))
    ensures IsCall(p) ==> r.value.blockType == "tool_use" && r.value.name == p.functionCall.value.name
                          && r.value.input == p.functionCall.value.args
                          && r.value.id == (if p.functionCall.value.id.Some? then p.functionCall.value.id.value
                                            else "toolu_" + Text.IntToString(stamp))
  {
    if p.thought.Some? && p.thought.value && p.text.Some? then
      var sig := if p.thoughtSignature.Some? then p.thoughtSignature.value else "";
      Some(T.ZeroBlock.(blockType := "thinking", thinking := p.text.value, signature := sig))
    else if p.text.Some? && p.text.value != "" then Some(T.TextBlock(p.text.value))
    else if p.functionCall.Some? then
      var fc := p.functionCall.value;
      var id := if fc.id.Some? then fc.id.value else "toolu_" + Text.IntToString(stamp);
      Some(T.ZeroBlock.(blockType := "tool_use", id := id, name := fc.name, input := fc.args))
    else None
  }

  /** The blocks of the parts from position `k` on, each part giving at most one, in order. */
  function PartBlocks(ps: seq<GeminiPart>, clock: nat -> int, k: nat): (r: seq<T.ContentBlock>)
    ensures |r| <= |ps|
    ensures forall j :: 0 <= j < |r| ==> r[j].blockType in {"thinking", "text", "tool_use"}
    decreases |ps|
  {
    if |ps| == 0 then []
    else
      (match PartBlock(ps[0], clock(k)) case Some(b) => [b] case None => []) + PartBlocks(ps[1..], clock, k + 1)
  }

  /** A part that gives a block: a thought, non-empty text or a call. */
  predicate Productive(p: GeminiPart) {
    IsThought(p) || IsText(p) || IsCall(p)
  }

  /** No blocks come out exactly when no part gives one. */
  lemma {:induction false} PartBlocksEmpty(ps: seq<GeminiPart>, clock: nat -> int, k: nat)
    ensures PartBlocks(ps, clock, k) == [] <==> forall i :: 0 <= i < |ps| ==> !Productive(ps[i])
    decreases |ps|
  {
    if |ps| > 0 {
      PartBlocksEmpty(ps[1..], clock, k + 1);
      assert forall i :: 1 <= i < |ps| ==> ps[1..][i - 1] == ps[i];
    }
  }

  /** Some part is taken as a function call. */
  predicate HasCall(ps: seq<GeminiPart>) {
    exists i :: 0 <= i < |ps| && IsCall(ps[i])
  }

  function Parts(c: Candidate): seq<GeminiPart> {
    if c.content.Some? then c.content.value else []
  }

  /** The stop reason of a candidate: "tool_use" once any part is taken as a
      call, the finish reason's otherwise. */
  function StopReason(c: Candidate): string {
    if HasCall(Parts(c)) then "tool_use" else FinishStop(c.finishReason)
  }

  /** The web-search block a grounded candidate ends with. */
  function SearchBlock(g: Grounding, stamp: int): T.ContentBlock {
    var query := if |g.webSearchQueries| > 0 then g.webSearchQueries[0] else "";
    T.ZeroBlock.(blockType := "server_tool_use", id := "srvtoolu_" + Text.IntToString(stamp), name := "web_search",
                 input := Some(JObj([Member("query", JStr(query))])))
  }

  predicate Grounded(c: Candidate) {
    c.grounding.Some? && c.grounding.value.chunkCount > 0
  }

  /** The blocks of the first candidate, before the empty-content fallback. */
  function CandidateBlocks(c: Candidate, clock: nat -> int, searchStamp: int): seq<T.ContentBlock> {
    PartBlocks(Parts(c), clock, 0) + (if Grounded(c) then [SearchBlock(c.grounding.value, searchStamp)] else [])
  }

  function Tokens(n: Option<int>): int {
    if n.Some? then n.value else 0
  }

  function UsageOf(u: Option<UsageMetadata>): (r: Usage)
    ensures u.None? ==> r == Usage(0, 0, None)
    ensures u.Some? ==> r.inputTokens == u.value.promptTokens.GetOr(0) && r.outputTokens == u.value.candidatesTokens.GetOr(0)
    ensures r.cacheReadInputTokens.Some? <==> u.Some? && u.value.cachedTokens.Some?
    ensures r.cacheReadInputTokens.Some? ==> r.cacheReadInputTokens == u.value.cachedTokens
  {
    match u
    case None => Usage(0, 0, None)
    case Some(m) => Usage(Tokens(m.promptTokens), Tokens(m.candidatesTokens), m.cachedTokens)
  }

  /** `TransformResponse`. `None` stands for a nil response; the clock reads
      that name the message, the calls and the search block are parameters. */
  function TransformResponse(resp: Option<GeminiResponse>, model: string, msgStamp: int, clock: nat -> int, searchStamp: int)
    : (r: Result<ClaudeResponse, string>)
    ensures resp.None? <==> r.Err?
    ensures r.Ok? ==> r.value.id == "msg_" + Text.IntToString(msgStamp) && r.value.responseType == "message"
                      && r.value.role == "assistant" && r.value.model == model
    ensures r.Ok? ==> |r.value.content| >= 1 && r.value.usage == UsageOf(resp.value.usage)
    ensures r.Ok? && |resp.value.candidates| == 0 ==> r.value.content == [T.TextBlock("")] && r.value.stopReason == "end_turn"
    ensures r.Ok? && |resp.value.candidates| > 0 ==> r.value.stopReason == StopReason(resp.value.candidates[0])
  {
    match resp
    case None => Err("nil gemini response")
    case Some(g) =>
      var blocks := if |g.candidates| > 0 then CandidateBlocks(g.candidates[0], clock, searchStamp) else [];
      var stop := if |g.candidates| > 0 then StopReason(g.candidates[0]) else "end_turn";
      Ok(ClaudeResponse("msg_" + Text.IntToString(msgStamp), "message", "assistant", model,
                        if |blocks| == 0 then [T.TextBlock("")] else blocks, stop, UsageOf(g.usage)))
  }

  /** The stop reason is "tool_use" exactly when some part is taken as a call
      or the finish reason is TOOL_USE. */
  lemma ToolUseStop(c: Candidate)
    ensures StopReason(c) == "tool_use" <==> HasCall(Parts(c)) || c.finishReason == Some("TOOL_USE")
  {
  }

  /** Without calls, the stop reason agrees with `MapFinishReason` on every
      finish reason except MAX_TOKENS. */
  lemma StopAgreesWithMap(c: Candidate, reason: string)
    requires !HasCall(Parts(c)) && c.finishReason == Some(reason) && reason != "MAX_TOKENS"
    ensures StopReason(c) == MapFinishReason(reason)
  {
  }

  /** A grounded first candidate ends with a single web-search block asking
      its first query; an ungrounded one has no such block. */
  lemma {:induction false} GroundedEndsWithSearch(g: GeminiResponse, model: string, msgStamp: int, clock: nat -> int, searchStamp: int)
    requires |g.candidates| > 0
    ensures var r := TransformResponse(Some(g), model, msgStamp, clock, searchStamp).value;
            Grounded(g.candidates[0]) ==>
              r.content[|r.content| - 1] == SearchBlock(g.candidates[0].grounding.value, searchStamp)
    ensures var r := TransformResponse(Some(g), model, msgStamp, clock, searchStamp).value;
            !Grounded(g.candidates[0]) ==>
              forall j :: 0 <= j < |r.content| ==> r.content[j].blockType != "server_tool_use"
  {
  }

  /** With no part producing a block and no grounding, the content is one empty text block. */
  lemma {:induction false} NothingGivesEmptyText(g: GeminiResponse, model: string, msgStamp: int, clock: nat -> int, searchStamp: int)
    requires |g.candidates| > 0 && !Grounded(g.candidates[0])
    requires forall i :: 0 <= i < |Parts(g.candidates[0])| ==> !Productive(Parts(g.candidates[0])[i])
    ensures TransformResponse(Some(g), model, msgStamp, clock, searchStamp).value.content == [T.TextBlock("")]
  {
    PartBlocksEmpty(Parts(g.candidates[0]), clock, 0);
  }
}

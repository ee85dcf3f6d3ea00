/** The OpenAI-compatible chat endpoint (internal/adapter/handler.go): the
    API-key check, the flattening of chat messages into one web prompt, the
    chunk sequence of a streamed answer and the whole answer, and the
    image-model branch that answers with generated images. */
module OpenAIHandler {
  import opened Wrappers
  import opened Json
  import Text
  import Seqs
  import GeminiDecode
  import Payload
  import ClaudeHandler

  // ---------------------------------------------------------------------------
  // API key (`AuthMiddleware`)

  /** Whether a request goes on; a rejection is a 401 with this message. */
  datatype AuthDecision = Pass | Reject(message: string)

  const MissingHeader := "Authorization header is missing"
  const BadFormat := "Invalid Authorization header format"
  const BadKey := "Invalid API Key"

  /** `requiredKey` is PROXY_API_KEY ("" when unset); `header` is the
      Authorization header ("" when missing). */
  function Authorize(requiredKey: string, header: string): (r: AuthDecision)
    ensures requiredKey == "" ==> r == Pass
    ensures requiredKey != "" && header == "" ==> r == Reject(MissingHeader)
    ensures requiredKey != "" && header != "" && (' ' !in header || Text.Cut(header, ' ').value.0 != "Bearer")
            ==> r == Reject(BadFormat)
    ensures r.Reject? ==> r.message in {MissingHeader, BadFormat, BadKey}
  {
    if requiredKey == "" then Pass
    else if header == "" then Reject(MissingHeader)
    else
      var parts := Text.SplitN2(header, ' ');
      if |parts| != 2 || parts[0] != "Bearer" then Reject(BadFormat)
      else if parts[1] != requiredKey then Reject(BadKey)
      else Pass
  }

  /** With a key configured, exactly the header "Bearer " followed by the key
      passes. */
  lemma AuthAcceptsExactlyBearer(requiredKey: string, header: string)
    requires requiredKey != ""
    ensures Authorize(requiredKey, header) == Pass <==> header == "Bearer " + requiredKey
  {
    assert "Bearer " + requiredKey == "Bearer" + [' '] + requiredKey;
    if header == "Bearer " + requiredKey {
      Text.CutAt("Bearer", ' ', requiredKey);
    } else if header != "" && ' ' in header {
      var c := Text.Cut(header, ' ').value;
      assert c.0 + [' '] + c.1 == header;
      assert Text.SplitN2(header, ' ') == [c.0, c.1];
    }
  }

  /** A header of the right form with another token is told apart from a
      malformed one. */
  lemma WrongTokenIsBadKey(requiredKey: string, token: string)
    requires requiredKey != "" && token != requiredKey
    ensures Authorize(requiredKey, "Bearer " + token) == Reject(BadKey)
  {
    assert "Bearer " + token == "Bearer" + [' '] + token;
    Text.CutAt("Bearer", ' ', token);
  }

  // ---------------------------------------------------------------------------
  // Model routing

  /** `isImageModel`: the model name, lower-cased, contains "image". */
  predicate IsImageModel(model: string) {
    Text.ContainsLowered(model, "image")
  }

  /** "image" in any letter case anywhere in the name routes to the image branch. */
  lemma ImageInNameRoutesToImages(a: string, b: string)
    ensures IsImageModel(a + "image" + b) && IsImageModel(a + "IMAGE" + b)
  {
    var s := a + "image" + b;
    var u := a + "IMAGE" + b;
    assert Text.LowersToAt(s, |a|, "image");
    assert Text.LowersToAt(u, |a|, "image");
  }

  /** A name none of whose characters lowers to 'i' is a text model. */
  lemma NoIMeansTextModel(model: string)
    requires forall k :: 0 <= k < |model| ==> !Text.LowersTo(model[k], 'i')
    ensures !IsImageModel(model)
  {
    forall i: nat | i + 5 <= |model|
      ensures !Text.LowersToAt(model, i, "image")
    {
      assert !Text.LowersTo(model[i + 0], "image"[0]);
    }
  }

  // ---------------------------------------------------------------------------
  // Prompt flattening (the message loop of `ChatCompletionHandler`)

  /** A chat message; `content` is the decoded JSON value, `None` when absent. */
  datatype ChatMessage = ChatMessage(role: string, content: Option<Json>)

  datatype ChatRequest = ChatRequest(messages: seq<ChatMessage>, stream: bool, model: string)

  /** The label a message is written under; role names match in any case. */
  function ChatRoleLabel(role: string): (r: string)
    ensures r in {"Model", "System", "User"}
    ensures r == "Model" <==> Text.EqualFold(role, "model") || Text.EqualFold(role, "assistant")
    ensures r == "User" ==> !Text.EqualFold(role, "system")
  {
    if Text.EqualFold(role, "model") || Text.EqualFold(role, "assistant") then "Model"
    else if Text.EqualFold(role, "system") then "System"
    else "User"
  }

  function ChatHead(role: string): string {
    "**" + ChatRoleLabel(role) + "**: "
  }

  /** A string value, or "" when the value is absent or not a string. */
  function StringOr(o: Option<Json>): string {
    if o.Some? && o.value.JStr? then o.value.s else ""
  }

  /** The text an image URL writes and the file it uploads: a data URL of
      exactly two comma-separated pieces uploads its second piece (`upload`
      stands for base64 decoding, naming the file from the clock and
      uploading, `None` for a failure of any of them) and writes "[Image]";
      any other data URL writes nothing; a plain URL is quoted. */
  function ImageURLText(url: string, upload: string -> Option<Payload.FileData>): (r: (string, seq<Payload.FileData>))
    ensures !Text.HasPrefix(url, "data:") ==> r == ("[Image URL: " + url + "]", [])
    ensures r.1 != [] ==> r.0 == "[Image]" && |r.1| == 1
  {
    if Text.HasPrefix(url, "data:") then
      var pieces := Text.Split(url, ',');
      if |pieces| == 2 then
        match upload(pieces[1])
        case Some(f) => ("[Image]", [f])
        case None => ("", [])
      else ("", [])
    else ("[Image URL: " + url + "]", [])
  }

  /** A data URL with one comma uploads what follows the comma. */
  lemma DataURLUploadsPayload(head: string, data: string, upload: string -> Option<Payload.FileData>)
    requires Text.HasPrefix(head, "data:") && ',' !in head && ',' !in data
    ensures ImageURLText(head + "," + data, upload) ==
            (if upload(data).Some? then ("[Image]", [upload(data).value]) else ("", []))
  {
    var url := head + "," + data;
    assert Text.Join([head, data], [',']) == url;
    Text.SplitJoin([head, data], ',');
    assert url[..5] == head[..5];
  }

  /** What one element of an array content writes: the text of a "text"
      part, the image of an "image_url" part, nothing for anything else. */
  function PartText(p: Json, upload: string -> Option<Payload.FileData>): (r: (string, seq<Payload.FileData>))
    ensures |r.1| <= 1
    ensures !p.JObj? ==> r == ("", [])
  {
    match p
    case JObj(ms) =>
      var kind := StringOr(Lookup(ms, "type"));
      if kind == "text" then (StringOr(Lookup(ms, "text")), [])
      else if kind == "image_url" then
        match Lookup(ms, "image_url")
        case Some(JObj(im)) =>
          (match Lookup(im, "url")
           case Some(JStr(u)) => ImageURLText(u, upload)
           case _ => ("", []))
        case _ => ("", [])
      else ("", [])
    case _ => ("", [])
  }

  function PartsText(ps: seq<Json>, upload: string -> Option<Payload.FileData>): (r: (string, seq<Payload.FileData>))
    ensures |r.1| <= |ps|
    decreases |ps|
  {
    if |ps| == 0 then ("", [])
    else
      var (t, fs) := PartText(ps[0], upload);
      var (u, gs) := PartsText(ps[1..], upload);
      (t + u, fs + gs)
  }

  /** What a message's content writes: a string itself, an array its parts,
      anything else nothing. */
  function ContentText(c: Option<Json>, upload: string -> Option<Payload.FileData>): (r: (string, seq<Payload.FileData>))
    ensures c.Some? && c.value.JStr? ==> r == (c.value.s, [])
    ensures !(c.Some? && (c.value.JStr? || c.value.JArr?)) ==> r == ("", [])
  {
    match c
    case Some(JStr(s)) => (s, [])
    case Some(JArr(ps)) => PartsText(ps, upload)
    case _ => ("", [])
  }

  /** One message: role head, content, blank line. */
  function ChatMessageText(m: ChatMessage, upload: string -> Option<Payload.FileData>): (r: (string, seq<Payload.FileData>))
    ensures Text.HasPrefix(r.0, ChatHead(m.role)) && Text.HasSuffix(r.0, "\n\n")
    ensures r.1 == ContentText(m.content, upload).1
  {
    var (t, fs) := ContentText(m.content, upload);
    var w := ChatHead(m.role) + t + "\n\n";
    assert w[..|ChatHead(m.role)|] == ChatHead(m.role);
    (w, fs)
  }

  function ChatMessagesText(ms: seq<ChatMessage>, upload: string -> Option<Payload.FileData>): (r: (string, seq<Payload.FileData>))
    ensures |ms| == 0 ==> r == ("", [])
    ensures |ms| > 0 ==> Text.HasPrefix(r.0, ChatHead(ms[0].role))
    decreases |ms|
  {
    if |ms| == 0 then ("", [])
    else
      var (t, fs) := ChatMessageText(ms[0], upload);
      var (u, gs) := ChatMessagesText(ms[1..], upload);
      assert (t + u)[..|ChatHead(ms[0].role)|] == t[..|ChatHead(ms[0].role)|];
      (t + u, fs + gs)
  }

  /** The prompt and files of a chat request; "Hello" stands in for an empty prompt. */
  function BuildChatPrompt(ms: seq<ChatMessage>, upload: string -> Option<Payload.FileData>): (r: (string, seq<Payload.FileData>))
    ensures r.0 == "Hello" <==> |ms| == 0
    ensures r.1 == ChatMessagesText(ms, upload).1
  {
    var (t, fs) := ChatMessagesText(ms, upload);
    assert |ms| > 0 ==> t[0] == ChatHead(ms[0].role)[0] == '*';
    (if t == "" then "Hello" else t, fs)
  }

  function ChatStringMessage(m: (string, string)): ChatMessage {
    ChatMessage(m.0, Some(JStr(m.1)))
  }

  /** The role names both endpoints agree on. */
  predicate PlainRole(role: string) {
    role == "user" || role == "assistant" || role == "system"
  }

  lemma PlainRoleHeads(role: string)
    requires PlainRole(role)
    ensures ChatHead(role) == ClaudeHandler.RoleHead(role)
  {
    if role == "assistant" {
      assert Text.EqualFold(role, "assistant");
    } else if role == "system" {
      assert Text.EqualFold(role, "system");
    }
  }

  /** A plain conversation of non-empty string messages is flattened the
      same way here and on the Claude endpoint. */
  lemma {:induction false} ChatAgreesWithClaudePrompt(ms: seq<(string, string)>, upload: string -> Option<Payload.FileData>)
    requires forall k :: 0 <= k < |ms| ==> PlainRole(ms[k].0)
    ensures ChatMessagesText(Seqs.Map(ChatStringMessage, ms), upload) == (ClaudeHandler.StringPrompt(ms), [])
    decreases |ms|
  {
    if |ms| > 0 {
      var xs := Seqs.Map(ChatStringMessage, ms);
      assert xs[1..] == Seqs.Map(ChatStringMessage, ms[1..]);
      assert forall k :: 0 <= k < |ms| - 1 ==> ms[1..][k] == ms[k + 1];
      ChatAgreesWithClaudePrompt(ms[1..], upload);
      assert xs[0] == ChatStringMessage(ms[0]);
      PlainRoleHeads(ms[0].0);
      var empty: seq<Payload.FileData> := [];
      assert ChatMessageText(xs[0], upload) == (ClaudeHandler.RoleHead(ms[0].0) + ms[0].1 + "\n\n", empty);
      assert empty + empty == empty;
    }
  }

  /** Unlike the Claude endpoint, an assistant message sent with the role
      "model" is labelled as the model here. */
  lemma ModelRoleDiffers()
    ensures ChatHead("model") == "**Model**: " && ClaudeHandler.RoleHead("model") == "**User**: "
  {
    assert Text.EqualFold("model", "model");
  }

  // ---------------------------------------------------------------------------
  // Answers

  /** The chunks of a streamed answer, as events; the id, creation time and
      model are the same on every chunk and kept in the reply. */
  datatype ChatEvent = RoleChunk | ReasoningChunk(reasoning: string) | ContentChunk(content: string) | DoneMarker

  /** The chunks one callback sends: the thought first, then the text, each
      only when non-empty. */
  function ChunkEvents(c: GeminiDecode.Chunk): (r: seq<ChatEvent>)
    ensures |r| == (if c.thought != "" then 1 else 0) + (if c.text != "" then 1 else 0)
    ensures c.thought != "" ==> r[0] == ReasoningChunk(c.thought)
    ensures c.text != "" ==> r[|r| - 1] == ContentChunk(c.text)
    ensures forall k :: 0 <= k < |r| ==> r[k].ReasoningChunk? || r[k].ContentChunk?
  {
    (if c.thought != "" then [ReasoningChunk(c.thought)] else []) + (if c.text != "" then [ContentChunk(c.text)] else [])
  }

  function DeltaEvents(cs: seq<GeminiDecode.Chunk>): (r: seq<ChatEvent>)
    ensures forall k :: 0 <= k < |r| ==> r[k].ReasoningChunk? || r[k].ContentChunk?
    decreases |cs|
  {
    if |cs| == 0 then [] else ChunkEvents(cs[0]) + DeltaEvents(cs[1..])
  }

  /** The whole stream: the role chunk, the deltas, the end marker. */
  function StreamEvents(body: string): (r: seq<ChatEvent>)
    ensures |r| >= 2 && r[0] == RoleChunk && r[|r| - 1] == DoneMarker
    ensures forall k :: 0 < k < |r| - 1 ==> r[k].ReasoningChunk? || r[k].ContentChunk?
  {
    [RoleChunk] + DeltaEvents(GeminiDecode.Decode(body)) + [DoneMarker]
  }

  /** What a client assembles from a stream: the contents and the reasonings, in order. */
  function StreamedContent(es: seq<ChatEvent>): string
    decreases |es|
  {
    if |es| == 0 then "" else (if es[0].ContentChunk? then es[0].content else "") + StreamedContent(es[1..])
  }

  function StreamedReasoning(es: seq<ChatEvent>): string
    decreases |es|
  {
    if |es| == 0 then "" else (if es[0].ReasoningChunk? then es[0].reasoning else "") + StreamedReasoning(es[1..])
  }

  lemma {:induction false} StreamedContentAppend(a: seq<ChatEvent>, b: seq<ChatEvent>)
    ensures StreamedContent(a + b) == StreamedContent(a) + StreamedContent(b)
    decreases |a|
  {
    if |a| == 0 {
      assert a + b == b;
    } else {
      assert (a + b)[1..] == a[1..] + b;
      StreamedContentAppend(a[1..], b);
    }
  }

  lemma {:induction false} StreamedReasoningAppend(a: seq<ChatEvent>, b: seq<ChatEvent>)
    ensures StreamedReasoning(a + b) == StreamedReasoning(a) + StreamedReasoning(b)
    decreases |a|
  {
    if |a| == 0 {
      assert a + b == b;
    } else {
      assert (a + b)[1..] == a[1..] + b;
      StreamedReasoningAppend(a[1..], b);
    }
  }

  lemma StreamedAppend(a: seq<ChatEvent>, b: seq<ChatEvent>)
    ensures StreamedContent(a + b) == StreamedContent(a) + StreamedContent(b)
    ensures StreamedReasoning(a + b) == StreamedReasoning(a) + StreamedReasoning(b)
  {
    StreamedContentAppend(a, b);
    StreamedReasoningAppend(a, b);
  }

  lemma ChunkEventsRead(c: GeminiDecode.Chunk)
    ensures StreamedContent(ChunkEvents(c)) == c.text && StreamedReasoning(ChunkEvents(c)) == c.thought
  {
    var th: seq<ChatEvent> := if c.thought != "" then [ReasoningChunk(c.thought)] else [];
    var tx: seq<ChatEvent> := if c.text != "" then [ContentChunk(c.text)] else [];
    StreamedAppend(th, tx);
  }

  /** The deltas carry every chunk's text and thought, in order. */
  lemma {:induction false} DeltasCarryChunks(cs: seq<GeminiDecode.Chunk>)
    ensures StreamedContent(DeltaEvents(cs)) == GeminiDecode.ChunkTexts(cs)
    ensures StreamedReasoning(DeltaEvents(cs)) == GeminiDecode.ChunkThoughts(cs)
    decreases |cs|
  {
    if |cs| > 0 {
      DeltasCarryChunks(cs[1..]);
      ChunkEventsRead(cs[0]);
      StreamedAppend(ChunkEvents(cs[0]), DeltaEvents(cs[1..]));
    }
  }

  /** The streamed and the whole answer to the same upstream body say the
      same: the streamed contents add up to the whole answer's content, the
      streamed reasonings to its reasoning_content. */
  lemma StreamMatchesCompletion(body: string)
    ensures StreamedContent(StreamEvents(body)) == GeminiDecode.ChunkTexts(GeminiDecode.Decode(body))
    ensures StreamedReasoning(StreamEvents(body)) == GeminiDecode.ChunkThoughts(GeminiDecode.Decode(body))
  {
    var ds := DeltaEvents(GeminiDecode.Decode(body));
    DeltasCarryChunks(GeminiDecode.Decode(body));
    StreamedAppend([RoleChunk], ds);
    StreamedAppend([RoleChunk] + ds, [DoneMarker]);
  }

  /** Every delivered chunk sends at least one event: none is empty. */
  lemma {:induction false} EveryChunkSends(cs: seq<GeminiDecode.Chunk>)
    requires forall k :: 0 <= k < |cs| ==> cs[k].text != "" || cs[k].thought != ""
    ensures |DeltaEvents(cs)| >= |cs|
    decreases |cs|
  {
    if |cs| > 0 {
      EveryChunkSends(cs[1..]);
    }
  }

  // ---------------------------------------------------------------------------
  // The image-model branch (`handleImageChatRequest`)

  /** The prompt a user message's content gives: a string itself, an array
      the "text" of its first object element that has a string one (whatever
      its type), anything else "". */
  function UserPrompt(c: Option<Json>): string {
    match c
    case Some(JStr(s)) => s
    case Some(JArr(ps)) => FirstText(ps)
    case _ => ""
  }

  function FirstText(ps: seq<Json>): (r: string)
    ensures r != "" ==> exists k :: 0 <= k < |ps| && ps[k].JObj? && Lookup(ps[k].members, "text") == Some(JStr(r))
    decreases |ps|
  {
    if |ps| == 0 then ""
    else if ps[0].JObj? && Lookup(ps[0].members, "text").Some? && Lookup(ps[0].members, "text").value.JStr? then
      Lookup(ps[0].members, "text").value.s
    else
      var r := FirstText(ps[1..]);
      assert r != "" ==> exists k :: 1 <= k < |ps| && ps[k] == ps[1..][k - 1] && ps[k].JObj? && Lookup(ps[k].members, "text") == Some(JStr(r));
      r
  }

  /** The prompt of the last message whose role is "user" in any case; ""
      when there is none. Earlier user messages are never consulted. */
  function LastUserPrompt(ms: seq<ChatMessage>): string
    decreases |ms|
  {
    if |ms| == 0 then ""
    else if Text.EqualFold(ms[|ms| - 1].role, "user") then UserPrompt(ms[|ms| - 1].content)
    else LastUserPrompt(ms[..|ms| - 1])
  }

  /** A later user message decides the prompt alone; a later message of any
      other role changes nothing. */
  lemma LastUserDecides(ms: seq<ChatMessage>, m: ChatMessage)
    ensures Text.EqualFold(m.role, "user") ==> LastUserPrompt(ms + [m]) == UserPrompt(m.content)
    ensures !Text.EqualFold(m.role, "user") ==> LastUserPrompt(ms + [m]) == LastUserPrompt(ms)
  {
    assert (ms + [m])[..|ms|] == ms;
  }

  /** The markdown of the fetched images, numbered from `i + 1` by position
      in the URL list; a URL whose fetch fails is skipped but keeps its
      number. `fetch` stands for fetching the full-size image and base64
      encoding it. */
  function ImagesMarkdown(urls: seq<string>, fetch: string -> Option<string>, i: nat): (r: string)
    ensures r == "" <==> forall k :: 0 <= k < |urls| ==> fetch(GeminiDecode.FullSize(urls[k])).None?
    decreases |urls|
  {
    if |urls| == 0 then ""
    else
      var rest := ImagesMarkdown(urls[1..], fetch, i + 1);
      assert forall k :: 1 <= k < |urls| ==> urls[k] == urls[1..][k - 1];
      match fetch(GeminiDecode.FullSize(urls[0]))
      case Some(b64) =>
        "![Generated Image " + Text.NatToString(i + 1) + "](data:image/png;base64," + b64 + ")\n\n" + rest
      case None => rest
  }

  /** An error answer: a bare message, or a `server_error` object. */
  datatype ChatError = PlainError(message: string) | ServerError(message: string)

  datatype ChatReply =
    | ChatFailed(status: int, error: ChatError)
    | ChatStream(id: string, created: int, model: string, events: seq<ChatEvent>)
    | ChatCompletion(id: string, created: int, model: string, content: string, reasoning: Option<string>)

  /** The answer of the image branch from the image URLs read off the upstream body. */
  function ImageAnswer(req: ChatRequest, urls: seq<string>, fetch: string -> Option<string>, nanos: int, created: int)
    : (r: ChatReply)
    ensures r.ChatFailed? ==> r.status == 500 && r.error.ServerError?
    ensures r.ChatStream? ==> req.stream && |r.events| == 3 && r.events[1].ContentChunk? && r.events[1].content != ""
    ensures r.ChatCompletion? ==> !req.stream && r.reasoning.None? && r.content != ""
  {
    if |urls| == 0 then ChatFailed(500, ServerError("No images generated"))
    else
      var content := ImagesMarkdown(urls, fetch, 0);
      var id := "chatcmpl-" + Text.IntToString(nanos);
      if content == "" then ChatFailed(500, ServerError("Failed to download images"))
      else if req.stream then ChatStream(id, created, req.model, [RoleChunk, ContentChunk(content), DoneMarker])
      else ChatCompletion(id, created, req.model, content, None)
  }

  /** An answer comes only when some image was fetched. */
  lemma ImageAnswerNeedsAFetch(req: ChatRequest, urls: seq<string>, fetch: string -> Option<string>, nanos: int, created: int)
    ensures !ImageAnswer(req, urls, fetch, nanos, created).ChatFailed? <==>
              exists k :: 0 <= k < |urls| && fetch(GeminiDecode.FullSize(urls[k])).Some?
  {
  }

  /** The image branch. `upstream` is the generate call from prompt, model
      and files to the response body or an error. */
  function ImageChat(req: ChatRequest, upstream: (string, string, seq<Payload.FileData>) -> Result<string, string>,
                     fetch: string -> Option<string>, nanos: int, created: int): (r: ChatReply)
    ensures LastUserPrompt(req.messages) == "" ==> r == ChatFailed(400, PlainError("No prompt found in messages"))
    ensures LastUserPrompt(req.messages) != "" ==>
              match upstream("Generate an image of " + LastUserPrompt(req.messages), req.model, [])
              case Err(e) => r == ChatFailed(500, PlainError(e))
              case Ok(body) => r == ImageAnswer(req, GeminiDecode.ExtractImageURLs(body), fetch, nanos, created)
  {
    var prompt := LastUserPrompt(req.messages);
    if prompt == "" then ChatFailed(400, PlainError("No prompt found in messages"))
    else
      match upstream("Generate an image of " + prompt, req.model, [])
      case Err(e) => ChatFailed(500, PlainError(e))
      case Ok(body) => ImageAnswer(req, GeminiDecode.ExtractImageURLs(body), fetch, nanos, created)
  }

  // ---------------------------------------------------------------------------
  // The endpoint (`ChatCompletionHandler`)

  /** `poolEmpty` is whether the pool handed out no client; `body` is the
      decoded request or the decoder's error; `seconds` and `nanos` are the
      clock reads naming the answer. */
  function ChatCompletionHandler(
    poolEmpty: bool, body: Result<ChatRequest, string>, upload: string -> Option<Payload.FileData>,
    upstream: (string, string, seq<Payload.FileData>) -> Result<string, string>,
    fetch: string -> Option<string>, seconds: int, nanos: int): (r: ChatReply)
    ensures poolEmpty ==> r == ChatFailed(503, PlainError("No available accounts"))
    ensures !poolEmpty && body.Err? ==> r == ChatFailed(400, PlainError(body.error))
    ensures !poolEmpty && body.Ok? && IsImageModel(body.value.model) ==> r == ImageChat(body.value, upstream, fetch, nanos, seconds)
    ensures !poolEmpty && body.Ok? && !IsImageModel(body.value.model) ==>
              var req := body.value;
              var prompt := BuildChatPrompt(req.messages, upload);
              match upstream(prompt.0, req.model, prompt.1)
              case Err(e) => r == ChatFailed(500, PlainError("Failed to communicate with Gemini: " + e))
              case Ok(b) =>
                && (req.stream ==> r == ChatStream("chatcmpl-" + Text.IntToString(seconds), seconds, req.model, StreamEvents(b)))
                && (!req.stream ==> r.ChatCompletion? && r.content == GeminiDecode.ChunkTexts(GeminiDecode.Decode(b))
                                    && r.reasoning == Some(GeminiDecode.ChunkThoughts(GeminiDecode.Decode(b))))
  {
    if poolEmpty then ChatFailed(503, PlainError("No available accounts"))
    else if body.Err? then ChatFailed(400, PlainError(body.error))
    else
      var req := body.value;
      if IsImageModel(req.model) then ImageChat(req, upstream, fetch, nanos, seconds)
      else
        var (prompt, files) := BuildChatPrompt(req.messages, upload);
        match upstream(prompt, req.model, files)
        case Err(e) => ChatFailed(500, PlainError("Failed to communicate with Gemini: " + e))
        case Ok(b) =>
          var id := "chatcmpl-" + Text.IntToString(seconds);
          if req.stream then ChatStream(id, seconds, req.model, StreamEvents(b))
          else
            var cs := GeminiDecode.Decode(b);
            ChatCompletion(id, seconds, req.model, GeminiDecode.ChunkTexts(cs), Some(GeminiDecode.ChunkThoughts(cs)))
  }
}

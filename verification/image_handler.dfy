/** The OpenAI-compatible images endpoint (internal/adapter/image_handler.go):
    the size table, the defaults and clamping applied to a request, the
    decorated prompt, the N generate attempts and the error they report when
    none yields an image, and the positional readers of decoded JSON. */
module ImageHandler {
  import opened Wrappers
  import opened Json
  import Text
  import GeminiDecode

  // ---------------------------------------------------------------------------
  // Sizes

  const AspectRatios: map<string, string> := map[
    "1024x1024" := "1:1", "512x512" := "1:1", "256x256" := "1:1",
    "1024x768" := "4:3", "1280x960" := "4:3",
    "768x1024" := "3:4", "960x1280" := "3:4",
    "1792x1024" := "16:9", "1920x1080" := "16:9",
    "1024x1792" := "9:16", "1080x1920" := "9:16",
    "1792x768" := "21:9", "2560x1080" := "21:9"
  ]

  /** `sizeToAspectRatio`: the table's ratio, "1:1" for an unlisted size. */
  function SizeToAspectRatio(size: string): (r: string)
    ensures size in AspectRatios ==> r == AspectRatios[size]
    ensures size !in AspectRatios ==> r == "1:1"
    ensures r in {"1:1", "4:3", "3:4", "16:9", "9:16", "21:9"}
  {
    if size in AspectRatios then AspectRatios[size] else "1:1"
  }

  /** Portrait sizes map to portrait ratios and landscape ones to landscape
      ratios: the table agrees with the width and height it is keyed by. */
  lemma RatiosFollowOrientation()
    ensures SizeToAspectRatio("768x1024") == "3:4" && SizeToAspectRatio("1024x768") == "4:3"
    ensures SizeToAspectRatio("1080x1920") == "9:16" && SizeToAspectRatio("1920x1080") == "16:9"
    ensures SizeToAspectRatio("2048x2048") == "1:1"
  {
    assert "2048x2048" !in AspectRatios;
  }

  // ---------------------------------------------------------------------------
  // Requests

  /** The decoded request; `n` is Go's `int`, zero when absent. */
  datatype ImageRequest = ImageRequest(
    prompt: string, model: string, n: int, size: string, responseFormat: string, quality: string, style: string)

  const DefaultModel := "gemini-2.5-flash-image"
  const DefaultSize := "1024x1024"
  const DefaultFormat := "b64_json"

  /** An error answer: a bare message, or a `server_error` object. */
  datatype ImageError = PlainError(message: string) | ServerError(message: string)

  function Clamp(n: int): (r: int)
    ensures 1 <= r <= 4
    ensures 1 <= n <= 4 ==> r == n
    ensures n < 1 ==> r == 1
    ensures n > 4 ==> r == 4
  {
    if n <= 0 then 1 else if n > 4 then 4 else n
  }

  function OrDefault(s: string, d: string): (r: string)
    ensures s != "" ==> r == s
    ensures s == "" ==> r == d
  {
    if s == "" then d else s
  }

  /** The checks and defaults before any generation: an empty prompt is a
      400; the count is clamped into 1..4; model, size and format get their
      defaults when empty. */
  function Normalize(req: ImageRequest): (r: Result<ImageRequest, ImageError>)
    ensures req.prompt == "" <==> r.Err?
    ensures r.Err? ==> r.error == PlainError("Missing 'prompt' field")
    ensures r.Ok? ==> 1 <= r.value.n <= 4 && r.value.model != "" && r.value.size != "" && r.value.responseFormat != ""
    ensures r.Ok? ==> r.value.prompt == req.prompt && r.value.quality == req.quality && r.value.style == req.style
  {
    if req.prompt == "" then Err(PlainError("Missing 'prompt' field"))
    else
      Ok(req.(n := Clamp(req.n), model := OrDefault(req.model, DefaultModel), size := OrDefault(req.size, DefaultSize),
              responseFormat := OrDefault(req.responseFormat, DefaultFormat)))
  }

  /** A request that has been normalised is left as it is. */
  lemma NormalizeIdempotent(req: ImageRequest)
    requires Normalize(req).Ok?
    ensures Normalize(Normalize(req).value) == Normalize(req)
  {
  }

  /** A request whose fields are all given and in range is taken unchanged. */
  lemma NormalizeKeepsComplete(req: ImageRequest)
    requires req.prompt != "" && 1 <= req.n <= 4 && req.model != "" && req.size != "" && req.responseFormat != ""
    ensures Normalize(req) == Ok(req)
  {
  }

  const HdSuffix := " (high quality, highly detailed, 4k resolution, hdr)"
  const VividSuffix := " (vivid colors, dramatic lighting, rich details)"
  const NaturalSuffix := " (natural lighting, realistic, photorealistic)"

  function QualitySuffix(quality: string): string {
    if quality == "hd" then HdSuffix else ""
  }

  function StyleSuffix(style: string): string {
    if style == "vivid" then VividSuffix else if style == "natural" then NaturalSuffix else ""
  }

  /** What follows the prompt: the quality phrase, then the style phrase. */
  function Decoration(quality: string, style: string): string {
    QualitySuffix(quality) + StyleSuffix(style)
  }

  const PromptLead := "Generate an image of "

  /** The prompt sent upstream: the request's prompt in a fixed sentence,
      followed by a decoration that starts with the hd phrase exactly when the
      quality is `hd`, and ends with the vivid or the natural phrase exactly
      when the style is `vivid` or `natural`. */
  function FinalPrompt(req: ImageRequest): (r: string)
    ensures Text.HasPrefix(r, PromptLead + req.prompt)
    ensures var d := r[|PromptLead + req.prompt|..];
            (Text.HasPrefix(d, HdSuffix) <==> req.quality == "hd")
            && (Text.HasSuffix(d, VividSuffix) <==> req.style == "vivid")
            && (Text.HasSuffix(d, NaturalSuffix) <==> req.style == "natural")
  {
    var head := PromptLead + req.prompt;
    var r := head + Decoration(req.quality, req.style);
    assert r[..|head|] == head && r[|head|..] == Decoration(req.quality, req.style);
    DecorationFacts(req.quality, req.style);
    r
  }

  /** Which phrases a decoration starts and ends with. */
  lemma {:induction false} DecorationFacts(quality: string, style: string)
    ensures var d := Decoration(quality, style);
            (Text.HasPrefix(d, HdSuffix) <==> quality == "hd")
            && (Text.HasSuffix(d, VividSuffix) <==> style == "vivid")
            && (Text.HasSuffix(d, NaturalSuffix) <==> style == "natural")
  {
    var q := QualitySuffix(quality);
    var t := StyleSuffix(style);
    var d := q + t;
    assert d[..|q|] == q && d[|q|..] == t;
    assert |VividSuffix| < |HdSuffix| && |NaturalSuffix| < |HdSuffix|;
    assert HdSuffix[|HdSuffix| - 2] == 'r' && VividSuffix[|VividSuffix| - 2] == 's'
           && NaturalSuffix[|NaturalSuffix| - 2] == 'c';
    if t == "" {
      assert d == q;
    } else {
      assert d[|d| - 2] == t[|t| - 2];
      assert d[|d| - |t|..] == t;
    }
    if q == "" {
      assert d == t;
    }
  }

  /** The decoration depends on the settings alone: requests with the same
      quality and style are sent the same prompt exactly when their prompts
      are equal. */
  lemma {:induction false} FinalPromptInjective(a: ImageRequest, b: ImageRequest)
    requires a.quality == b.quality && a.style == b.style
    ensures FinalPrompt(a) == FinalPrompt(b) <==> a.prompt == b.prompt
  {
    var d := Decoration(a.quality, a.style);
    var ra := PromptLead + a.prompt + d;
    var rb := PromptLead + b.prompt + d;
    assert FinalPrompt(a) == ra && FinalPrompt(b) == rb;
    if ra == rb {
      assert |a.prompt| == |b.prompt|;
      assert a.prompt == ra[|PromptLead|..|PromptLead| + |a.prompt|];
      assert b.prompt == rb[|PromptLead|..|PromptLead| + |b.prompt|];
    }
  }

  /** A plain request gets no decoration: the prompt is the sentence alone. */
  lemma PlainPromptUndecorated(req: ImageRequest)
    requires req.quality != "hd" && req.style != "vivid" && req.style != "natural"
    ensures FinalPrompt(req) == PromptLead + req.prompt
  {
  }

  // ---------------------------------------------------------------------------
  // Generation

  /** The images and the errors of attempts `i` to `n - 1`. `attempt(i)` is
      the upstream answer to attempt `i`; `extract` reads the images of an
      answer body (`extractImagesFromResponse` with the request's format). */
  function Attempts(i: nat, n: nat, attempt: nat -> Result<string, string>,
                    extract: string -> seq<GeminiDecode.ImageItem>): (r: (seq<GeminiDecode.ImageItem>, seq<string>))
    requires i <= n
    decreases n - i
  {
    if i == n then ([], [])
    else
      var (imgs, errs) := Attempts(i + 1, n, attempt, extract);
      match attempt(i)
      case Err(e) => (imgs, [e] + errs)
      case Ok(body) =>
        var got := extract(body);
        if |got| > 0 then (got + imgs, errs) else (imgs, ["No images generated"] + errs)
  }

  /** The number of attempts from `i` on that produced images. */
  function Successes(i: nat, n: nat, attempt: nat -> Result<string, string>,
                     extract: string -> seq<GeminiDecode.ImageItem>): nat
    requires i <= n
    decreases n - i
  {
    if i == n then 0
    else (if attempt(i).Ok? && |extract(attempt(i).value)| > 0 then 1 else 0) + Successes(i + 1, n, attempt, extract)
  }

  /** Every attempt either adds images or reports exactly one error. */
  lemma {:induction false} AttemptsAccount(i: nat, n: nat, attempt: nat -> Result<string, string>,
                                          extract: string -> seq<GeminiDecode.ImageItem>)
    requires i <= n
    ensures |Attempts(i, n, attempt, extract).1| + Successes(i, n, attempt, extract) == n - i
    ensures Attempts(i, n, attempt, extract).0 == [] <==> Successes(i, n, attempt, extract) == 0
    decreases n - i
  {
    if i < n {
      AttemptsAccount(i + 1, n, attempt, extract);
    }
  }

  datatype ImageReply = ImageFailed(status: int, error: ImageError) | ImagesCreated(created: int, data: seq<GeminiDecode.ImageItem>)

  /** `ImageGenerationHandler`. `poolEmpty` is whether the pool handed out no
      client; `body` is the decoded request or the decoder's error;
      `upstream` is the generate call of an attempt, from prompt and model
      to the answer body or an error; `fetch` is the image download. */
  function ImageGenerationHandler(
    poolEmpty: bool, body: Result<ImageRequest, string>,
    upstream: (nat, string, string) -> Result<string, string>,
    fetch: string -> string, created: int): (r: ImageReply)
    ensures poolEmpty ==> r == ImageFailed(503, PlainError("No available accounts"))
    ensures !poolEmpty && body.Err? ==> r == ImageFailed(400, PlainError(body.error))
    ensures !poolEmpty && body.Ok? && body.value.prompt == "" ==> r == ImageFailed(400, PlainError("Missing 'prompt' field"))
    ensures r.ImagesCreated? ==> |r.data| > 0
  {
    if poolEmpty then ImageFailed(503, PlainError("No available accounts"))
    else if body.Err? then ImageFailed(400, PlainError(body.error))
    else
      match Normalize(body.value)
      case Err(e) => ImageFailed(400, e)
      case Ok(req) =>
        var prompt := FinalPrompt(req);
        var n := req.n as nat;
        var attempt := (i: nat) => upstream(i, prompt, req.model);
        var read := (b: string) => GeminiDecode.ExtractImages(b, req.responseFormat, fetch);
        var (images, errors) := Attempts(0, n, attempt, read);
        if |images| == 0 then
          ImageFailed(500, ServerError(if |errors| > 0 then Text.Join(errors, "; ") else "Failed to generate images"))
        else ImagesCreated(created, images)
  }

  /** When no attempt yields an image, the reported message joins one error
      per attempt; the generic message is never used, since at least one
      attempt is made. */
  lemma FailureListsEveryAttempt(body: ImageRequest, upstream: (nat, string, string) -> Result<string, string>,
                                 fetch: string -> string, created: int)
    requires body.prompt != ""
    ensures var req := Normalize(body).value;
            var attempt := (i: nat) => upstream(i, FinalPrompt(req), req.model);
            var read := (b: string) => GeminiDecode.ExtractImages(b, req.responseFormat, fetch);
            var r := ImageGenerationHandler(false, Ok(body), upstream, fetch, created);
            r.ImageFailed? ==>
              && Successes(0, req.n as nat, attempt, read) == 0
              && r == ImageFailed(500, ServerError(Text.Join(Attempts(0, req.n as nat, attempt, read).1, "; ")))
              && |Attempts(0, req.n as nat, attempt, read).1| == req.n
  {
    var req := Normalize(body).value;
    var attempt := (i: nat) => upstream(i, FinalPrompt(req), req.model);
    var read := (b: string) => GeminiDecode.ExtractImages(b, req.responseFormat, fetch);
    AttemptsAccount(0, req.n as nat, attempt, read);
  }

  // ---------------------------------------------------------------------------
  // Positional readers of decoded JSON

  /** `getNestedValue`: follow array indexes; `None` (Go's nil) as soon as a
      step is not an array or the index is past its end. A JSON null decodes
      to nil, so it reads as `None` too. */
  function GetNested(data: Option<Json>, path: seq<nat>): (r: Option<Json>)
    ensures path == [] ==> r == (if data == Some(JNull) then None else data)
    decreases |path|
  {
    if data == Some(JNull) then None
    else if |path| == 0 then data
    else
      match data
      case Some(JArr(es)) => if path[0] < |es| then GetNested(Some(es[path[0]]), path[1..]) else None
      case _ => None
  }

  /** Following a path in two legs is following it at once. */
  lemma {:induction false} GetNestedAppend(data: Option<Json>, p: seq<nat>, q: seq<nat>)
    ensures GetNested(data, p + q) == GetNested(GetNested(data, p), q)
    decreases |p|
  {
    if |p| == 0 {
      assert p + q == q;
      if data == Some(JNull) {
        assert GetNested(None, q) == None;
      }
    } else if data != Some(JNull) && data.Some? && data.value.JArr? && p[0] < |data.value.elems| {
      assert (p + q)[0] == p[0] && (p + q)[1..] == p[1..] + q;
      GetNestedAppend(Some(data.value.elems[p[0]]), p[1..], q);
    } else {
      assert GetNested(None, q) == None;
    }
  }

  /** `getNestedValueStr`: the string at the path, "" when there is none. */
  function GetNestedStr(data: Option<Json>, path: seq<nat>): (r: string)
    ensures r != "" ==> GetNested(data, path) == Some(JStr(r))
    ensures GetNested(data, path).None? ==> r == ""
  {
    match GetNested(data, path)
    case Some(JStr(s)) => s
    case _ => ""
  }
}

/** The Claude Messages API types (internal/claude/types.go) and the two
    decoders of raw JSON they offer: message content, which is a string or a
    list of content blocks, and the system prompt, which is a string or a list
    of text blocks. Raw JSON arrives here already read into a `Json` value;
    absent raw JSON is `None`. */
module ClaudeTypes {
  import opened Wrappers
  import opened Json
  import Seqs

  datatype ImageSource = ImageSource(sourceType: string, mediaType: string, data: string)

  /** A content block as `encoding/json` fills `ContentBlock`: absent or null
      fields keep their zero value. */
  datatype ContentBlock = ContentBlock(
    blockType: string, text: string, thinking: string, signature: string,
    id: string, name: string, input: Option<Json>, toolUseId: string,
    content: Option<Json>, isError: Option<bool>, source: Option<ImageSource>, data: string)

  const ZeroBlock: ContentBlock := ContentBlock("", "", "", "", "", "", None, "", None, None, None, "")

  /** A tool definition; `type`, `name` and `description` may be absent. */
  datatype Tool = Tool(toolType: Option<string>, name: Option<string>, description: Option<string>, inputSchema: Option<Json>)

  /** `Tool.IsWebSearch`: a web-search type, or a web-search name. */
  predicate IsWebSearch(t: Tool) {
    (t.toolType.Some? && (t.toolType.value == "web_search" || t.toolType.value == "web_search_20250305"))
    || (t.name.Some? && (t.name.value == "web_search" || t.name.value == "google_search"))
  }

  datatype Message = Message(role: string, content: Option<Json>)

  /** A message with string content, from its role and text. */
  function StringMessage(m: (string, string)): Message {
    Message(m.0, Some(JStr(m.1)))
  }

  datatype ThinkingConfig = ThinkingConfig(thinkingType: string, budgetTokens: Option<int>)

  /** A decoded request body. Temperature and top-p are floating-point values
      the gateway only copies; they are kept as their JSON number literals. */
  datatype ClaudeRequest = ClaudeRequest(
    model: string, messages: seq<Message>, system: Option<Json>, tools: seq<Tool>, stream: bool,
    maxTokens: Option<int>, temperature: Option<string>, topP: Option<string>, topK: Option<int>,
    thinking: Option<ThinkingConfig>)

  // ---------------------------------------------------------------------------
  // Decoding struct fields

  /** A `string` field: absent or null leaves "", a string is taken, anything
      else is a type error. */
  function StrField(ms: seq<Member>, key: string): Result<string, string> {
    match Lookup(ms, key)
    case None => Ok("")
    case Some(JNull) => Ok("")
    case Some(JStr(s)) => Ok(s)
    case Some(_) => Err("json: cannot unmarshal " + key + " into a string")
  }

  /** A `map[string]interface{}` field: nil when absent or null, an object when given. */
  function MapField(ms: seq<Member>, key: string): Result<Option<Json>, string> {
    match Lookup(ms, key)
    case None => Ok(None)
    case Some(JNull) => Ok(None)
    case Some(JObj(o)) => Ok(Some(JObj(o)))
    case Some(_) => Err("json: cannot unmarshal " + key + " into a map")
  }

  /** A `*bool` field: nil when absent or null. */
  function BoolField(ms: seq<Member>, key: string): Result<Option<bool>, string> {
    match Lookup(ms, key)
    case None => Ok(None)
    case Some(JNull) => Ok(None)
    case Some(JBool(b)) => Ok(Some(b))
    case Some(_) => Err("json: cannot unmarshal " + key + " into a bool")
  }

  function DecodeSource(j: Json): Result<Option<ImageSource>, string> {
    match j
    case JNull => Ok(None)
    case JObj(ms) =>
      var t :- StrField(ms, "type");
      var mt :- StrField(ms, "media_type");
      var d :- StrField(ms, "data");
      Ok(Some(ImageSource(t, mt, d)))
    case _ => Err("json: cannot unmarshal source into claude.ImageSource")
  }

  /** The string fields of `ContentBlock`, by JSON name, in declaration order. */
  const StringKeys: seq<string> := ["type", "text", "thinking", "signature", "id", "name", "tool_use_id", "data"]

  /** The string fields named by `keys`, stopping at the first type error. */
  function StrFields(ms: seq<Member>, keys: seq<string>): (r: Result<seq<string>, string>)
    ensures r.Ok? ==> |r.value| == |keys| && forall k :: 0 <= k < |keys| ==> StrField(ms, keys[k]) == Ok(r.value[k])
    decreases |keys|
  {
    if |keys| == 0 then Ok([])
    else
      match StrField(ms, keys[0])
      case Err(e) => Err(e)
      case Ok(v) =>
        match StrFields(ms, keys[1..])
        case Err(e) => Err(e)
        case Ok(vs) =>
          assert forall k :: 1 <= k < |keys| ==> keys[k] == keys[1..][k - 1];
          Ok([v] + vs)
  }

  /** A `*ImageSource` field: nil when absent or null. */
  function SourceField(ms: seq<Member>): Result<Option<ImageSource>, string> {
    match Lookup(ms, "source")
    case None => Ok(None)
    case Some(s) => DecodeSource(s)
  }

  /** One element of a block list. A `json.RawMessage` field keeps whatever
      value is present, null included. */
  function DecodeBlock(j: Json): Result<ContentBlock, string> {
    match j
    case JNull => Ok(ZeroBlock)
    case JObj(ms) =>
      var v :- StrFields(ms, StringKeys);
      var input :- MapField(ms, "input");
      var isError :- BoolField(ms, "is_error");
      var source :- SourceField(ms);
      Ok(ContentBlock(v[0], v[1], v[2], v[3], v[4], v[5], input, v[6],
                      Lookup(ms, "content"), isError, source, v[7]))
    case _ => Err("json: cannot unmarshal into claude.ContentBlock")
  }

  /** A block list decodes when every element does, element by element. */
  function DecodeBlocks(es: seq<Json>): (r: Result<seq<ContentBlock>, string>)
    ensures r.Ok? <==> forall k :: 0 <= k < |es| ==> DecodeBlock(es[k]).Ok?
    ensures r.Ok? ==> |r.value| == |es| && forall k :: 0 <= k < |es| ==> DecodeBlock(es[k]) == Ok(r.value[k])
    decreases |es|
  {
    if |es| == 0 then Ok([])
    else
      match DecodeBlock(es[0])
      case Err(e) => Err(e)
      case Ok(b) =>
        match DecodeBlocks(es[1..])
        case Err(e) =>
          assert exists k :: 1 <= k < |es| && DecodeBlock(es[k]).Err? by {
            var k :| 0 <= k < |es[1..]| && DecodeBlock(es[1..][k]).Err?;
            assert es[1..][k] == es[k + 1];
          }
          Err(e)
        case Ok(bs) =>
          assert forall k :: 1 <= k < |es| ==> es[k] == es[1..][k - 1];
          Ok([b] + bs)
  }

  // ---------------------------------------------------------------------------
  // ParseMessageContent and ParseSystemPrompt

  /** `ParseMessageContent`: a string (null reads as "") gives no blocks and
      that string; otherwise a block list gives its blocks and ""; anything
      else, absent content included, is an error. */
  function ParseMessageContent(raw: Option<Json>): (r: Result<(seq<ContentBlock>, string), string>)
    ensures raw.Some? && raw.value.JStr? ==> r == Ok(([], raw.value.s))
    ensures raw == Some(JNull) ==> r == Ok(([], ""))
    ensures raw.Some? && raw.value.JArr? ==>
              (r.Ok? <==> forall k :: 0 <= k < |raw.value.elems| ==> DecodeBlock(raw.value.elems[k]).Ok?)
              && (r.Ok? ==> r.value.1 == "" && |r.value.0| == |raw.value.elems|
                            && forall k :: 0 <= k < |raw.value.elems| ==> DecodeBlock(raw.value.elems[k]) == Ok(r.value.0[k]))
    ensures (raw.None? || raw.value.JBool? || raw.value.JNum? || raw.value.JObj?) ==> r.Err?
  {
    match raw
    case None => Err("unexpected end of JSON input")
    case Some(JStr(s)) => Ok(([], s))
    case Some(JNull) => Ok(([], ""))
    case Some(JArr(es)) =>
      var bs :- DecodeBlocks(es);
      Ok((bs, ""))
    case Some(_) => Err("json: cannot unmarshal into []claude.ContentBlock")
  }

  /** The `{type, text}` element of a system block list. */
  function DecodeSystemBlock(j: Json): Result<(string, string), string> {
    match j
    case JNull => Ok(("", ""))
    case JObj(ms) =>
      var t :- StrField(ms, "type");
      var x :- StrField(ms, "text");
      Ok((t, x))
    case _ => Err("json: cannot unmarshal into a system block")
  }

  /** The concatenation of `text + "\n"` over the blocks typed "text". */
  function SystemText(bs: seq<(string, string)>): string
    decreases |bs|
  {
    if |bs| == 0 then ""
    else (if bs[0].0 == "text" then bs[0].1 + "\n" else "") + SystemText(bs[1..])
  }

  /** The system block loop, decoding as it goes. */
  function SystemBlocks(es: seq<Json>): Result<string, string>
    decreases |es|
  {
    if |es| == 0 then Ok("")
    else
      var b :- DecodeSystemBlock(es[0]);
      var rest :- SystemBlocks(es[1..]);
      Ok((if b.0 == "text" then b.1 + "\n" else "") + rest)
  }

  /** `ParseSystemPrompt`: "" when absent, the string itself (null reads as
      ""), the text blocks of a block list each followed by a newline, and an
      error for anything else. */
  function ParseSystemPrompt(raw: Option<Json>): (r: Result<string, string>)
    ensures raw.None? || raw == Some(JNull) ==> r == Ok("")
    ensures raw.Some? && raw.value.JStr? ==> r == Ok(raw.value.s)
    ensures raw.Some? && (raw.value.JBool? || raw.value.JNum? || raw.value.JObj?) ==> r.Err?
  {
    match raw
    case None => Ok("")
    case Some(JStr(s)) => Ok(s)
    case Some(JNull) => Ok("")
    case Some(JArr(es)) => SystemBlocks(es)
    case Some(_) => Err("json: cannot unmarshal into system blocks")
  }

  /** The JSON a client sends for a system block. */
  function SystemBlockJson(b: (string, string)): Json {
    JObj([Member("type", JStr(b.0)), Member("text", JStr(b.1))])
  }

  lemma {:induction false} SystemBlockRead(b: (string, string))
    ensures DecodeSystemBlock(SystemBlockJson(b)) == Ok(b)
  {
    var ms := [Member("type", JStr(b.0)), Member("text", JStr(b.1))];
    assert ms[..1] == [Member("type", JStr(b.0))];
    assert Lookup(ms, "text") == Some(JStr(b.1));
    assert Lookup(ms, "type") == Some(JStr(b.0));
  }

  /** Reading back a system block list a client wrote gives the text blocks'
      texts, each followed by a newline. */
  lemma {:induction false} SystemPromptOfBlocks(bs: seq<(string, string)>)
    ensures ParseSystemPrompt(Some(JArr(Seqs.Map(SystemBlockJson, bs)))) == Ok(SystemText(bs))
  {
    SystemBlocksRead(bs);
  }

  lemma {:induction false} SystemBlocksRead(bs: seq<(string, string)>)
    ensures SystemBlocks(Seqs.Map(SystemBlockJson, bs)) == Ok(SystemText(bs))
    decreases |bs|
  {
    var es := Seqs.Map(SystemBlockJson, bs);
    if |bs| > 0 {
      SystemBlockRead(bs[0]);
      assert es[1..] == Seqs.Map(SystemBlockJson, bs[1..]);
      SystemBlocksRead(bs[1..]);
    }
  }

  /** With no block typed "text" the system prompt is empty. */
  lemma {:induction false} NoTextBlocksNoPrompt(bs: seq<(string, string)>)
    requires forall k :: 0 <= k < |bs| ==> bs[k].0 != "text"
    ensures ParseSystemPrompt(Some(JArr(Seqs.Map(SystemBlockJson, bs)))) == Ok("")
    decreases |bs|
  {
    SystemPromptOfBlocks(bs);
    NoTextEmpty(bs);
  }

  lemma {:induction false} NoTextEmpty(bs: seq<(string, string)>)
    requires forall k :: 0 <= k < |bs| ==> bs[k].0 != "text"
    ensures SystemText(bs) == ""
    decreases |bs|
  {
    if |bs| > 0 {
      assert forall k :: 0 <= k < |bs[1..]| ==> bs[1..][k] == bs[k + 1];
      NoTextEmpty(bs[1..]);
    }
  }

  /** A text block as a client writes it. */
  function TextBlockJson(t: string): Json {
    JObj([Member("type", JStr("text")), Member("text", JStr(t))])
  }

  function TextBlock(t: string): ContentBlock {
    ZeroBlock.(blockType := "text", text := t)
  }

  /** `StrFields` collects each key's field value. */
  lemma {:induction false} StrFieldsOf(ms: seq<Member>, keys: seq<string>, vs: seq<string>)
    requires |vs| == |keys| && forall k :: 0 <= k < |keys| ==> StrField(ms, keys[k]) == Ok(vs[k])
    ensures StrFields(ms, keys) == Ok(vs)
    decreases |keys|
  {
    if |keys| > 0 {
      forall k | 0 <= k < |keys| - 1 ensures StrField(ms, keys[1..][k]) == Ok(vs[1..][k]) {
        assert keys[1..][k] == keys[k + 1];
      }
      StrFieldsOf(ms, keys[1..], vs[1..]);
      assert vs == [vs[0]] + vs[1..];
    }
  }

  /** A member list holding just a "type" and a "text". */
  lemma {:induction false} TwoMembers(t: string, x: string, key: string)
    ensures Lookup([Member("type", JStr(t)), Member("text", JStr(x))], key)
            == if key == "text" then Some(JStr(x)) else if key == "type" then Some(JStr(t)) else None
  {
    var ms := [Member("type", JStr(t)), Member("text", JStr(x))];
    var one := ms[..1];
    assert one == [Member("type", JStr(t))];
    assert one[..0] == [];
    assert Lookup(one, key) == if key == "type" then Some(JStr(t)) else Lookup(one[..0], key);
    assert Lookup(ms, key) == if key == "text" then Some(JStr(x)) else Lookup(one, key);
  }

  /** An object holding only a string "type" and a string "text" decodes to
      the block with just those two fields set. */
  lemma {:induction false} TextBlockRead(t: string)
    ensures DecodeBlock(TextBlockJson(t)) == Ok(TextBlock(t))
  {
    var ms := [Member("type", JStr("text")), Member("text", JStr(t))];
    var vs := ["text", t, "", "", "", "", "", ""];
    forall k | 0 <= k < |StringKeys| ensures StrField(ms, StringKeys[k]) == Ok(vs[k]) {
      TwoMembers("text", t, StringKeys[k]);
    }
    StrFieldsOf(ms, StringKeys, vs);
    TwoMembers("text", t, "input");
    TwoMembers("text", t, "is_error");
    TwoMembers("text", t, "source");
    TwoMembers("text", t, "content");
  }

  /** A list of text blocks a client wrote reads back as those blocks. */
  lemma {:induction false} TextBlocksRead(ts: seq<string>)
    ensures ParseMessageContent(Some(JArr(Seqs.Map(TextBlockJson, ts)))) == Ok((Seqs.Map(TextBlock, ts), ""))
  {
    var es := Seqs.Map(TextBlockJson, ts);
    forall k | 0 <= k < |es| ensures DecodeBlock(es[k]) == Ok(TextBlock(ts[k])) {
      TextBlockRead(ts[k]);
    }
    var r := ParseMessageContent(Some(JArr(es)));
    assert r.value.0 == Seqs.Map(TextBlock, ts);
  }
}

/** The legacy Python adapter's chat endpoint (openai_adapter.py): the prompt
    assembled from the messages, the content composed from the model's
    thoughts and text, and the chunks of a streamed answer. */
module PyAdapter {
  import opened Wrappers
  import opened Json
  import Text
  import Seqs

  // ---------------------------------------------------------------------------
  // Python values

  /** The mantissa of a number literal is all zeros. */
  predicate ZeroMantissa(lit: string)
    decreases |lit|
  {
    |lit| == 0 || lit[0] == 'e' || lit[0] == 'E'
    || ((lit[0] == '0' || lit[0] == '-' || lit[0] == '.') && ZeroMantissa(lit[1..]))
  }

  /** Python truthiness of a decoded JSON value. */
  predicate Truthy(j: Json) {
    match j
    case JNull => false
    case JBool(b) => b
    case JNum(lit) => !ZeroMantissa(lit)
    case JStr(s) => s != ""
    case JArr(es) => |es| > 0
    case JObj(ms) => |ms| > 0
  }

  // ---------------------------------------------------------------------------
  // Prompt assembly

  /** Message content as validated by the request model: a string or a list
      of objects. */
  datatype PyContent = StrContent(s: string) | ListContent(parts: seq<seq<Member>>)

  datatype PyMessage = PyMessage(role: string, content: PyContent)

  datatype PyRequest = PyRequest(model: string, messages: seq<PyMessage>, stream: bool)

  /** An image written to a temporary file: its extension and its base64 text. */
  datatype ImageFile = ImageFile(ext: string, encoded: string)

  const ImagePrefix := "data:image/"

  /** The extension named by a data URL header: between the first and second
      '/', up to the first ';'. */
  function ExtOf(header: string): (r: string)
    requires Text.HasPrefix(header, ImagePrefix)
    ensures ';' !in r && '/' !in r
  {
    var pieces := Text.Split(header, '/');
    assert header[4 + 6] == '/';
    assert |pieces| >= 2;
    var r := Text.Split(pieces[1], ';')[0];
    assert forall k :: 0 <= k < |r| ==> r[k] in pieces[1] by {
      var ps := Text.Split(pieces[1], ';');
      if |ps| > 1 {
        assert pieces[1] == ps[0] + [';'] + Text.Join(ps[1..], [';']);
      }
    }
    r
  }

  /** What one list element adds: a text to the prompt, an image file, or
      nothing; `None` when Python raises. `decodes` says whether base64
      decoding of a text succeeds. */
  datatype PartOut = AddText(text: string) | AddImage(file: ImageFile) | AddNothing

  function PartOutcome(part: seq<Member>, decodes: string -> bool): (r: Option<PartOut>)
    ensures Lookup(part, "type") == Some(JStr("text")) ==>
              r == (match Lookup(part, "text")
                    case None => Some(AddText(""))
                    case Some(JStr(t)) => Some(AddText(t))
                    case _ => None)
    ensures Lookup(part, "type") != Some(JStr("text")) && Lookup(part, "type") != Some(JStr("image_url")) ==> r == Some(AddNothing)
    ensures r == Some(AddNothing) || r.None? || r.value.AddText? || r.value.AddImage?
  {
    var kind := Lookup(part, "type");
    if kind == Some(JStr("text")) then
      match Lookup(part, "text")
      case None => Some(AddText(""))
      case Some(JStr(t)) => Some(AddText(t))
      case _ => None
    else if kind == Some(JStr("image_url")) then
      match Lookup(part, "image_url")
      case None => Some(AddNothing)
      case Some(JObj(im)) => ImageOutcome(Lookup(im, "url"), decodes)
      case _ => None
    else Some(AddNothing)
  }

  /** The `url` of an image part: skipped when falsy, raising when truthy but
      not a string, a file when it is a data URL of an image with a comma
      and a payload that decodes. */
  function ImageOutcome(url: Option<Json>, decodes: string -> bool): (r: Option<PartOut>)
    ensures url.None? || !Truthy(url.value) ==> r == Some(AddNothing)
    ensures r.Some? && r.value.AddImage? ==> url.Some? && url.value.JStr? && Text.HasPrefix(url.value.s, ImagePrefix)
                                             && ',' in url.value.s && decodes(r.value.file.encoded)
  {
    if url.None? || !Truthy(url.value) then Some(AddNothing)
    else if !url.value.JStr? then None
    else
      var u := url.value.s;
      if !Text.HasPrefix(u, ImagePrefix) then Some(AddNothing)
      else
        match Text.Cut(u, ',')
        case None => None
        case Some((header, encoded)) =>
          assert header[..|ImagePrefix|] == u[..|ImagePrefix|] by {
            assert u == header + [','] + encoded;
            assert ',' !in ImagePrefix;
            assert |header| >= |ImagePrefix|;
          }
          if decodes(encoded) then Some(AddImage(ImageFile(ExtOf(header), encoded))) else None
  }

  /** The texts and images of a message list, in order; `None` when Python raises. */
  function Collect(ms: seq<PyMessage>, decodes: string -> bool): (r: Option<(seq<string>, seq<ImageFile>)>)
    decreases |ms|, 0
  {
    if |ms| == 0 then Some(([], []))
    else
      match MessageOutcome(ms[0], decodes)
      case None => None
      case Some((ts, fs)) =>
        match Collect(ms[1..], decodes)
        case None => None
        case Some((us, gs)) => Some((ts + us, fs + gs))
  }

  function MessageOutcome(m: PyMessage, decodes: string -> bool): (r: Option<(seq<string>, seq<ImageFile>)>)
    ensures m.content.StrContent? ==> r == Some(([m.content.s], []))
  {
    match m.content
    case StrContent(s) => Some(([s], []))
    case ListContent(parts) => PartsOutcome(parts, decodes)
  }

  function PartsOutcome(parts: seq<seq<Member>>, decodes: string -> bool): (r: Option<(seq<string>, seq<ImageFile>)>)
    decreases |parts|
  {
    if |parts| == 0 then Some(([], []))
    else
      match PartOutcome(parts[0], decodes)
      case None => None
      case Some(out) =>
        match PartsOutcome(parts[1..], decodes)
        case None => None
        case Some((ts, fs)) =>
          match out
          case AddText(t) => Some(([t] + ts, fs))
          case AddImage(f) => Some((ts, [f] + fs))
          case AddNothing => Some((ts, fs))
  }

  const DescribePrompt := "Describe the image(s)."

  /** The prompt: the collected texts joined by newlines, or the describe
      request when that is empty and there are images. */
  function AssemblePrompt(ms: seq<PyMessage>, decodes: string -> bool): (r: Option<(string, seq<ImageFile>)>)
    ensures r.None? <==> Collect(ms, decodes).None?
    ensures r.Some? ==> r.value.1 == Collect(ms, decodes).value.1
    ensures r.Some? ==> var joined := Text.Join(Collect(ms, decodes).value.0, "\n");
                        r.value.0 == (if joined == "" && r.value.1 != [] then DescribePrompt else joined)
  {
    match Collect(ms, decodes)
    case None => None
    case Some((ts, fs)) =>
      var joined := Text.Join(ts, "\n");
      Some((if joined == "" && fs != [] then DescribePrompt else joined, fs))
  }

  function StrMessage(m: (string, string)): PyMessage {
    PyMessage(m.0, StrContent(m.1))
  }

  /** String messages contribute their texts, whatever their roles. */
  lemma {:induction false} StringMessagesCollected(ms: seq<(string, string)>, decodes: string -> bool)
    ensures Collect(Seqs.Map(StrMessage, ms), decodes) == Some((Seqs.Map(Second, ms), []))
    decreases |ms|
  {
    if |ms| > 0 {
      var xs := Seqs.Map(StrMessage, ms);
      assert xs[1..] == Seqs.Map(StrMessage, ms[1..]);
      StringMessagesCollected(ms[1..], decodes);
      var ys := Seqs.Map(Second, ms);
      assert ys == [ms[0].1] + Seqs.Map(Second, ms[1..]);
      assert xs[0] == StrMessage(ms[0]);
      var empty: seq<ImageFile> := [];
      assert empty + empty == empty;
    }
  }

  function Second(m: (string, string)): string {
    m.1
  }

  /** A conversation of string messages is prompted as its texts, one per line. */
  lemma StringConversationPrompt(ms: seq<(string, string)>, decodes: string -> bool)
    ensures AssemblePrompt(Seqs.Map(StrMessage, ms), decodes) == Some((Text.Join(Seqs.Map(Second, ms), "\n"), []))
  {
    StringMessagesCollected(ms, decodes);
  }

  /** A text part with a non-string text makes Python raise. */
  lemma NonStringTextRaises(part: seq<Member>, bad: Json, decodes: string -> bool)
    requires Lookup(part, "type") == Some(JStr("text")) && Lookup(part, "text") == Some(bad) && !bad.JStr?
    ensures PartOutcome(part, decodes).None?
  {
  }

  // ---------------------------------------------------------------------------
  // Thought cleanup

  /** The line boundaries of Python's `str.splitlines`. */
  predicate IsLineBoundary(c: char) {
    var n := c as int;
    (0x0A <= n <= 0x0D) || (0x1C <= n <= 0x1E) || n == 0x85 || n == 0x2028 || n == 0x2029
  }

  /** The characters Python's `str.strip` removes. */
  predicate IsPySpace(c: char) {
    var n := c as int;
    (0x09 <= n <= 0x0D) || (0x1C <= n <= 0x20) || n == 0x85 || n == 0xA0 || n == 0x1680
    || (0x2000 <= n <= 0x200A) || n == 0x2028 || n == 0x2029 || n == 0x202F || n == 0x205F || n == 0x3000
  }

  /** The pieces between line boundaries. This splits "\r\n" into two
      boundaries around an empty piece, and keeps a trailing empty piece,
      where `splitlines` does neither; both extra pieces are blank, and
      blank lines are dropped below, so the cleaned thoughts are the same. */
  function SplitLines(s: string): (r: seq<string>)
    ensures |r| >= 1
    ensures forall k :: 0 <= k < |r| ==> NoBoundary(r[k])
    decreases |s|
  {
    if |s| == 0 then [""]
    else
      var rest := SplitLines(s[1..]);
      if IsLineBoundary(s[0]) then [""] + rest
      else
        assert forall k :: 1 <= k < |rest| ==> rest[k] == rest[1..][k - 1];
        [[s[0]] + rest[0]] + rest[1..]
  }

  function PyStrip(s: string): (r: string)
    ensures r == [] || (!IsPySpace(r[0]) && !IsPySpace(r[|r| - 1]))
  {
    Text.TrimFuncFacts(s, IsPySpace);
    Text.TrimFunc(s, IsPySpace)
  }

  predicate NonEmpty(s: string) {
    s != ""
  }

  /** The stripped lines of the thoughts that are not blank. */
  function KeptLines(thoughts: string): seq<string> {
    Seqs.Filter(NonEmpty, Seqs.Map(PyStrip, SplitLines(thoughts)))
  }

  /** A line as the cleanup leaves it: non-empty, stripped, without boundaries. */
  predicate CleanLine(s: string) {
    s != "" && PyStrip(s) == s && NoBoundary(s)
  }

  lemma StripKeepsLine(line: string)
    requires NoBoundary(line)
    ensures PyStrip(PyStrip(line)) == PyStrip(line) && NoBoundary(PyStrip(line))
  {
    Text.TrimFuncKeeps(PyStrip(line), IsPySpace);
    var i := Text.TrimFuncSlice(line, IsPySpace);
    var r := PyStrip(line);
    forall m | 0 <= m < |r|
      ensures !IsLineBoundary(r[m])
    {
      assert r[m] == line[i + m];
    }
  }

  /** Every kept line is clean. */
  lemma KeptLinesClean(thoughts: string)
    ensures forall k :: 0 <= k < |KeptLines(thoughts)| ==> CleanLine(KeptLines(thoughts)[k])
  {
    var lines := SplitLines(thoughts);
    var stripped := Seqs.Map(PyStrip, lines);
    forall x | x in stripped
      ensures PyStrip(x) == x && NoBoundary(x)
    {
      var j :| 0 <= j < |stripped| && stripped[j] == x;
      StripKeepsLine(lines[j]);
    }
    var r := Seqs.Filter(NonEmpty, stripped);
    forall k | 0 <= k < |r|
      ensures CleanLine(r[k])
    {
      assert r[k] in stripped && NonEmpty(r[k]);
    }
  }

  /** The thoughts as the adapter shows them: every line stripped, blank
      lines dropped, the rest joined by newlines. */
  function CleanThoughts(thoughts: string): string {
    Text.Join(KeptLines(thoughts), "\n")
  }

  predicate NoBoundary(s: string) {
    forall i :: 0 <= i < |s| ==> !IsLineBoundary(s[i])
  }

  lemma {:induction false} SplitLinesPlain(a: string)
    requires NoBoundary(a)
    ensures SplitLines(a) == [a]
    decreases |a|
  {
    if |a| > 0 {
      SplitLinesPlain(a[1..]);
      assert [a[0]] + a[1..] == a;
    }
  }

  lemma {:induction false} SplitLinesAfter(a: string, rest: string)
    requires NoBoundary(a)
    ensures SplitLines(a + "\n" + rest) == [a] + SplitLines(rest)
    decreases |a|
  {
    var s := a + "\n" + rest;
    if |a| == 0 {
      assert s == "\n" + rest && s[1..] == rest;
    } else {
      assert s[1..] == a[1..] + "\n" + rest;
      SplitLinesAfter(a[1..], rest);
      assert [a[0]] + a[1..] == a;
    }
  }

  /** Lines without boundaries joined by newlines split back into themselves. */
  lemma {:induction false} SplitLinesJoin(parts: seq<string>)
    requires |parts| >= 1
    requires forall k :: 0 <= k < |parts| ==> NoBoundary(parts[k])
    ensures SplitLines(Text.Join(parts, "\n")) == parts
    decreases |parts|
  {
    if |parts| == 1 {
      SplitLinesPlain(parts[0]);
    } else {
      SplitLinesJoin(parts[1..]);
      SplitLinesAfter(parts[0], Text.Join(parts[1..], "\n"));
      assert parts == [parts[0]] + parts[1..];
    }
  }

  /** Cleaning cleaned thoughts changes nothing. */
  lemma CleanThoughtsIdempotent(thoughts: string)
    ensures CleanThoughts(CleanThoughts(thoughts)) == CleanThoughts(thoughts)
  {
    var kept := KeptLines(thoughts);
    var c := Text.Join(kept, "\n");
    KeptLinesClean(thoughts);
    if |kept| == 0 {
      assert c == "";
      assert SplitLines(c) == [""];
      assert Seqs.Map(PyStrip, [""]) == [""];
      assert Seqs.Filter(NonEmpty, [""]) == [] by {
        assert Seqs.Filter(NonEmpty, [""][1..]) == [];
      }
    } else {
      SplitLinesJoin(kept);
      var stripped := Seqs.Map(PyStrip, kept);
      assert stripped == kept;
      FilterAllKept(kept);
    }
  }

  lemma {:induction false} FilterAllKept(s: seq<string>)
    requires forall k :: 0 <= k < |s| ==> s[k] != ""
    ensures Seqs.Filter(NonEmpty, s) == s
    decreases |s|
  {
    if |s| > 0 {
      FilterAllKept(s[1..]);
      assert [s[0]] + s[1..] == s;
    }
  }

  /** The newline-separated lines of the cleaned thoughts are exactly the
      kept lines. */
  lemma CleanThoughtsLines(thoughts: string)
    requires KeptLines(thoughts) != []
    ensures Text.Split(CleanThoughts(thoughts), '\n') == KeptLines(thoughts)
  {
    var kept := KeptLines(thoughts);
    KeptLinesClean(thoughts);
    forall k | 0 <= k < |kept|
      ensures '\n' !in kept[k]
    {
      assert CleanLine(kept[k]);
    }
    Text.SplitJoin(kept, '\n');
  }

  // ---------------------------------------------------------------------------
  // Answers

  /** The content of the answer: the cleaned thoughts in a `<thought>`
      element when there are any, then the text. */
  function Compose(thoughts: string, text: string): (r: string)
    ensures thoughts == "" ==> r == text
    ensures thoughts != "" ==> r == "<thought>" + CleanThoughts(thoughts) + "</thought>" + text
    ensures r == "" <==> thoughts == "" && text == ""
  {
    (if thoughts != "" then "<thought>" + CleanThoughts(thoughts) + "</thought>" else "") + text
  }

  /** The chunks of a streamed answer. */
  datatype PyChunk = RoleChunk | ContentChunk(content: string) | StopChunk | ErrorChunk(content: string) | DoneMarker

  /** `send` gives the model's thoughts and text, or the text of the
      exception raised while asking. */
  function StreamChunks(outcome: Result<(string, string), string>): (r: seq<PyChunk>)
    ensures |r| >= 2 && r[|r| - 1] == DoneMarker
    ensures outcome.Err? ==> r == [ErrorChunk("Error: " + outcome.error), DoneMarker]
    ensures outcome.Ok? ==> r[|r| - 2] == StopChunk
    ensures outcome.Ok? ==> (RoleChunk in r <==> Compose(outcome.value.0, outcome.value.1) != "")
  {
    match outcome
    case Err(e) => [ErrorChunk("Error: " + e), DoneMarker]
    case Ok((thoughts, text)) =>
      var full := Compose(thoughts, text);
      (if full != "" then [RoleChunk, ContentChunk(full)] else []) + [StopChunk, DoneMarker]
  }

  /** The reply: 503 before anything when no client is up; a 500 when
      assembling the prompt raises; otherwise the stream, or the whole answer
      with a 500 carrying the exception text on failure. */
  datatype PyReply =
    | NotReady
    | Crashed
    | Failed(detail: string)
    | Completion(model: string, content: string)
    | Streamed(model: string, chunks: seq<PyChunk>)

  function ChatCompletions(clientReady: bool, req: PyRequest, decodes: string -> bool,
                           send: (string, seq<ImageFile>) -> Result<(string, string), string>): (r: PyReply)
    ensures !clientReady <==> r == NotReady
    ensures clientReady ==> (r == Crashed <==> Collect(req.messages, decodes).None?)
    ensures r.Streamed? ==> req.stream && r.model == req.model
    ensures r.Completion? || r.Failed? ==> !req.stream
  {
    if !clientReady then NotReady
    else
      match AssemblePrompt(req.messages, decodes)
      case None => Crashed
      case Some((prompt, files)) =>
        var outcome := send(prompt, files);
        if req.stream then Streamed(req.model, StreamChunks(outcome))
        else
          match outcome
          case Err(e) => Failed(e)
          case Ok((thoughts, text)) => Completion(req.model, Compose(thoughts, text))
  }

  /** The streamed and the whole answer agree: the stream carries the whole
      answer's content in one chunk when it is non-empty and no content
      chunk when it is empty; a failure is an error chunk in one and the
      500 detail in the other. */
  lemma StreamAgreesWithCompletion(req: PyRequest, decodes: string -> bool,
                                   send: (string, seq<ImageFile>) -> Result<(string, string), string>)
    requires Collect(req.messages, decodes).Some?
    ensures var s := ChatCompletions(true, req.(stream := true), decodes, send);
            var w := ChatCompletions(true, req.(stream := false), decodes, send);
            && (w.Completion? ==> (if w.content == "" then s.chunks == [StopChunk, DoneMarker]
                                   else s.chunks == [RoleChunk, ContentChunk(w.content), StopChunk, DoneMarker]))
            && (w.Failed? ==> s.chunks == [ErrorChunk("Error: " + w.detail), DoneMarker])
  {
  }
}

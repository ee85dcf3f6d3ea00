/** The `f.req` form field of a generate call (internal/gemini/payload.go): a
    positional array whose second element is itself a positional array,
    serialised to text and carried as a JSON string. */
module Payload {
  import opened Wrappers
  import opened Json
  import JsonText
  import Text

  /** An uploaded file: where the upstream stored it and the name it had. */
  datatype FileData = FileData(url: string, fileName: string)

  /** The conversation a follow-up message belongs to. */
  datatype ChatMetadata = ChatMetadata(cid: string, rid: string, rcid: string)

  /** Everything the payload carries; the request id is not part of it. */
  datatype GenerateRequest = GenerateRequest(prompt: string, files: seq<FileData>, meta: Option<ChatMetadata>)

  /** `[[url, 1], fileName]` for one file. */
  function ImageEntry(f: FileData): Json {
    JArr([JArr([JStr(f.url), JNum("1")]), JStr(f.fileName)])
  }

  /** One entry per file, in file order; `[]` for no files. */
  function ImagesArray(files: seq<FileData>): (r: seq<Json>)
    ensures |r| == |files|
    ensures forall k :: 0 <= k < |files| ==> r[k] == ImageEntry(files[k])
  {
    seq(|files|, k requires 0 <= k < |files| => ImageEntry(files[k]))
  }

  /** `[prompt, 0, null, images, null, null, null]`. */
  function MessageStruct(prompt: string, files: seq<FileData>): Json {
    JArr([JStr(prompt), JNum("0"), JNull, JArr(ImagesArray(files)), JNull, JNull, JNull])
  }

  /** `[cid, rid, rcid]` for a follow-up, null for a new conversation. */
  function MetaValue(meta: Option<ChatMetadata>): Json {
    match meta
    case Some(m) => JArr([JStr(m.cid), JStr(m.rid), JStr(m.rcid)])
    case None => JNull
  }

  /** `[msg, null, meta, null, null, null, null, 1]`: the last element turns on
      snapshot streaming. */
  function InnerArray(prompt: string, files: seq<FileData>, meta: Option<ChatMetadata>): Json {
    JArr([MessageStruct(prompt, files), JNull, MetaValue(meta), JNull, JNull, JNull, JNull, JNum("1")])
  }

  /** `[null, S, null, null]` where S is the inner array's text. */
  function OuterArray(prompt: string, files: seq<FileData>, meta: Option<ChatMetadata>): Json {
    JArr([JNull, JStr(Serialize(InnerArray(prompt, files, meta))), JNull, JNull])
  }

  /** `BuildGeneratePayload`. The request id is accepted and not used. */
  function BuildGeneratePayload(prompt: string, reqID: int, files: seq<FileData>, meta: Option<ChatMetadata>): string {
    Serialize(OuterArray(prompt, files, meta))
  }

  /** `GenerateReqID`: `draw` is the random generator's `Intn(100000)` result. */
  function GenerateReqID(draw: nat): (r: int)
    requires draw < 100000
    ensures 100000 <= r <= 199999
    ensures r - 100000 == draw
  {
    draw + 100000
  }

  // ---------------------------------------------------------------------------
  // Reading a payload back

  function DecodeImage(j: Json): Option<FileData> {
    if j.JArr? && |j.elems| == 2 && j.elems[1].JStr? then
      var u := j.elems[0];
      if u.JArr? && |u.elems| == 2 && u.elems[0].JStr? && u.elems[1] == JNum("1")
      then Some(FileData(u.elems[0].s, j.elems[1].s))
      else None
    else None
  }

  function DecodeImages(es: seq<Json>): Option<seq<FileData>>
    decreases |es|
  {
    if |es| == 0 then Some([])
    else
      match DecodeImage(es[0])
      case None => None
      case Some(f) =>
        match DecodeImages(es[1..])
        case None => None
        case Some(fs) => Some([f] + fs)
  }

  /** None when `j` is neither null nor a three-string array; otherwise the metadata it denotes. */
  function DecodeMeta(j: Json): Option<Option<ChatMetadata>> {
    if j == JNull then Some(None)
    else if j.JArr? && |j.elems| == 3 && j.elems[0].JStr? && j.elems[1].JStr? && j.elems[2].JStr?
    then Some(Some(ChatMetadata(j.elems[0].s, j.elems[1].s, j.elems[2].s)))
    else None
  }

  function DecodeInner(j: Json): Option<GenerateRequest> {
    if !(j.JArr? && |j.elems| == 8) then None
    else
      var es := j.elems;
      var msg := es[0];
      if !(es[1] == JNull && es[3] == JNull && es[4] == JNull && es[5] == JNull && es[6] == JNull && es[7] == JNum("1"))
      then None
      else if !(msg.JArr? && |msg.elems| == 7) then None
      else
        var ms := msg.elems;
        if !(ms[0].JStr? && ms[1] == JNum("0") && ms[2] == JNull && ms[3].JArr?
             && ms[4] == JNull && ms[5] == JNull && ms[6] == JNull)
        then None
        else
          match (DecodeImages(ms[3].elems), DecodeMeta(es[2]))
          case (Some(files), Some(meta)) => Some(GenerateRequest(ms[0].s, files, meta))
          case _ => None
  }

  /** What a receiver of the payload text recovers from it. */
  function DecodePayload(text: string): Option<GenerateRequest> {
    match JsonText.Parse(text)
    case Some(JArr(es)) =>
      if |es| == 4 && es[0] == JNull && es[1].JStr? && es[2] == JNull && es[3] == JNull then
        match JsonText.Parse(es[1].s)
        case Some(inner) => DecodeInner(inner)
        case None => None
      else None
    case _ => None
  }

  lemma {:induction false} DecodeImagesOfArray(files: seq<FileData>)
    ensures DecodeImages(ImagesArray(files)) == Some(files)
    decreases |files|
  {
    if |files| > 0 {
      assert ImagesArray(files)[1..] == ImagesArray(files[1..]);
      DecodeImagesOfArray(files[1..]);
      assert [files[0]] + files[1..] == files;
    }
  }

  lemma {:induction false} SmallNumbersValid()
    ensures JsonText.ValidNumber("0") && JsonText.ValidNumber("1")
  {
    assert JsonText.DigitRun("1") == 1 by {
      assert Text.SpanStart("1", Text.IsDigit) == 1;
    }
  }

  lemma {:induction false} EntryValid(f: FileData)
    ensures JsonText.Valid(ImageEntry(f))
  {
    SmallNumbersValid();
    var u := JArr([JStr(f.url), JNum("1")]);
    assert JsonText.Valid(u) by {
      assert forall m :: 0 <= m < 2 ==> JsonText.Valid(u.elems[m]);
    }
    assert forall m :: 0 <= m < 2 ==> JsonText.Valid(ImageEntry(f).elems[m]);
  }

  lemma {:induction false} MessageValid(prompt: string, files: seq<FileData>)
    ensures JsonText.Valid(MessageStruct(prompt, files))
  {
    SmallNumbersValid();
    var imgs := ImagesArray(files);
    forall k | 0 <= k < |imgs| ensures JsonText.Valid(imgs[k]) {
      EntryValid(files[k]);
    }
    var msg := MessageStruct(prompt, files);
    assert forall m :: 0 <= m < 7 ==> JsonText.Valid(msg.elems[m]);
  }

  lemma {:induction false} InnerValid(prompt: string, files: seq<FileData>, meta: Option<ChatMetadata>)
    ensures JsonText.Valid(InnerArray(prompt, files, meta))
  {
    SmallNumbersValid();
    MessageValid(prompt, files);
    var inner := InnerArray(prompt, files, meta);
    assert forall m :: 0 <= m < 8 ==> JsonText.Valid(inner.elems[m]);
  }

  /** The payload text carries the prompt, the files in order and the
      conversation metadata, all recoverable from it. */
  lemma {:induction false} PayloadRoundTrip(prompt: string, reqID: int, files: seq<FileData>, meta: Option<ChatMetadata>)
    ensures DecodePayload(BuildGeneratePayload(prompt, reqID, files, meta)) == Some(GenerateRequest(prompt, files, meta))
  {
    var inner := InnerArray(prompt, files, meta);
    var outer := OuterArray(prompt, files, meta);
    InnerValid(prompt, files, meta);
    JsonText.ParseSerialize(inner);
    OuterValid(inner);
    JsonText.ParseSerialize(outer);
    DecodeOuter(BuildGeneratePayload(prompt, reqID, files, meta), inner);
    DecodeInnerArray(prompt, files, meta);
  }

  lemma {:induction false} OuterValid(inner: Json)
    requires JsonText.Valid(inner)
    ensures JsonText.Valid(JArr([JNull, JStr(Serialize(inner)), JNull, JNull]))
  {
    var outer := JArr([JNull, JStr(Serialize(inner)), JNull, JNull]);
    assert forall m :: 0 <= m < 4 ==> JsonText.Valid(outer.elems[m]);
  }

  /** The outer array hands its second element's text to the inner decoder. */
  lemma {:induction false} DecodeOuter(text: string, inner: Json)
    requires JsonText.Parse(text) == Some(JArr([JNull, JStr(Serialize(inner)), JNull, JNull]))
    requires JsonText.Parse(Serialize(inner)) == Some(inner)
    ensures DecodePayload(text) == DecodeInner(inner)
  {
  }

  lemma {:induction false} DecodeInnerArray(prompt: string, files: seq<FileData>, meta: Option<ChatMetadata>)
    ensures DecodeInner(InnerArray(prompt, files, meta)) == Some(GenerateRequest(prompt, files, meta))
  {
    DecodeImagesOfArray(files);
  }

  /** The payload does not depend on the request id. */
  lemma {:induction false} PayloadIgnoresReqID(prompt: string, a: int, b: int, files: seq<FileData>, meta: Option<ChatMetadata>)
    ensures BuildGeneratePayload(prompt, a, files, meta) == BuildGeneratePayload(prompt, b, files, meta)
  {
  }

  /** Distinct requests give distinct payloads. */
  lemma {:induction false} PayloadInjective(p1: string, f1: seq<FileData>, m1: Option<ChatMetadata>,
                         p2: string, f2: seq<FileData>, m2: Option<ChatMetadata>, reqID: int)
    requires BuildGeneratePayload(p1, reqID, f1, m1) == BuildGeneratePayload(p2, reqID, f2, m2)
    ensures p1 == p2 && f1 == f2 && m1 == m2
  {
    PayloadRoundTrip(p1, reqID, f1, m1);
    PayloadRoundTrip(p2, reqID, f2, m2);
  }
}

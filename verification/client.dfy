/** The session client (internal/gemini/client.go) without its network: the
    tokens read from the landing page, the request counter, and the shape of a
    generate call. Every HTTP exchange is a parameter: a status code and a body. */
module Client {
  import opened Wrappers
  import Text
  import Payload

  // ---------------------------------------------------------------------------
  // `FindStringSubmatch` for patterns of the form  <marker>(.*?)"

  /** One position of a marker: a literal character, or the regular-expression
      `.` (any character but a newline). */
  datatype PatChar = Lit(c: char) | AnyButNewline

  predicate Fits(p: PatChar, c: char) {
    match p
    case Lit(d) => c == d
    case AnyButNewline => c != '\n'
  }

  function Literal(s: string): (r: seq<PatChar>)
    ensures |r| == |s|
  {
    seq(|s|, k requires 0 <= k < |s| => Lit(s[k]))
  }

  predicate MarkerAt(s: string, i: nat, marker: seq<PatChar>) {
    i + |marker| <= |s| && forall k :: 0 <= k < |marker| ==> Fits(marker[k], s[i + k])
  }

  /** The first quote at or after `j`, provided no newline comes before it
      (the lazy group cannot cross a newline). */
  function QuoteEnd(s: string, j: nat): (r: Option<nat>)
    ensures r.Some? ==> j <= r.value < |s| && s[r.value] == '"'
                        && forall k :: j <= k < r.value ==> s[k] != '"' && s[k] != '\n'
    ensures r.None? ==> forall e :: j <= e < |s| && s[e] == '"' ==> exists k :: j <= k < e && s[k] == '\n'
    decreases |s| - j
  {
    if j >= |s| then None
    else if s[j] == '"' then Some(j)
    else if s[j] == '\n' then None
    else QuoteEnd(s, j + 1)
  }

  /** `t` occurs in `s` at `p`. */
  predicate TextAt(s: string, p: nat, t: string) {
    p + |t| <= |s| && s[p..p + |t|] == t
  }

  /** The regular expression matches starting at `i`. */
  predicate MatchAt(s: string, i: nat, marker: seq<PatChar>) {
    MarkerAt(s, i, marker) && QuoteEnd(s, i + |marker|).Some?
  }

  function MatchFrom(s: string, i: nat, marker: seq<PatChar>): (r: Option<nat>)
    ensures r.Some? ==> i <= r.value && MatchAt(s, r.value, marker)
                        && forall p :: i <= p < r.value ==> !MatchAt(s, p, marker)
    ensures r.None? ==> forall p :: i <= p ==> !MatchAt(s, p, marker)
    decreases |s| - i
  {
    if i + |marker| > |s| then None
    else if MatchAt(s, i, marker) then Some(i)
    else MatchFrom(s, i + 1, marker)
  }

  /** The captured group of the leftmost match: the text between the marker
      and the next quote. */
  function FindSubmatch(s: string, marker: seq<PatChar>): (r: Option<string>)
    ensures r.None? <==> forall p :: !MatchAt(s, p, marker)
    ensures r.Some? ==> '"' !in r.value && '\n' !in r.value
  {
    match MatchFrom(s, 0, marker)
    case None => None
    case Some(i) =>
      var e := QuoteEnd(s, i + |marker|).value;
      var g := s[i + |marker|..e];
      assert forall k :: 0 <= k < |g| ==> g[k] == s[i + |marker| + k];
      Some(g)
  }

  /** A value planted after a marker is read back when no earlier match exists. */
  lemma {:induction false} FindPlanted(pre: string, m: string, v: string, post: string)
    requires '"' !in v && '\n' !in v
    requires forall p :: 0 <= p < |pre| ==> !MatchAt(pre + m + v + "\"" + post, p, Literal(m))
    ensures FindSubmatch(pre + m + v + "\"" + post, Literal(m)) == Some(v)
  {
    var s := pre + m + v + "\"" + post;
    Planted(s, pre, m, v, post);
    FoundAt(s, |pre|, m, v);
  }

  lemma {:induction false} FoundAt(s: string, i: nat, m: string, v: string)
    requires '"' !in v && '\n' !in v
    requires i + |m| + |v| < |s| && s[i..i + |m|] == m && s[i + |m|..i + |m| + |v|] == v && s[i + |m| + |v|] == '"'
    requires forall p :: 0 <= p < i ==> !MatchAt(s, p, Literal(m))
    ensures FindSubmatch(s, Literal(m)) == Some(v)
  {
    var j := i + |m|;
    LiteralAt(s, i, m);
    QuoteAfter(s, j, v);
    MatchFromSkips(s, 0, i, Literal(m));
    SubmatchAt(s, Literal(m), i, j + |v|);
  }

  /** Where the pieces of a planted value sit. */
  lemma {:induction false} Planted(s: string, pre: string, m: string, v: string, post: string)
    requires s == pre + m + v + "\"" + post
    ensures |pre| + |m| + |v| < |s|
    ensures s[|pre|..|pre| + |m|] == m && s[|pre| + |m|..|pre| + |m| + |v|] == v && s[|pre| + |m| + |v|] == '"'
  {
    assert s == pre + (m + (v + ("\"" + post)));
  }

  lemma {:induction false} LiteralAt(s: string, i: nat, m: string)
    requires i + |m| <= |s| && s[i..i + |m|] == m
    ensures MarkerAt(s, i, Literal(m))
  {
    forall k | 0 <= k < |m| ensures Fits(Literal(m)[k], s[i + k]) {
      assert s[i + k] == s[i..i + |m|][k];
    }
  }

  lemma {:induction false} SubmatchAt(s: string, marker: seq<PatChar>, i: nat, e: nat)
    requires MatchFrom(s, 0, marker) == Some(i) && QuoteEnd(s, i + |marker|) == Some(e)
    ensures FindSubmatch(s, marker) == Some(s[i + |marker|..e])
  {
  }

  lemma {:induction false} QuoteAfter(s: string, j: nat, v: string)
    requires '"' !in v && '\n' !in v
    requires j + |v| < |s| && s[j..j + |v|] == v && s[j + |v|] == '"'
    ensures QuoteEnd(s, j) == Some(j + |v|)
    decreases |v|
  {
    if |v| > 0 {
      assert s[j] == v[0];
      assert s[j + 1..j + 1 + |v[1..]|] == v[1..];
      QuoteAfter(s, j + 1, v[1..]);
    }
  }

  lemma {:induction false} MatchFromSkips(s: string, from: nat, i: nat, marker: seq<PatChar>)
    requires from <= i && MatchAt(s, i, marker)
    requires forall p :: from <= p < i ==> !MatchAt(s, p, marker)
    ensures MatchFrom(s, from, marker) == Some(i)
    decreases i - from
  {
    if from < i {
      MatchFromSkips(s, from + 1, i, marker);
    }
  }

  // ---------------------------------------------------------------------------
  // The landing page

  const SNlM0eMarker: seq<PatChar> := Literal("\"SNlM0e\":\"")
  const BLMarker: seq<PatChar> := Literal("\"bl\":\"")
  const DataBLMarker: seq<PatChar> := Literal("data-bl=\"")

  /** `"f.sid":"` as the source writes it: its `.` is unescaped and so stands
      for any character but a newline. */
  const FSidMarkerAsWritten: seq<PatChar> := Literal("\"f") + [AnyButNewline] + Literal("sid\":\"")

  /** `"f.sid":"` with the dot taken literally. */
  const FSidMarker: seq<PatChar> := Literal("\"f.sid\":\"")

  const FallbackBL: string := "boq_assistant-bard-web-server_20240319.09_p0"

  datatype Session = Session(snlm0e: string, versionBL: string, fsid: string, reqID: int)

  /** The build label: the `"bl"` capture, else the `data-bl` capture, else the
      current one; an empty result falls back to a fixed label. */
  function ChooseBL(current: string, body: string): (r: string)
    ensures r != ""
    ensures FindSubmatch(body, BLMarker).Some? && FindSubmatch(body, BLMarker).value != ""
            ==> r == FindSubmatch(body, BLMarker).value
    ensures FindSubmatch(body, BLMarker).None? && FindSubmatch(body, DataBLMarker).Some?
            && FindSubmatch(body, DataBLMarker).value != ""
            ==> r == FindSubmatch(body, DataBLMarker).value
    ensures FindSubmatch(body, BLMarker).None? && FindSubmatch(body, DataBLMarker).None? && current != ""
            ==> r == current
    ensures FindSubmatch(body, BLMarker) == Some("") ==> r == FallbackBL
    ensures FindSubmatch(body, BLMarker).None? && FindSubmatch(body, DataBLMarker) == Some("") ==> r == FallbackBL
    ensures FindSubmatch(body, BLMarker).None? && FindSubmatch(body, DataBLMarker).None? && current == ""
            ==> r == FallbackBL
  {
    var bl :=
      match FindSubmatch(body, BLMarker)
      case Some(v) => v
      case None =>
        match FindSubmatch(body, DataBLMarker)
        case Some(v) => v
        case None => current;
    if bl == "" then FallbackBL else bl
  }

  /** The landing page read with a given session-id marker. */
  function ReadLanding(c: Session, status: int, body: string, fsidMarker: seq<PatChar>): (r: Result<Session, string>)
    ensures status != 200 ==> r.Err?
    ensures r.Ok? <==> status == 200 && FindSubmatch(body, SNlM0eMarker).Some?
    ensures r.Ok? ==> r.value.snlm0e == FindSubmatch(body, SNlM0eMarker).value
                      && r.value.versionBL == ChooseBL(c.versionBL, body) && r.value.reqID == c.reqID
    ensures r.Ok? ==> r.value.fsid == (match FindSubmatch(body, fsidMarker) case Some(v) => v case None => c.fsid)
  {
    if status != 200 then Err("init page returned status: " + Text.IntToString(status))
    else
      match FindSubmatch(body, SNlM0eMarker)
      case None => Err("SNlM0e token not found. Cookies might be invalid")
      case Some(sn) =>
        var fsid := match FindSubmatch(body, fsidMarker) case Some(v) => v case None => c.fsid;
        Ok(Session(sn, ChooseBL(c.versionBL, body), fsid, c.reqID))
  }

  /** `Init` after the landing page came back with `status` and `body`, with
      the session-id pattern as the source writes it (its dot matches any
      character but a newline). */
  function Init(c: Session, status: int, body: string): (r: Result<Session, string>)
    ensures status != 200 ==> r.Err?
    ensures r.Ok? <==> status == 200 && FindSubmatch(body, SNlM0eMarker).Some?
    ensures r.Ok? ==> r.value.snlm0e == FindSubmatch(body, SNlM0eMarker).value
                      && r.value.versionBL == ChooseBL(c.versionBL, body) && r.value.reqID == c.reqID
    ensures r.Ok? ==> r.value.fsid == (match FindSubmatch(body, FSidMarkerAsWritten) case Some(v) => v case None => c.fsid)
  {
    ReadLanding(c, status, body, FSidMarkerAsWritten)
  }

  /** `Init` with the session-id marker `"f.sid":"` taken literally. */
  function InitIntended(c: Session, status: int, body: string): (r: Result<Session, string>)
    ensures status != 200 ==> r.Err?
    ensures r.Ok? <==> status == 200 && FindSubmatch(body, SNlM0eMarker).Some?
    ensures r.Ok? ==> r.value.snlm0e == FindSubmatch(body, SNlM0eMarker).value
                      && r.value.versionBL == ChooseBL(c.versionBL, body) && r.value.reqID == c.reqID
    ensures r.Ok? ==> r.value.fsid == (match FindSubmatch(body, FSidMarker) case Some(v) => v case None => c.fsid)
  {
    ReadLanding(c, status, body, FSidMarker)
  }

  /** The landing page's token is read back from a page that carries it once. */
  lemma {:induction false} InitReadsToken(c: Session, pre: string, token: string, post: string)
    requires '"' !in token && '\n' !in token && '"' !in pre
    ensures var body := pre + "\"SNlM0e\":\"" + token + "\"" + post;
            Init(c, 200, body).Ok? && Init(c, 200, body).value.snlm0e == token
  {
    var m := "\"SNlM0e\":\"";
    var body := pre + m + token + "\"" + post;
    forall p | 0 <= p < |pre| ensures !MatchAt(body, p, Literal(m)) {
      assert Literal(m)[0] == Lit('"');
      assert body[p] == pre[p];
    }
    FindPlanted(pre, m, token, post);
  }

  /** The unescaped dot lets `"fXsid":"v"` set the session id as written;
      the literal marker does not match it. */
  lemma {:induction false} FSidWildcardAsWritten(s: string)
    requires s == "\"fXsid\":\"v\""
    ensures FindSubmatch(s, FSidMarkerAsWritten) == Some("v")
    ensures FindSubmatch(s, FSidMarker) == None
  {
    assert MarkerAt(s, 0, FSidMarkerAsWritten);
    assert QuoteEnd(s, 9) == Some(10);
    MatchFromSkips(s, 0, 0, FSidMarkerAsWritten);
    assert |FSidMarkerAsWritten| == 9;
    assert s[9..10] == "v";
    assert |FSidMarker| == 9;
    assert FSidMarker[0] == Lit('"') && FSidMarker[2] == Lit('.');
    forall p: nat ensures !MatchAt(s, p, FSidMarker) {
      if p + |FSidMarker| <= |s| {
        if p == 0 { assert !Fits(FSidMarker[2], s[2]); }
        else if p == 1 { assert !Fits(FSidMarker[0], s[1]); }
        else { assert p == 2 && !Fits(FSidMarker[0], s[2]); }
      }
    }
  }

  /** With the dot taken literally, only the literal marker matches. */
  lemma {:induction false} FSidMarkerIsLiteral(s: string, p: nat)
    requires MatchAt(s, p, FSidMarker)
    ensures s[p..p + 9] == "\"f.sid\":\"" && s[p + 2] == '.'
  {
    assert |FSidMarker| == 9;
    forall k | 0 <= k < 9 ensures s[p..p + 9][k] == "\"f.sid\":\""[k] {
      assert Fits(FSidMarker[k], s[p + k]);
      assert FSidMarker[k] == Lit("\"f.sid\":\""[k]);
    }
  }

  /** On a page that carries the token and then `"fXsid":"v"`, the source's
      `Init` takes `v` for the session id; the intended one keeps the old id. */
  lemma {:induction false} InitTakesWildcard(c: Session, body: string)
    requires body == WildcardPage
    ensures Init(c, 200, body).Ok? && Init(c, 200, body).value.fsid == "v"
    ensures InitIntended(c, 200, body).Ok? && InitIntended(c, 200, body).value.fsid == c.fsid
  {
    WildcardPageToken();
    WildcardPageSid();
    WildcardPageNoLiteral();
  }

  const WildcardPage: string := "\"SNlM0e\":\"t\"\"fXsid\":\"v\""

  lemma {:induction false} WildcardPageToken()
    ensures FindSubmatch(WildcardPage, SNlM0eMarker) == Some("t")
  {
    var m := "\"SNlM0e\":\"";
    assert "" + m + "t" + "\"" + "\"fXsid\":\"v\"" == WildcardPage;
    FindPlanted("", m, "t", "\"fXsid\":\"v\"");
  }

  lemma {:induction false} WildcardPageMatch()
    ensures MatchAt(WildcardPage, 12, FSidMarkerAsWritten) && QuoteEnd(WildcardPage, 21) == Some(22)
  {
    assert MarkerAt(WildcardPage, 12, FSidMarkerAsWritten);
    assert QuoteEnd(WildcardPage, 21) == Some(22);
  }

  lemma {:induction false} WildcardPageSid()
    ensures FindSubmatch(WildcardPage, FSidMarkerAsWritten) == Some("v")
  {
    var body, m := WildcardPage, FSidMarkerAsWritten;
    WildcardPageMatch();
    WildcardPageNoEarlierMatch();
    MatchFromSkips(body, 0, 12, m);
    SubmatchAt(body, m, 12, 22);
    assert body[21..22] == "v";
  }

  lemma {:induction false} WildcardPageNoEarlierMatch()
    ensures forall p :: 0 <= p < 12 ==> !MatchAt(WildcardPage, p, FSidMarkerAsWritten)
  {
    var m := FSidMarkerAsWritten;
    assert |m| == 9 && m[1] == Lit('f');
    assert forall i :: 1 <= i < 13 ==> WildcardPage[i] != 'f';
    forall p | 0 <= p < 12 ensures !MatchAt(WildcardPage, p, m) {
      assert !Fits(m[1], WildcardPage[p + 1]);
    }
  }

  lemma {:induction false} WildcardPageNoLiteral()
    ensures FindSubmatch(WildcardPage, FSidMarker) == None
  {
    assert forall i :: 0 <= i < |WildcardPage| ==> WildcardPage[i] != '.';
    forall p: nat | MatchAt(WildcardPage, p, FSidMarker) ensures false {
      FSidMarkerIsLiteral(WildcardPage, p);
    }
  }

  /** The intended `Init` only changes the session id when the page holds the
      literal marker `"f.sid":"`. */
  lemma {:induction false} IntendedSidNeedsLiteral(c: Session, body: string)
    requires InitIntended(c, 200, body).Ok? && InitIntended(c, 200, body).value.fsid != c.fsid
    ensures exists p :: TextAt(body, p, "\"f.sid\":\"")
  {
    var p :| MatchAt(body, p, FSidMarker);
    FSidMarkerIsLiteral(body, p);
    assert TextAt(body, p, "\"f.sid\":\"");
  }

  // ---------------------------------------------------------------------------
  // A generate call

  /** The `x-goog-ext-525001261-jspb` header value per known model. */
  const ModelHeaders: map<string, string> := map[
    "gemini-2.5-flash" := "[1,null,null,null,\"71c2d248d3b102ff\"]",
    "gemini-3-pro-preview" := "[1,null,null,null,\"e6fa609c3fa255c0\"]"
  ]

  const DefaultModel: string := "gemini-2.5-flash"

  /** A known model's own header value, the default model's for any other. */
  function ModelHeader(model: string): (r: string)
    ensures model in ModelHeaders ==> r == ModelHeaders[model]
    ensures model !in ModelHeaders ==> r == ModelHeaders[DefaultModel]
  {
    if model in ModelHeaders then ModelHeaders[model] else ModelHeaders[DefaultModel]
  }

  /** What goes on the wire: form fields, query parameters (in the sorted
      order `url.Values.Encode` writes them) and the model header. */
  datatype GenerateCall = GenerateCall(
    form: seq<(string, string)>,
    query: seq<(string, string)>,
    modelHeader: string)

  function Query(s: Session): (r: seq<(string, string)>)
    ensures (exists k :: 0 <= k < |r| && r[k].0 == "f.sid") <==> s.fsid != ""
    ensures forall k :: 0 <= k < |r| - 1 ==> Text.Less(r[k].0, r[k + 1].0)
  {
    assert Text.Less("_reqid", "bl") by { assert "_reqid"[0] < "bl"[0]; }
    assert Text.Less("bl", "rt") by { assert "bl"[0] < "rt"[0]; }
    if s.fsid != "" then
      assert Text.Less("bl", "f.sid") by { assert "bl"[0] < "f.sid"[0]; }
      assert Text.Less("f.sid", "rt") by { assert "f.sid"[0] < "rt"[0]; }
      var r := [("_reqid", Text.IntToString(s.reqID)), ("bl", s.versionBL), ("f.sid", s.fsid), ("rt", "c")];
      assert r[2].0 == "f.sid";
      r
    else
      assert forall k :: 0 <= k < 3 ==> [("_reqid", Text.IntToString(s.reqID)), ("bl", s.versionBL), ("rt", "c")][k].0 != "f.sid";
      [("_reqid", Text.IntToString(s.reqID)), ("bl", s.versionBL), ("rt", "c")]
  }

  /** `StreamGenerateContent`: the payload is built, then the counter moves on
      by one before anything is sent, so the query carries the new value and
      the counter advances whatever the outcome. A non-200 answer is an error
      and no body. */
  function StreamGenerateContent(c: Session, prompt: string, model: string, files: seq<Payload.FileData>,
                                 meta: Option<Payload.ChatMetadata>, status: int, body: string)
    : (r: (Session, GenerateCall, Result<string, string>))
    ensures r.0 == c.(reqID := c.reqID + 1)
    ensures r.1.form == [("f.req", Payload.BuildGeneratePayload(prompt, c.reqID, files, meta)), ("at", c.snlm0e)]
    ensures ("_reqid", Text.IntToString(c.reqID + 1)) in r.1.query
    ensures r.1.modelHeader == ModelHeader(model)
    ensures r.2.Ok? <==> status == 200
    ensures r.2.Ok? ==> r.2.value == body
  {
    var payload := Payload.BuildGeneratePayload(prompt, c.reqID, files, meta);
    var c1 := c.(reqID := c.reqID + 1);
    var call := GenerateCall([("f.req", payload), ("at", c.snlm0e)], Query(c1), ModelHeader(model));
    var result := if status != 200 then Err("generate request failed with status: " + Text.IntToString(status)) else Ok(body);
    (c1, call, result)
  }

  /** Over a run of calls the counter advances once per call, failures included. */
  function Calls(c: Session, statuses: seq<int>): (r: Session)
    decreases |statuses|
  {
    if |statuses| == 0 then c
    else Calls(StreamGenerateContent(c, "", DefaultModel, [], None, statuses[0], "").0, statuses[1..])
  }

  lemma {:induction false} CounterCountsCalls(c: Session, statuses: seq<int>)
    ensures Calls(c, statuses) == c.(reqID := c.reqID + |statuses|)
    decreases |statuses|
  {
    if |statuses| > 0 {
      var c1 := c.(reqID := c.reqID + 1);
      CallsStep(c, statuses, c1);
      CounterCountsCalls(c1, statuses[1..]);
    }
  }

  lemma {:induction false} CallsStep(c: Session, statuses: seq<int>, c1: Session)
    requires |statuses| > 0 && c1 == c.(reqID := c.reqID + 1)
    ensures Calls(c, statuses) == Calls(c1, statuses[1..])
  {
    var r := StreamGenerateContent(c, "", DefaultModel, [], None, statuses[0], "");
    assert r.0 == c1;
  }
}

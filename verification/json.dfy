/** JSON values as the gateway sees them, the two lookup disciplines it uses
    (gjson paths over raw text, and Go's decoding into `map[string]interface{}`),
    and the compact serialisation `encoding/json` produces. */
module Json {
  import opened Wrappers
  import Text

  /** A JSON value. Objects keep their members in text order, duplicates
      included; numbers keep their literal text, since the gateway only copies them. */
  datatype Json =
    | JNull
    | JBool(b: bool)
    | JNum(lit: string)
    | JStr(s: string)
    | JArr(elems: seq<Json>)
    | JObj(members: seq<Member>)

  datatype Member = Member(key: string, value: Json)

  /** Value of `key` after decoding into a Go map: the last duplicate wins. */
  function Lookup(members: seq<Member>, key: string): Option<Json>
    decreases |members|
  {
    if |members| == 0 then None
    else if members[|members| - 1].key == key then Some(members[|members| - 1].value)
    else Lookup(members[..|members| - 1], key)
  }

  /** A key is found exactly when some member has it, and the value found is
      the one of the last such member. */
  lemma {:induction false} LookupFacts(members: seq<Member>, key: string)
    ensures Lookup(members, key).Some? <==> exists k :: 0 <= k < |members| && members[k].key == key
    ensures Lookup(members, key).Some? ==>
              exists k :: 0 <= k < |members| && members[k] == Member(key, Lookup(members, key).value)
                          && forall l :: k < l < |members| ==> members[l].key != key
    decreases |members|
  {
    if |members| > 0 && members[|members| - 1].key != key {
      var init := members[..|members| - 1];
      LookupFacts(init, key);
      assert forall k :: 0 <= k < |init| ==> init[k] == members[k];
    }
  }

  /** Go's `m[key]` on a decoded object, read as a string (`m[key].(string)`). */
  function FieldStr(j: Json, key: string): Option<string> {
    if j.JObj? then
      match Lookup(j.members, key)
      case Some(JStr(s)) => Some(s)
      case _ => None
    else None
  }

  /** Go's `m[key]` on a decoded object, or None when `j` is not an object or lacks the key. */
  function Field(j: Json, key: string): Option<Json> {
    if j.JObj? then Lookup(j.members, key) else None
  }

  /** Value of `key` as gjson reads raw text: the first member with that key. */
  function FirstMember(members: seq<Member>, key: string): (r: Option<Json>)
    ensures r.Some? <==> exists k :: 0 <= k < |members| && members[k].key == key
  {
    if |members| == 0 then None
    else if members[0].key == key then Some(members[0].value)
    else
      var r := FirstMember(members[1..], key);
      assert forall k :: 1 <= k < |members| ==> members[1..][k - 1] == members[k];
      r
  }

  /** The array index a gjson path component names: a non-empty run of digits. */
  function PathIndex(key: string): Option<nat> {
    if |key| > 0 && Text.All(key, Text.IsDigit) then Some(Text.DigitsValue(key)) else None
  }

  /** One gjson path step: an array index into an array, a key into an object. */
  function Step(j: Json, key: string): Option<Json> {
    match j
    case JArr(es) =>
      (match PathIndex(key)
       case Some(n) => if n < |es| then Some(es[n]) else None
       case None => None)
    case JObj(ms) => FirstMember(ms, key)
    case _ => None
  }

  /** gjson `Get` with a dotted path given as its components: None when the
      path does not exist. */
  function Get(j: Json, path: seq<string>): (r: Option<Json>)
    ensures |path| == 0 ==> r == Some(j)
    decreases |path|
  {
    if |path| == 0 then Some(j)
    else
      match Step(j, path[0])
      case Some(child) => Get(child, path[1..])
      case None => None
  }

  /** Splitting a path splits the lookup: a gjson path is read one component at a time. */
  lemma {:induction false} GetAppend(j: Json, p: seq<string>, q: seq<string>)
    ensures Get(j, p + q) == (match Get(j, p) case Some(c) => Get(c, q) case None => None)
    decreases |p|
  {
    if |p| > 0 {
      assert (p + q)[0] == p[0];
      assert (p + q)[1..] == p[1..] + q;
      match Step(j, p[0])
      case Some(child) => GetAppend(child, p[1..], q);
      case None =>
    } else {
      assert p + q == q;
    }
  }

  /** gjson `Get(path)` on an optional value (a non-existent result stays non-existent). */
  function GetOpt(o: Option<Json>, path: seq<string>): Option<Json> {
    match o
    case Some(j) => Get(j, path)
    case None => None
  }

  /** gjson `Result.String()`: "" for a missing value or null, `true` or
      `false`, the text of a string, the raw JSON of arrays and objects. A
      number gives its literal, which is what gjson returns for an integer
      literal; gjson formats any other number from its float value. */
  function GjsonString(o: Option<Json>): string {
    match o
    case None => ""
    case Some(JNull) => ""
    case Some(JBool(b)) => if b then "true" else "false"
    case Some(JNum(lit)) => lit
    case Some(JStr(s)) => s
    case Some(j) => Serialize(j)
  }

  /** The values gjson `ForEach` visits: the elements of an array, the member
      values of an object, the value itself for any other existing value. */
  function ForEachValues(o: Option<Json>): seq<Json> {
    match o
    case None => []
    case Some(JArr(es)) => es
    case Some(JObj(ms)) => seq(|ms|, k requires 0 <= k < |ms| => ms[k].value)
    case Some(j) => [j]
  }

  predicate IsArray(o: Option<Json>) {
    o.Some? && o.value.JArr?
  }

  /** gjson `Result.Array()`: nothing for a missing value or null, the elements
      of an array, and the value alone for anything else. */
  function GjsonArray(o: Option<Json>): seq<Json> {
    match o
    case None => []
    case Some(JNull) => []
    case Some(JArr(es)) => es
    case Some(j) => [j]
  }

  // ---------------------------------------------------------------------------
  // Serialisation

  const HexDigits: string := "0123456789abcdef"

  /** Four lower-case hexadecimal digits of `n`. */
  function Hex4(n: nat): (r: string)
    requires n < 0x10000
    ensures |r| == 4
  {
    [HexDigits[n / 4096], HexDigits[(n / 256) % 16], HexDigits[(n / 16) % 16], HexDigits[n % 16]]
  }

  /** Runes `encoding/json` writes as a `\u` escape: control characters other
      than the three with short escapes, the HTML-sensitive `<`, `>`, `&`, and
      the two line separators JavaScript treats as newlines. */
  predicate NeedsUnicodeEscape(c: char) {
    (c as int < 0x20 && c != '\n' && c != '\r' && c != '\t')
    || c == '<' || c == '>' || c == '&' || c == '\U{2028}' || c == '\U{2029}'
  }

  function EscapeChar(c: char): string {
    if c == '"' then "\\\""
    else if c == '\\' then "\\\\"
    else if c == '\n' then "\\n"
    else if c == '\r' then "\\r"
    else if c == '\t' then "\\t"
    else if NeedsUnicodeEscape(c) then "\\u" + Hex4(c as int)
    else [c]
  }

  function EscapeBody(s: string): string {
    if |s| == 0 then "" else EscapeChar(s[0]) + EscapeBody(s[1..])
  }

  /** A JSON string literal for `s`. */
  function Quote(s: string): string {
    "\"" + EscapeBody(s) + "\""
  }

  /** Compact JSON text of `j`, members in their stored order. */
  function Serialize(j: Json): string
    decreases j
  {
    match j
    case JNull => "null"
    case JBool(b) => if b then "true" else "false"
    case JNum(lit) => lit
    case JStr(s) => Quote(s)
    case JArr(es) => "[" + SerializeElems(es) + "]"
    case JObj(ms) => "{" + SerializeMembers(ms) + "}"
  }

  function SerializeElems(es: seq<Json>): string
    decreases es
  {
    if |es| == 0 then ""
    else if |es| == 1 then Serialize(es[0])
    else Serialize(es[0]) + "," + SerializeElems(es[1..])
  }

  function SerializeMember(m: Member): string
    decreases m
  {
    Quote(m.key) + ":" + Serialize(m.value)
  }

  function SerializeMembers(ms: seq<Member>): string
    decreases ms
  {
    if |ms| == 0 then ""
    else if |ms| == 1 then SerializeMember(ms[0])
    else SerializeMember(ms[0]) + "," + SerializeMembers(ms[1..])
  }
}

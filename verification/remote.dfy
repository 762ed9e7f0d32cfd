/**
 * What the three Gemini clients (résumé parser, skill-gap finder, matcher)
 * share: JSON values, Python truthiness, the `.get(...)[0]...` walk that digs
 * the generated text out of a response body, and the code-fence cleanup.
 *
 * The HTTP exchange is a value: either the request raised, or the server
 * replied with a status and a body that did or did not decode as JSON.
 * json.loads is an opaque parse oracle passed in by the callers.
 */
module Remote {
  import opened Wrappers
  import opened Text

  /** A decoded JSON value, as Python sees it after json.loads. */
  datatype Json =
    | JNull
    | JBool(b: bool)
    | JInt(i: int)
    | JReal(r: real)
    | JStr(s: string)
    | JList(items: seq<Json>)
    | JObj(fields: map<string, Json>)

  /** Python truthiness of a decoded value. */
  predicate Truthy(j: Json) {
    match j
    case JNull => false
    case JBool(b) => b
    case JInt(i) => i != 0
    case JReal(r) => r != 0.0
    case JStr(s) => s != ""
    case JList(items) => items != []
    case JObj(fields) => fields != map[]
  }

  /** isinstance(x, (int, float)); bool is a subclass of int. */
  predicate IsNumber(j: Json) {
    j.JInt? || j.JReal? || j.JBool?
  }

  const PlaceholderKey: string := "YOUR_GEMINI_API_KEY"

  /** The API key is set, non-empty and not the placeholder. */
  predicate KeyConfigured(key: Option<string>) {
    key.Some? && key.value != "" && key.value != PlaceholderKey
  }

  /** One POST to the generation endpoint; `body` is None when the reply is not JSON. */
  datatype Exchange = NetworkError | Replied(status: int, body: Option<Json>)

  /**
   * The exception classes the clients tell apart: requests' own
   * exceptions (connection failures, and a reply body that is not JSON),
   * the lookup errors (KeyError, IndexError, json.JSONDecodeError), and any
   * other exception (AttributeError, TypeError).
   */
  datatype Failure = RequestFailure | LookupFailure | OtherFailure

  datatype Step = Ok(value: Json) | Fail(failure: Failure)

  /** x.get(key, default): only dicts have get. */
  function Get(x: Json, key: string, default: Json): (r: Step)
    ensures r.Fail? <==> !x.JObj?
    ensures r.Fail? ==> r.failure == OtherFailure
    ensures x.JObj? && key in x.fields ==> r == Ok(x.fields[key])
    ensures x.JObj? && key !in x.fields ==> r == Ok(default)
  {
    if !x.JObj? then Fail(OtherFailure)
    else if key in x.fields then Ok(x.fields[key]) else Ok(default)
  }

  /** x[0]: the first element of a list or string; a dict has no key 0. */
  function First(x: Json): (r: Step)
    ensures r.Ok? <==> (x.JList? && x.items != []) || (x.JStr? && x.s != "")
    ensures x.JList? && x.items != [] ==> r == Ok(x.items[0])
  {
    match x
    case JList(items) => if items == [] then Fail(LookupFailure) else Ok(items[0])
    case JStr(s) => if s == "" then Fail(LookupFailure) else Ok(JStr(s[..1]))
    case JObj(_) => Fail(LookupFailure)
    case _ => Fail(OtherFailure)
  }

  /** data.get('candidates', [{}])[0].get('content', {}).get('parts', [{}])[0].get('text') */
  function ContentText(data: Json): Step {
    var e := JObj(map[]);
    var c := Get(data, "candidates", JList([e]));
    if c.Fail? then c
    else
      var c0 := First(c.value);
      if c0.Fail? then c0
      else
        var ct := Get(c0.value, "content", e);
        if ct.Fail? then ct
        else
          var ps := Get(ct.value, "parts", JList([e]));
          if ps.Fail? then ps
          else
            var p0 := First(ps.value);
            if p0.Fail? then p0 else Get(p0.value, "text", JNull)
  }

  /** The usual shape of a successful reply. */
  function ReplyBody(text: string): Json {
    JObj(map["candidates" := JList([JObj(map["content" := JObj(map["parts" := JList([JObj(map["text" := JStr(text)])])])])])])
  }

  /** The walk finds the text in a reply of the usual shape. */
  lemma ContentTextOfReply(text: string)
    ensures ContentText(ReplyBody(text)) == Ok(JStr(text))
  {
    var part := JObj(map["text" := JStr(text)]);
    var content := JObj(map["parts" := JList([part])]);
    var cand := JObj(map["content" := content]);
    assert ReplyBody(text) == JObj(map["candidates" := JList([cand])]);
    assert Get(ReplyBody(text), "candidates", JList([JObj(map[])])) == Ok(JList([cand]));
    assert First(JList([cand])) == Ok(cand);
    assert Get(cand, "content", JObj(map[])) == Ok(content);
    assert Get(content, "parts", JList([JObj(map[])])) == Ok(JList([part]));
    assert First(JList([part])) == Ok(part);
    assert Get(part, "text", JNull) == Ok(JStr(text));
  }

  /** A body with no candidates has no text; a body with an empty candidate list is a lookup error. */
  lemma ContentTextMissing(fields: map<string, Json>)
    ensures "candidates" !in fields ==> ContentText(JObj(fields)) == Ok(JNull)
    ensures "candidates" in fields && fields["candidates"] == JList([]) ==> ContentText(JObj(fields)) == Fail(LookupFailure)
  {
    var e := JObj(map[]);
    if "candidates" !in fields {
      assert Get(JObj(fields), "candidates", JList([e])) == Ok(JList([e]));
      assert First(JList([e])) == Ok(e);
      assert Get(e, "content", e) == Ok(e);
      assert Get(e, "parts", JList([e])) == Ok(JList([e]));
      assert Get(e, "text", JNull) == Ok(JNull);
    }
  }

  /** text.strip().replace("```json", "").replace("```", "").strip() */
  function CleanFences(t: string): (r: string)
    ensures Strip(r) == r
  {
    var r := Strip(Replace(Replace(Strip(t), "```json", ""), "```", ""));
    StripIdempotent(Replace(Replace(Strip(t), "```json", ""), "```", ""));
    r
  }

  const Fence: string := "```"
  const JsonFence: string := "```json"

  /** Cleaning undoes a ```json ... ``` wrapper around a body without backticks. */
  lemma {:induction false} CleanFencedJson(b: string)
    requires forall k :: 0 <= k < |b| ==> b[k] != '`'
    ensures CleanFences(JsonFence + b + Fence) == Strip(b)
  {
    var t := JsonFence + b + Fence;
    assert t[0] == '`' && t[|t| - 1] == '`';
    StripKeep(t);
    assert t == JsonFence + (b + Fence);
    ReplaceHead(JsonFence, b + Fence, "");
    ReplaceSkip(b, Fence, JsonFence, "");
    ReplaceShort(Fence, JsonFence, "");
    assert Replace(t, JsonFence, "") == b + Fence;
    ReplaceSkip(b, Fence, Fence, "");
    assert Fence == Fence + "";
    ReplaceHead(Fence, "", "");
    assert Replace(Fence, Fence, "") == "";
    assert Replace(b + Fence, Fence, "") == b;
  }

  /** Text without backticks is only stripped. */
  lemma {:induction false} CleanWithoutFences(t: string)
    requires forall k :: 0 <= k < |t| ==> t[k] != '`'
    ensures CleanFences(t) == Strip(t)
  {
    var s := Strip(t);
    StripChars(t);
    assert forall k :: 0 <= k < |s| ==> s[k] != '`';
    ReplaceSkip(s, "", JsonFence, "");
    ReplaceSkip(s, "", Fence, "");
    assert s + "" == s;
    StripIdempotent(t);
  }

  /** The walk found a non-empty string. */
  predicate HasText(c: Step) {
    c.Ok? && c.value.JStr? && c.value.s != ""
  }

  /** How far a reply gets before the client parses the generated text. */
  datatype Reply =
    | BadStatus(status: int)
    | NoContent
    | Raised(failure: Failure)
    | Cleaned(text: string)

  /**
   * The common first half of every client: the status check, response.json(),
   * the content walk, the falsy-content check, and the fence cleanup (only a
   * string has strip).
   */
  function ReadReply(x: Exchange): (r: Reply)
    ensures r.BadStatus? <==> x.Replied? && x.status != 200
    ensures r.BadStatus? ==> r.status == x.status
    ensures r.Cleaned? <==> x.Replied? && x.status == 200 && x.body.Some? && HasText(ContentText(x.body.value))
    ensures r.Cleaned? ==> r.text == CleanFences(ContentText(x.body.value).value.s)
    ensures x.NetworkError? ==> r == Raised(RequestFailure)
  {
    match x
    case NetworkError => Raised(RequestFailure)
    case Replied(status, body) =>
      if status != 200 then BadStatus(status)
      else if body.None? then Raised(RequestFailure)
      else
        var c := ContentText(body.value);
        if c.Fail? then Raised(c.failure)
        else if !Truthy(c.value) then NoContent
        else if !c.value.JStr? then Raised(OtherFailure)
        else Cleaned(CleanFences(c.value.s))
  }

  /** A 200 reply of the usual shape around a fenced JSON text reaches the parser with the fences removed. */
  lemma ReadFencedReply(b: string)
    requires forall k :: 0 <= k < |b| ==> b[k] != '`'
    ensures ReadReply(Replied(200, Some(ReplyBody(JsonFence + b + Fence)))) == Cleaned(Strip(b))
  {
    var t := JsonFence + b + Fence;
    ContentTextOfReply(t);
    assert |t| > 0;
    var x := Replied(200, Some(ReplyBody(t)));
    assert HasText(ContentText(x.body.value));
    assert ReadReply(x) == Cleaned(CleanFences(t));
    CleanFencedJson(b);
  }
}

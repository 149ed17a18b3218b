/**
 * The decision points of `call_llm` (app.py): the API-key check made before
 * any request is built, the request sent to the Groq chat-completions
 * endpoint, the `"choices"` check on the decoded response, the path
 * `choices[0].message.content` to the assistant's text, and the fence
 * normalisation applied to that text.
 *
 * The HTTP exchange itself is a parameter: `transport` maps the request to the
 * decoded response document, or to `None` when the body does not decode as
 * JSON.
 */
module Planner {
  import opened PyStr
  import opened Fences

  datatype Option<+T> = None | Some(value: T)

  datatype Result<+T, +E> = Success(value: T) | Failure(error: E)

  /** A decoded JSON document, as Python's `json` module returns it. */
  datatype Json =
    | Null
    | Bool(b: bool)
    | Num(n: real)
    | Str(s: string)
    | Arr(items: seq<Json>)
    | Obj(fields: map<string, Json>)

  /** The ways `call_llm` fails. */
  datatype LlmError =
    | MissingApiKey             // the key is unset or empty; nothing is sent
    | BodyNotJson               // the response body does not decode
    | NoChoices(response: Json) // "Groq error", quoting the document that lacks "choices"
    | Malformed                 // a type, key, index or attribute error on the way to the text

  const ChatUrl: string := "https://api.groq.com/openai/v1/chat/completions"
  const ChatModel: string := "llama-3.3-70b-versatile"
  const SystemPrompt: string :=
    "You are a robotics planner. Respond ONLY with valid JSON. Do not explain."
  const Bearer: string := "Bearer "

  datatype Message = Message(role: string, content: string)

  /** The POST request: endpoint, the two headers and the JSON body. */
  datatype ChatRequest = ChatRequest(
    url: string,
    authorization: string,
    contentType: string,
    model: string,
    messages: seq<Message>)

  /** Python's truthiness of the configured key: set and non-empty. */
  predicate HasKey(apiKey: Option<string>) {
    apiKey.Some? && apiKey.value != []
  }

  /** The request `call_llm` sends for a key and a prompt. */
  function BuildRequest(apiKey: string, prompt: string): (req: ChatRequest)
    ensures req.url == ChatUrl && req.model == ChatModel
    ensures req.contentType == "application/json"
    ensures StartsWith(req.authorization, Bearer)
    ensures req.authorization[|Bearer|..] == apiKey
    ensures |req.messages| == 2
    ensures req.messages[0] == Message("system", SystemPrompt)
    ensures req.messages[1] == Message("user", prompt)
  {
    ChatRequest(ChatUrl, Bearer + apiKey, "application/json", ChatModel,
      [Message("system", SystemPrompt), Message("user", prompt)])
  }

  /** The request carries the key and the prompt and nothing else that
      varies: different keys or prompts give different requests. */
  lemma RequestDeterminesKeyAndPrompt(k1: string, p1: string, k2: string, p2: string)
    requires BuildRequest(k1, p1) == BuildRequest(k2, p2)
    ensures k1 == k2 && p1 == p2
  {
    var r1, r2 := BuildRequest(k1, p1), BuildRequest(k2, p2);
    assert r1.authorization[|Bearer|..] == r2.authorization[|Bearer|..];
    assert r1.messages[1].content == r2.messages[1].content;
  }

  /** Python's `key in doc`: a key test on a dict, a membership test on a
      list, a substring test on a str, and a TypeError (`None`) otherwise. */
  function PyIn(key: string, doc: Json): (r: Option<bool>)
    ensures r.None? <==> !(doc.Obj? || doc.Arr? || doc.Str?)
    ensures doc.Obj? ==> r == Some(key in doc.fields)
    ensures doc.Arr? ==> r == Some(Str(key) in doc.items)
    ensures doc.Str? ==> r == Some(Contains(doc.s, key))
  {
    match doc
    case Obj(m) => Some(key in m)
    case Arr(xs) => Some(Str(key) in xs)
    case Str(t) => Some(Contains(t, key))
    case _ => None
  }

  /** On a dict, the `in` test is exactly the test that the subscript by the
      same key succeeds: the "choices" check guards `result["choices"]`. */
  lemma InDictMeansSubscript(key: string, doc: Json)
    requires doc.Obj?
    ensures PyIn(key, doc) == Some(true) <==> Field(doc, key).Some?
  {
  }

  /** Python's `doc[key]` for a string key: only a dict holding the key
      answers; anything else raises. */
  function Field(doc: Json, key: string): (r: Option<Json>)
    ensures r.Some? <==> doc.Obj? && key in doc.fields
    ensures r.Some? ==> r.value == doc.fields[key]
  {
    if doc.Obj? && key in doc.fields then Some(doc.fields[key]) else None
  }

  /** Python's `doc[0]`: the first item of a non-empty list or the first
      character of a non-empty str; a dict decoded from JSON has only string
      keys, so it raises, as does everything else. */
  function Index0(doc: Json): (r: Option<Json>)
    ensures doc.Arr? && doc.items != [] ==> r == Some(doc.items[0])
    ensures doc.Str? && doc.s != [] ==> r == Some(Str([doc.s[0]]))
    ensures r.Some? ==> (doc.Arr? && doc.items != []) || (doc.Str? && doc.s != [])
  {
    match doc
    case Arr(xs) => if xs != [] then Some(xs[0]) else None
    case Str(t) => if t != [] then Some(Str([t[0]])) else None
    case _ => None
  }

  /** `doc` holds the str `text` at `choices[0].message.content`: "choices"
      is a non-empty list whose first item is a dict whose "message" is a dict
      whose "content" is `text`. */
  ghost predicate ContentAt(doc: Json, text: string) {
    doc.Obj? && "choices" in doc.fields &&
    var choices := doc.fields["choices"];
    choices.Arr? && choices.items != [] &&
    var first := choices.items[0];
    first.Obj? && "message" in first.fields &&
    var message := first.fields["message"];
    message.Obj? && "content" in message.fields && message.fields["content"] == Str(text)
  }

  /** The assistant's text at `choices[0].message.content`, when every step
      of the path succeeds and the content is a str (the only value that has
      the `strip` the next line calls). A str at "choices" passes `[0]` but
      never reaches a text, since a one-character str has no "message". */
  function ContentOf(doc: Json): (r: Option<string>)
    ensures r.Some? ==> ContentAt(doc, r.value)
    ensures r.None? ==> forall text :: !ContentAt(doc, text)
  {
    match Field(doc, "choices")
    case None => None
    case Some(choices) =>
      match Index0(choices)
      case None => None
      case Some(first) =>
        match Field(first, "message")
        case None => None
        case Some(message) =>
          match Field(message, "content")
          case Some(Str(text)) => Some(text)
          case _ => None
  }

  /** The path yields `text` exactly when the document holds `text` there. */
  lemma ContentOfIsPath(doc: Json, text: string)
    ensures ContentOf(doc) == Some(text) <==> ContentAt(doc, text)
  {
  }

  /** What `call_llm` makes of the decoded response. */
  function ExtractContent(body: Option<Json>): (r: Result<string, LlmError>)
    ensures r != Failure(MissingApiKey)
    ensures body.None? <==> r == Failure(BodyNotJson)
    ensures body.Some? ==>
      (r.Failure? && r.error.NoChoices? <==> PyIn("choices", body.value) == Some(false))
    ensures body.Some? ==>
      (r.Failure? && r.error.Malformed? <==>
         PyIn("choices", body.value) != Some(false) && ContentOf(body.value).None?)
    ensures r.Failure? && r.error.NoChoices? ==> body.Some? && r.error.response == body.value
    ensures r.Success? <==> body.Some? && ContentOf(body.value).Some?
    ensures r.Success? ==>
      && r.value == NormalizeFences(ContentOf(body.value).value)
      && NoEdge(r.value, IsSpace)
      && |r.value| <= |ContentOf(body.value).value|
  {
    match body
    case None => Failure(BodyNotJson)
    case Some(doc) =>
      match PyIn("choices", doc)
      case None => Failure(Malformed)
      case Some(present) =>
        if !present then
          Failure(NoChoices(doc))
        else
          match ContentOf(doc)
          case None => Failure(Malformed)
          case Some(text) => Success(NormalizeFences(text))
  }

  /** An object without "choices", such as the provider's error document,
      is reported with the document itself. */
  lemma ObjectWithoutChoices(doc: Json)
    requires doc.Obj? && "choices" !in doc.fields
    ensures ExtractContent(Some(doc)) == Failure(NoChoices(doc))
  {
  }

  /** For instance the error document {"error": e}. */
  lemma ErrorDocumentCarried(e: Json)
    ensures ExtractContent(Some(Obj(map["error" := e]))) == Failure(NoChoices(Obj(map["error" := e])))
  {
    ObjectWithoutChoices(Obj(map["error" := e]));
  }

  /** A list holding the string "choices" passes the membership test and then
      fails on the subscript. */
  lemma ListWithChoicesMalformed(doc: Json)
    requires doc == Arr([Str("choices")])
    ensures ExtractContent(Some(doc)) == Failure(Malformed)
  {
    assert Str("choices") == doc.items[0];
  }

  /** A chat-completion document whose first choice holds `text`, other top
      level fields being `others`. */
  function ChoiceReply(text: string, others: map<string, Json>): (doc: Json)
    ensures doc.Obj? && "choices" in doc.fields
  {
    var message := Obj(map["role" := Str("assistant"), "content" := Str(text)]);
    var choice := Obj(map["index" := Num(0.0), "message" := message]);
    Obj(others["choices" := Arr([choice])])
  }

  /** From such a document `call_llm` returns the normalised text. */
  lemma ChoiceReplyExtracts(text: string, others: map<string, Json>)
    ensures ContentOf(ChoiceReply(text, others)) == Some(text)
    ensures ExtractContent(Some(ChoiceReply(text, others))) == Success(NormalizeFences(text))
  {
    var message := Obj(map["role" := Str("assistant"), "content" := Str(text)]);
    var choice := Obj(map["index" := Num(0.0), "message" := message]);
    var doc := ChoiceReply(text, others);
    assert Field(doc, "choices") == Some(Arr([choice]));
    assert Index0(Arr([choice])) == Some(choice);
    assert Field(choice, "message") == Some(message);
    assert Field(message, "content") == Some(Str(text));
  }

  /** One call: the request sent, if any, and what the call returns. */
  datatype Exchange = Exchange(sent: Option<ChatRequest>, result: Result<string, LlmError>)

  /** `call_llm(prompt)` with the configured key and the HTTP exchange
      `transport`. */
  function CallLlm(apiKey: Option<string>, prompt: string, transport: ChatRequest -> Option<Json>): (x: Exchange)
    ensures x.sent.None? <==> !HasKey(apiKey)
    ensures x.result == Failure(MissingApiKey) <==> !HasKey(apiKey)
    ensures HasKey(apiKey) ==>
      && x.sent == Some(BuildRequest(apiKey.value, prompt))
      && x.result == ExtractContent(transport(x.sent.value))
  {
    if !HasKey(apiKey) then
      Exchange(None, Failure(MissingApiKey))
    else
      var req := BuildRequest(apiKey.value, prompt);
      Exchange(Some(req), ExtractContent(transport(req)))
  }

  /** Without a key the outcome does not depend on the provider at all. */
  lemma MissingKeyIgnoresTransport(apiKey: Option<string>, prompt: string,
                                   t1: ChatRequest -> Option<Json>, t2: ChatRequest -> Option<Json>)
    requires !HasKey(apiKey)
    ensures CallLlm(apiKey, prompt, t1) == CallLlm(apiKey, prompt, t2)
  {
  }

  /** An empty key counts as missing. */
  lemma EmptyKeyIsMissing(prompt: string, transport: ChatRequest -> Option<Json>)
    ensures CallLlm(Some(""), prompt, transport) == Exchange(None, Failure(MissingApiKey))
  {
  }
}

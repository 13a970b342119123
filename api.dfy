/**
 * The frontend's backend client (frontend/src/lib/api.ts): how a chat request becomes the
 * fields of a multipart body, and how the replies of the chat, extract and health
 * endpoints become results.  The reply to each request is an input here: the network is
 * not modelled.
 */
module Api {
  import opened Wrappers
  import opened Strings
  import opened Wire
  import JsonText

  /** `ChatRequest`: the optional members are `None` when left undefined. */
  datatype ChatRequest = ChatRequest(
    question: string, subject: string, mode: string,
    temperature: Option<Number>, topK: Option<Number>, files: Option<seq<File>>,
    options: Option<seq<string>>, context: Option<string>)

  /** `ChatResponse`; the metadata is whatever the backend sent, of any shape `M`. */
  datatype ChatResponse<M> = ChatResponse(answer: string, timestamp: string, metadata: Option<M>)

  /** What the client functions throw: the rejected `fetch`, a status that is not 2xx, or a body that is not JSON. */
  datatype ApiError = NetworkFailure | RequestFailed(message: string) | MalformedBody

  /** One outbound HTTP request: its method, its URL and its multipart fields. */
  datatype OutboundRequest = OutboundRequest(verb: string, url: string, form: seq<FormField>)

  const DefaultBackendUrl: string := "http://localhost:5000"
  const NoResponseAnswer: string := "No response received"

  /** `import.meta.env.VITE_BACKEND_URL || 'http://localhost:5000'` */
  function BackendUrl(configured: Option<string>): (r: string)
    ensures configured.Some? && configured.value != "" ==> r == configured.value
    ensures configured.None? || configured.value == "" ==> r == DefaultBackendUrl
  {
    match configured
    case Some(u) => if u != "" then u else DefaultBackendUrl
    case None => DefaultBackendUrl
  }

  // ----- the chat request -----

  /** The attachments of a request; an absent list is no attachments. */
  function Attachments(req: ChatRequest): seq<File> {
    if req.files.Some? then req.files.value else []
  }

  function TemperatureFields(req: ChatRequest): seq<FormField> {
    if req.temperature.Some? then [("temperature", Text(req.temperature.value.text))] else []
  }

  function TopKFields(req: ChatRequest): seq<FormField> {
    if req.topK.Some? then [("top_k", Text(req.topK.value.text))] else []
  }

  function ContextFields(req: ChatRequest): seq<FormField> {
    if req.context.Some? && req.context.value != "" then [("context", Text(req.context.value))] else []
  }

  function OptionsFields(req: ChatRequest): seq<FormField> {
    if req.options.Some? && |req.options.value| > 0
    then [("options", Text(JsonText.StringifyArray(req.options.value)))]
    else []
  }

  /** The fields before the attachments: the three that are always sent and the optional ones. */
  function ScalarFields(req: ChatRequest): seq<FormField> {
    [("question", Text(req.question)), ("subject", Text(req.subject)), ("mode", Text(req.mode))]
    + TemperatureFields(req) + TopKFields(req) + ContextFields(req) + OptionsFields(req)
  }

  /** The body `sendChatMessage` sends, as a reference definition. */
  function ChatForm(req: ChatRequest): seq<FormField> {
    ScalarFields(req) + FileFields(Attachments(req))
  }

  /** The successive `formData.append` calls of `sendChatMessage`, the files appended one by one. */
  method BuildChatForm(req: ChatRequest) returns (form: seq<FormField>)
    ensures form == ChatForm(req)
  {
    var required := [("question", Text(req.question)), ("subject", Text(req.subject)), ("mode", Text(req.mode))];
    form := required;
    if req.temperature.Some? {
      form := form + [("temperature", Text(req.temperature.value.text))];
    }
    assert form == required + TemperatureFields(req);
    if req.topK.Some? {
      form := form + [("top_k", Text(req.topK.value.text))];
    }
    assert form == required + TemperatureFields(req) + TopKFields(req);
    if req.context.Some? && req.context.value != "" {
      form := form + [("context", Text(req.context.value))];
    }
    assert form == required + TemperatureFields(req) + TopKFields(req) + ContextFields(req);
    if req.options.Some? && |req.options.value| > 0 {
      form := form + [("options", Text(JsonText.StringifyArray(req.options.value)))];
    }
    assert form == ScalarFields(req);
    if req.files.Some? && |req.files.value| > 0 {
      form := AppendFileFields(form, req.files.value);
    } else {
      assert FileFields(Attachments(req)) == [];
      assert form == form + [];
    }
  }

  /** A name that occurs in a field list. */
  ghost predicate HasField(form: seq<FormField>, name: string) {
    exists v :: (name, v) in form
  }

  predicate IsFileName(name: string) {
    StartsWith(name, "file_")
  }

  lemma NotFileName(name: string)
    requires |name| > 0 && name[0] != 'f'
    ensures !IsFileName(name)
  {
  }

  /** No attachment field can be mistaken for one of the named fields. */
  lemma NoFileFieldNamed(files: seq<File>, name: string)
    requires |name| > 0 && name[0] != 'f'
    ensures !HasField(FileFields(files), name)
  {
    forall i | 0 <= i < |files| ensures FileFields(files)[i].0 != name {
      assert FileKey(i)[0] == 'f';
    }
  }

  /** question, subject and mode are always the first three fields, in that order. */
  lemma ChatFormStartsWithRequired(req: ChatRequest)
    ensures |ChatForm(req)| >= 3
    ensures ChatForm(req)[..3] == [("question", Text(req.question)), ("subject", Text(req.subject)), ("mode", Text(req.mode))]
  {
  }

  /**
   * Each optional field is present exactly under its condition: temperature and top_k when
   * defined, context when a non-empty string, options when a non-empty list.
   */
  lemma ChatFormOptionalFields(req: ChatRequest)
    ensures HasField(ChatForm(req), "temperature") <==> req.temperature.Some?
    ensures HasField(ChatForm(req), "top_k") <==> req.topK.Some?
    ensures HasField(ChatForm(req), "context") <==> req.context.Some? && req.context.value != ""
    ensures HasField(ChatForm(req), "options") <==> req.options.Some? && |req.options.value| > 0
  {
    NoFileFieldNamed(Attachments(req), "temperature");
    NoFileFieldNamed(Attachments(req), "top_k");
    NoFileFieldNamed(Attachments(req), "context");
    NoFileFieldNamed(Attachments(req), "options");
  }

  /** The options field carries the option list as JSON text that parses back to the list. */
  lemma ChatFormOptionsDecode(req: ChatRequest)
    requires req.options.Some? && |req.options.value| > 0
    ensures exists i :: (0 <= i < |ChatForm(req)| && ChatForm(req)[i].0 == "options"
      && ChatForm(req)[i].1.Text? && JsonText.DecodeArray(ChatForm(req)[i].1.text) == Some(req.options.value))
  {
    var prefix := [("question", Text(req.question)), ("subject", Text(req.subject)), ("mode", Text(req.mode))]
      + TemperatureFields(req) + TopKFields(req) + ContextFields(req);
    var i := |prefix|;
    assert ChatForm(req) == prefix + OptionsFields(req) + FileFields(Attachments(req));
    assert ChatForm(req)[i] == ("options", Text(JsonText.StringifyArray(req.options.value)));
    JsonText.ArrayRoundTrip(req.options.value);
  }

  /**
   * The attachments come last, as `file_0 .. file_{n-1}` in the order of the request's
   * list, and no field before them is named like one.
   */
  lemma ChatFormFileFields(req: ChatRequest)
    ensures var form, n := ChatForm(req), |Attachments(req)|;
      |form| >= n
      && form[|form| - n..] == FileFields(Attachments(req))
      && (forall i :: 0 <= i < |form| - n ==> !IsFileName(form[i].0))
    ensures req.files.None? || req.files.value == [] ==> !exists i :: 0 <= i < |ChatForm(req)| && IsFileName(ChatForm(req)[i].0)
  {
    var scalars := ScalarFields(req);
    var form := ChatForm(req);
    assert form[..|scalars|] == scalars;
    forall i | 0 <= i < |scalars| ensures !IsFileName(scalars[i].0) {
      NotFileName(scalars[i].0);
    }
  }

  // ----- replies -----

  /** The shaping of a chat reply: throws unless a 2xx JSON reply, and never returns an empty answer. */
  function ShapeChatReply<M>(reply: HttpReply<ChatBody<M>>, now: string): (r: Result<ChatResponse<M>, ApiError>)
    ensures r.Success? <==> reply.Reply? && IsOk(reply.status) && reply.body.Some?
    ensures reply.NoResponse? ==> r == Failure(NetworkFailure)
    ensures reply.Reply? && !IsOk(reply.status) ==> r == Failure(RequestFailed("API request failed: " + reply.statusText))
    ensures r.Success? ==> (r.value.answer != "" && r.value.timestamp == now
      && r.value.metadata == reply.body.value.metadata)
    ensures r.Success? ==>
      (var a := reply.body.value.answer;
       if a.Some? && a.value != "" then r.value.answer == a.value else r.value.answer == NoResponseAnswer)
  {
    match reply
    case NoResponse => Failure(NetworkFailure)
    case Reply(status, statusText, body) =>
      if !IsOk(status) then Failure(RequestFailed("API request failed: " + statusText))
      else match body
        case None => Failure(MalformedBody)
        case Some(data) =>
          var answer := if data.answer.Some? && data.answer.value != "" then data.answer.value else NoResponseAnswer;
          Success(ChatResponse(answer, now, data.metadata))
  }

  /**
   * `sendChatMessage`: the request it sends, and what it returns or throws given the reply.
   * `now` is `new Date().toISOString()`.
   */
  method SendChatMessage<M>(base: string, req: ChatRequest, reply: HttpReply<ChatBody<M>>, now: string)
    returns (request: OutboundRequest, result: Result<ChatResponse<M>, ApiError>)
    ensures request == ChatPost(base, req)
    ensures result == ShapeChatReply(reply, now)
  {
    var form := BuildChatForm(req);
    request := OutboundRequest("POST", base + "/api/chat", form);
    result := ShapeChatReply(reply, now);
  }

  /** The request `sendChatMessage` sends. */
  function ChatPost(base: string, req: ChatRequest): OutboundRequest {
    OutboundRequest("POST", base + "/api/chat", ChatForm(req))
  }

  /** The request `extractTextFromFile` sends: one field named `file`. */
  function ExtractRequest(base: string, file: File): OutboundRequest {
    OutboundRequest("POST", base + "/api/extract", [("file", Blob(file))])
  }

  /** `extractTextFromFile`: throws unless a 2xx JSON reply; otherwise the text, or `''` when it has none. */
  function ShapeExtractReply(reply: HttpReply<ExtractBody>): (r: Result<string, ApiError>)
    ensures r.Success? <==> reply.Reply? && IsOk(reply.status) && reply.body.Some?
    ensures reply.Reply? && !IsOk(reply.status) ==> r == Failure(RequestFailed("File extraction failed: " + reply.statusText))
    ensures r.Success? && reply.body.value.text.Some? ==> r.value == reply.body.value.text.value
    ensures r.Success? && reply.body.value.text.None? ==> r.value == ""
  {
    match reply
    case NoResponse => Failure(NetworkFailure)
    case Reply(status, statusText, body) =>
      if !IsOk(status) then Failure(RequestFailed("File extraction failed: " + statusText))
      else match body
        case None => Failure(MalformedBody)
        case Some(data) => Success(if data.text.Some? then data.text.value else "")
  }

  /** The request `checkBackendHealth` sends. */
  function HealthRequest(base: string): OutboundRequest {
    OutboundRequest("GET", base + "/api/health", [])
  }

  /** `checkBackendHealth` never throws: healthy exactly when a response arrived with a 2xx status, whatever its body. */
  function HealthOf<B>(reply: HttpReply<B>): (healthy: bool)
    ensures healthy <==> reply.Reply? && IsOk(reply.status)
    ensures reply.NoResponse? ==> !healthy
  {
    match reply
    case NoResponse => false
    case Reply(status, _, _) => IsOk(status)
  }
}

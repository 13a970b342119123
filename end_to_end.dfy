/**
 * The three parts together: what the chat panel sends is what the client library would
 * send for the same request, the server reads back exactly what the panel put in, and the
 * server's reply becomes the bubble or the result the frontend shows.  A body travels
 * unchanged; a reply carries Werkzeug's reason phrase as its status text.
 */
module EndToEnd {
  import opened Wrappers
  import opened Strings
  import opened Wire
  import ChatSession
  import Api
  import Backend

  /** The request the server sees for a multipart body: its string fields and its file parts. */
  function Received(form: seq<FormField>): Backend.ChatHttpRequest {
    Backend.ChatHttpRequest(TextFields(form), None, FileParts(form))
  }

  /** The status line's reason phrase as the development server writes it. */
  function ReasonPhrase(status: nat): string {
    if status == 200 then "OK"
    else if status == 400 then "BAD REQUEST"
    else if status == 500 then "INTERNAL SERVER ERROR"
    else ""
  }

  /** A chat reply as the frontend reads its JSON: `answer` and `metadata`, absent for other bodies. */
  function ChatReplyAsRead(resp: Backend.HttpResponse): HttpReply<ChatBody<Backend.ChatMeta>> {
    Reply(resp.status, ReasonPhrase(resp.status), Some(
      match resp.body
      case ChatAnswer(answer, _, metadata) => ChatBody(Some(answer), metadata)
      case _ => ChatBody(None, None)))
  }

  /** An extraction reply as the frontend reads its JSON: `text`, absent for other bodies. */
  function ExtractReplyAsRead(resp: Backend.HttpResponse): HttpReply<ExtractBody> {
    Reply(resp.status, ReasonPhrase(resp.status), Some(
      match resp.body
      case ExtractedText(text, _) => ExtractBody(Some(text))
      case _ => ExtractBody(None)))
  }

  /** The library request that has the panel's settings. */
  function PanelRequest(question: string, props: ChatSession.Props, files: seq<File>): Api.ChatRequest {
    Api.ChatRequest(question, props.subject, props.mode, Some(props.temperature), Some(props.topK),
                    Some(files), None, None)
  }

  /** The panel sends exactly the body `sendChatMessage` would send for its settings, with no context and no options. */
  lemma PanelFormIsLibraryForm(question: string, props: ChatSession.Props, files: seq<File>)
    ensures ChatSession.InterfaceForm(question, props, files) == Api.ChatForm(PanelRequest(question, props, files))
  {
  }

  /** The panel's string fields, as the server reads them. */
  function PanelFields(question: string, props: ChatSession.Props): seq<(string, string)> {
    [("question", question), ("subject", props.subject), ("mode", props.mode),
     ("temperature", props.temperature.text), ("top_k", props.topK.text)]
  }

  /** The panel's scalar fields, in order. */
  function PanelScalars(question: string, props: ChatSession.Props): seq<FormField> {
    [("question", Text(question)), ("subject", Text(props.subject)), ("mode", Text(props.mode)),
     ("temperature", Text(props.temperature.text)), ("top_k", Text(props.topK.text))]
  }

  /** The string fields of the panel's body are its five settings, in order. */
  lemma PanelBodyFields(question: string, props: ChatSession.Props, files: seq<File>)
    ensures TextFields(ChatSession.InterfaceForm(question, props, files)) == PanelFields(question, props)
  {
    var scalars := PanelScalars(question, props);
    assert ChatSession.InterfaceForm(question, props, files) == scalars + FileFields(files);
    SplitAppend(scalars, FileFields(files));
    SplitFileFields(files);
    SplitTextOnly(scalars);
    assert TextFields(scalars) == PanelFields(question, props);
    assert PanelFields(question, props) + [] == PanelFields(question, props);
  }

  /** The file parts of the panel's body are the attachments under distinct names, so every one is processed, in order. */
  lemma PanelBodyUploads(question: string, props: ChatSession.Props, files: seq<File>)
    ensures Backend.Uploads(FileParts(ChatSession.InterfaceForm(question, props, files))) == files
  {
    var scalars := PanelScalars(question, props);
    var form := ChatSession.InterfaceForm(question, props, files);
    assert form == scalars + FileFields(files);
    SplitAppend(scalars, FileFields(files));
    SplitFileFields(files);
    SplitTextOnly(scalars);
    var parts := FileParts(form);
    assert parts == seq(|files|, i requires 0 <= i < |files| => (FileKey(i), files[i]));
    forall i, j | 0 <= i < j < |parts| ensures parts[i].0 != parts[j].0 {
      FileKeysDistinct(i, j);
    }
    Backend.UploadsOfDistinct(parts);
    assert seq(|parts|, i requires 0 <= i < |parts| => parts[i].1) == files;
  }

  /** Looking the panel's settings up by name finds the values the panel sent. */
  lemma PanelFieldsLookup(question: string, props: ChatSession.Props, svc: Backend.Services)
    ensures Backend.Get(PanelFields(question, props), "question", "") == question
    ensures Backend.Get(PanelFields(question, props), "subject", "sci") == props.subject
    ensures Backend.Get(PanelFields(question, props), "mode", "short") == props.mode
    ensures Backend.Temperature(PanelFields(question, props), svc) == svc.parseFloat(props.temperature.text)
  {
    var fields := PanelFields(question, props);
    var rest := fields[1..];
    assert rest == [("subject", props.subject), ("mode", props.mode),
                    ("temperature", props.temperature.text), ("top_k", props.topK.text)];
    assert rest[1..] == [("mode", props.mode), ("temperature", props.temperature.text), ("top_k", props.topK.text)];
    assert rest[1..][1..] == [("temperature", props.temperature.text), ("top_k", props.topK.text)];
    assert Backend.Lookup(rest, "subject") == Some(props.subject);
    assert Backend.Lookup(fields, "subject") == Backend.Lookup(rest, "subject");
    assert Backend.Lookup(rest[1..], "mode") == Some(props.mode);
    assert Backend.Lookup(rest, "mode") == Backend.Lookup(rest[1..], "mode");
    assert Backend.Lookup(fields, "mode") == Backend.Lookup(rest, "mode");
    assert Backend.Lookup(rest[1..][1..], "temperature") == Some(props.temperature.text);
  }

  /**
   * The server reads the panel's body back exactly: the form is the panel's five settings, the
   * question, subject and mode are the ones typed and chosen, the temperature is parsed from
   * the panel's value, and the uploads are the attachments, all of them, in order.
   */
  lemma ServerReadsPanelBody(question: string, props: ChatSession.Props, files: seq<File>, svc: Backend.Services)
    ensures var req := Received(ChatSession.InterfaceForm(question, props, files));
      && Backend.RequestData(req) == Some(PanelFields(question, props))
      && Backend.Get(PanelFields(question, props), "question", "") == question
      && Backend.Get(PanelFields(question, props), "subject", "sci") == props.subject
      && Backend.Get(PanelFields(question, props), "mode", "short") == props.mode
      && Backend.Temperature(PanelFields(question, props), svc) == svc.parseFloat(props.temperature.text)
      && Backend.Uploads(req.files) == files
  {
    PanelBodyFields(question, props, files);
    PanelBodyUploads(question, props, files);
    PanelFieldsLookup(question, props, svc);
  }

  /**
   * A message sent from the panel is answered with its own subject and mode echoed, and its
   * answer comes from the attachments' context exactly as the server builds it; only a
   * temperature the server cannot parse makes it fail.
   */
  lemma PanelMessageAnswered(question: string, props: ChatSession.Props, files: seq<File>,
                             cfg: Backend.Config, svc: Backend.Services)
    ensures var resp := Backend.ChatReply(Received(ChatSession.InterfaceForm(question, props, files)), cfg, svc);
      var t := svc.parseFloat(props.temperature.text);
      && (resp.status == 200 <==> t.Some?)
      && (t.Some? ==> resp.body == Backend.ChatAnswer(
            Backend.AnswerFor(cfg, svc, question, props.subject, t.value, Backend.ContextEntries(files, svc)), true,
            Some(Backend.ChatMeta(props.subject, props.mode, |Backend.ContextEntries(files, svc)| > 0))))
  {
    ServerReadsPanelBody(question, props, files, svc);
  }

  /**
   * The bubble the panel adds after a server reply: the server's answer when it answered
   * (the default sentence if that answer is empty), and the demo fallback when the server
   * failed with a 500.
   */
  lemma PanelShowsServerAnswer(resp: Backend.HttpResponse, snap: ChatSession.Snapshot)
    requires resp.body.ChatAnswer?
    requires resp.status == 200 || resp.status == 500
    ensures resp.status == 200 && resp.body.answer != "" ==>
      ChatSession.ReplyText(ChatSession.OutcomeOf(ChatReplyAsRead(resp)), snap) == resp.body.answer
    ensures resp.status == 200 && resp.body.answer == "" ==>
      ChatSession.ReplyText(ChatSession.OutcomeOf(ChatReplyAsRead(resp)), snap) == ChatSession.DefaultAnswer
    ensures resp.status == 500 ==>
      ChatSession.ReplyText(ChatSession.OutcomeOf(ChatReplyAsRead(resp)), snap) == ChatSession.FallbackText(snap)
  {
  }

  /** The client library returns the server's answer and metadata, and throws with the reason phrase on a 500. */
  lemma LibraryReadsServerAnswer(resp: Backend.HttpResponse, now: string)
    requires resp.body.ChatAnswer?
    requires resp.status == 200 || resp.status == 500
    ensures resp.status == 200 && resp.body.answer != "" ==>
      Api.ShapeChatReply(ChatReplyAsRead(resp), now)
        == Success(Api.ChatResponse(resp.body.answer, now, resp.body.metadata))
    ensures resp.status == 500 ==>
      Api.ShapeChatReply(ChatReplyAsRead(resp), now)
        == Failure(Api.RequestFailed("API request failed: INTERNAL SERVER ERROR"))
  {
    if resp.status == 500 {
      assert ReasonPhrase(resp.status) == "INTERNAL SERVER ERROR";
      assert !IsOk(resp.status);
      assert "API request failed: " + "INTERNAL SERVER ERROR" == "API request failed: INTERNAL SERVER ERROR";
    }
  }

  /** `extractTextFromFile` on the server's reply: the extracted text for a PDF or an image, an error otherwise. */
  lemma ExtractRoundTrip(base: string, f: File, svc: Backend.Services)
    ensures FileParts(Api.ExtractRequest(base, f).form) == [("file", f)]
    ensures var result := Api.ShapeExtractReply(ExtractReplyAsRead(Backend.Extract([("file", f)], svc)));
      && (Backend.Classify(f.name) != Backend.Unsupported ==> result == Success(Backend.TextOf(f, svc)))
      && (Backend.Classify(f.name) == Backend.Unsupported ==>
            result == Failure(Api.RequestFailed("File extraction failed: BAD REQUEST")))
  {
    var resp := Backend.Extract([("file", f)], svc);
    assert Backend.Lookup([("file", f)], "file") == Some(f);
    if Backend.Classify(f.name) == Backend.Unsupported {
      assert resp.status == 400 && ReasonPhrase(resp.status) == "BAD REQUEST";
      assert "File extraction failed: " + "BAD REQUEST" == "File extraction failed: BAD REQUEST";
    }
  }

  /** A reply as it arrives, with the server's body as sent: `checkBackendHealth` reads no field of it. */
  function ReplyAsSent(resp: Backend.HttpResponse): HttpReply<Backend.Body> {
    Reply(resp.status, ReasonPhrase(resp.status), Some(resp.body))
  }

  /** The health check reports a running server as healthy. */
  lemma HealthCheckSucceeds()
    ensures Api.HealthOf(ReplyAsSent(Backend.Health()))
  {
  }

  /** The view a request sent to a server at `base` reaches: none when its URL is elsewhere. */
  function Dispatch(base: string, request: Api.OutboundRequest): Option<Backend.Endpoint> {
    if StartsWith(request.url, base) then Backend.Route(request.verb, request.url[|base|..]) else None
  }

  /**
   * Every request of the frontend reaches the view meant for it: the library's chat,
   * extraction and health requests at any base URL, and the panel's own chat post at the
   * default server address.
   */
  lemma RequestsRouted(base: string, req: Api.ChatRequest, f: File, form: seq<FormField>)
    ensures Dispatch(base, Api.ChatPost(base, req)) == Some(Backend.ChatEndpoint)
    ensures Dispatch(base, Api.ExtractRequest(base, f)) == Some(Backend.ExtractEndpoint)
    ensures Dispatch(base, Api.HealthRequest(base)) == Some(Backend.HealthEndpoint)
    ensures Dispatch(Api.DefaultBackendUrl, Api.OutboundRequest("POST", ChatSession.PanelUrl, form))
      == Some(Backend.ChatEndpoint)
  {
    var chat, extract, health := base + "/api/chat", base + "/api/extract", base + "/api/health";
    assert chat[..|base|] == base && chat[|base|..] == "/api/chat";
    assert extract[..|base|] == base && extract[|base|..] == "/api/extract";
    assert health[..|base|] == base && health[|base|..] == "/api/health";
    assert ChatSession.PanelUrl == Api.DefaultBackendUrl + "/api/chat";
    assert ChatSession.PanelUrl[..|Api.DefaultBackendUrl|] == Api.DefaultBackendUrl;
    assert ChatSession.PanelUrl[|Api.DefaultBackendUrl|..] == "/api/chat";
  }

  /**
   * The panel's upload filter looks at the MIME type, the server at the file name: a GIF
   * image is accepted by the panel and then ignored by the chat endpoint and refused by the
   * extract endpoint.
   */
  lemma GifAcceptedYetIgnored(svc: Backend.Services)
    ensures var gif := File("diagram.gif", "image/gif", []);
      && ChatSession.Accepted(gif) && Backend.EntryFor(gif, svc) == []
      && Backend.Extract([("file", gif)], svc).status == 400
  {
    GifNameUnsupported();
    assert "image/gif"[..6] == "image/";
  }

  /** The server's suffix test finds neither a PDF nor an image suffix on `diagram.gif`. */
  lemma GifNameUnsupported()
    ensures Backend.Classify("diagram.gif") == Backend.Unsupported
  {
    var name := "diagram.gif";
    assert Lower(name) == name;
    assert name[|name| - 4..] == ".gif";
    assert name[|name| - 5..] == "m.gif";
  }

  /** A PDF whose name lacks the `.pdf` suffix is likewise accepted by the panel and ignored by the server. */
  lemma UnsuffixedPdfIgnored(svc: Backend.Services)
    ensures var scan := File("scan", "application/pdf", []);
      && ChatSession.Accepted(scan) && Backend.EntryFor(scan, svc) == []
      && Backend.Extract([("file", scan)], svc).status == 400
  {
    var name := "scan";
    assert Lower(name) == name;
    assert name[|name| - 4..] == "scan";
    assert Backend.Classify(name) == Backend.Unsupported;
  }
}

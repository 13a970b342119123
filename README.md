# STEM Bot chat path, modelled in Dafny

STEM Bot is a tutoring web app. Its React frontend has a chat panel (`ChatInterface`) where a
student types a question, attaches PDFs or images and gets an answer. The panel posts the
question, the chosen subject (`sci`, `cal` or `socio`), the answer mode and the sampling
settings as a `multipart/form-data` body to a Flask server. The server extracts text from the
attachments, prepends it to the question as context, and either solves the question
symbolically (math questions) or asks a hosted language model, retrying once with a fallback
model. When the server cannot be reached, the panel shows a canned demo answer. A small client
library (`api.ts`) offers the same chat request in a more general form, plus text extraction
and a health check.

This project models that path and proves properties of the model:

- `wrappers.dfy`: `Option` and `Result`.
- `strings.dfy`: the string operations both sides use. These are lower-casing, prefix, suffix
  and substring tests, joining, decimal rendering of counters and JavaScript's `trim`.
- `wire.dfy`: files, numbers as text, the ordered field list of a multipart body, and what
  `fetch` resolves to.
- `json.dfy`: `JSON.stringify` of a string array, with a decoder and the round-trip proof.
- `chat_session.dfy`: the panel as a class. Its fields are messages, input, attachments,
  loading and the in-flight request. The handlers are methods that keep an invariant.
- `api.dfy`: the client library.
- `backend.dfy`: the `/api/chat`, `chat_with_llm`, `/api/extract` and `/api/health` code of the
  server.
- `end_to_end.dfy`: lemmas that connect the three parts.

The send handler awaits one `fetch`. The model splits it in two at that point:
`ChatInterface.BeginSend` runs everything before the await and `ChatInterface.CompleteSend`
everything after it. What the suspended handler holds in between is the real field `pending`.
`Date.now()` arrives as a parameter. The PDF reader, the OCR engine, SymPy, the Hugging Face
client and Python's `float()` are the function-valued fields of `Backend.Services`, so the
backend lemmas hold whatever those services return.

Two behaviours of the code that the model keeps as written:

- The panel imports `sendChatMessage` but never calls it. It builds its own form and posts it
  to a hard-coded `http://localhost:5000`. The library is therefore modelled as a separate
  client, and `EndToEnd.PanelFormIsLibraryForm` proves the two build the same body.
- The panel's upload filter tests the MIME type (`application/pdf` or `image/...`). The server
  tests the file-name suffix (`.pdf`, `.png`, `.jpg`, `.jpeg`). A GIF, or a PDF named without
  `.pdf`, is therefore accepted and then silently ignored. `EndToEnd.GifAcceptedYetIgnored` and
  `EndToEnd.UnsuffixedPdfIgnored` exhibit this.

One behaviour the model corrects rather than keeps: the math keyword list stored at
`backend/app.py:216` ends in a mis-encoded integral sign (see "## Findings"). The chat endpoint
(`Backend.AnswerFor`, `Backend.ChatReply`, `Backend.Chat` and the lemmas about them) routes with
the intended list, `Backend.IsMath`. The stored list is kept beside it as
`Backend.IsMathAsWritten`.

The panel's input box, upload button and New Chat button are disabled while a request is in
flight (`ChatInterface.tsx:254`, `:274`, `:285`). `TypeInput`, `UploadFiles` and `NewChat`
therefore require `ControlsEnabled()`, and the reply of a request in flight always lands on the
conversation that sent it.

## Model

| member | source | states |
|---|---|---|
| Strings.TrimEmptyIffBlank | frontend/src/components/ChatInterface.tsx:88 | `trim()` yields the empty string exactly when every character is ECMAScript whitespace or a line terminator. |
| Wire.AppendFileFields | frontend/src/components/ChatInterface.tsx:120-122 | Appending the attachments one by one adds exactly one `file_i` field per attachment, in order, after the existing fields. |
| Wire.FileKeysDistinct | frontend/src/lib/api.ts:56-58 | Attachments at different positions get different field names. |
| JsonText.ArrayRoundTrip | frontend/src/lib/api.ts:50-52 | The JSON text sent as `options` parses back to exactly the option list, whatever its strings contain. |
| Api.BackendUrl | frontend/src/lib/api.ts:6 | The configured URL is used when set and non-empty; otherwise `http://localhost:5000`. |
| Api.BuildChatForm | frontend/src/lib/api.ts:33-59 | The `append` calls build the reference body `Api.ChatForm`. |
| Api.ChatFormStartsWithRequired | frontend/src/lib/api.ts:33-36 | question, subject and mode are always the first three fields, in that order. |
| Api.ChatFormOptionalFields | frontend/src/lib/api.ts:38-52 | Each optional field is present if and only if its condition holds. temperature and top_k need a defined value; context needs a non-empty string; options needs a non-empty list. |
| Api.ChatFormOptionsDecode | frontend/src/lib/api.ts:50-52 | A non-empty option list is sent as one `options` field whose text decodes to the list. |
| Api.ChatFormFileFields | frontend/src/lib/api.ts:54-59 | The attachments come last, as `file_0..file_{n-1}` in list order. No earlier field is named like one; an absent or empty list sends none. |
| Api.ShapeChatReply | frontend/src/lib/api.ts:61-79 | Succeeds if and only if a 2xx JSON reply arrived. The result is the answer, or "No response received" when it is missing or empty, plus the call time and the server's metadata. A non-2xx reply fails with "API request failed: " and the status text; no response fails as a network error. |
| Api.SendChatMessage | frontend/src/lib/api.ts:31-80 | POSTs `ChatForm(req)` to `<base>/api/chat` and returns or throws as `ShapeChatReply` says. |
| Api.ShapeExtractReply | frontend/src/lib/api.ts:85-105 | Succeeds if and only if a 2xx JSON reply arrived. The result is the `text`, or "" when it is absent. A non-2xx reply fails with "File extraction failed: " and the status text. |
| Api.HealthOf | frontend/src/lib/api.ts:110-120 | Never throws. Healthy if and only if a response arrived with a 2xx status. |
| ChatSession.GreetingNamesSubject | frontend/src/components/ChatInterface.tsx:29-36 | The greeting names the subject's title: "Science" exactly for `sci`, "Math" exactly for `cal`, "Social Science" otherwise. |
| ChatSession.SubjectNamesAgree | frontend/src/components/ChatInterface.tsx:153 | The subject word in the fallback is the greeting's title lower-cased. |
| ChatSession.AcceptedFiles | frontend/src/components/ChatInterface.tsx:57-72 | Keeps at most the picked files, and only PDFs and images. |
| ChatSession.AcceptedFilesAppend | frontend/src/components/ChatInterface.tsx:57-75 | Filtering preserves the picked order: filtering a concatenation concatenates the filtered parts. |
| ChatSession.AcceptedFilesKeepsAll | frontend/src/components/ChatInterface.tsx:60-64 | Every acceptable picked file is kept. |
| ChatSession.AcceptedFilesWhole | frontend/src/components/ChatInterface.tsx:57-64 | When every picked file is acceptable, all are kept, unchanged and in order. |
| ChatSession.Rejections | frontend/src/components/ChatInterface.tsx:63-71 | One destructive notice per refused file; notices and kept files together account for every picked file. |
| ChatSession.SortPicked | frontend/src/components/ChatInterface.tsx:57-72 | The loop over the picked files keeps exactly `AcceptedFiles` and raises exactly the `Rejections` notices. |
| ChatSession.WithoutIndexInRange | frontend/src/components/ChatInterface.tsx:83-85 | Removal at an index in range drops exactly that attachment and keeps the others in order. |
| ChatSession.WithoutIndexOutOfRange | frontend/src/components/ChatInterface.tsx:83-85 | Removal at an index out of range leaves the attachments unchanged. |
| ChatSession.PlaceholderUnreachable | frontend/src/components/ChatInterface.tsx:88-98 | A send that passes the guard always has text, so the "Processing uploaded files..." placeholder is never shown, and the bubble starts with what was typed. |
| ChatSession.AttachmentNamesShown | frontend/src/components/ChatInterface.tsx:90-94 | Every attachment's name appears in the user bubble. |
| ChatSession.BuildForm | frontend/src/components/ChatInterface.tsx:112-122 | The panel's `append` calls build the reference body `InterfaceForm`: question, subject, mode, temperature, top_k, then the files. |
| ChatSession.FallbackMentions | frontend/src/components/ChatInterface.tsx:150-155 | The demo answer quotes the question, names the mode and the subject, and says the backend connection failed. |
| ChatSession.FallbackFileClause | frontend/src/components/ChatInterface.tsx:153 | Attachments change the demo answer only by the sentence with their count, inserted right after the quoted question. |
| ChatSession.ReplyText | frontend/src/components/ChatInterface.tsx:136-155 | The bot bubble is never empty. It is the server's answer when non-empty, the default sentence when the answer is missing or empty, and the demo answer when the request failed. |
| ChatSession.OutcomeOf | frontend/src/components/ChatInterface.tsx:125-134 | The await ends in an answer if and only if a 2xx JSON reply arrived; otherwise it ends in the catch branch. |
| ChatSession.ChatInterface.constructor | frontend/src/components/ChatInterface.tsx:29-39 | A fresh panel holds only the greeting for its subject, an empty input, no attachments and is not loading. |
| ChatSession.ChatInterface.ReceiveProps | frontend/src/components/ChatInterface.tsx:28 | New settings from the dock change the props and nothing else. |
| ChatSession.ChatInterface.TypeInput | frontend/src/components/ChatInterface.tsx:249-254 | Typing sets the input and nothing else; the box is enabled only while no request is in flight. |
| ChatSession.ChatInterface.UploadFiles | frontend/src/components/ChatInterface.tsx:53-81 | Appends the accepted files after the current attachments and shows one notice per refused file, then a count when any were kept. A missing file list changes nothing. Enabled only while no request is in flight (:274). |
| ChatSession.ChatInterface.RemoveFile | frontend/src/components/ChatInterface.tsx:83-85 | The attachments become `WithoutIndex(old, index)`; nothing else changes. |
| ChatSession.ChatInterface.BeginSend | frontend/src/components/ChatInterface.tsx:87-122 | Sends exactly when `SendEnabled()`, the send button's own condition. Blocked sends change nothing. Otherwise it appends the user bubble, clears the input and the attachments, sets loading, and sends the body built from the values before clearing. |
| ChatSession.ChatInterface.CompleteSend | frontend/src/components/ChatInterface.tsx:136-158 | Appends exactly one bot bubble with the reply text for the captured question and clears loading; input and attachments are untouched. |
| ChatSession.ChatInterface.NewChat | frontend/src/components/ChatInterface.tsx:169-179 | Back to the single greeting for the current subject, with the attachments dropped. Enabled only while no request is in flight (:285). |
| ChatSession.ExchangeScenario | frontend/src/components/ChatInterface.tsx:87-158 | One typed question yields the user bubble and then exactly one non-empty bot bubble. A second send while the first is in flight is refused. |
| Backend.ConfigFrom | backend/app.py:28-30 | Each model name is the environment value when set and the documented default when unset. |
| Backend.Lookup | backend/app.py:187-190 | A name is found if and only if some field has it, and the value found is that of the first field with that name. |
| Backend.LookupFirst | backend/app.py:187-190 | When several form fields share a name, the value read is that of the first of them. |
| Backend.LastLookup | backend/app.py:185 | Finds a name if and only if some member has it, and yields the value of the last member with that name. |
| Backend.JsonObject | backend/app.py:185 | The dict built from a JSON object's members holds each name once. |
| Backend.JsonObjectLastWins | backend/app.py:185 | Reading a name from that dict gives the value of the object's last member with that name, as `json.loads` keeps it. |
| Backend.RequestData | backend/app.py:185 | A non-empty form is read as it is, with first-wins lookup. Otherwise the JSON object is read as its dict: each name once, with its last value. Neither present means no data. |
| Backend.UploadsOfDistinct | backend/app.py:196-197 | When every file part has its own name, the server processes all of them, in the order sent. |
| Backend.ClassifyIgnoresCase | backend/app.py:198-204 | The suffix test ignores the case of the file name. |
| Backend.Truncate | backend/app.py:203 | At most 1000 characters, always a prefix of the text, and the whole text when it is short enough. |
| Backend.EntryForWellFormed | backend/app.py:198-207 | One upload adds at most one entry: its kind prefix followed by 1 to 1000 extracted characters. |
| Backend.ContextEntriesWellFormed | backend/app.py:193-207 | At most one entry per upload, each a kind prefix followed by 1 to 1000 extracted characters. |
| Backend.CollectContext | backend/app.py:193-207 | The upload loop builds exactly `ContextEntries`. |
| Backend.ContextEntriesAppend | backend/app.py:196-207 | Entries keep the order of the uploads. |
| Backend.HasContextIff | backend/app.py:196-230 | `has_context` holds if and only if some upload is a PDF or image with non-empty extracted text. |
| Backend.FullQuestionSpec | backend/app.py:210-212 | The question reaches the model unchanged exactly when there is no context. Otherwise it starts with "Context: ", contains every entry and ends with the question. |
| Backend.IsMathIff | backend/app.py:215-216 | A question is a math question if and only if the subject is `cal` or its lower-cased text contains one of the five keywords, the integral sign included. |
| Backend.IntegralSignMissedAsWritten | backend/app.py:215-216 | With the stored keyword list, a question written with the integral sign is not routed to the solver; with the intended one it is. |
| Backend.SystemPromptSpec | backend/app.py:130-134 | The system prompt is the base sentence, plus the science suffix exactly for `sci` and the social-science suffix exactly for `socio`. |
| Backend.ChatWithLlm | backend/app.py:123-174 | The first call uses the subject's model and prompt, the request's temperature and max_tokens 800. The fallback call uses the fallback model with the same temperature. A fallback call is made if and only if the first call raised. The answer is `LlmAnswer`: the first choice, "No response from the model." for an empty reply, or "Error: " and the first error. |
| Backend.ChatReply | backend/app.py:181-238 | The status is 200 or 500, and 500 exactly when the request has no data or the temperature does not parse. A 200 carries success and metadata; a 500 carries an "Error: " answer with success false. |
| Backend.Chat | backend/app.py:181-238 | The handler returns exactly `ChatReply`. |
| Backend.ChatEchoesSettings | backend/app.py:185-232 | Subject and mode are echoed, defaulting to `sci` and `short`. `has_context` holds if and only if some upload contributes. |
| Backend.RepeatedMemberParsed | backend/app.py:185 | A JSON object that gives one name twice is read as a dict holding only the second value. |
| Backend.RepeatedJsonSubjectLastWins | backend/app.py:185-187 | For the JSON body `{"subject": "cal", "subject": "socio"}`, `socio` is echoed and the question goes to the model, not the solver. |
| Backend.RepeatedJsonTemperatureLastWins | backend/app.py:185-190 | For `{"temperature": "abc", "temperature": "0.5"}`, only "0.5" is parsed, so the reply is 200 exactly when it parses. |
| Backend.MathIgnoresContext | backend/app.py:214-222 | A math question is answered by the solver from the raw question, and the uploaded files make no difference. |
| Backend.LlmGetsFullQuestion | backend/app.py:209-222 | Any other question goes to the model with the context in front of it; without uploads, the model gets the bare question. |
| Backend.Extract | backend/app.py:240-261 | Missing `file` gives 400 "No file provided". An unsupported suffix gives 400 "Unsupported file type". A PDF or image gives 200 with its extracted text. |
| Backend.ExtractAgreesWithChat | backend/app.py:248-256 | The extract endpoint refuses exactly the files the chat endpoint skips. On the others, it returns text if and only if the chat endpoint adds context. |
| Backend.Health | backend/app.py:176-179 | Always 200 with status "ok". |
| EndToEnd.PanelFormIsLibraryForm | frontend/src/components/ChatInterface.tsx:112-122 | The panel's body equals the library's body for the same settings, without context or options. |
| EndToEnd.PanelBodyFields | backend/app.py:185 | The server's `request.form` for the panel's body is the five settings, in order. |
| EndToEnd.PanelBodyUploads | backend/app.py:194-197 | The server's uploads for the panel's body are the attachments, all of them, in order. |
| EndToEnd.ServerReadsPanelBody | backend/app.py:185-197 | The server reads back the question, subject and mode exactly, parses the panel's temperature, and processes every attachment. |
| EndToEnd.PanelMessageAnswered | backend/app.py:181-232 | A panel message gets 200 if and only if its temperature parses. The answer is built from the attachments' context, and subject and mode are echoed. |
| EndToEnd.PanelShowsServerAnswer | frontend/src/components/ChatInterface.tsx:130-155 | A 200 reply shows the server's answer, or the default sentence when the answer is empty; a 500 shows the demo answer. |
| EndToEnd.LibraryReadsServerAnswer | frontend/src/lib/api.ts:66-75 | The library returns the server's answer and metadata, and throws "API request failed: INTERNAL SERVER ERROR" on a 500. |
| EndToEnd.ExtractRoundTrip | frontend/src/lib/api.ts:85-100 | Extraction of a PDF or image returns the server's extracted text; any other file makes the library throw "File extraction failed: BAD REQUEST". |
| EndToEnd.HealthCheckSucceeds | frontend/src/lib/api.ts:110-115 | The server's health reply, received as sent, is reported healthy. |
| EndToEnd.RequestsRouted | frontend/src/lib/api.ts:61-113 | The library's chat, extraction and health requests reach the `chat`, `extract` and `health` views for any base URL. The panel's own post reaches `chat` at the default server address. |
| EndToEnd.GifAcceptedYetIgnored | frontend/src/components/ChatInterface.tsx:60-61 | A GIF is accepted by the panel, ignored by the chat endpoint and refused by the extract endpoint. |
| EndToEnd.UnsuffixedPdfIgnored | backend/app.py:200 | A PDF named without `.pdf` is accepted by the panel and ignored by the server. |

## Findings

| source | as written | input that shows it | evidently intended | confidence | as-written member | corrected member |
|---|---|---|---|---|---|---|
| backend/app.py:215-216 | The last math keyword is the three characters U+201A U+00E0 U+00B4: the UTF-8 bytes of the integral sign read as Mac Roman. | subject `sci`, question "∫ x^2" | The integral sign U+222B routes the question to the math solver. | medium, not executed: the characters may have been mis-encoded outside the repository | Backend.IntegralSignMissedAsWritten | Backend.IsMathIff |

## Left out

- Network, CORS and the Flask/Werkzeug machinery are left out. A request reaches the server as its field list, and a reply reaches the frontend as status, reason phrase and parsed JSON body.
- The internals of PDF text extraction, OCR, SymPy and the Hugging Face client are left out. They are parameters, and so are Python's `float()` and the text of caught exceptions (`Services.describe`).
- Floating point is not modelled. Temperatures and top-k values travel as their text, because nothing in the system computes with them. The server reads `top_k` nowhere, and `chat_with_llm` does not use `mode`.
- JSON request bodies are modelled as objects with string values only. A numeric `temperature` in a JSON body is represented by its text. A body that is JSON but not an object is not modelled.
- Backend.IsMathAsWritten: lower-cases ASCII letters only. It therefore misses a question spelled with U+00C0 where the stored keyword has U+00E0. For the suffixes and the intended keywords, ASCII lower-casing decides exactly as Python's `lower()`.
- The paperclip shown before each attachment name is modelled as U+1F4CE. The stored ChatInterface.tsx:92 holds it as four mis-encoded characters; this affects only the bubble's text.
- Flask's own answers to requests that match no route (404, 405, and the automatic HEAD and OPTIONS handling) are left out. `EndToEnd.Dispatch` only says which of the three views a request reaches.
- Events from disabled controls are not modelled. While a request is in flight, `ChatSession.ChatInterface.TypeInput`, `UploadFiles` and `NewChat` cannot be called, as the disabled input box and buttons allow none of them.
- Backend.ChatReply: routes a question with the intended keyword list (`Backend.IsMath`, integral sign U+222B), not with the stored bytes at `backend/app.py:216`. As stored, "∫ x^2" with subject `sci` would go to the language model instead of the solver (`Backend.IntegralSignMissedAsWritten`). The same holds for `Backend.Chat`, `Backend.AnswerFor`, `Backend.MathIgnoresContext`, `Backend.LlmGetsFullQuestion` and `EndToEnd.PanelMessageAnswered`.
- The JSON decoder rejects `\u` escapes of UTF-16 surrogates. `JSON.stringify` never writes them for the strings it is given here, so the round trip is unaffected.
- Scrolling, focus, animation, the markup of the panel and the start-up check for `HF_TOKEN` are presentation or start-up concerns, so they are left out. Other frontend components (the dock, navigation, cards) are not part of this model.

/**
 * The Flask server (backend/app.py): the `/api/chat` handler (reading the request,
 * turning uploaded files into context, composing the question, routing it to the math
 * solver or to the language model and shaping the reply), `chat_with_llm`, `/api/extract`
 * and `/api/health`.
 *
 * The PDF reader, the OCR engine, SymPy, the Hugging Face client and Python's `float()`
 * are not visible here; they are the function-valued fields of `Services`, so every
 * statement is about whatever those functions return.
 */
module Backend {
  import opened Wrappers
  import opened Strings
  import opened Wire

  // ----- configuration and external services -----

  /** The model names read from the environment at start-up. */
  datatype Config = Config(modelSci: string, modelSocio: string, modelFallback: string)

  const DefaultModelSci: string := "Qwen/Qwen2.5-7B-Instruct"
  const DefaultModelSocio: string := "Qwen/Qwen2.5-7B-Instruct"
  const DefaultModelFallback: string := "HuggingFaceH4/zephyr-7b-beta"

  /** `os.getenv(name, default)`: the default is used only when the variable is unset. */
  function ConfigFrom(sci: Option<string>, socio: Option<string>, fallback: Option<string>): (cfg: Config)
    ensures sci.None? ==> cfg.modelSci == DefaultModelSci
    ensures socio.None? ==> cfg.modelSocio == DefaultModelSocio
    ensures fallback.None? ==> cfg.modelFallback == DefaultModelFallback
    ensures sci.Some? ==> cfg.modelSci == sci.value
    ensures socio.Some? ==> cfg.modelSocio == socio.value
    ensures fallback.Some? ==> cfg.modelFallback == fallback.value
  {
    Config(if sci.Some? then sci.value else DefaultModelSci,
           if socio.Some? then socio.value else DefaultModelSocio,
           if fallback.Some? then fallback.value else DefaultModelFallback)
  }

  datatype ChatMessage = ChatMessage(role: string, content: string)

  /** One `client.chat.completions.create(...)` call. */
  datatype LlmCall = LlmCall(model: string, messages: seq<ChatMessage>, temperature: Number, maxTokens: nat)

  /** What the call does: raises with a message, or returns the contents of its choices (none when the response is empty). */
  datatype LlmReply = Raised(error: string) | Completed(choices: seq<string>)

  /** The two ways `chat()` can raise before it answers. */
  datatype ChatFailure = NoRequestData | BadTemperature(raw: string)

  datatype Services = Services(
    pdfText: File -> string,                 // extract_text_from_pdf: "" on any failure
    imageText: File -> string,               // extract_text_from_image: "" on any failure
    solveMath: string -> string,             // solve_math_with_sympy: never raises
    complete: LlmCall -> LlmReply,           // the Hugging Face client
    parseFloat: string -> Option<Number>,    // float(...): None where it raises
    describe: ChatFailure -> string)         // str(e) for what chat() caught

  // ----- responses -----

  datatype ChatMeta = ChatMeta(subject: string, mode: string, hasContext: bool)

  /** The JSON bodies the server sends. */
  datatype Body =
    | ChatAnswer(answer: string, success: bool, metadata: Option<ChatMeta>)
    | ExtractedText(text: string, success: bool)
    | ErrorMessage(error: string)
    | HealthStatus(status: string, message: string)

  datatype HttpResponse = HttpResponse(status: nat, body: Body)

  // ----- reading the request -----

  /**
   * What `/api/chat` receives: the form fields, the members of the JSON object as written in
   * the body (`None` when the body is not JSON) and the file parts, each as an ordered list
   * of (name, value).
   */
  datatype ChatHttpRequest = ChatHttpRequest(
    form: seq<(string, string)>, json: Option<seq<(string, string)>>, files: seq<(string, File)>)

  /** The first value for a name, as a Werkzeug `MultiDict` gives it. */
  function Lookup<V>(fields: seq<(string, V)>, name: string): (r: Option<V>)
    ensures r.Some? <==> exists i :: 0 <= i < |fields| && fields[i].0 == name
    ensures r.Some? ==>
      exists i :: 0 <= i < |fields| && fields[i] == (name, r.value) && forall j :: 0 <= j < i ==> fields[j].0 != name
    decreases |fields|
  {
    if fields == [] then None
    else if fields[0].0 == name then Some(fields[0].1)
    else
      var r := Lookup(fields[1..], name);
      assert r.Some? ==>
        exists i :: 0 <= i < |fields| && fields[i] == (name, r.value) && forall j :: 0 <= j < i ==> fields[j].0 != name
      by {
        if r.Some? {
          var k :| 0 <= k < |fields| - 1 && fields[1..][k] == (name, r.value)
            && forall j :: 0 <= j < k ==> fields[1..][j].0 != name;
          assert fields[k + 1] == (name, r.value);
          forall j | 0 <= j < k + 1 ensures fields[j].0 != name {
            if j > 0 { assert fields[j] == fields[1..][j - 1]; }
          }
        }
      }
      r
  }

  /** When several fields share a name, the value of the first of them is the one read. */
  lemma {:induction false} LookupFirst<V>(fields: seq<(string, V)>, name: string, i: int)
    requires 0 <= i < |fields| && fields[i].0 == name
    requires forall j :: 0 <= j < i ==> fields[j].0 != name
    ensures Lookup(fields, name) == Some(fields[i].1)
  {
    var r := Lookup(fields, name);
    var k :| 0 <= k < |fields| && fields[k] == (name, r.value) && forall j :: 0 <= j < k ==> fields[j].0 != name;
    assert !(k < i) && !(i < k);
  }

  /** `data.get(name, default)` */
  function Get(fields: seq<(string, string)>, name: string, default: string): string {
    match Lookup(fields, name)
    case Some(v) => v
    case None => default
  }

  /** The value of the last field with a name: what a later assignment leaves behind. */
  function LastLookup<V>(fields: seq<(string, V)>, name: string): (r: Option<V>)
    ensures r.Some? <==> exists i :: 0 <= i < |fields| && fields[i].0 == name
    ensures r.Some? ==>
      exists i :: 0 <= i < |fields| && fields[i] == (name, r.value) && forall j :: i < j < |fields| ==> fields[j].0 != name
    decreases |fields|
  {
    if fields == [] then None
    else if fields[|fields| - 1].0 == name then Some(fields[|fields| - 1].1)
    else
      var init := fields[..|fields| - 1];
      var r := LastLookup(init, name);
      assert r.Some? ==>
        exists i :: 0 <= i < |fields| && fields[i] == (name, r.value) && forall j :: i < j < |fields| ==> fields[j].0 != name
      by {
        if r.Some? {
          var k :| 0 <= k < |init| && init[k] == (name, r.value) && forall j :: k < j < |init| ==> init[j].0 != name;
          assert fields[k] == (name, r.value);
        }
      }
      r
  }

  /** `d[key] = value` on a dict held as its items in insertion order. */
  function Assign(d: seq<(string, string)>, key: string, value: string): (r: seq<(string, string)>)
    ensures DistinctNames(d) ==> DistinctNames(r)
    ensures forall name :: Lookup(r, name) == if name == key then Some(value) else Lookup(d, name)
    decreases |d|
  {
    if d == [] then [(key, value)]
    else if d[0].0 == key then [(key, value)] + d[1..]
    else
      var rest := Assign(d[1..], key, value);
      assert forall i :: 0 <= i < |rest| ==> rest[i].0 == key || exists j :: 0 <= j < |d| - 1 && d[1..][j].0 == rest[i].0
      by {
        forall i | 0 <= i < |rest| && rest[i].0 != key
          ensures exists j :: 0 <= j < |d| - 1 && d[1..][j].0 == rest[i].0
        {
          assert Lookup(rest, rest[i].0).Some?;
        }
      }
      [d[0]] + rest
  }

  /** The dict `json.loads` builds from an object's members: each name once, with its last value. */
  function JsonObject(members: seq<(string, string)>): (d: seq<(string, string)>)
    ensures DistinctNames(d)
    decreases |members|
  {
    if members == [] then []
    else
      var last := members[|members| - 1];
      Assign(JsonObject(members[..|members| - 1]), last.0, last.1)
  }

  /** Reading a name from the parsed object gives the value of its last member, as `json.loads` does. */
  lemma {:induction false} JsonObjectLastWins(members: seq<(string, string)>, name: string)
    ensures Lookup(JsonObject(members), name) == LastLookup(members, name)
    decreases |members|
  {
    if members != [] {
      JsonObjectLastWins(members[..|members| - 1], name);
    }
  }

  /** `request.form if request.form else request.json`: `None` where reading it raises. */
  function RequestData(req: ChatHttpRequest): (r: Option<seq<(string, string)>>)
    ensures |req.form| > 0 ==> r == Some(req.form)
    ensures |req.form| == 0 && req.json.Some? ==>
      r.Some? && DistinctNames(r.value) && forall name :: Lookup(r.value, name) == LastLookup(req.json.value, name)
    ensures |req.form| == 0 && req.json.None? ==> r.None?
  {
    if |req.form| > 0 then Some(req.form)
    else if req.json.Some? then
      var d := JsonObject(req.json.value);
      assert forall name :: Lookup(d, name) == LastLookup(req.json.value, name) by {
        forall name { JsonObjectLastWins(req.json.value, name); }
      }
      Some(d)
    else None
  }

  const DefaultTemperature: Number := Number("0.3")

  /** `float(data.get('temperature', 0.3))`: `None` where `float` raises. */
  function Temperature(data: seq<(string, string)>, svc: Services): Option<Number> {
    match Lookup(data, "temperature")
    case None => Some(DefaultTemperature)
    case Some(raw) => svc.parseFloat(raw)
  }

  /**
   * `for key in request.files: request.files[key]`: each field name once, in order of first
   * appearance, with the first file sent under it.
   */
  function Uploads(parts: seq<(string, File)>): seq<File> {
    UploadsAfter(parts, {})
  }

  function UploadsAfter(parts: seq<(string, File)>, seen: set<string>): seq<File>
    decreases |parts|
  {
    if parts == [] then []
    else if parts[0].0 in seen then UploadsAfter(parts[1..], seen)
    else [parts[0].1] + UploadsAfter(parts[1..], seen + {parts[0].0})
  }

  predicate DistinctNames<V>(parts: seq<(string, V)>) {
    forall i, j :: 0 <= i < j < |parts| ==> parts[i].0 != parts[j].0
  }

  lemma {:induction false} UploadsAfterDistinct(parts: seq<(string, File)>, seen: set<string>)
    requires DistinctNames(parts)
    requires forall i :: 0 <= i < |parts| ==> parts[i].0 !in seen
    ensures UploadsAfter(parts, seen) == seq(|parts|, i requires 0 <= i < |parts| => parts[i].1)
    decreases |parts|
  {
    if parts != [] {
      var rest := parts[1..];
      assert forall i :: 0 <= i < |rest| ==> rest[i].0 !in seen + {parts[0].0} by {
        forall i | 0 <= i < |rest| ensures rest[i].0 !in seen + {parts[0].0} {
          assert rest[i] == parts[i + 1];
        }
      }
      UploadsAfterDistinct(rest, seen + {parts[0].0});
    }
  }

  /** When every file part has its own name, the server processes all of them, in the order sent. */
  lemma UploadsOfDistinct(parts: seq<(string, File)>)
    requires DistinctNames(parts)
    ensures Uploads(parts) == seq(|parts|, i requires 0 <= i < |parts| => parts[i].1)
  {
    UploadsAfterDistinct(parts, {});
  }

  // ----- classifying files and building the context -----

  datatype FileKind = Pdf | Image | Unsupported

  /** The file's kind by the suffix of its lower-cased name. */
  function Classify(filename: string): FileKind {
    var name := Lower(filename);
    if EndsWith(name, ".pdf") then Pdf
    else if EndsWith(name, ".png") || EndsWith(name, ".jpg") || EndsWith(name, ".jpeg") then Image
    else Unsupported
  }

  /** Lower-casing twice is lower-casing once. */
  lemma LowerIdempotent(s: string)
    ensures Lower(Lower(s)) == Lower(s)
  {
  }

  /** The suffix test ignores case: a name and its lower-cased form are classified alike. */
  lemma ClassifyIgnoresCase(filename: string)
    ensures Classify(Lower(filename)) == Classify(filename)
  {
    LowerIdempotent(filename);
  }

  const PdfPrefix: string := "PDF content: "
  const ImagePrefix: string := "Image text: "
  const ContextLimit: nat := 1000

  /** `text[:1000]` */
  function Truncate(text: string): (r: string)
    ensures |r| <= ContextLimit && |r| <= |text| && r == text[..|r|]
    ensures |text| <= ContextLimit ==> r == text
    ensures |text| > ContextLimit ==> |r| == ContextLimit
  {
    if |text| <= ContextLimit then text else text[..ContextLimit]
  }

  /** The text the server extracts from an upload, by its kind; nothing for other kinds. */
  function TextOf(f: File, svc: Services): string {
    match Classify(f.name)
    case Pdf => svc.pdfText(f)
    case Image => svc.imageText(f)
    case Unsupported => ""
  }

  /** The context entry one upload adds: none for other kinds or when no text came out. */
  function EntryFor(f: File, svc: Services): seq<string> {
    var text := TextOf(f, svc);
    if text == "" then []
    else match Classify(f.name)
      case Pdf => [PdfPrefix + Truncate(text)]
      case Image => [ImagePrefix + Truncate(text)]
      case Unsupported => []
  }

  /** A well-formed entry: a kind prefix and between 1 and 1000 characters of extracted text. */
  predicate IsContextEntry(e: string) {
    (StartsWith(e, PdfPrefix) && |PdfPrefix| < |e| <= |PdfPrefix| + ContextLimit)
    || (StartsWith(e, ImagePrefix) && |ImagePrefix| < |e| <= |ImagePrefix| + ContextLimit)
  }

  /** What a loop that adds `g(x)` for each `x` in turn collects. */
  function Collect<T>(xs: seq<T>, g: T -> seq<string>): seq<string>
    decreases |xs|
  {
    if xs == [] then [] else Collect(xs[..|xs| - 1], g) + g(xs[|xs| - 1])
  }

  /** Collecting over a concatenation collects over each part in turn. */
  lemma {:induction false} CollectAppend<T>(a: seq<T>, b: seq<T>, g: T -> seq<string>)
    ensures Collect(a + b, g) == Collect(a, g) + Collect(b, g)
    decreases |b|
  {
    if b == [] {
      assert a + b == a;
    } else {
      var ab := a + b;
      assert ab[..|ab| - 1] == a + b[..|b| - 1] && ab[|ab| - 1] == b[|b| - 1];
      CollectAppend(a, b[..|b| - 1], g);
    }
  }

  /** Something is collected exactly when some element yields something. */
  lemma {:induction false} CollectNonEmptyIff<T>(xs: seq<T>, g: T -> seq<string>)
    ensures |Collect(xs, g)| > 0 <==> exists i :: 0 <= i < |xs| && g(xs[i]) != []
    decreases |xs|
  {
    if xs != [] {
      var init, last := xs[..|xs| - 1], xs[|xs| - 1];
      CollectNonEmptyIff(init, g);
      if exists i :: 0 <= i < |init| && g(init[i]) != [] {
        var i :| 0 <= i < |init| && g(init[i]) != [];
        assert xs[i] == init[i];
      }
      if g(last) == [] && exists i :: 0 <= i < |xs| && g(xs[i]) != [] {
        var i :| 0 <= i < |xs| && g(xs[i]) != [];
        assert i < |init| && init[i] == xs[i];
      }
    }
  }

  /** When every element yields at most one entry satisfying `P`, so does the collection, entry for element. */
  lemma {:induction false} CollectBounded<T>(xs: seq<T>, g: T -> seq<string>, P: string -> bool)
    requires forall x :: |g(x)| <= 1 && forall e :: e in g(x) ==> P(e)
    ensures |Collect(xs, g)| <= |xs|
    ensures forall e :: e in Collect(xs, g) ==> P(e)
    decreases |xs|
  {
    if xs != [] {
      CollectBounded(xs[..|xs| - 1], g, P);
    }
  }

  /** The `context` list, as a reference definition: the entries of the uploads, in upload order. */
  function ContextEntries(files: seq<File>, svc: Services): seq<string> {
    Collect(files, f => EntryFor(f, svc))
  }

  /** An upload adds at most one entry, and a well-formed one. */
  lemma EntryForWellFormed(f: File, svc: Services)
    ensures |EntryFor(f, svc)| <= 1
    ensures forall e :: e in EntryFor(f, svc) ==> IsContextEntry(e)
  {
    var entry := EntryFor(f, svc);
    if entry != [] {
      var t := Truncate(TextOf(f, svc));
      assert entry == [PdfPrefix + t] || entry == [ImagePrefix + t];
      assert (PdfPrefix + t)[..|PdfPrefix|] == PdfPrefix;
      assert (ImagePrefix + t)[..|ImagePrefix|] == ImagePrefix;
    }
  }

  /** At most one entry per upload, each a kind prefix followed by 1 to 1000 characters of extracted text. */
  lemma ContextEntriesWellFormed(files: seq<File>, svc: Services)
    ensures |ContextEntries(files, svc)| <= |files|
    ensures forall e :: e in ContextEntries(files, svc) ==> IsContextEntry(e)
  {
    forall f | true ensures |EntryFor(f, svc)| <= 1 && forall e :: e in EntryFor(f, svc) ==> IsContextEntry(e) {
      EntryForWellFormed(f, svc);
    }
    CollectBounded(files, f => EntryFor(f, svc), IsContextEntry);
  }

  /** Entries keep the order of the uploads: the context of a concatenation is the concatenation of contexts. */
  lemma ContextEntriesAppend(a: seq<File>, b: seq<File>, svc: Services)
    ensures ContextEntries(a + b, svc) == ContextEntries(a, svc) + ContextEntries(b, svc)
  {
    CollectAppend(a, b, f => EntryFor(f, svc));
  }

  /** An upload contributes when its kind is handled and something was extracted from it. */
  predicate Contributes(f: File, svc: Services) {
    Classify(f.name) != Unsupported && TextOf(f, svc) != ""
  }

  /** An upload adds an entry exactly when it contributes. */
  lemma EntryForIff(f: File, svc: Services)
    ensures EntryFor(f, svc) != [] <==> Contributes(f, svc)
  {
  }

  /** There is context exactly when some upload contributes. */
  lemma HasContextIff(files: seq<File>, svc: Services)
    ensures |ContextEntries(files, svc)| > 0 <==> exists i :: 0 <= i < |files| && Contributes(files[i], svc)
  {
    CollectNonEmptyIff(files, f => EntryFor(f, svc));
    forall i | 0 <= i < |files| ensures EntryFor(files[i], svc) != [] <==> Contributes(files[i], svc) {
      EntryForIff(files[i], svc);
    }
  }

  // ----- composing and routing the question -----

  /** The question with the context in front of it, or the bare question when there is none. */
  function FullQuestion(question: string, context: seq<string>): string {
    if |context| == 0 then question
    else "Context: " + Join(context, " ") + "\n\nQuestion: " + question
  }

  /** The question is passed on unchanged exactly when there is no context, and otherwise follows every entry. */
  lemma FullQuestionSpec(question: string, context: seq<string>)
    ensures FullQuestion(question, context) == question <==> context == []
    ensures context != [] ==> (StartsWith(FullQuestion(question, context), "Context: ")
      && EndsWith(FullQuestion(question, context), "\n\nQuestion: " + question))
    ensures forall i :: 0 <= i < |context| ==> Contains(FullQuestion(question, context), context[i])
  {
    if context != [] {
      var full := FullQuestion(question, context);
      var joined := Join(context, " ");
      assert full == "Context: " + joined + ("\n\nQuestion: " + question);
      assert |full| > |question|;
      assert full[..9] == "Context: ";
      assert full[|full| - |"\n\nQuestion: " + question|..] == "\n\nQuestion: " + question;
      forall i | 0 <= i < |context| ensures Contains(full, context[i]) {
        JoinContainsPart(context, " ", i);
        ContainsExtendLeft("Context: ", joined, context[i]);
        ContainsExtendRight("Context: " + joined, "\n\nQuestion: " + question, context[i]);
      }
    }
  }

  const MathKeywords: seq<string> := ["integrate", "differentiate", "solve", "derivative", "\U{222B}"]

  /** `any(word in text for word in words)` */
  function AnyContained(text: string, words: seq<string>): bool
    decreases |words|
  {
    if words == [] then false else Contains(text, words[0]) || AnyContained(text, words[1..])
  }

  lemma {:induction false} AnyContainedIff(text: string, words: seq<string>)
    ensures AnyContained(text, words) <==> exists i :: 0 <= i < |words| && Contains(text, words[i])
    decreases |words|
  {
    if words != [] {
      AnyContainedIff(text, words[1..]);
      if exists i :: 0 <= i < |words| && Contains(text, words[i]) {
        var i :| 0 <= i < |words| && Contains(text, words[i]);
        if i > 0 {
          assert words[1..][i - 1] == words[i];
        }
      }
      if exists i :: 0 <= i < |words| - 1 && Contains(text, words[1..][i]) {
        var i :| 0 <= i < |words| - 1 && Contains(text, words[1..][i]);
        assert words[i + 1] == words[1..][i];
      }
    }
  }

  /** `is_math` */
  function IsMath(subject: string, question: string): bool {
    subject == "cal" || AnyContained(Lower(question), MathKeywords)
  }

  /** A question goes to the math solver exactly when the subject is `cal` or its lower-cased text contains a math keyword. */
  lemma IsMathIff(subject: string, question: string)
    ensures IsMath(subject, question) <==>
      subject == "cal" || exists i :: 0 <= i < |MathKeywords| && Contains(Lower(question), MathKeywords[i])
  {
    AnyContainedIff(Lower(question), MathKeywords);
  }

  /**
   * The keyword list as app.py stores it: its last entry is the three characters U+201A,
   * U+00E0, U+00B4, which is how the UTF-8 bytes of the integral sign U+222B read in the
   * Mac Roman encoding.
   */
  const MathKeywordsAsWritten: seq<string> :=
    ["integrate", "differentiate", "solve", "derivative", "\U{201A}\U{00E0}\U{00B4}"]

  /** `is_math` as the stored source computes it. */
  function IsMathAsWritten(subject: string, question: string): bool {
    subject == "cal" || AnyContained(Lower(question), MathKeywordsAsWritten)
  }

  /**
   * A question written with the integral sign and none of the keywords goes to the language
   * model under the stored keyword list, and to the math solver under the intended one.
   */
  lemma IntegralSignMissedAsWritten()
    ensures !IsMathAsWritten("sci", "\U{222B} x^2")
    ensures IsMath("sci", "\U{222B} x^2")
  {
    var q := "\U{222B} x^2";
    assert Lower(q) == q;
    forall k | 0 <= k < 4 ensures !Contains(q, MathKeywordsAsWritten[k]) {
      NotContainsWithoutFirst(q, MathKeywordsAsWritten[k]);
    }
    NotContainsWithoutFirst(q, MathKeywordsAsWritten[4]);
    assert Contains(q, "\U{222B}") by {
      assert q[..1] == "\U{222B}";
    }
  }

  // ----- the language model -----

  const BasePrompt: string := "You are a helpful STEM tutor. Provide accurate, concise answers."
  const SciencePrompt: string := " Focus on science topics like biology, chemistry, and physics."
  const SocialPrompt: string := " Focus on social sciences like history, geography, and economics."
  const FallbackPrompt: string := "You are a helpful assistant."
  const NoModelResponse: string := "No response from the model."
  const MaxTokens: nat := 800

  function ModelFor(cfg: Config, subject: string): string {
    if subject == "sci" then cfg.modelSci else cfg.modelSocio
  }

  /** The system prompt, as a reference definition. */
  function SystemPrompt(subject: string): string {
    BasePrompt + (if subject == "sci" then SciencePrompt else if subject == "socio" then SocialPrompt else "")
  }

  /** The system prompt is the base sentence plus the science suffix for `sci`, the social-science one for `socio`, and nothing else otherwise. */
  lemma SystemPromptSpec(subject: string)
    ensures StartsWith(SystemPrompt(subject), BasePrompt)
    ensures SystemPrompt(subject) == BasePrompt + SciencePrompt <==> subject == "sci"
    ensures SystemPrompt(subject) == BasePrompt + SocialPrompt <==> subject == "socio"
    ensures SystemPrompt(subject) == BasePrompt <==> subject != "sci" && subject != "socio"
  {
    assert |SciencePrompt| != |SocialPrompt|;
    assert SystemPrompt(subject)[..|BasePrompt|] == BasePrompt;
  }

  function PrimaryCall(cfg: Config, question: string, subject: string, temperature: Number): LlmCall {
    LlmCall(ModelFor(cfg, subject), [ChatMessage("system", SystemPrompt(subject)), ChatMessage("user", question)],
            temperature, MaxTokens)
  }

  function FallbackCall(cfg: Config, question: string, temperature: Number): LlmCall {
    LlmCall(cfg.modelFallback, [ChatMessage("system", FallbackPrompt), ChatMessage("user", question)],
            temperature, MaxTokens)
  }

  /** `chat_with_llm`'s answer, as a reference definition. */
  function LlmAnswer(cfg: Config, svc: Services, question: string, subject: string, temperature: Number): string {
    match svc.complete(PrimaryCall(cfg, question, subject, temperature))
    case Completed(choices) => if |choices| > 0 then choices[0] else NoModelResponse
    case Raised(e) =>
      match svc.complete(FallbackCall(cfg, question, temperature))
      case Completed(choices) => if |choices| > 0 then choices[0] else "Error: " + e
      case Raised(_) => "Error: " + e
  }

  /**
   * `chat_with_llm`: the calls it makes (the primary one, then the fallback one only if
   * the primary raised) and the answer it returns.  `mode` is accepted and not used.
   */
  method ChatWithLlm(question: string, subject: string, mode: string, temperature: Number, cfg: Config, svc: Services)
    returns (answer: string, calls: seq<LlmCall>)
    ensures answer == LlmAnswer(cfg, svc, question, subject, temperature)
    ensures 1 <= |calls| <= 2
    ensures calls[0].model == ModelFor(cfg, subject) && calls[0].maxTokens == MaxTokens
    ensures calls[0].temperature == temperature
    ensures calls[0].messages == [ChatMessage("system", SystemPrompt(subject)), ChatMessage("user", question)]
    ensures |calls| == 2 <==> svc.complete(calls[0]).Raised?
    ensures |calls| == 2 ==> calls[1] == FallbackCall(cfg, question, temperature)
    ensures svc.complete(calls[0]).Completed? && svc.complete(calls[0]).choices == [] ==> answer == NoModelResponse
  {
    var model := if subject == "sci" then cfg.modelSci else cfg.modelSocio;
    var systemPrompt := BasePrompt;
    if subject == "sci" {
      systemPrompt := systemPrompt + SciencePrompt;
    } else if subject == "socio" {
      systemPrompt := systemPrompt + SocialPrompt;
    }
    assert systemPrompt == SystemPrompt(subject);
    var messages := [ChatMessage("system", systemPrompt), ChatMessage("user", question)];
    var call := LlmCall(model, messages, temperature, MaxTokens);
    assert call == PrimaryCall(cfg, question, subject, temperature);
    calls := [call];
    match svc.complete(call)
    case Completed(choices) =>
      answer := if |choices| > 0 then choices[0] else NoModelResponse;
    case Raised(e) =>
      var retry := LlmCall(cfg.modelFallback, [ChatMessage("system", FallbackPrompt), ChatMessage("user", question)],
                           temperature, MaxTokens);
      calls := calls + [retry];
      var reply := svc.complete(retry);
      if reply.Completed? && |reply.choices| > 0 {
        answer := reply.choices[0];
      } else {
        answer := "Error: " + e;
      }
  }

  // ----- /api/chat -----

  function Failure500(e: ChatFailure, svc: Services): HttpResponse {
    HttpResponse(500, ChatAnswer("Error: " + svc.describe(e), false, None))
  }

  /** The answer for a question that was read successfully. */
  function AnswerFor(cfg: Config, svc: Services, question: string, subject: string, temperature: Number,
                     context: seq<string>): string {
    if IsMath(subject, question) then svc.solveMath(question)
    else LlmAnswer(cfg, svc, FullQuestion(question, context), subject, temperature)
  }

  /** `chat()`, as a reference definition. */
  function ChatReply(req: ChatHttpRequest, cfg: Config, svc: Services): (r: HttpResponse)
    ensures r.status == 200 || r.status == 500
    ensures r.status == 500 <==> RequestData(req).None? || Temperature(RequestData(req).value, svc).None?
    ensures r.status == 200 ==> r.body.ChatAnswer? && r.body.success && r.body.metadata.Some?
    ensures r.status == 500 ==> r.body.ChatAnswer? && !r.body.success && StartsWith(r.body.answer, "Error: ")
  {
    match RequestData(req)
    case None => Failure500(NoRequestData, svc)
    case Some(data) =>
      var question, subject, mode := Get(data, "question", ""), Get(data, "subject", "sci"), Get(data, "mode", "short");
      match Temperature(data, svc)
      case None => Failure500(BadTemperature(Get(data, "temperature", "")), svc)
      case Some(t) =>
        var context := ContextEntries(Uploads(req.files), svc);
        HttpResponse(200, ChatAnswer(AnswerFor(cfg, svc, question, subject, t, context), true,
                                     Some(ChatMeta(subject, mode, |context| > 0))))
  }

  /** The loop of `chat()` over the uploads, appending one entry per file that yields text. */
  method CollectContext(uploads: seq<File>, svc: Services) returns (context: seq<string>)
    ensures context == ContextEntries(uploads, svc)
  {
    context := [];
    var i := 0;
    while i < |uploads|
      invariant 0 <= i <= |uploads|
      invariant context == ContextEntries(uploads[..i], svc)
    {
      assert uploads[..i + 1][..i] == uploads[..i];
      var file := uploads[i];
      var filename := Lower(file.name);
      if EndsWith(filename, ".pdf") {
        var text := svc.pdfText(file);
        if text != "" {
          context := context + [PdfPrefix + Truncate(text)];
        }
      } else if EndsWith(filename, ".png") || EndsWith(filename, ".jpg") || EndsWith(filename, ".jpeg") {
        var text := svc.imageText(file);
        if text != "" {
          context := context + [ImagePrefix + Truncate(text)];
        }
      }
      i := i + 1;
    }
    assert uploads[..i] == uploads;
  }

  /** `chat()`: reads the request, collects the context file by file, then answers. */
  method Chat(req: ChatHttpRequest, cfg: Config, svc: Services) returns (resp: HttpResponse)
    ensures resp == ChatReply(req, cfg, svc)
  {
    var data: seq<(string, string)>;
    if |req.form| > 0 {
      data := req.form;
    } else if req.json.Some? {
      data := JsonObject(req.json.value);
    } else {
      return Failure500(NoRequestData, svc);
    }
    var question, subject, mode := Get(data, "question", ""), Get(data, "subject", "sci"), Get(data, "mode", "short");
    var temperature: Number;
    match Lookup(data, "temperature") {
      case None =>
        temperature := DefaultTemperature;
      case Some(raw) =>
        var parsed := svc.parseFloat(raw);
        if parsed.None? {
          return Failure500(BadTemperature(raw), svc);
        }
        temperature := parsed.value;
    }

    var context := CollectContext(Uploads(req.files), svc);
    var fullQuestion := question;
    if |context| > 0 {
      fullQuestion := "Context: " + Join(context, " ") + "\n\nQuestion: " + question;
    }
    var answer: string;
    if IsMath(subject, question) {
      answer := svc.solveMath(question);
    } else {
      var calls;
      answer, calls := ChatWithLlm(fullQuestion, subject, mode, temperature, cfg, svc);
    }
    resp := HttpResponse(200, ChatAnswer(answer, true, Some(ChatMeta(subject, mode, |context| > 0))));
  }

  /**
   * Missing fields default to question `''`, subject `sci` and mode `short`; the reply echoes
   * subject and mode and says whether any context was found.
   */
  lemma ChatEchoesSettings(req: ChatHttpRequest, cfg: Config, svc: Services)
    requires ChatReply(req, cfg, svc).status == 200
    ensures var data, meta := RequestData(req).value, ChatReply(req, cfg, svc).body.metadata.value;
      && meta.subject == (if Lookup(data, "subject").Some? then Lookup(data, "subject").value else "sci")
      && meta.mode == (if Lookup(data, "mode").Some? then Lookup(data, "mode").value else "short")
      && (meta.hasContext <==> exists i :: 0 <= i < |Uploads(req.files)| && Contributes(Uploads(req.files)[i], svc))
  {
    HasContextIff(Uploads(req.files), svc);
  }

  /**
   * A JSON body that repeats a name is read as `json.loads` reads it, with the last value:
   * `{"subject": "cal", "subject": "socio"}` is answered as a social-science question by the
   * model, not by the solver, and `socio` is echoed.
   */
  lemma RepeatedJsonSubjectLastWins(cfg: Config, svc: Services)
    ensures var r := ChatReply(ChatHttpRequest([], Some([("subject", "cal"), ("subject", "socio")]), []), cfg, svc);
      && r.status == 200 && r.body.metadata.value.subject == "socio"
      && r.body.answer == LlmAnswer(cfg, svc, "", "socio", DefaultTemperature)
  {
    RepeatedMemberParsed("subject", "cal", "socio");
    EmptyQuestionNotMath("socio");
    assert Uploads([]) == [];
  }

  /** A JSON object that gives one name twice is parsed to a dict holding only the second value. */
  lemma RepeatedMemberParsed(name: string, first: string, second: string)
    ensures RequestData(ChatHttpRequest([], Some([(name, first), (name, second)]), [])) == Some([(name, second)])
  {
    var members := [(name, first), (name, second)];
    var head := [(name, first)];
    assert members[..1] == head && head[..0] == [];
    assert JsonObject(head) == Assign([], name, first) == head;
    assert head[1..] == [];
    assert JsonObject(members) == Assign(head, name, second) == [(name, second)];
  }

  /** An empty question is routed by its subject alone. */
  lemma EmptyQuestionNotMath(subject: string)
    requires subject != "cal"
    ensures !IsMath(subject, "")
  {
    IsMathIff(subject, "");
  }

  /** Likewise a repeated temperature: only the last one is parsed, whatever the first one holds. */
  lemma RepeatedJsonTemperatureLastWins(cfg: Config, svc: Services)
    ensures var r := ChatReply(ChatHttpRequest([], Some([("temperature", "abc"), ("temperature", "0.5")]), []), cfg, svc);
      r.status == 200 <==> svc.parseFloat("0.5").Some?
  {
    RepeatedMemberParsed("temperature", "abc", "0.5");
  }

  /**
   * A math question is answered from the raw question alone: the files sent with it make no
   * difference to the answer.
   */
  lemma MathIgnoresContext(req: ChatHttpRequest, files: seq<(string, File)>, cfg: Config, svc: Services)
    requires RequestData(req).Some?
    requires IsMath(Get(RequestData(req).value, "subject", "sci"), Get(RequestData(req).value, "question", ""))
    requires ChatReply(req, cfg, svc).status == 200
    ensures ChatReply(req, cfg, svc).body.answer == svc.solveMath(Get(RequestData(req).value, "question", ""))
    ensures ChatReply(req.(files := files), cfg, svc).body.answer == ChatReply(req, cfg, svc).body.answer
  {
  }

  /** Any other question goes to the model with the context in front of it; without uploads it gets the bare question. */
  lemma LlmGetsFullQuestion(req: ChatHttpRequest, cfg: Config, svc: Services)
    requires RequestData(req).Some?
    requires !IsMath(Get(RequestData(req).value, "subject", "sci"), Get(RequestData(req).value, "question", ""))
    requires Temperature(RequestData(req).value, svc).Some?
    ensures var data := RequestData(req).value;
      var q, s := Get(data, "question", ""), Get(data, "subject", "sci");
      var t := Temperature(data, svc).value;
      && ChatReply(req, cfg, svc).body.answer
           == LlmAnswer(cfg, svc, FullQuestion(q, ContextEntries(Uploads(req.files), svc)), s, t)
      && ChatReply(req.(files := []), cfg, svc).body.answer == LlmAnswer(cfg, svc, q, s, t)
  {
    assert Uploads([]) == [];
  }

  // ----- /api/extract and /api/health -----

  /** `extract()`: 400 without a `file` part or for an unsupported suffix; otherwise the extracted text. */
  function Extract(parts: seq<(string, File)>, svc: Services): (r: HttpResponse)
    ensures r.status == 200 || r.status == 400
    ensures Lookup(parts, "file").None? ==> r == HttpResponse(400, ErrorMessage("No file provided"))
    ensures Lookup(parts, "file").Some? && Classify(Lookup(parts, "file").value.name) == Unsupported
            ==> r == HttpResponse(400, ErrorMessage("Unsupported file type"))
    ensures r.status == 200 <==> Lookup(parts, "file").Some? && Classify(Lookup(parts, "file").value.name) != Unsupported
    ensures r.status == 200 ==> r.body == ExtractedText(TextOf(Lookup(parts, "file").value, svc), true)
  {
    match Lookup(parts, "file")
    case None => HttpResponse(400, ErrorMessage("No file provided"))
    case Some(file) =>
      match Classify(file.name)
      case Pdf => HttpResponse(200, ExtractedText(svc.pdfText(file), true))
      case Image => HttpResponse(200, ExtractedText(svc.imageText(file), true))
      case Unsupported => HttpResponse(400, ErrorMessage("Unsupported file type"))
  }

  /** The extract endpoint refuses exactly the files the chat endpoint skips, and agrees with it on the rest. */
  lemma ExtractAgreesWithChat(f: File, svc: Services)
    ensures Extract([("file", f)], svc).status == 400 <==> Classify(f.name) == Unsupported
    ensures Classify(f.name) == Unsupported ==> EntryFor(f, svc) == []
    ensures Extract([("file", f)], svc).status == 200 ==>
      (EntryFor(f, svc) != [] <==> Extract([("file", f)], svc).body.text != "")
  {
  }

  /** `/api/health` */
  function Health(): (r: HttpResponse)
    ensures r.status == 200 && r.body.HealthStatus? && r.body.status == "ok"
  {
    HttpResponse(200, HealthStatus("ok", "STEM Bot API is running"))
  }

  // ----- routing -----

  /** The three view functions the server registers. */
  datatype Endpoint = HealthEndpoint | ChatEndpoint | ExtractEndpoint

  /** The view a request reaches: each route is registered with one method only. */
  function Route(verb: string, path: string): Option<Endpoint> {
    if path == "/api/health" && verb == "GET" then Some(HealthEndpoint)
    else if path == "/api/chat" && verb == "POST" then Some(ChatEndpoint)
    else if path == "/api/extract" && verb == "POST" then Some(ExtractEndpoint)
    else None
  }
}

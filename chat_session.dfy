/**
 * The chat panel of the frontend (frontend/src/components/ChatInterface.tsx): an ordered
 * message list, the input box, the pending attachments and a loading flag, changed by the
 * upload, remove, send, new-chat and typing handlers.
 *
 * The send handler suspends once, at the `fetch` of the backend; it is split here into
 * `BeginSend` (everything before the await) and `CompleteSend` (everything after it, given
 * how the request turned out).  What the suspended handler holds across the await is the
 * `pending` field.
 */
module ChatSession {
  import opened Wrappers
  import opened Strings
  import opened Wire

  /** The component's props: settings chosen in the surrounding dock. */
  datatype Props = Props(subject: string, mode: string, temperature: Number, topK: Number)

  /** One chat bubble.  `timestamp` is the `Date.now()` value at creation, in milliseconds. */
  datatype Message = Message(id: string, text: string, isBot: bool, timestamp: nat)

  /** What the send handler captured before clearing the input: text, files and the props it was created with. */
  datatype Snapshot = Snapshot(question: string, files: seq<File>, subject: string, mode: string)

  /** How the backend request turned out, as seen after the await. */
  datatype Outcome = Ok(answer: Option<string>) | Failed

  /** A notification shown by the upload handler. */
  datatype Toast = Toast(title: string, description: string, destructive: bool)

  // ----- texts -----

  function SubjectTitle(subject: string): string {
    if subject == "sci" then "Science" else if subject == "cal" then "Math" else "Social Science"
  }

  function SubjectNoun(subject: string): string {
    if subject == "sci" then "science" else if subject == "cal" then "math" else "social science"
  }

  function GreetingText(subject: string): string {
    "Hello! I'm your " + SubjectTitle(subject) + " assistant. How can I help you today?"
  }

  /** The one message a fresh or reset chat holds. */
  function Greeting(subject: string, now: nat): Message {
    Message("1", GreetingText(subject), true, now)
  }

  predicate IsGreeting(m: Message) {
    m.id == "1" && m.isBot
    && (m.text == GreetingText("sci") || m.text == GreetingText("cal") || m.text == GreetingText("socio"))
  }

  /** The greeting names the subject by its title: "Science", "Math" or "Social Science". */
  lemma GreetingNamesSubject(subject: string)
    ensures Contains(GreetingText(subject), SubjectTitle(subject))
    ensures SubjectTitle(subject) == "Science" <==> subject == "sci"
    ensures SubjectTitle(subject) == "Math" <==> subject == "cal"
    ensures IsGreeting(Greeting(subject, 0))
  {
    ContainsMiddle("Hello! I'm your ", SubjectTitle(subject), " assistant. How can I help you today?");
  }

  /** The greeting and the fallback reply name the same subject: one is the other lower-cased. */
  lemma SubjectNamesAgree(subject: string)
    ensures Lower(SubjectTitle(subject)) == SubjectNoun(subject)
  {
    if subject == "sci" {
      assert Lower("Science") == "science";
    } else if subject == "cal" {
      assert Lower("Math") == "math";
    } else {
      assert Lower("Social Science") == "social science";
    }
  }

  // ----- upload -----

  /** The upload filter: a PDF, or any `image/...` type. */
  predicate Accepted(f: File) {
    f.mimeType == "application/pdf" || StartsWith(f.mimeType, "image/")
  }

  /** The files the upload handler keeps, in the order they were picked. */
  function AcceptedFiles(fs: seq<File>): (r: seq<File>)
    ensures |r| <= |fs|
    ensures forall f :: f in r ==> f in fs && Accepted(f)
    decreases |fs|
  {
    if fs == [] then []
    else
      var last := fs[|fs| - 1];
      AcceptedFiles(fs[..|fs| - 1]) + (if Accepted(last) then [last] else [])
  }

  /** Filtering a concatenation filters each part: the kept files stay in their original order. */
  lemma {:induction false} AcceptedFilesAppend(a: seq<File>, b: seq<File>)
    ensures AcceptedFiles(a + b) == AcceptedFiles(a) + AcceptedFiles(b)
    decreases |b|
  {
    if b == [] {
      assert a + b == a;
    } else {
      var b' := b[..|b| - 1];
      assert (a + b)[..|a + b| - 1] == a + b';
      AcceptedFilesAppend(a, b');
    }
  }

  /** Every accepted file among those picked is kept. */
  lemma {:induction false} AcceptedFilesKeepsAll(fs: seq<File>, k: nat)
    requires k < |fs| && Accepted(fs[k])
    ensures fs[k] in AcceptedFiles(fs)
    decreases |fs|
  {
    if k < |fs| - 1 {
      var init := fs[..|fs| - 1];
      assert init[k] == fs[k];
      AcceptedFilesKeepsAll(init, k);
    }
  }

  /** When every picked file is acceptable, all of them are kept, in order. */
  lemma {:induction false} AcceptedFilesWhole(fs: seq<File>)
    requires forall i :: 0 <= i < |fs| ==> Accepted(fs[i])
    ensures AcceptedFiles(fs) == fs
    decreases |fs|
  {
    if fs != [] {
      var init := fs[..|fs| - 1];
      AcceptedFilesWhole(init);
      assert fs == init + [fs[|fs| - 1]];
    }
  }

  function Rejection(f: File): Toast {
    Toast("Invalid file type", f.name + " is not a PDF or image file.", true)
  }

  function Uploaded(count: nat): Toast {
    Toast("Files uploaded", Decimal(count) + " file(s) added successfully.", false)
  }

  /** One rejection notice per refused file, in the order they were picked. */
  function Rejections(fs: seq<File>): (r: seq<Toast>)
    ensures |r| + |AcceptedFiles(fs)| == |fs|
    ensures forall t :: t in r ==> t.destructive
    decreases |fs|
  {
    if fs == [] then []
    else
      var last := fs[|fs| - 1];
      Rejections(fs[..|fs| - 1]) + (if Accepted(last) then [] else [Rejection(last)])
  }

  /** The notices an upload shows: the rejections, then one summary when anything was kept. */
  function UploadToasts(fs: seq<File>): seq<Toast> {
    Rejections(fs) + UploadSummary(|AcceptedFiles(fs)|)
  }

  /** The closing notice of an upload: shown only when something was kept. */
  function UploadSummary(kept: nat): seq<Toast> {
    if kept > 0 then [Uploaded(kept)] else []
  }

  // ----- remove -----

  /** `list.filter((_, i) => i !== index)`: everything except the element at position `index`. */
  function WithoutIndex<T>(s: seq<T>, index: int): seq<T>
    decreases |s|
  {
    if s == [] then [] else (if index == 0 then [] else [s[0]]) + WithoutIndex(s[1..], index - 1)
  }

  /** Removing drops exactly the element at the index and keeps the rest in order. */
  lemma {:induction false} WithoutIndexInRange<T>(s: seq<T>, index: int)
    requires 0 <= index < |s|
    ensures WithoutIndex(s, index) == s[..index] + s[index + 1..]
    decreases |s|
  {
    var t := s[1..];
    if index == 0 {
      WithoutIndexOutOfRange(t, -1);
      assert WithoutIndex(s, index) == [] + WithoutIndex(t, -1);
    } else {
      WithoutIndexInRange(t, index - 1);
      assert WithoutIndex(s, index) == [s[0]] + (t[..index - 1] + t[index..]);
      assert [s[0]] + t[..index - 1] == s[..index];
      assert t[index..] == s[index + 1..];
    }
  }

  /** An index out of range changes nothing. */
  lemma {:induction false} WithoutIndexOutOfRange<T>(s: seq<T>, index: int)
    requires !(0 <= index < |s|)
    ensures WithoutIndex(s, index) == s
    decreases |s|
  {
    if s != [] {
      WithoutIndexOutOfRange(s[1..], index - 1);
      assert [s[0]] + s[1..] == s;
    }
  }

  // ----- send -----

  /** The condition that makes the send handler return at once and disables the send button. */
  predicate SendBlocked(input: string, files: seq<File>, loading: bool) {
    (Trim(input) == "" && |files| == 0) || loading
  }

  const AttachmentMark: string := "\U{1F4CE} "
  const Placeholder: string := "Processing uploaded files..."

  /** The panel posts its form to this fixed address, not to the library's configured one. */
  const PanelUrl: string := "http://localhost:5000/api/chat"

  function AttachmentList(files: seq<File>): string {
    Join(seq(|files|, i requires 0 <= i < |files| => AttachmentMark + files[i].name), ", ")
  }

  /** The text typed, followed by the list of attachments when there are any. */
  function ComposedText(input: string, files: seq<File>): string {
    if |files| > 0 then input + "\n\nAttached: " + AttachmentList(files) else input
  }

  /** The user bubble's text: the composed text, or the placeholder if that is empty. */
  function UserText(input: string, files: seq<File>): string {
    var t := ComposedText(input, files);
    if t == "" then Placeholder else t
  }

  function UserMessage(input: string, files: seq<File>, now: nat): Message {
    Message(Decimal(now), UserText(input, files), false, now)
  }

  /** A send that passes the guard always has text, so the placeholder is never shown. */
  lemma PlaceholderUnreachable(input: string, files: seq<File>)
    requires !SendBlocked(input, files, false)
    ensures ComposedText(input, files) != ""
    ensures UserText(input, files) == ComposedText(input, files)
    ensures StartsWith(UserText(input, files), input)
  {
    assert Trim("") == "";
  }

  lemma {:induction false} ContainsTail(s: string, a: string, b: string)
    requires Contains(s, a + b)
    ensures Contains(s, b)
    decreases |s|
  {
    if StartsWith(s, a + b) {
      assert s[|a|..|a| + |b|] == (a + b)[|a|..];
      ContainsAt(s, b, |a|);
    } else {
      ContainsTail(s[1..], a, b);
    }
  }

  /** Every attachment's name is shown in the user bubble. */
  lemma AttachmentNamesShown(input: string, files: seq<File>, i: nat)
    requires i < |files|
    ensures Contains(UserText(input, files), files[i].name)
  {
    var marks := seq(|files|, k requires 0 <= k < |files| => AttachmentMark + files[k].name);
    JoinContainsPart(marks, ", ", i);
    ContainsTail(AttachmentList(files), AttachmentMark, files[i].name);
    ContainsExtendLeft(input + "\n\nAttached: ", AttachmentList(files), files[i].name);
  }

  /**
   * The fields the panel sends, in order: question, subject, mode, temperature, top_k and
   * then one `file_i` field per attachment.
   */
  function InterfaceForm(question: string, props: Props, files: seq<File>): seq<FormField> {
    [("question", Text(question)), ("subject", Text(props.subject)), ("mode", Text(props.mode)),
     ("temperature", Text(props.temperature.text)), ("top_k", Text(props.topK.text))]
    + FileFields(files)
  }

  /** The `formData.append` calls of the send handler, the attachments appended one by one. */
  method BuildForm(question: string, props: Props, files: seq<File>) returns (form: seq<FormField>)
    ensures form == InterfaceForm(question, props, files)
  {
    form := [("question", Text(question)), ("subject", Text(props.subject)), ("mode", Text(props.mode)),
             ("temperature", Text(props.temperature.text)), ("top_k", Text(props.topK.text))];
    form := AppendFileFields(form, files);
  }

  // ----- completion -----

  const DefaultAnswer: string := "I processed your request. Here's the response based on your question."

  function Quoted(question: string): string {
    "\"" + question + "\""
  }

  function FallbackHead(question: string): string {
    "I understand your question about " + Quoted(question) + ". "
  }

  const NotedOpening: string := "I've noted your "
  const NotedClosing: string := " uploaded file(s). "

  function FileClause(count: nat): string {
    if count > 0 then NotedOpening + Decimal(count) + NotedClosing else ""
  }

  const FailureWords: string := "Backend connection failed"
  const FailureNote: string := ". (Note: " + FailureWords + " - showing demo response)"

  function FallbackTail(mode: string, noun: string): string {
    "This is a " + mode + " response for " + noun + FailureNote
  }

  /** The reply synthesized when the request fails. */
  function FallbackText(snap: Snapshot): string {
    FallbackHead(snap.question) + FileClause(|snap.files|) + FallbackTail(snap.mode, SubjectNoun(snap.subject))
  }

  lemma FallbackTailMentions(mode: string, noun: string)
    ensures Contains(FallbackTail(mode, noun), mode)
    ensures Contains(FallbackTail(mode, noun), noun)
    ensures Contains(FallbackTail(mode, noun), FailureWords)
  {
    var tail := FallbackTail(mode, noun);
    ContainsMiddle("This is a ", mode, " response for " + noun + FailureNote);
    assert "This is a " + mode + (" response for " + noun + FailureNote) == tail;
    ContainsMiddle("This is a " + mode + " response for ", noun, FailureNote);
    ContainsMiddle(". (Note: ", FailureWords, " - showing demo response)");
    ContainsExtendLeft("This is a " + mode + " response for " + noun, FailureNote, FailureWords);
  }

  /** The fallback quotes the question, names the mode and the subject and says the backend failed. */
  lemma FallbackMentions(snap: Snapshot)
    ensures Contains(FallbackText(snap), Quoted(snap.question))
    ensures Contains(FallbackText(snap), snap.mode)
    ensures Contains(FallbackText(snap), SubjectNoun(snap.subject))
    ensures Contains(FallbackText(snap), FailureWords)
  {
    var head, clause := FallbackHead(snap.question), FileClause(|snap.files|);
    var noun := SubjectNoun(snap.subject);
    var tail := FallbackTail(snap.mode, noun);
    ContainsMiddle("I understand your question about ", Quoted(snap.question), ". ");
    ContainsExtendRight(head, clause + tail, Quoted(snap.question));
    assert head + (clause + tail) == FallbackText(snap);
    FallbackTailMentions(snap.mode, noun);
    ContainsExtendLeft(head + clause, tail, snap.mode);
    ContainsExtendLeft(head + clause, tail, noun);
    ContainsExtendLeft(head + clause, tail, FailureWords);
  }

  /** Attaching files changes the fallback only by the file count inserted right after the question. */
  lemma FallbackFileClause(snap: Snapshot)
    ensures StartsWith(FallbackText(snap.(files := [])), FallbackHead(snap.question))
    ensures |snap.files| > 0 ==>
      FallbackText(snap) == FallbackHead(snap.question)
        + NotedOpening + Decimal(|snap.files|) + NotedClosing
        + FallbackText(snap.(files := []))[|FallbackHead(snap.question)|..]
  {
    var head, tail := FallbackHead(snap.question), FallbackTail(snap.mode, SubjectNoun(snap.subject));
    var bare := FallbackText(snap.(files := []));
    assert FileClause(0) == "";
    assert bare == head + tail;
    assert bare[..|head|] == head;
    assert bare[|head|..] == tail;
    if |snap.files| > 0 {
      var clause := NotedOpening + Decimal(|snap.files|) + NotedClosing;
      assert FallbackText(snap) == head + clause + tail;
    }
  }

  /** The bot bubble's text: the backend's answer, the default sentence when it has none, or the fallback. */
  function ReplyText(outcome: Outcome, snap: Snapshot): (r: string)
    ensures r != ""
    ensures outcome.Ok? && outcome.answer.Some? && outcome.answer.value != "" ==> r == outcome.answer.value
    ensures outcome.Ok? && (outcome.answer.None? || outcome.answer.value == "") ==> r == DefaultAnswer
    ensures outcome.Failed? ==> r == FallbackText(snap)
  {
    match outcome
    case Ok(Some(a)) => if a != "" then a else DefaultAnswer
    case Ok(None) => DefaultAnswer
    case Failed => FallbackText(snap)
  }

  /**
   * What the await turns into: a missing response, a status other than 2xx and a body
   * that is not JSON all throw and end in the fallback; otherwise the answer is read.
   */
  function OutcomeOf<M>(reply: HttpReply<ChatBody<M>>): (r: Outcome)
    ensures r.Ok? <==> reply.Reply? && IsOk(reply.status) && reply.body.Some?
    ensures r.Ok? ==> r.answer == reply.body.value.answer
  {
    match reply
    case NoResponse => Failed
    case Reply(status, _, body) =>
      if !IsOk(status) then Failed
      else match body
        case None => Failed
        case Some(b) => Ok(b.answer)
  }

  /** The loop of the upload handler: the files it keeps and the notices for those it refuses, both in picked order. */
  method SortPicked(files: seq<File>) returns (valid: seq<File>, toasts: seq<Toast>)
    ensures valid == AcceptedFiles(files)
    ensures toasts == Rejections(files)
  {
    valid, toasts := [], [];
    var i := 0;
    while i < |files|
      invariant 0 <= i <= |files|
      invariant valid == AcceptedFiles(files[..i])
      invariant toasts == Rejections(files[..i])
    {
      assert files[..i + 1][..i] == files[..i];
      var f := files[i];
      if Accepted(f) {
        valid := valid + [f];
      } else {
        toasts := toasts + [Rejection(f)];
      }
      i := i + 1;
    }
    assert files[..i] == files;
  }

  // ----- the component -----

  class ChatInterface {
    var props: Props
    var messages: seq<Message>
    var input: string
    var loading: bool
    var uploaded: seq<File>
    /** The send handler suspended at its await, if any. */
    var pending: Option<Snapshot>

    /**
     * The list always begins with a greeting, a request is in flight exactly while loading,
     * and when idle the last message is from the bot.
     */
    ghost predicate Valid()
      reads this
    {
      |messages| >= 1 && IsGreeting(messages[0])
      && (loading <==> pending.Some?)
      && (!loading ==> messages[|messages| - 1].isBot)
    }

    /** The send button (and Enter) is enabled. */
    predicate SendEnabled()
      reads this
    {
      !SendBlocked(input, uploaded, loading)
    }

    /** The input box, the upload button and the New Chat button are enabled. */
    predicate ControlsEnabled()
      reads this
    {
      !loading
    }

    constructor (p: Props, now: nat)
      ensures Valid()
      ensures props == p && messages == [Greeting(p.subject, now)]
      ensures input == "" && !loading && uploaded == [] && pending == None
    {
      GreetingNamesSubject(p.subject);
      props := p;
      messages := [Greeting(p.subject, now)];
      input := "";
      loading := false;
      uploaded := [];
      pending := None;
    }

    /** The dock re-renders the panel with new settings. */
    method ReceiveProps(p: Props)
      requires Valid()
      modifies this
      ensures Valid()
      ensures props == p
      ensures messages == old(messages) && input == old(input) && loading == old(loading)
      ensures uploaded == old(uploaded) && pending == old(pending)
    {
      props := p;
    }

    /** `onChange` of the input box, which is disabled while a request is in flight. */
    method TypeInput(text: string)
      requires Valid() && ControlsEnabled()
      modifies this
      ensures Valid()
      ensures input == text
      ensures props == old(props) && messages == old(messages) && loading == old(loading)
      ensures uploaded == old(uploaded) && pending == old(pending)
    {
      input := text;
    }

    /**
     * `handleFileUpload`: keeps the PDFs and images among the picked files and appends them
     * after the current attachments; `picked` is `None` when the input reports no file list.
     */
    method UploadFiles(picked: Option<seq<File>>) returns (toasts: seq<Toast>)
      requires Valid() && ControlsEnabled()
      modifies this
      ensures Valid()
      ensures picked.None? ==> toasts == [] && uploaded == old(uploaded)
      ensures picked.Some? ==> uploaded == old(uploaded) + AcceptedFiles(picked.value)
      ensures picked.Some? ==> toasts == UploadToasts(picked.value)
      ensures props == old(props) && messages == old(messages) && input == old(input)
      ensures loading == old(loading) && pending == old(pending)
    {
      toasts := [];
      if picked.Some? {
        var valid, rejected := SortPicked(picked.value);
        toasts := rejected + UploadSummary(|valid|);
        uploaded := uploaded + valid;
      }
    }

    /** `removeFile(index)` */
    method RemoveFile(index: int)
      requires Valid()
      modifies this
      ensures Valid()
      ensures uploaded == WithoutIndex(old(uploaded), index)
      ensures props == old(props) && messages == old(messages) && input == old(input)
      ensures loading == old(loading) && pending == old(pending)
    {
      uploaded := WithoutIndex(uploaded, index);
    }

    /**
     * `handleSendMessage` up to its await: unless blocked, appends the user bubble, clears
     * the input and the attachments, sets loading and returns the fields of the request,
     * all taken from the values before clearing.  `now` is `Date.now()`.
     */
    method BeginSend(now: nat) returns (sent: bool, form: seq<FormField>)
      requires Valid()
      modifies this
      ensures Valid()
      ensures sent == old(SendEnabled())
      ensures !sent ==> form == [] && messages == old(messages) && input == old(input)
                        && uploaded == old(uploaded) && loading == old(loading) && pending == old(pending)
      ensures sent ==> messages == old(messages) + [UserMessage(old(input), old(uploaded), now)]
      ensures sent ==> input == "" && uploaded == [] && loading
      ensures sent ==> pending == Some(Snapshot(old(input), old(uploaded), old(props).subject, old(props).mode))
      ensures sent ==> form == InterfaceForm(old(input), old(props), old(uploaded))
      ensures props == old(props)
    {
      if SendBlocked(input, uploaded, loading) {
        sent, form := false, [];
        return;
      }
      sent := true;
      messages := messages + [UserMessage(input, uploaded, now)];
      var currentInput, currentFiles := input, uploaded;
      input := "";
      uploaded := [];
      loading := true;
      pending := Some(Snapshot(currentInput, currentFiles, props.subject, props.mode));

      form := BuildForm(currentInput, props, currentFiles);
    }

    /**
     * `handleSendMessage` after its await: appends exactly one bot bubble (the answer, the
     * default sentence or the fallback) and clears loading.  `now` is `Date.now()`.
     */
    method CompleteSend(outcome: Outcome, now: nat)
      requires Valid() && loading
      modifies this
      ensures Valid()
      ensures messages == old(messages) + [Message(Decimal(now + 1), ReplyText(outcome, old(pending).value), true, now)]
      ensures !loading && pending == None
      ensures props == old(props) && input == old(input) && uploaded == old(uploaded)
    {
      var snap := pending.value;
      messages := messages + [Message(Decimal(now + 1), ReplyText(outcome, snap), true, now)];
      loading := false;
      pending := None;
    }

    /**
     * `handleNewChat`: back to the greeting for the current subject, attachments dropped.
     * The button is disabled while a request is in flight, so no reply can land after it.
     */
    method NewChat(now: nat)
      requires Valid() && ControlsEnabled()
      modifies this
      ensures Valid()
      ensures messages == [Greeting(props.subject, now)] && uploaded == []
      ensures props == old(props) && input == old(input) && loading == old(loading) && pending == old(pending)
    {
      GreetingNamesSubject(props.subject);
      messages := [Greeting(props.subject, now)];
      uploaded := [];
    }
  }

  /**
   * One exchange as a user sees it: typing a question and sending it adds the user bubble
   * at once, and the reply adds exactly one bot bubble after it, whatever the outcome.
   */
  method ExchangeScenario(p: Props, question: string, outcome: Outcome, t0: nat, t1: nat, t2: nat)
    returns (chat: ChatInterface)
    requires Trim(question) != ""
    ensures fresh(chat) && chat.Valid() && !chat.loading
    ensures |chat.messages| == 3
    ensures chat.messages[1].text == question && !chat.messages[1].isBot
    ensures chat.messages[2].isBot && chat.messages[2].text != ""
  {
    chat := new ChatInterface(p, t0);
    chat.TypeInput(question);
    var sent, form := chat.BeginSend(t1);
    assert sent;
    var again, _ := chat.BeginSend(t1);
    assert !again;
    chat.CompleteSend(outcome, t2);
  }
}

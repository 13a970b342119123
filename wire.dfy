/**
 * What travels between the browser and the server: files, numbers rendered as text, the
 * ordered field list of a `multipart/form-data` body (a `FormData` object on the frontend,
 * `request.form` plus `request.files` on the backend) and what `fetch` resolves to.
 */
module Wire {
  import opened Wrappers
  import opened Strings

  /**
   * A browser `File` (name and MIME type as the browser reports them) and, on the server,
   * the Werkzeug `FileStorage` it becomes (`filename` and the stream of bytes).
   */
  datatype File = File(name: string, mimeType: string, bytes: seq<bv8>)

  /**
   * A JavaScript number or Python float, kept opaque: `text` is what `toString()` renders.
   * No arithmetic is done on temperatures or top-k values anywhere in the system.
   */
  datatype Number = Number(text: string)

  /** The value of one multipart field: a string, or a file part. */
  datatype FormValue = Text(text: string) | Blob(file: File)

  /** One `formData.append(name, value)` call, in the order the calls were made. */
  type FormField = (string, FormValue)

  /** The field name the frontend gives the attachment at position `i`. */
  function FileKey(i: nat): string {
    "file_" + Decimal(i)
  }

  /** The file fields `file_0 .. file_{n-1}`, one per attachment, in attachment order. */
  function FileFields(files: seq<File>): (r: seq<FormField>)
    ensures |r| == |files|
    ensures forall i :: 0 <= i < |files| ==> r[i] == (FileKey(i), Blob(files[i]))
  {
    seq(|files|, i requires 0 <= i < |files| => (FileKey(i), Blob(files[i])))
  }

  /** Appending one more attachment appends exactly its field, named after its position. */
  lemma FileFieldsSnoc(files: seq<File>, f: File)
    ensures FileFields(files + [f]) == FileFields(files) + [(FileKey(|files|), Blob(f))]
  {
    var lhs, rhs := FileFields(files + [f]), FileFields(files) + [(FileKey(|files|), Blob(f))];
    assert |lhs| == |rhs|;
    forall i | 0 <= i < |lhs| ensures lhs[i] == rhs[i] {
      if i < |files| {
        assert (files + [f])[i] == files[i];
      }
    }
  }

  /** `files.forEach((file, index) => formData.append(`file_${index}`, file))` */
  method AppendFileFields(form: seq<FormField>, files: seq<File>) returns (result: seq<FormField>)
    ensures result == form + FileFields(files)
  {
    result := form;
    var i := 0;
    while i < |files|
      invariant 0 <= i <= |files|
      invariant result == form + FileFields(files[..i])
    {
      FileFieldsSnoc(files[..i], files[i]);
      assert files[..i + 1] == files[..i] + [files[i]];
      result := result + [(FileKey(i), Blob(files[i]))];
      i := i + 1;
    }
    assert files[..i] == files;
  }

  /** No two attachments get the same field name. */
  lemma FileKeysDistinct(i: nat, j: nat)
    requires i != j
    ensures FileKey(i) != FileKey(j)
  {
    if FileKey(i) == FileKey(j) {
      assert FileKey(i)[5..] == Decimal(i);
      assert FileKey(j)[5..] == Decimal(j);
      DecimalInjective(i, j);
    }
  }

  /** The names of the fields, in order. */
  function Names(form: seq<FormField>): (r: seq<string>)
    ensures |r| == |form|
    ensures forall i :: 0 <= i < |form| ==> r[i] == form[i].0
  {
    seq(|form|, i requires 0 <= i < |form| => form[i].0)
  }

  /** The string fields of a body, in order: what the server sees as `request.form`. */
  function TextFields(form: seq<FormField>): (r: seq<(string, string)>)
    ensures |r| <= |form|
    decreases |form|
  {
    if form == [] then []
    else
      var rest := TextFields(form[1..]);
      match form[0].1
      case Text(t) => [(form[0].0, t)] + rest
      case Blob(_) => rest
  }

  /** The file fields of a body, in order: what the server sees as `request.files`. */
  function FileParts(form: seq<FormField>): (r: seq<(string, File)>)
    ensures |r| <= |form|
    decreases |form|
  {
    if form == [] then []
    else
      var rest := FileParts(form[1..]);
      match form[0].1
      case Text(_) => rest
      case Blob(f) => [(form[0].0, f)] + rest
  }

  /** Splitting a body into string and file parts respects concatenation. */
  lemma SplitAppend(a: seq<FormField>, b: seq<FormField>)
    ensures TextFields(a + b) == TextFields(a) + TextFields(b)
    ensures FileParts(a + b) == FileParts(a) + FileParts(b)
  {
    TextFieldsAppend(a, b);
    FilePartsAppend(a, b);
  }

  lemma {:induction false} TextFieldsAppend(a: seq<FormField>, b: seq<FormField>)
    ensures TextFields(a + b) == TextFields(a) + TextFields(b)
    decreases |a|
  {
    if a == [] {
      assert a + b == b;
    } else {
      var ab := a + b;
      assert ab[0] == a[0] && ab[1..] == a[1..] + b;
      TextFieldsAppend(a[1..], b);
    }
  }

  lemma {:induction false} FilePartsAppend(a: seq<FormField>, b: seq<FormField>)
    ensures FileParts(a + b) == FileParts(a) + FileParts(b)
    decreases |a|
  {
    if a == [] {
      assert a + b == b;
    } else {
      var ab := a + b;
      assert ab[0] == a[0] && ab[1..] == a[1..] + b;
      FilePartsAppend(a[1..], b);
    }
  }

  /** A body of string fields only is read back as those strings, in order, with no file parts. */
  lemma {:induction false} SplitTextOnly(form: seq<FormField>)
    requires forall i :: 0 <= i < |form| ==> form[i].1.Text?
    ensures TextFields(form) == seq(|form|, i requires 0 <= i < |form| => (form[i].0, form[i].1.text))
    ensures FileParts(form) == []
    decreases |form|
  {
    if form != [] {
      SplitTextOnly(form[1..]);
    }
  }

  /** The attachment fields are all file parts: named `file_i` and carrying the attachments in order. */
  lemma {:induction false} SplitFileFields(files: seq<File>)
    ensures TextFields(FileFields(files)) == []
    ensures FileParts(FileFields(files)) == seq(|files|, i requires 0 <= i < |files| => (FileKey(i), files[i]))
    decreases |files|
  {
    if files != [] {
      var init, last := files[..|files| - 1], files[|files| - 1];
      assert files == init + [last];
      FileFieldsSnoc(init, last);
      SplitFileFields(init);
      var tail: seq<FormField> := [(FileKey(|init|), Blob(last))];
      SplitAppend(FileFields(init), tail);
      assert tail[1..] == [];
      assert FileParts(tail) == [(FileKey(|init|), last)];
    }
  }

  // ----- what fetch resolves to -----

  /**
   * The result of one `fetch` and the `response.json()` that follows it: no response at all
   * (the promise rejects), or a status with its status text and the parsed body, `None`
   * when the body is not JSON.
   */
  datatype HttpReply<B> = NoResponse | Reply(status: nat, statusText: string, body: Option<B>)

  /** `response.ok` */
  predicate IsOk(status: nat) {
    200 <= status <= 299
  }

  /** The JSON body of a chat reply as the frontend reads it: `data.answer`, `data.metadata`. */
  datatype ChatBody<M> = ChatBody(answer: Option<string>, metadata: Option<M>)

  /** The JSON body of an extraction reply as the frontend reads it: `data.text`. */
  datatype ExtractBody = ExtractBody(text: Option<string>)
}

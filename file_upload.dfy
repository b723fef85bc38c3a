/** The upload controller of resume/src/FileUpload.tsx: it accumulates the
    selected resumes, validates them and the job description, builds the
    multipart request and turns the single response into either an error
    message or a navigation to the results view. The request itself is not
    performed here: `BeginUpload` returns the parts it would post and
    `FinishUpload` receives what came back, as an `Outcome`. */
module Upload {
  import opened Wrappers
  import opened Strings
  import opened Payload

  /** A selected file as the browser reports it. */
  datatype FileEntry = FileEntry(name: string, mimeType: string)

  const PdfType: string := "application/pdf"
  const NoFilesMessage: string := "Please select at least one resume"
  const NoDescriptionMessage: string := "Please enter a job description"
  const AnalysisFailedMessage: string := "Analysis failed"
  const ServerErrorPrefix: string := "Server error: "
  const InvalidTypePrefix: string := "Invalid file type: "
  const InvalidTypeSuffix: string := ". Only PDF files are allowed."
  const ResultsPath: string := "/results"

  predicate IsPdf(f: FileEntry) {
    f.mimeType == PdfType
  }

  predicate AllPdf(files: seq<FileEntry>) {
    forall i | 0 <= i < |files| :: IsPdf(files[i])
  }

  // ---------------------------------------------------------------------------
  // Batch validation

  /** The files of a batch whose type is not PDF, in batch order. */
  function InvalidFiles(batch: seq<FileEntry>): (r: seq<FileEntry>)
    ensures |r| <= |batch|
    ensures forall i | 0 <= i < |r| :: !IsPdf(r[i]) && r[i] in batch
    ensures forall i | 0 <= i < |batch| :: !IsPdf(batch[i]) ==> batch[i] in r
    ensures r == [] <==> AllPdf(batch)
  {
    if batch == [] then []
    else (if IsPdf(batch[0]) then [] else [batch[0]]) + InvalidFiles(batch[1..])
  }

  /** Filtering keeps batch order: the offenders of two consecutive runs of a
      batch are those of the first run followed by those of the second. */
  lemma {:induction false} InvalidFilesAppend(a: seq<FileEntry>, b: seq<FileEntry>)
    ensures InvalidFiles(a + b) == InvalidFiles(a) + InvalidFiles(b)
  {
    if a != [] {
      assert (a + b)[0] == a[0];
      assert (a + b)[1..] == a[1..] + b;
      InvalidFilesAppend(a[1..], b);
    } else {
      assert a + b == b;
    }
  }

  /** `files.map(f => f.name)`. */
  function Names(files: seq<FileEntry>): (r: seq<string>)
    ensures |r| == |files| && forall i | 0 <= i < |files| :: r[i] == files[i].name
  {
    seq(|files|, i requires 0 <= i < |files| => files[i].name)
  }

  /** The error shown for a rejected batch, listing the offending names
      between a fixed prefix and a fixed suffix; a single offender is named
      alone. */
  function InvalidTypeMessage(invalid: seq<FileEntry>): (m: string)
    ensures |InvalidTypePrefix| + |InvalidTypeSuffix| <= |m|
    ensures m[..|InvalidTypePrefix|] == InvalidTypePrefix
    ensures m[|m| - |InvalidTypeSuffix|..] == InvalidTypeSuffix
    ensures m[|InvalidTypePrefix|..|m| - |InvalidTypeSuffix|] == Join(Names(invalid), ", ")
    ensures |invalid| == 1 ==> m == InvalidTypePrefix + invalid[0].name + InvalidTypeSuffix
  {
    InvalidTypePrefix + Join(Names(invalid), ", ") + InvalidTypeSuffix
  }

  /** The rejection message names every offending file: the name of offender
      `k` stands, whole, at a known position of the message. */
  lemma InvalidTypeMessageNamesEach(invalid: seq<FileEntry>, k: nat)
    requires k < |invalid|
    ensures var at := |InvalidTypePrefix| + JoinOffset(Names(invalid), ", ", k);
            var m := InvalidTypeMessage(invalid);
            at + |invalid[k].name| <= |m| && m[at..at + |invalid[k].name|] == invalid[k].name
  {
    var names := Names(invalid);
    var joined := Join(names, ", ");
    JoinContainsPart(names, ", ", k);
    var off := JoinOffset(names, ", ", k);
    SliceOfMiddle(InvalidTypePrefix, joined, InvalidTypeSuffix, off, off + |names[k]|);
  }

  // ---------------------------------------------------------------------------
  // Removal by position

  /** `s.filter((_, i) => i !== index)`: every element whose position differs
      from `index`, in order. Built from the end so that positions stay put. */
  function WithoutPosition<T>(s: seq<T>, index: int): (r: seq<T>)
    ensures |r| == if 0 <= index < |s| then |s| - 1 else |s|
    ensures forall x | x in r :: x in s
  {
    if s == [] then []
    else WithoutPosition(s[..|s| - 1], index) + (if |s| - 1 == index then [] else [s[|s| - 1]])
  }

  /** Filtering by position removes exactly the entry at an in-range index and
      nothing at all otherwise; the other entries keep their order. */
  lemma {:induction false} WithoutPositionSlices<T>(s: seq<T>, index: int)
    ensures WithoutPosition(s, index)
         == if 0 <= index < |s| then s[..index] + s[index + 1..] else s
  {
    if s != [] {
      var p := s[..|s| - 1];
      WithoutPositionSlices(p, index);
      if 0 <= index < |p| {
        assert s[..index] + s[index + 1..] == p[..index] + p[index + 1..] + [s[|s| - 1]];
      } else if index == |p| {
        assert s[..index] + s[index + 1..] == p;
      } else {
        assert p + [s[|s| - 1]] == s;
      }
    }
  }

  // ---------------------------------------------------------------------------
  // The multipart request

  /** A FormData entry: a file under a field name, or a text value. */
  datatype FormPart = FilePart(field: string, file: FileEntry) | TextPart(field: string, text: string)

  /** The request body for an upload: one `files` part per file in list order,
      then the description, untrimmed, as the last part. */
  predicate IsUploadForm(parts: seq<FormPart>, files: seq<FileEntry>, description: string) {
    && |parts| == |files| + 1
    && (forall i | 0 <= i < |files| :: parts[i] == FilePart("files", files[i]))
    && parts[|files|] == TextPart("description", description)
  }

  /** The files a receiver reads back from the repeated field `name`. */
  function FilesField(parts: seq<FormPart>, name: string): seq<FileEntry> {
    if parts == [] then []
    else (if parts[0].FilePart? && parts[0].field == name then [parts[0].file] else [])
         + FilesField(parts[1..], name)
  }

  /** The first text value a receiver reads under field `name`, if any. */
  function TextField(parts: seq<FormPart>, name: string): Option<string> {
    if parts == [] then None
    else if parts[0].TextPart? && parts[0].field == name then Some(parts[0].text)
    else TextField(parts[1..], name)
  }

  /** A receiver of an upload form gets back exactly the selected files, in
      order, and exactly the description as typed. */
  lemma {:induction false} UploadFormDecodes(parts: seq<FormPart>, files: seq<FileEntry>, description: string)
    requires IsUploadForm(parts, files, description)
    ensures FilesField(parts, "files") == files
    ensures TextField(parts, "description") == Some(description)
  {
    if files != [] {
      assert IsUploadForm(parts[1..], files[1..], description);
      UploadFormDecodes(parts[1..], files[1..], description);
    }
  }

  /** The `forEach` that appends one part per file, then the description. */
  method BuildFormData(files: seq<FileEntry>, description: string) returns (parts: seq<FormPart>)
    ensures IsUploadForm(parts, files, description)
  {
    parts := [];
    for i := 0 to |files|
      invariant |parts| == i
      invariant forall j | 0 <= j < i :: parts[j] == FilePart("files", files[j])
    {
      parts := parts + [FilePart("files", files[i])];
    }
    parts := parts + [TextPart("description", description)];
  }

  // ---------------------------------------------------------------------------
  // The response and what it leads to

  /** What the single request can come back with.
      - `NetworkFailure`: `fetch` itself rejected.
      - `HttpNotOk`: a non-ok response whose body was read without an
        exception; `detail` is the body's `detail` field, and a body that
        cannot be parsed as JSON (read as `{}`) has none.
      - `BodyParseFailure`: any exception raised while reading a body: an ok
        body that is not JSON, or a body that parses to `null`, so that
        reading its `detail` (non-ok) or `success` (ok) throws.
      - `Ok`: an ok response whose body was read as a result.
      The messages of the two failures that carry one are the JavaScript
      engine's own, opaque here. */
  datatype Outcome =
    | NetworkFailure(message: string)
    | HttpNotOk(status: nat, detail: Option<string>)
    | BodyParseFailure(message: string)
    | Ok(result: AnalysisResult)

  /** A route change with the result attached as navigation state. */
  datatype Navigation = Navigation(path: string, analysisResult: AnalysisResult)

  /** How an upload ends: navigation, or an error message for the view. */
  datatype Settlement = Navigate(to: Navigation) | Fail(message: string)

  /** The fallback message of a non-ok response: the prefix, then the
      status code in decimal digits. */
  function ServerErrorMessage(status: nat): (m: string)
    ensures |ServerErrorPrefix| < |m| && m[..|ServerErrorPrefix|] == ServerErrorPrefix
    ensures forall i | |ServerErrorPrefix| <= i < |m| :: IsDigit(m[i])
  {
    ServerErrorPrefix + NatToString(status)
  }

  /** The response handling of the upload: only an ok response whose payload
      reports success navigates, to the results route and with the payload
      unchanged; a non-ok response shows the body's detail when it has a
      non-empty one and otherwise a message naming the status code. */
  function Settle(o: Outcome): (s: Settlement)
    ensures s.Navigate? <==> o.Ok? && o.result.success
    ensures s.Navigate? ==> s.to.path == ResultsPath && s.to.analysisResult == o.result
    ensures o.HttpNotOk? && Truthy(o.detail) ==> s == Fail(o.detail.value)
    ensures o.HttpNotOk? && !Truthy(o.detail) ==> s == Fail(ServerErrorMessage(o.status))
    ensures o.Ok? && !o.result.success ==> s == Fail(AnalysisFailedMessage)
    ensures o.NetworkFailure? || o.BodyParseFailure? ==> s == Fail(o.message)
  {
    match o
    case NetworkFailure(m) => Fail(m)
    case HttpNotOk(status, detail) =>
      if Truthy(detail) then Fail(detail.value) else Fail(ServerErrorMessage(status))
    case BodyParseFailure(m) => Fail(m)
    case Ok(result) =>
      if result.success then Navigate(Navigation(ResultsPath, result)) else Fail(AnalysisFailedMessage)
  }

  /** A failure the service or the payload reports always leaves a non-empty
      error, so the error alert is shown; only a browser failure with an empty
      message could leave it hidden. */
  lemma ReportedFailureIsVisible(o: Outcome)
    requires o.HttpNotOk? || o.Ok?
    requires Settle(o).Fail?
    ensures Settle(o).message != ""
  {
  }

  /** The fallback message of a non-ok response carries the status code: the
      text after the prefix reads back as the status. */
  lemma ServerErrorNamesStatus(status: nat)
    ensures var m := ServerErrorMessage(status);
            |ServerErrorPrefix| < |m| && m[..|ServerErrorPrefix|] == ServerErrorPrefix
            && (forall i | |ServerErrorPrefix| <= i < |m| :: IsDigit(m[i]))
            && DecimalValue(m[|ServerErrorPrefix|..]) == status
  {
    var m := ServerErrorMessage(status);
    assert m[|ServerErrorPrefix|..] == NatToString(status);
    NatToStringRoundTrip(status);
  }

  // ---------------------------------------------------------------------------
  // The component state

  /** The view state of the upload form. Every stored file is a PDF: files
      enter only through `HandleFileChange`, which rejects any batch holding
      something else. */
  class FileUpload {
    var selectedFiles: seq<FileEntry>
    var description: string
    var loading: bool
    var error: string

    ghost predicate Valid()
      reads this
    {
      AllPdf(selectedFiles)
    }

    /** The initial state: no files, empty description, idle, no error. */
    constructor ()
      ensures Valid()
      ensures selectedFiles == [] && description == "" && !loading && error == ""
    {
      selectedFiles := [];
      description := "";
      loading := false;
      error := "";
    }

    /** The description field's change handler: stores the text as typed. */
    method SetDescription(text: string)
      requires Valid()
      modifies this`description
      ensures Valid()
      ensures description == text
    {
      description := text;
    }

    /** The file input's change handler. The error is cleared first; with no
        file list nothing else happens; a batch holding any non-PDF file is
        rejected whole with a message naming its offenders; otherwise the
        whole batch is appended in order. */
    method HandleFileChange(files: Option<seq<FileEntry>>)
      requires Valid()
      modifies this`selectedFiles, this`error
      ensures Valid()
      ensures files.None? ==> selectedFiles == old(selectedFiles) && error == ""
      ensures files.Some? && !AllPdf(files.value) ==>
                selectedFiles == old(selectedFiles) && error == InvalidTypeMessage(InvalidFiles(files.value))
      ensures files.Some? && AllPdf(files.value) ==>
                selectedFiles == old(selectedFiles) + files.value && error == ""
    {
      error := "";
      if files.Some? {
        var batch := files.value;
        var invalid := InvalidFiles(batch);
        if |invalid| > 0 {
          error := InvalidTypeMessage(invalid);
          return;
        }
        selectedFiles := selectedFiles + batch;
      }
    }

    /** The delete button of list entry `index`: removes that one entry, or
        nothing when `index` is out of range. */
    method RemoveFile(index: int)
      requires Valid()
      modifies this`selectedFiles
      ensures Valid()
      ensures 0 <= index < |old(selectedFiles)| ==>
                selectedFiles == old(selectedFiles)[..index] + old(selectedFiles)[index + 1..]
      ensures !(0 <= index < |old(selectedFiles)|) ==> selectedFiles == old(selectedFiles)
    {
      WithoutPositionSlices(selectedFiles, index);
      selectedFiles := WithoutPosition(selectedFiles, index);
    }

    /** The upload handler up to the request: the file list is checked first,
        then the trimmed description; on success the form is in flight
        (`loading`, error cleared) and its parts are returned. The stored
        files and description are never changed. */
    method BeginUpload() returns (r: Result<seq<FormPart>, string>)
      requires Valid() && !loading
      modifies this`loading, this`error
      ensures |selectedFiles| == 0 ==>
                r == Failure(NoFilesMessage) && error == NoFilesMessage && !loading
      ensures |selectedFiles| > 0 && IsBlank(description) ==>
                r == Failure(NoDescriptionMessage) && error == NoDescriptionMessage && !loading
      ensures |selectedFiles| > 0 && !IsBlank(description) ==>
                r.Success? && IsUploadForm(r.value, selectedFiles, description) && loading && error == ""
    {
      if |selectedFiles| == 0 {
        error := NoFilesMessage;
        return Failure(NoFilesMessage);
      }
      if IsBlank(description) {
        error := NoDescriptionMessage;
        return Failure(NoDescriptionMessage);
      }
      loading := true;
      error := "";
      var parts := BuildFormData(selectedFiles, description);
      r := Success(parts);
    }

    /** The upload handler after the response: the outcome either navigates
        (the error stays as it was) or sets the error; `loading` ends false
        either way. */
    method FinishUpload(o: Outcome) returns (nav: Option<Navigation>)
      requires Valid() && loading
      modifies this`loading, this`error
      ensures Valid() && !loading
      ensures Settle(o).Navigate? ==> nav == Some(Settle(o).to) && error == old(error)
      ensures Settle(o).Fail? ==> nav == None && error == Settle(o).message
    {
      match Settle(o) {
        case Navigate(to) =>
          nav := Some(to);
        case Fail(message) =>
          error := message;
          nav := None;
      }
      loading := false;
    }

    /** The whole upload handler, with `o` standing for what the request
        would return. No request exists unless both checks pass; a request
        holds only PDF files, the selected ones in order, and the description;
        whatever happens, `loading` ends false and the files and description
        are as they were. */
    method HandleUpload(o: Outcome) returns (request: Option<seq<FormPart>>, nav: Option<Navigation>)
      requires Valid() && !loading
      modifies this`loading, this`error
      ensures Valid() && !loading
      ensures request.None? <==> |selectedFiles| == 0 || IsBlank(description)
      ensures request.None? ==> nav == None
      ensures |selectedFiles| == 0 ==> error == NoFilesMessage
      ensures |selectedFiles| > 0 && IsBlank(description) ==> error == NoDescriptionMessage
      ensures request.Some? ==>
                && IsUploadForm(request.value, selectedFiles, description)
                && AllPdf(FilesField(request.value, "files"))
                && (Settle(o).Navigate? ==> nav == Some(Settle(o).to) && error == "")
                && (Settle(o).Fail? ==> nav == None && error == Settle(o).message)
    {
      var begun := BeginUpload();
      match begun
      case Failure(_) =>
        request, nav := None, None;
      case Success(parts) =>
        UploadFormDecodes(parts, selectedFiles, description);
        request := Some(parts);
        nav := FinishUpload(o);
    }
  }
}

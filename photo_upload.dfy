/**
 * The photo staging and upload workflow of src/components/PhotoUpload.tsx.
 *
 * The component holds three pieces of state: the staged files, the
 * drag-over highlight flag and the uploading flag. Drag events toggle the
 * highlight; a drop stages the image-typed files; the file picker stages
 * everything it returns; a preview's remove button unstages one position;
 * the upload button builds a multipart request from the staged files and,
 * depending on the network outcome, clears the list or keeps it for a retry.
 * The network call itself is not modelled: its outcome is a parameter.
 */
module PhotoUpload {

  import opened Wrappers
  import opened Text
  import LanguageContext

  /** A browser `File`: its name, its MIME type (`file.type`) and its size in bytes. */
  datatype StagedFile = StagedFile(name: string, mimeType: string, size: nat)

  /** The file's MIME type has the top-level type `image` (section 4.2 of RFC 2046): it begins with "image/". */
  predicate IsImage(f: StagedFile)
  {
    StartsWith(f.mimeType, "image/")
  }

  predicate AllImages(fs: seq<StagedFile>)
  {
    forall i :: 0 <= i < |fs| ==> IsImage(fs[i])
  }

  // ---------------------------------------------------------------------------
  // Drop: the dropped files are filtered down to the image-typed ones

  /** The dropped files that are images, in drop order. */
  function ImagesOnly(fs: seq<StagedFile>): (r: seq<StagedFile>)
    ensures |r| <= |fs|
    ensures AllImages(r)
  {
    if fs == [] then []
    else (if IsImage(fs[0]) then [fs[0]] else []) + ImagesOnly(fs[1..])
  }

  /** A file survives the filter exactly when it was dropped and is an image. */
  lemma {:induction false} ImagesOnlyMembers(fs: seq<StagedFile>, f: StagedFile)
    ensures f in ImagesOnly(fs) <==> f in fs && IsImage(f)
  {
    if fs != [] {
      ImagesOnlyMembers(fs[1..], f);
      assert fs == [fs[0]] + fs[1..];
    }
  }

  /** Filtering a concatenation filters each part and keeps them in order. */
  lemma {:induction false} ImagesOnlyAppend(a: seq<StagedFile>, b: seq<StagedFile>)
    ensures ImagesOnly(a + b) == ImagesOnly(a) + ImagesOnly(b)
  {
    if a == [] {
      assert a + b == b;
    } else {
      assert (a + b)[1..] == a[1..] + b;
      ImagesOnlyAppend(a[1..], b);
    }
  }

  /** A drop of images only keeps every dropped file. */
  lemma {:induction false} ImagesOnlyKeepsImages(fs: seq<StagedFile>)
    requires AllImages(fs)
    ensures ImagesOnly(fs) == fs
  {
    if fs != [] {
      ImagesOnlyKeepsImages(fs[1..]);
    }
  }

  /** The filter yields nothing exactly when no dropped file is an image. */
  lemma ImagesOnlyEmpty(fs: seq<StagedFile>)
    ensures ImagesOnly(fs) == [] <==> forall i :: 0 <= i < |fs| ==> !IsImage(fs[i])
  {
    if ImagesOnly(fs) != [] {
      ImagesOnlyMembers(fs, ImagesOnly(fs)[0]);
    }
    forall i | 0 <= i < |fs| && IsImage(fs[i])
      ensures ImagesOnly(fs) != []
    {
      ImagesOnlyMembers(fs, fs[i]);
    }
  }

  /** The number of image-typed files in a sequence (the reference count). */
  function CountImages(fs: seq<StagedFile>): nat
  {
    if fs == [] then 0 else (if IsImage(fs[|fs| - 1]) then 1 else 0) + CountImages(fs[..|fs| - 1])
  }

  /** The filter keeps exactly as many files as there are images. */
  lemma {:induction false} ImagesOnlyLength(fs: seq<StagedFile>)
    ensures |ImagesOnly(fs)| == CountImages(fs)
  {
    if fs != [] {
      var init, last := fs[..|fs| - 1], fs[|fs| - 1];
      assert fs == init + [last];
      ImagesOnlyAppend(init, [last]);
      ImagesOnlyLength(init);
    }
  }

  // ---------------------------------------------------------------------------
  // Remove: the list is filtered by position, dropping every entry at the given index

  /** The list without the entries whose position equals `index`, scanning from position 0. */
  function RemoveAt(fs: seq<StagedFile>, index: int): (r: seq<StagedFile>)
    ensures |r| <= |fs|
  {
    if fs == [] then []
    else (if index == 0 then [] else [fs[0]]) + RemoveAt(fs[1..], index - 1)
  }

  /** An in-range index removes exactly that entry; the others keep their order. */
  lemma {:induction false} RemoveAtInRange(fs: seq<StagedFile>, index: int)
    requires 0 <= index < |fs|
    ensures RemoveAt(fs, index) == fs[..index] + fs[index + 1..]
  {
    var rest := RemoveAt(fs[1..], index - 1);
    assert RemoveAt(fs, index) == (if index == 0 then [] else [fs[0]]) + rest;
    if index == 0 {
      RemoveAtOutOfRange(fs[1..], -1);
      assert fs[..0] + fs[1..] == fs[1..];
    } else {
      RemoveAtInRange(fs[1..], index - 1);
      assert rest == fs[1..][..index - 1] + fs[1..][index..];
      assert [fs[0]] + fs[1..][..index - 1] == fs[..index];
      assert fs[1..][index..] == fs[index + 1..];
    }
  }

  /** An index outside the list, negative or too large, changes nothing. */
  lemma {:induction false} RemoveAtOutOfRange(fs: seq<StagedFile>, index: int)
    requires index < 0 || index >= |fs|
    ensures RemoveAt(fs, index) == fs
  {
    if fs != [] {
      RemoveAtOutOfRange(fs[1..], index - 1);
    }
  }

  /** Removing a position never brings a non-image into the list. */
  lemma RemoveAtKeepsImages(fs: seq<StagedFile>, index: int)
    requires AllImages(fs)
    ensures AllImages(RemoveAt(fs, index))
  {
    if 0 <= index < |fs| {
      RemoveAtInRange(fs, index);
    } else {
      RemoveAtOutOfRange(fs, index);
    }
  }

  // ---------------------------------------------------------------------------
  // The multipart request (FormData) built by handleUpload

  datatype FieldValue = Blob(file: StagedFile) | Text(text: string)

  /** One named entry of the multipart body. */
  datatype FormField = FormField(name: string, value: FieldValue)

  const SourceTag: string := "wedding_album"

  /** The request the upload sends: one 'file' field per staged file, then the metadata. */
  function Request(files: seq<StagedFile>, timestamp: string): (r: seq<FormField>)
    ensures |r| == |files| + 3
    ensures forall i :: 0 <= i < |r| ==> (r[i].value.Blob? <==> i < |files|)
  {
    seq(|files|, i requires 0 <= i < |files| => FormField("file", Blob(files[i])))
      + [ FormField("timestamp", Text(timestamp)),
          FormField("source", Text(SourceTag)),
          FormField("totalFiles", Text(NatToString(|files|))) ]
  }

  /** Appends one 'file' field per staged file, in list order, then the three metadata fields. */
  method BuildRequest(files: seq<StagedFile>, timestamp: string) returns (fields: seq<FormField>)
    ensures |fields| == |files| + 3
    ensures forall i :: 0 <= i < |files| ==> fields[i] == FormField("file", Blob(files[i]))
    ensures fields[|files|..] == [ FormField("timestamp", Text(timestamp)),
                                   FormField("source", Text(SourceTag)),
                                   FormField("totalFiles", Text(NatToString(|files|))) ]
    ensures fields == Request(files, timestamp)
  {
    fields := [];
    var i := 0;
    while i < |files|
      invariant 0 <= i <= |files|
      invariant |fields| == i
      invariant forall k :: 0 <= k < i ==> fields[k] == FormField("file", Blob(files[k]))
    {
      fields := fields + [FormField("file", Blob(files[i]))];
      i := i + 1;
    }
    fields := fields + [FormField("timestamp", Text(timestamp))];
    fields := fields + [FormField("source", Text(SourceTag))];
    fields := fields + [FormField("totalFiles", Text(NatToString(|files|)))];
  }

  /** The blobs sent under the field name 'file', in request order (what the endpoint receives). */
  function FileParts(fields: seq<FormField>): seq<StagedFile>
  {
    if fields == [] then []
    else (if fields[0].name == "file" && fields[0].value.Blob? then [fields[0].value.file] else [])
         + FileParts(fields[1..])
  }

  lemma {:induction false} FilePartsAppend(a: seq<FormField>, b: seq<FormField>)
    ensures FileParts(a + b) == FileParts(a) + FileParts(b)
  {
    if a == [] {
      assert a + b == b;
    } else {
      assert (a + b)[1..] == a[1..] + b;
      FilePartsAppend(a[1..], b);
    }
  }

  lemma {:induction false} FilePartsOfFileFields(files: seq<StagedFile>)
    ensures FileParts(seq(|files|, i requires 0 <= i < |files| => FormField("file", Blob(files[i])))) == files
  {
    var fields := seq(|files|, i requires 0 <= i < |files| => FormField("file", Blob(files[i])));
    if files != [] {
      FilePartsOfFileFields(files[1..]);
      assert fields[1..] == seq(|files[1..]|, i requires 0 <= i < |files[1..]| => FormField("file", Blob(files[1..][i])));
    }
  }

  /** The endpoint receives exactly the staged files, in list order. */
  lemma RequestCarriesFiles(files: seq<StagedFile>, timestamp: string)
    ensures FileParts(Request(files, timestamp)) == files
  {
    var head := seq(|files|, i requires 0 <= i < |files| => FormField("file", Blob(files[i])));
    var tail := [ FormField("timestamp", Text(timestamp)),
                  FormField("source", Text(SourceTag)),
                  FormField("totalFiles", Text(NatToString(|files|))) ];
    FilePartsAppend(head, tail);
    FilePartsOfFileFields(files);
    assert FileParts(tail[2..]) == [];
    assert FileParts(tail[1..]) == [];
    assert FileParts(tail) == [];
  }

  /** The declared `totalFiles` reads back as the number of 'file' parts actually sent. */
  lemma RequestCountMatches(files: seq<StagedFile>, timestamp: string)
    ensures var r := Request(files, timestamp);
            |r| == |files| + 3 &&
            r[|r| - 1].name == "totalFiles" && r[|r| - 1].value.Text? &&
            AllDigits(r[|r| - 1].value.text) &&
            DigitsValue(r[|r| - 1].value.text) == |FileParts(r)|
  {
    RequestCarriesFiles(files, timestamp);
    NatToStringRoundTrip(|files|);
  }

  // ---------------------------------------------------------------------------
  // Network outcome and error classification

  /** What the `fetch` of the request ends in; the network itself is not modelled. */
  datatype FetchOutcome =
    | Ok                                                          // response.ok, body parsed as JSON
    | HttpError(status: nat, statusText: string, body: string)   // !response.ok; body is response.text()
    | NetworkTypeError(message: string)                           // fetch rejected with a TypeError
    | OtherError(message: string)                                 // any other Error, e.g. JSON parsing

  /** A thrown JavaScript `Error`: whether it is a `TypeError`, and its message. */
  datatype JsError = JsError(isTypeError: bool, message: string)

  const CannotConnect: string :=
    "Cannot connect to upload server. " + "Please check if n8n is running " + "and accessible."
  const ServiceUnavailable: string :=
    "Upload service not available. " + "Please ensure the n8n workflow is activated."

  /** The message of the error a non-ok response raises. */
  function HttpErrorMessage(status: nat, statusText: string, body: string): (m: string)
    ensures StartsWith(m, "Upload failed: ")
  {
    "Upload failed: " + NatToString(status) + " " + statusText + " - " + body
  }

  /** The message of a non-ok response names its status, its status text and its body. */
  lemma HttpErrorMessageEmbeds(status: nat, statusText: string, body: string)
    ensures var m := HttpErrorMessage(status, statusText, body);
            StartsWith(m, "Upload failed: ") &&
            Contains(m, NatToString(status)) && Contains(m, statusText) && Contains(m, body)
  {
    var n := NatToString(status);
    var m := HttpErrorMessage(status, statusText, body);
    assert m == "Upload failed: " + n + (" " + statusText + " - " + body);
    ContainsInfix("Upload failed: ", n, " " + statusText + " - " + body);
    assert m == ("Upload failed: " + n + " ") + statusText + (" - " + body);
    ContainsInfix("Upload failed: " + n + " ", statusText, " - " + body);
    assert m == ("Upload failed: " + n + " " + statusText + " - ") + body + "";
    ContainsInfix("Upload failed: " + n + " " + statusText + " - ", body, "");
  }

  /**
   * The error that reaches the inner `catch` for a failed outcome: a non-ok
   * response becomes a plain Error that reports the response; a rejection of
   * the fetch or of the JSON parsing reaches it unchanged.
   */
  function Raised(o: FetchOutcome): (e: JsError)
    requires !o.Ok?
    ensures o.HttpError? ==>
              !e.isTypeError && StartsWith(e.message, "Upload failed: ") &&
              Contains(e.message, NatToString(o.status)) &&
              Contains(e.message, o.statusText) && Contains(e.message, o.body)
    ensures o.NetworkTypeError? ==> e.isTypeError && e.message == o.message
    ensures o.OtherError? ==> !e.isTypeError && e.message == o.message
  {
    match o
    case HttpError(status, statusText, body) =>
      HttpErrorMessageEmbeds(status, statusText, body);
      JsError(false, HttpErrorMessage(status, statusText, body))
    case NetworkTypeError(m) => JsError(true, m)
    case OtherError(m) => JsError(false, m)
  }

  /** The inner `catch`: translate a connection failure or a 404, rethrow anything else. */
  function Classify(e: JsError): (r: JsError)
    ensures r == e || r == JsError(false, CannotConnect) || r == JsError(false, ServiceUnavailable)
    ensures r != e ==> Contains(e.message, "fetch") || Contains(e.message, "404")
  {
    if e.isTypeError && Contains(e.message, "fetch") then JsError(false, CannotConnect)
    else if Contains(e.message, "404") then JsError(false, ServiceUnavailable)
    else e
  }

  /** A connection failure (a TypeError mentioning "fetch") wins over every other reading. */
  lemma ConnectionFailureCannotConnect(message: string)
    requires Contains(message, "fetch")
    ensures FailureToast(NetworkTypeError(message)) == Toast("upload.error", CannotConnect, true)
  {
  }

  /**
   * A rejection that is not a connection failure (a TypeError without "fetch",
   * or any other Error) and mentions "404" reads as "Upload service not available".
   */
  lemma OtherError404Unavailable(o: FetchOutcome)
    requires o.NetworkTypeError? || o.OtherError?
    requires !(o.NetworkTypeError? && Contains(o.message, "fetch"))
    requires Contains(o.message, "404")
    ensures FailureToast(o) == Toast("upload.error", ServiceUnavailable, true)
  {
  }

  /**
   * A rejection that is not a connection failure and does not mention "404"
   * is reported with its own message; this includes an Error other than a
   * TypeError whose message mentions "fetch".
   */
  lemma UnrecognisedErrorKeepsMessage(o: FetchOutcome)
    requires o.NetworkTypeError? || o.OtherError?
    requires !(o.NetworkTypeError? && Contains(o.message, "fetch"))
    requires !Contains(o.message, "404")
    ensures FailureToast(o) == Toast("upload.error", o.message, true)
  {
  }

  /** Every non-ok 404 response ends as "Upload service not available", whatever its text and body. */
  lemma Http404Unavailable(statusText: string, body: string)
    ensures Classify(Raised(HttpError(404, statusText, body))).message == ServiceUnavailable
  {
    assert NatToString(404) == "404";
    var m := HttpErrorMessage(404, statusText, body);
    assert m == "Upload failed: " + "404" + (" " + statusText + " - " + body);
    ContainsInfix("Upload failed: ", "404", " " + statusText + " - " + body);
  }

  /** A browser's "Failed to fetch" TypeError ends as "Cannot connect". */
  lemma FailedToFetchCannotConnect()
    ensures Classify(Raised(NetworkTypeError("Failed to fetch"))).message == CannotConnect
  {
    assert "Failed to fetch" == "Failed to " + "fetch" + "";
    ContainsInfix("Failed to ", "fetch", "");
  }

  /**
   * The message of a non-ok response lacks "404" when its printed status,
   * status text and body each lack it: the separators around them hold no
   * digit, so no "404" can straddle two parts.
   */
  lemma HttpErrorMessageLacks404(status: nat, statusText: string, body: string)
    requires !Contains(NatToString(status), "404")
    requires !Contains(statusText, "404") && !Contains(body, "404")
    ensures !Contains(HttpErrorMessage(status, statusText, body), "404")
  {
    var lead := "Upload failed: " + NatToString(status);
    var withText := lead + " " + statusText;
    assert HttpErrorMessage(status, statusText, body) == withText + " - " + body;
    assert "" + "Upload failed: " + NatToString(status) == lead;
    ContainsNotAcrossSeparator("", "Upload failed: ", NatToString(status), "404");
    ContainsNotAcrossSeparator(lead, " ", statusText, "404");
    ContainsNotAcrossSeparator(withText, " - ", body, "404");
  }

  /** A non-ok response that does not mention "404" keeps its own message. */
  lemma HttpErrorKeepsMessage(status: nat, statusText: string, body: string)
    requires !Contains(NatToString(status), "404")
    requires !Contains(statusText, "404") && !Contains(body, "404")
    ensures Classify(Raised(HttpError(status, statusText, body))).message
            == HttpErrorMessage(status, statusText, body)
  {
    HttpErrorMessageLacks404(status, statusText, body);
  }

  /** A response whose printed status, status text or body mentions "404" ends as "Upload service not available". */
  lemma HttpErrorMentioning404Unavailable(status: nat, statusText: string, body: string)
    requires Contains(NatToString(status), "404") || Contains(statusText, "404") || Contains(body, "404")
    ensures Classify(Raised(HttpError(status, statusText, body))).message == ServiceUnavailable
  {
    var m := HttpErrorMessage(status, statusText, body);
    HttpErrorMessageEmbeds(status, statusText, body);
    if Contains(NatToString(status), "404") {
      ContainsTransitive(m, NatToString(status), "404");
    } else if Contains(statusText, "404") {
      ContainsTransitive(m, statusText, "404");
    } else {
      ContainsTransitive(m, body, "404");
    }
  }

  /** A three-digit status prints as a string that mentions "404" exactly when it is 404. */
  lemma StatusMentions404(status: nat)
    requires 100 <= status <= 999
    ensures Contains(NatToString(status), "404") <==> status == 404
  {
    var d := NatToString(status);
    assert d == NatToString(status / 10) + [DigitChar(status % 10)];
    assert NatToString(status / 10) == NatToString(status / 100) + [DigitChar((status / 10) % 10)];
    assert |d| == 3;
    ContainsIff(d, "404");
    if Contains(d, "404") {
      var i :| OccursAt(d, "404", i);
      assert i == 0 && d[..3] == d;
      NatToStringRoundTrip(status);
      assert DigitsValue("404") == 404 by {
        assert "404"[..2] == "40" && "40"[..1] == "4" && "4"[..0] == "";
      }
    }
    if status == 404 {
      assert d == "404";
      assert OccursAt(d, "404", 0);
    }
  }

  // ---------------------------------------------------------------------------
  // Notifications (the `toast` calls), returned as values

  /** A toast: the translation key of its title, its description and whether it is destructive. */
  datatype Toast = Toast(titleKey: string, description: string, destructive: bool)

  function SuccessToast(count: nat): (t: Toast)
    ensures !t.destructive && StartsWith(t.description, NatToString(count))
  {
    Toast("upload.success", NatToString(count) + " photos uploaded successfully to Google Drive!", false)
  }

  /** The outer `catch`: every error here is an `Error`, so its message is the description. */
  function FailureToast(o: FetchOutcome): (t: Toast)
    requires !o.Ok?
    ensures t.destructive
    ensures t.description == CannotConnect || t.description == ServiceUnavailable || t.description == Raised(o).message
  {
    Toast("upload.error", Classify(Raised(o)).message, true)
  }

  /** The toast titles are translated in both languages, so they never fall back to the key. */
  lemma ToastTitlesTranslated(l: LanguageContext.Language, count: nat, o: FetchOutcome)
    requires !o.Ok?
    ensures SuccessToast(count).titleKey in LanguageContext.Table(l)
    ensures FailureToast(o).titleKey in LanguageContext.Table(l)
    ensures LanguageContext.Translate(l, FailureToast(o).titleKey) != FailureToast(o).titleKey
  {
  }

  /** The success toast states the count in decimal, and the count reads back from it. */
  lemma SuccessToastCount(count: nat)
    ensures StartsWith(SuccessToast(count).description, NatToString(count))
    ensures DigitsValue(SuccessToast(count).description[..|NatToString(count)|]) == count
  {
    var d := SuccessToast(count).description;
    assert d[..|NatToString(count)|] == NatToString(count);
    NatToStringRoundTrip(count);
  }

  // ---------------------------------------------------------------------------
  // The component state and its event handlers

  class Component {
    var selectedFiles: seq<StagedFile>
    var isDragOver: bool
    var isUploading: bool

    /** The initial state: nothing staged, no highlight, not uploading. */
    constructor ()
      ensures selectedFiles == [] && !isDragOver && !isUploading
    {
      selectedFiles := [];
      isDragOver := false;
      isUploading := false;
    }

    /** `handleDragOver`: highlight the drop area. */
    method DragOver()
      modifies this
      ensures isDragOver
      ensures selectedFiles == old(selectedFiles) && isUploading == old(isUploading)
    {
      isDragOver := true;
    }

    /** `handleDragLeave`: remove the highlight. */
    method DragLeave()
      modifies this
      ensures !isDragOver
      ensures selectedFiles == old(selectedFiles) && isUploading == old(isUploading)
    {
      isDragOver := false;
    }

    /** `handleDrop`: stage the dropped images after the current list; silently skip the rest. */
    method Drop(dropped: seq<StagedFile>)
      modifies this
      ensures !isDragOver
      ensures selectedFiles == old(selectedFiles) + ImagesOnly(dropped)
      ensures |selectedFiles| == |old(selectedFiles)| + CountImages(dropped)
      ensures (forall i :: 0 <= i < |dropped| ==> !IsImage(dropped[i])) ==> selectedFiles == old(selectedFiles)
      ensures AllImages(old(selectedFiles)) ==> AllImages(selectedFiles)
      ensures isUploading == old(isUploading)
    {
      isDragOver := false;
      var files := ImagesOnly(dropped);
      ImagesOnlyLength(dropped);
      ImagesOnlyEmpty(dropped);
      if |files| > 0 {
        selectedFiles := selectedFiles + files;
      }
    }

    /** `handleFileSelect`: stage every picked file after the current list, with no type filter. */
    method Select(picked: seq<StagedFile>)
      modifies this
      ensures selectedFiles == old(selectedFiles) + picked
      ensures |selectedFiles| == |old(selectedFiles)| + |picked|
      ensures isDragOver == old(isDragOver) && isUploading == old(isUploading)
    {
      if |picked| > 0 {
        selectedFiles := selectedFiles + picked;
      }
    }

    /** `removeFile(index)`: unstage one position; an index outside the list changes nothing. */
    method RemoveFile(index: int)
      modifies this
      ensures selectedFiles == RemoveAt(old(selectedFiles), index)
      ensures 0 <= index < |old(selectedFiles)| ==>
                selectedFiles == old(selectedFiles)[..index] + old(selectedFiles)[index + 1..]
      ensures !(0 <= index < |old(selectedFiles)|) ==> selectedFiles == old(selectedFiles)
      ensures isDragOver == old(isDragOver) && isUploading == old(isUploading)
    {
      if 0 <= index < |selectedFiles| {
        RemoveAtInRange(selectedFiles, index);
      } else {
        RemoveAtOutOfRange(selectedFiles, index);
      }
      selectedFiles := RemoveAt(selectedFiles, index);
    }

    /**
     * `handleUpload` with the network outcome `outcome` and the clock reading
     * `timestamp`. Returns the request sent (None when nothing was staged) and
     * the toast shown (None likewise).
     */
    method Upload(timestamp: string, outcome: FetchOutcome) returns (sent: Option<seq<FormField>>, toast: Option<Toast>)
      modifies this
      ensures old(selectedFiles) == [] ==>
                sent == None && toast == None &&
                selectedFiles == old(selectedFiles) && isDragOver == old(isDragOver) && isUploading == old(isUploading)
      ensures old(selectedFiles) != [] ==> sent == Some(Request(old(selectedFiles), timestamp)) && !isUploading
      ensures old(selectedFiles) != [] && outcome.Ok? ==>
                selectedFiles == [] && !isDragOver && toast == Some(SuccessToast(|old(selectedFiles)|))
      ensures old(selectedFiles) != [] && !outcome.Ok? ==>
                selectedFiles == old(selectedFiles) && isDragOver == old(isDragOver) &&
                toast == Some(FailureToast(outcome))
    {
      if |selectedFiles| == 0 {
        return None, None;
      }
      isUploading := true;
      var fields := BuildRequest(selectedFiles, timestamp);
      sent := Some(fields);
      if outcome.Ok? {
        toast := Some(SuccessToast(|selectedFiles|));
        selectedFiles := [];
        isDragOver := false;
      } else {
        toast := Some(FailureToast(outcome));
      }
      isUploading := false;
    }
  }

  /** A guest's session: stage three photos and a text file, remove one, fail once, then succeed. */
  method GuestSession(a: StagedFile, b: StagedFile, c: StagedFile, notes: StagedFile,
                      timestamp: string, statusText: string, body: string)
    requires IsImage(a) && IsImage(b) && IsImage(c) && !IsImage(notes)
  {
    var ui := new Component();
    ui.DragOver();
    ui.Drop([a, notes, b, c]);
    assert ImagesOnly([c]) == [c];
    assert ImagesOnly([b, c]) == [b, c] by { assert [b, c][1..] == [c]; }
    assert ImagesOnly([notes, b, c]) == [b, c] by { assert [notes, b, c][1..] == [b, c]; }
    assert ImagesOnly([a, notes, b, c]) == [a, b, c] by { assert [a, notes, b, c][1..] == [notes, b, c]; }
    assert ui.selectedFiles == [a, b, c] && !ui.isDragOver;
    ui.RemoveFile(1);
    assert ui.selectedFiles == [a, c];
    ui.RemoveFile(-1);
    assert ui.selectedFiles == [a, c];
    var sent, toast := ui.Upload(timestamp, HttpError(404, statusText, body));
    assert ui.selectedFiles == [a, c] && !ui.isUploading;
    Http404Unavailable(statusText, body);
    assert toast.value.description == ServiceUnavailable;
    sent, toast := ui.Upload(timestamp, Ok);
    assert ui.selectedFiles == [] && !ui.isUploading;
    assert NatToString(2) == "2";
    assert toast == Some(SuccessToast(2));
    RequestCarriesFiles([a, c], timestamp);
    assert FileParts(sent.value) == [a, c];
    sent, toast := ui.Upload(timestamp, Ok);
    assert sent == None && toast == None;
  }

}

/** The upload form (brsr-frontend/src/components/FileUpload.js): the chosen
    file, the company and year inputs, the drag highlight and the error
    line, changed by the form's event handlers. `disabled` is the property
    the page passes in; the result of `onUpload` is a parameter of submit.
    Each handler has a step function on FormState that says what it does,
    and a method of Form that performs it field by field. */
module FileUpload {
  import opened Wrappers

  /** The size limit: 50 MiB. */
  const MaxFileSize: nat := 50 * 1024 * 1024

  const PdfType := "application/pdf"

  /** A chosen file: its name, MIME type and size in bytes. */
  datatype SelectedFile = SelectedFile(name: string, mimeType: string, size: nat)

  /** One call of `onUpload`. */
  datatype UploadCall = UploadCall(file: SelectedFile, companyName: string, reportingYear: string)

  /** The component's state, and the `onUpload` calls made so far. */
  datatype FormState = FormState(file: Option<SelectedFile>, companyName: string, reportingYear: string,
                                 dragActive: bool, error: string, uploads: seq<UploadCall>)

  /** The state of a freshly mounted form. */
  function InitialForm(): FormState {
    FormState(None, "", "", false, "", [])
  }

  /** The verdict of validateAndSetFile on a file: the error to show, or
      None when the file is accepted. The type is checked before the size. */
  function FileCheck(f: SelectedFile): (r: Option<string>)
    ensures r.None? <==> f.mimeType == "application/pdf" && f.size <= 52428800
    ensures f.mimeType != "application/pdf" ==> r == Some("Please select a PDF file")
    ensures f.mimeType == "application/pdf" && f.size > 52428800 ==> r == Some("File size must be less than 50MB")
  {
    if f.mimeType != PdfType then Some("Please select a PDF file")
    else if f.size > MaxFileSize then Some("File size must be less than 50MB")
    else None
  }

  /** validateAndSetFile: a rejected file only sets the error; an accepted
      one becomes the chosen file and clears the error. */
  function ValidateAndSet(s: FormState, f: SelectedFile): (r: FormState)
    ensures FileCheck(f).Some? ==> r == s.(error := FileCheck(f).value)
    ensures FileCheck(f).None? ==> r == s.(file := Some(f), error := "")
  {
    var verdict := FileCheck(f);
    if verdict.Some? then s.(error := verdict.value) else s.(error := "", file := Some(f))
  }

  /** handleDrag for an event of the given type. */
  function Drag(s: FormState, eventType: string, disabled: bool): (r: FormState)
    ensures r == s.(dragActive := r.dragActive)
    ensures disabled ==> r == s
    ensures !disabled && (eventType == "dragenter" || eventType == "dragover") ==> r.dragActive
    ensures !disabled && eventType == "dragleave" ==> !r.dragActive
    ensures eventType !in {"dragenter", "dragover", "dragleave"} ==> r == s
  {
    if disabled then s
    else if eventType == "dragenter" || eventType == "dragover" then s.(dragActive := true)
    else if eventType == "dragleave" then s.(dragActive := false)
    else s
  }

  /** handleDrop with the dropped files: the highlight goes off even when
      the form is disabled; then the first file, if any, is validated. */
  function Drop(s: FormState, files: seq<SelectedFile>, disabled: bool): (r: FormState)
    ensures !r.dragActive
    ensures disabled || files == [] ==> r == s.(dragActive := false)
    ensures !disabled && files != [] ==> r == ValidateAndSet(s.(dragActive := false), files[0])
  {
    var off := s.(dragActive := false);
    if disabled then off
    else if files != [] then ValidateAndSet(off, files[0])
    else off
  }

  /** handleFileInput with the chosen files. */
  function FileInput(s: FormState, files: seq<SelectedFile>, disabled: bool): (r: FormState)
    ensures disabled || files == [] ==> r == s
    ensures !disabled && files != [] ==> r == ValidateAndSet(s, files[0])
  {
    if disabled then s
    else if files != [] then ValidateAndSet(s, files[0])
    else s
  }

  /** All three fields are filled in (JavaScript truthiness of the file and
      the two strings). */
  predicate Complete(s: FormState) {
    s.file.Some? && s.companyName != "" && s.reportingYear != ""
  }

  /** The submit button is enabled: the fields are filled in and no upload
      is running and the form is not disabled. */
  predicate SubmitEnabled(s: FormState, isLoading: bool, disabled: bool) {
    Complete(s) && !isLoading && !disabled
  }

  /** The message shown for a rejected upload: the error's message, or
      "Upload failed" when it has none. */
  function FailureMessage(message: string): (m: string)
    ensures m != ""
    ensures message != "" ==> m == message
  {
    if message != "" then message else "Upload failed"
  }

  /** handleSubmit. `thrown` is None when onUpload resolves and the thrown
      error's message otherwise ("" for an error without one). Disabled: no
      change. Incomplete: only the error is set and onUpload is not called.
      Otherwise onUpload is called once; on success the inputs and error
      are reset, on failure they are kept and the error shows the message. */
  function Submit(s: FormState, disabled: bool, thrown: Option<string>): (r: FormState)
    ensures disabled ==> r == s
    ensures !disabled && !Complete(s) ==> r == s.(error := "Please fill in all fields")
    ensures r.uploads == if !disabled && Complete(s)
                         then s.uploads + [UploadCall(s.file.value, s.companyName, s.reportingYear)]
                         else s.uploads
    ensures !disabled && Complete(s) && thrown.None? ==>
      r.file.None? && r.companyName == "" && r.reportingYear == "" && r.error == "" && r.dragActive == s.dragActive
    ensures !disabled && Complete(s) && thrown.Some? ==>
      r == s.(error := FailureMessage(thrown.value), uploads := r.uploads)
  {
    if disabled then s
    else if !Complete(s) then s.(error := "Please fill in all fields")
    else
      var called := s.(uploads := s.uploads + [UploadCall(s.file.value, s.companyName, s.reportingYear)]);
      if thrown.None? then called.(file := None, companyName := "", reportingYear := "", error := "")
      else called.(error := FailureMessage(thrown.value))
  }

  /** A click on the enabled submit button always reaches onUpload, once,
      and never shows "Please fill in all fields": the error afterwards is
      empty on success and the failure message otherwise. */
  lemma EnabledSubmitUploads(s: FormState, isLoading: bool, disabled: bool, thrown: Option<string>)
    requires SubmitEnabled(s, isLoading, disabled)
    ensures var r := Submit(s, disabled, thrown);
      && r.uploads == s.uploads + [UploadCall(s.file.value, s.companyName, s.reportingYear)]
      && r.error == if thrown.None? then "" else FailureMessage(thrown.value)
  {
  }

  /** removeFile: clears the file and the error, nothing else. */
  function RemoveFile(s: FormState, disabled: bool): (r: FormState)
    ensures disabled ==> r == s
    ensures !disabled ==> r.file.None? && r.error == "" && r == s.(file := None, error := "")
  {
    if disabled then s else s.(file := None, error := "")
  }

  /** The upload form. */
  class Form {
    var file: Option<SelectedFile>
    var companyName: string
    var reportingYear: string
    var dragActive: bool
    var error: string
    /** The onUpload calls made so far. */
    ghost var uploads: seq<UploadCall>

    ghost function State(): FormState
      reads this
    {
      FormState(file, companyName, reportingYear, dragActive, error, uploads)
    }

    constructor()
      ensures State() == InitialForm()
    {
      file, companyName, reportingYear, dragActive, error := None, "", "", false, "";
      uploads := [];
    }

    method HandleDrag(eventType: string, disabled: bool)
      modifies this
      ensures State() == Drag(old(State()), eventType, disabled)
    {
      if disabled {
        return;
      }
      if eventType == "dragenter" || eventType == "dragover" {
        dragActive := true;
      } else if eventType == "dragleave" {
        dragActive := false;
      }
    }

    method ValidateAndSetFile(f: SelectedFile)
      modifies this
      ensures State() == ValidateAndSet(old(State()), f)
    {
      if f.mimeType != PdfType {
        error := "Please select a PDF file";
        return;
      }
      if f.size > MaxFileSize {
        error := "File size must be less than 50MB";
        return;
      }
      error := "";
      file := Some(f);
    }

    method HandleDrop(files: seq<SelectedFile>, disabled: bool)
      modifies this
      ensures State() == Drop(old(State()), files, disabled)
    {
      dragActive := false;
      if disabled {
        return;
      }
      if files != [] {
        ValidateAndSetFile(files[0]);
      }
    }

    method HandleFileInput(files: seq<SelectedFile>, disabled: bool)
      modifies this
      ensures State() == FileInput(old(State()), files, disabled)
    {
      if disabled {
        return;
      }
      if files != [] {
        ValidateAndSetFile(files[0]);
      }
    }

    method HandleSubmit(disabled: bool, thrown: Option<string>)
      modifies this
      ensures State() == Submit(old(State()), disabled, thrown)
    {
      if disabled {
        return;
      }
      if file.None? || companyName == "" || reportingYear == "" {
        error := "Please fill in all fields";
        return;
      }
      uploads := uploads + [UploadCall(file.value, companyName, reportingYear)];
      if thrown.None? {
        file := None;
        companyName := "";
        reportingYear := "";
        error := "";
      } else {
        error := if thrown.value != "" then thrown.value else "Upload failed";
      }
    }

    method HandleRemoveFile(disabled: bool)
      modifies this
      ensures State() == RemoveFile(old(State()), disabled)
    {
      if disabled {
        return;
      }
      file := None;
      error := "";
    }

    /** The company input's onChange. */
    method SetCompanyName(value: string)
      modifies this
      ensures State() == old(State()).(companyName := value)
    {
      companyName := value;
    }

    /** The year input's onChange. */
    method SetReportingYear(value: string)
      modifies this
      ensures State() == old(State()).(reportingYear := value)
    {
      reportingYear := value;
    }
  }
}

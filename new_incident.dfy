/** The incident report page, src/pages/NewIncident.tsx: the form schema,
    the attachment and its preview, the storage path of an upload, and the
    guards and steps of a submission. Remote calls (the upload, the insert)
    and the clock/random part of the stored file name are parameters. */
module NewIncident {
  import opened Common
  import opened Text

  datatype Severity = Low | Medium | High

  function SeverityName(s: Severity): string
  {
    match s
    case Low => "low"
    case Medium => "medium"
    case High => "high"
  }

  /** The `z.enum` check: the three names and nothing else. */
  function ParseSeverity(s: string): (r: Option<Severity>)
    ensures r.Some? ==> SeverityName(r.value) == s
    ensures r.None? ==> s !in {"low", "medium", "high"}
  {
    if s == "low" then Some(Low)
    else if s == "medium" then Some(Medium)
    else if s == "high" then Some(High)
    else None
  }

  /** One failed rule of the schema. */
  datatype Issue = TitleRequired | TitleTooLong | SeverityRequired | SeverityInvalid | DescriptionTooShort

  /** The messages the schema declares; an unknown severity gets the schema
      library's own text, which is not part of this model. */
  function IssueMessage(i: Issue): Option<string>
  {
    match i
    case TitleRequired => Some("Title is required")
    case TitleTooLong => Some("Title too long")
    case SeverityRequired => Some("Please select a severity level")
    case SeverityInvalid => None
    case DescriptionTooShort => Some("Description must be at least 10 characters")
  }

  /** The raw form: the severity select starts out unset. */
  datatype IncidentInput = IncidentInput(title: string, severity: Option<string>, description: string)

  datatype IncidentData = IncidentData(title: string, severity: Severity, description: string)

  function TitleIssues(title: string): seq<Issue>
  {
    if Utf16Length(title) < 1 then [TitleRequired]
    else if Utf16Length(title) > 255 then [TitleTooLong]
    else []
  }

  function SeverityIssues(severity: Option<string>): seq<Issue>
  {
    if severity.None? then [SeverityRequired]
    else if ParseSeverity(severity.value).None? then [SeverityInvalid]
    else []
  }

  function DescriptionIssues(description: string): seq<Issue>
  {
    if Utf16Length(description) < 10 then [DescriptionTooShort] else []
  }

  /** `incidentSchema`: every field is checked and every failure reported;
      only a form with no failure yields the typed data. */
  function ValidateIncident(input: IncidentInput): (r: Result<IncidentData, seq<Issue>>)
    ensures r.Ok? <==> 1 <= Utf16Length(input.title) <= 255
                       && input.severity.Some? && input.severity.value in {"low", "medium", "high"}
                       && Utf16Length(input.description) >= 10
    ensures r.Ok? ==> r.value.title == input.title && r.value.description == input.description
                      && Some(SeverityName(r.value.severity)) == input.severity
    ensures r.Err? ==> r.error != []
    ensures r.Err? ==> (TitleRequired in r.error <==> Utf16Length(input.title) == 0)
                       && (TitleTooLong in r.error <==> Utf16Length(input.title) > 255)
                       && (SeverityRequired in r.error <==> input.severity.None?)
                       && (SeverityInvalid in r.error <==> input.severity.Some?
                                                           && input.severity.value !in {"low", "medium", "high"})
                       && (DescriptionTooShort in r.error <==> Utf16Length(input.description) < 10)
  {
    var issues := TitleIssues(input.title) + SeverityIssues(input.severity) + DescriptionIssues(input.description);
    if issues == [] then
      var sev := ParseSeverity(input.severity.value);
      Ok(IncidentData(input.title, sev.value, input.description))
    else Err(issues)
  }

  // ------------------------------------------------------------ attachments

  predicate IsImage(f: FileInfo)
  {
    IsPrefix("image/", f.mimeType)
  }

  /** The storage path of an uploaded attachment; `stamp` stands for the
      time-and-random part of the name. */
  function UploadPath(stamp: string, fileName: string): (p: string)
    ensures IsPrefix("incidents/", p)
  {
    "incidents/" + stamp + "." + Extension(fileName)
  }

  /** The stored file keeps the original's extension: the text after the
      last dot, or the whole name when there is none. */
  lemma UploadPathKeepsExtension(stamp: string, fileName: string)
    ensures Extension(UploadPath(stamp, fileName)) == Extension(fileName)
    ensures '.' !in fileName ==> Extension(UploadPath(stamp, fileName)) == fileName
  {
    ExtensionOfDotted("incidents/" + stamp, Extension(fileName));
  }

  /** The row inserted for a report; the incident date comes from the clock
      and is not modelled. */
  datatype IncidentRow = IncidentRow(title: string, severity: Severity, description: string,
                                     attachmentUrl: Option<string>, reportedBy: string)

  const NotLoggedInMessage := "You must be logged in to submit an incident report"
  const SubmittedMessage := "Incident report submitted successfully"
  const FailedMessage := "Failed to submit incident report. Please try again."
  const AfterSubmitPath := "/incidents/mine"

  class IncidentForm {
    var selectedFile: Option<FileInfo>
    var filePreview: Option<string>
    var isSubmitting: bool

    constructor()
      ensures selectedFile == None && filePreview == None && !isSubmitting
    {
      selectedFile := None;
      filePreview := None;
      isSubmitting := false;
    }

    /** Choosing a file selects it; an image gets its data URL (`dataUrl`,
        what the file reader produces) as preview, any other file clears the
        preview. Choosing nothing changes nothing. */
    method HandleFileChange(file: Option<FileInfo>, dataUrl: string)
      modifies this
      ensures file.None? ==> selectedFile == old(selectedFile) && filePreview == old(filePreview)
      ensures file.Some? ==> selectedFile == file
      ensures file.Some? ==> filePreview == (if IsImage(file.value) then Some(dataUrl) else None)
      ensures isSubmitting == old(isSubmitting)
    {
      if file.Some? {
        selectedFile := file;
        if IsPrefix("image/", file.value.mimeType) {
          filePreview := Some(dataUrl);
        } else {
          filePreview := None;
        }
      }
    }

    method RemoveFile()
      modifies this
      ensures selectedFile == None && filePreview == None && isSubmitting == old(isSubmitting)
    {
      selectedFile := None;
      filePreview := None;
    }

    /** `onSubmit` with the validated data. `userId` is the signed-in user
        (`None` without one), `hasProfile` whether a profile is loaded;
        `uploadOk` and `insertOk` are the outcomes of the two remote calls.
        Returns the upload path tried, the row inserted, the toast and the
        navigation target. */
    method OnSubmit(data: IncidentData, userId: Option<string>, hasProfile: bool, stamp: string,
                    uploadOk: bool, insertOk: bool)
      returns (uploaded: Option<string>, inserted: Option<IncidentRow>, toast: string,
               navigateTo: Option<string>)
      modifies this
      ensures userId.None? || !hasProfile ==>
                uploaded == None && inserted == None && toast == NotLoggedInMessage
                && navigateTo == None && isSubmitting == old(isSubmitting)
      ensures userId.Some? && hasProfile ==>
                !isSubmitting
                && uploaded == (if old(selectedFile).Some? then Some(UploadPath(stamp, old(selectedFile).value.name)) else None)
      ensures userId.Some? && hasProfile && (old(selectedFile).None? || uploadOk) ==>
                inserted == Some(IncidentRow(data.title, data.severity, data.description, uploaded, userId.value))
      ensures userId.Some? && hasProfile && old(selectedFile).Some? && !uploadOk ==> inserted == None
      ensures navigateTo.Some? <==> inserted.Some? && insertOk
      ensures navigateTo.Some? ==> navigateTo == Some(AfterSubmitPath) && toast == SubmittedMessage
      ensures userId.Some? && hasProfile && navigateTo.None? ==> toast == FailedMessage
      ensures selectedFile == old(selectedFile) && filePreview == old(filePreview)
    {
      if userId.None? || !hasProfile {
        return None, None, NotLoggedInMessage, None;
      }
      isSubmitting := true;
      uploaded, inserted, navigateTo := None, None, None;
      var attachmentUrl: Option<string> := None;
      var failed := false;
      if selectedFile.Some? {
        uploaded := Some(UploadPath(stamp, selectedFile.value.name));
        if uploadOk {
          attachmentUrl := uploaded;
        } else {
          failed := true;
        }
      }
      if !failed {
        inserted := Some(IncidentRow(data.title, data.severity, data.description, attachmentUrl, userId.value));
        failed := !insertOk;
      }
      if failed {
        toast := FailedMessage;
      } else {
        toast := SubmittedMessage;
        navigateTo := Some(AfterSubmitPath);
      }
      isSubmitting := false;
    }
  }

  /** Submitting the form runs the schema first: `onSubmit` sees only data
      the schema accepted, and a form it rejects inserts nothing. */
  method Submit(form: IncidentForm, input: IncidentInput, userId: Option<string>, hasProfile: bool,
                stamp: string, uploadOk: bool, insertOk: bool)
    returns (issues: seq<Issue>, inserted: Option<IncidentRow>)
    modifies form
    ensures ValidateIncident(input).Err? ==> issues == ValidateIncident(input).error && inserted == None
    ensures inserted.Some? ==> ValidateIncident(input).Ok? && issues == []
                               && 1 <= Utf16Length(inserted.value.title) <= 255
                               && Utf16Length(inserted.value.description) >= 10
                               && userId.Some? && inserted.value.reportedBy == userId.value
  {
    var r := ValidateIncident(input);
    if r.Err? {
      return r.error, None;
    }
    issues := [];
    var uploaded, toast, navigateTo;
    uploaded, inserted, toast, navigateTo := form.OnSubmit(r.value, userId, hasProfile, stamp, uploadOk, insertOk);
  }
}

/** The training-video upload dialog, src/components/VideoUploadModal.tsx:
    the file-type check, the submission guard and steps, and the form reset.
    The remote upload and insert are outcome parameters; `parseInt` and the
    storage's public-URL lookup are function parameters, and `stamp` stands
    for the time-and-random part of the stored file name. */
module VideoUpload {
  import opened Common
  import opened Text

  datatype VideoForm = VideoForm(title: string, description: string, duration: string,
                                 requiredForTaskType: string, file: Option<FileInfo>)

  const EmptyVideoForm := VideoForm("", "", "", "", None)

  predicate IsVideo(f: FileInfo)
  {
    IsPrefix("video/", f.mimeType)
  }

  /** The storage path of an uploaded video. */
  function TrainingPath(stamp: string, fileName: string): (p: string)
    ensures IsPrefix("training/", p)
  {
    "training/" + stamp + "." + Extension(fileName)
  }

  /** The stored video keeps the original's extension. */
  lemma TrainingPathKeepsExtension(stamp: string, fileName: string)
    ensures Extension(TrainingPath(stamp, fileName)) == Extension(fileName)
  {
    ExtensionOfDotted("training/" + stamp, Extension(fileName));
  }

  /** The `training` row; `duration` is `parseInt` of the text, `None` where
      that is NaN. */
  datatype TrainingRow = TrainingRow(title: string, description: string, url: string,
                                     duration: Option<int>, requiredForTaskType: string)

  datatype Toast = Toast(title: string, description: string, destructive: bool)

  const InvalidTypeToast := Toast("Invalid file type", "Please select a video file.", true)
  const NoFileToast := Toast("No file selected", "Please select a video file to upload.", true)
  const UploadedToast := Toast("Video uploaded successfully", "The training video has been added to the system.", false)
  const FailedToast := Toast("Upload failed", "Failed to upload the training video. Please try again.", true)

  class VideoUploadModal {
    var form: VideoForm
    var isUploading: bool

    constructor()
      ensures form == EmptyVideoForm && !isUploading
    {
      form := EmptyVideoForm;
      isUploading := false;
    }

    /** A non-video file is refused with a toast and the form kept; a video
        replaces only the form's file. */
    method HandleFileChange(file: Option<FileInfo>) returns (toast: Option<Toast>)
      modifies this
      ensures file.Some? && !IsVideo(file.value) ==> toast == Some(InvalidTypeToast) && form == old(form)
      ensures file.Some? && IsVideo(file.value) ==> toast == None && form == old(form).(file := file)
      ensures file.None? ==> toast == None && form == old(form)
      ensures isUploading == old(isUploading)
    {
      toast := None;
      if file.Some? {
        if !IsPrefix("video/", file.value.mimeType) {
          toast := Some(InvalidTypeToast);
          return;
        }
        form := form.(file := file);
      }
    }

    /** Submitting: without a file nothing is uploaded; otherwise the upload,
        then the insert, and on success the dialog closes and the form
        resets. `closed` tells whether `onSuccess` and `onClose` were called. */
    method HandleSubmit(stamp: string, uploadOk: bool, insertOk: bool,
                        parseInt: string -> Option<int>, publicUrl: string -> string)
      returns (uploaded: Option<string>, inserted: Option<TrainingRow>, toast: Toast, closed: bool)
      modifies this
      ensures old(form).file.None? ==>
                toast == NoFileToast && uploaded == None && inserted == None && !closed
                && form == old(form) && isUploading == old(isUploading)
      ensures old(form).file.Some? ==>
                !isUploading && uploaded == Some(TrainingPath(stamp, old(form).file.value.name))
      ensures old(form).file.Some? && uploadOk ==>
                inserted == Some(TrainingRow(old(form).title, old(form).description,
                                             publicUrl(uploaded.value), parseInt(old(form).duration),
                                             old(form).requiredForTaskType))
      ensures !uploadOk ==> inserted == None
      ensures closed <==> inserted.Some? && insertOk
      ensures closed ==> toast == UploadedToast && form == EmptyVideoForm
      ensures old(form).file.Some? && !closed ==> toast == FailedToast && form == old(form)
    {
      if form.file.None? {
        return None, None, NoFileToast, false;
      }
      isUploading := true;
      var filePath := TrainingPath(stamp, form.file.value.name);
      uploaded, inserted, closed := Some(filePath), None, false;
      if !uploadOk {
        toast := FailedToast;
      } else {
        var row := TrainingRow(form.title, form.description, publicUrl(filePath),
                               parseInt(form.duration), form.requiredForTaskType);
        inserted := Some(row);
        if !insertOk {
          toast := FailedToast;
        } else {
          toast := UploadedToast;
          closed := true;
          form := EmptyVideoForm;
        }
      }
      isUploading := false;
    }
  }
}

/**
 * The upload controller of `src/components/MediaUploader.tsx`: a file is
 * selected, previewed, uploaded (success or failure) or cleared, over the
 * five state fields of the component.
 */
module Uploader {
  import opened Wrappers
  import opened Text
  import opened Storage

  datatype Kind = Image | Video

  /** `file.type.startsWith('image/') ? 'image' : 'video'` */
  function KindOf(mimeType: string): (k: Kind)
    ensures k == Image <==> StartsWith(mimeType, "image/")
  {
    if StartsWith(mimeType, "image/") then Image else Video
  }

  /** The message shown for a failed upload. */
  function UploadErrorText(err: Thrown): (msg: string)
    ensures err.ErrorObject? ==> msg == err.message
    ensures err.OtherValue? ==> msg == "Upload failed"
  {
    err.MessageOr("Upload failed")
  }

  /** One call of `onUploadComplete(publicUrl, path)`. */
  datatype Notification = Notification(publicUrl: string, path: string)

  class UploadController {
    /** The destination folder: the current `folder` prop, `general` by default. */
    var folder: string
    var selectedFile: Option<LocalFile>
    var fileType: Option<Kind>
    var preview: Option<string>
    var error: Option<string>
    var uploading: bool

    /** The declared kind always belongs to the selected file. */
    ghost predicate Valid()
      reads this
    {
      && (selectedFile.None? ==> fileType.None?)
      && (selectedFile.Some? ==> fileType == Some(KindOf(selectedFile.value.mimeType)))
    }

    constructor (folder: string := DefaultUploadFolder)
      ensures Valid() && this.folder == folder
      ensures selectedFile.None? && fileType.None? && preview.None? && error.None? && !uploading
    {
      this.folder := folder;
      selectedFile, fileType, preview, error, uploading := None, None, None, None, false;
    }

    /** The preview and its two buttons are shown once a preview exists. */
    predicate ShowsPreview()
      reads this
    {
      preview.Some?
    }

    /** The upload button: shown with the preview, disabled while uploading. */
    predicate UploadEnabled()
      reads this
    {
      ShowsPreview() && !uploading
    }

    /** The clear button: shown with the preview, disabled while uploading. */
    predicate ClearEnabled()
      reads this
    {
      ShowsPreview() && !uploading
    }

    /**
     * `handleFileSelect`: no file changes nothing; a file replaces the draft,
     * clears the error and declares its kind. The preview arrives later,
     * through `PreviewLoaded`.
     */
    method HandleFileSelect(file: Option<LocalFile>)
      requires Valid()
      modifies this
      ensures Valid()
      ensures file.None? ==>
        && selectedFile == old(selectedFile) && fileType == old(fileType)
        && error == old(error)
      ensures file.Some? ==>
        && selectedFile == file && fileType == Some(KindOf(file.value.mimeType))
        && error.None?
      ensures preview == old(preview) && uploading == old(uploading) && folder == old(folder)
    {
      if file.None? {
        return;
      }
      error := None;
      selectedFile := file;
      fileType := Some(KindOf(file.value.mimeType));
    }

    /** The file reader's `onloadend`: the data URL becomes the preview. */
    method PreviewLoaded(dataUrl: string)
      requires Valid()
      modifies this`preview
      ensures Valid() && preview == Some(dataUrl)
    {
      preview := Some(dataUrl);
    }

    /** The start of an upload: the flag is raised and the error cleared. */
    method BeginUpload()
      requires Valid() && selectedFile.Some?
      modifies this`uploading, this`error
      ensures Valid() && uploading && error.None?
      ensures !UploadEnabled() && !ClearEnabled()
    {
      uploading := true;
      error := None;
    }

    /**
     * The end of an upload. Success drops the draft and its preview and
     * reports the upload; failure keeps the draft and shows a message.
     * Either way the flag is lowered.
     */
    method FinishUpload(outcome: Result<Uploaded, Thrown>) returns (notified: Option<Notification>)
      requires Valid()
      modifies this
      ensures Valid() && !uploading && folder == old(folder)
      ensures outcome.Success? ==>
        && notified == Some(Notification(outcome.value.publicUrl, outcome.value.path))
        && preview.None? && fileType.None? && selectedFile.None? && error == old(error)
      ensures outcome.Failure? ==>
        && notified.None? && error == Some(UploadErrorText(outcome.error))
        && preview == old(preview) && fileType == old(fileType)
        && selectedFile == old(selectedFile)
    {
      match outcome {
        case Success(result) =>
          notified := Some(Notification(result.publicUrl, result.path));
          preview, fileType, selectedFile := None, None, None;
        case Failure(err) =>
          notified := None;
          error := Some(UploadErrorText(err));
      }
      uploading := false;
    }

    /**
     * `handleUpload`: without a selected file nothing happens; otherwise one
     * call of `uploadMedia` with the selected file and the folder, with
     * `now` standing for `Date.now()` and `token` for the random suffix.
     */
    method HandleUpload(client: Client, now: nat, token: string, store: string -> UploadResponse)
      returns (notified: Option<Notification>)
      requires Valid()
      modifies this
      ensures Valid() && folder == old(folder)
      ensures old(selectedFile).None? ==>
        && notified.None? && selectedFile == old(selectedFile) && fileType == old(fileType)
        && preview == old(preview) && error == old(error) && uploading == old(uploading)
      ensures old(selectedFile).Some? ==>
        var outcome := UploadMedia(client, old(selectedFile).value, folder, now, token, store);
        && !uploading
        && (outcome.Success? ==>
              && notified == Some(Notification(outcome.value.publicUrl, outcome.value.path))
              && preview.None? && fileType.None? && selectedFile.None? && error.None?)
        && (outcome.Failure? ==>
              && notified.None? && error == Some(UploadErrorText(outcome.error))
              && preview == old(preview) && fileType == old(fileType)
              && selectedFile == old(selectedFile))
    {
      if selectedFile.None? {
        return None;
      }
      BeginUpload();
      var outcome := UploadMedia(client, selectedFile.value, folder, now, token, store);
      notified := FinishUpload(outcome);
    }

    /** `clearPreview`: the draft, its preview and the error are dropped. */
    method ClearPreview()
      requires Valid()
      modifies this
      ensures Valid()
      ensures preview.None? && fileType.None? && error.None? && selectedFile.None?
      ensures uploading == old(uploading) && folder == old(folder)
    {
      preview, fileType, error, selectedFile := None, None, None, None;
    }

    /**
     * The parent passes a new `folder` prop (the media page's folder
     * selector). The draft, its preview and the error are kept, so the next
     * upload goes to the new folder.
     */
    method FolderChanged(newFolder: string)
      requires Valid()
      modifies this`folder
      ensures Valid() && folder == newFolder
      ensures selectedFile == old(selectedFile) && fileType == old(fileType)
      ensures preview == old(preview) && error == old(error) && uploading == old(uploading)
    {
      folder := newFolder;
    }
  }

  /**
   * A failed upload keeps the draft, so it can be retried; after the parent
   * switches the folder, the retry stores the file under the new folder and
   * reports that key. Clearing then empties the controller.
   */
  method RetryAfterFailure(file: LocalFile, err: Thrown, base: string)
  {
    var c := new UploadController();
    c.HandleFileSelect(Some(file));
    c.PreviewLoaded("data:");
    var n := c.HandleUpload(Configured(base), 1, "a", k => UploadFailed(err));
    assert n.None? && c.selectedFile == Some(file) && c.preview == Some("data:");
    assert c.error == Some(UploadErrorText(err)) && c.UploadEnabled();
    c.FolderChanged("logos");
    var key := UploadKey("logos", file.name, 2, "b");
    n := c.HandleUpload(Configured(base), 2, "b", k => Stored(k));
    assert n == Some(Notification(PublicUrl(base, key), key));
    assert c.selectedFile.None? && c.preview.None? && !c.ShowsPreview();
    c.ClearPreview();
    assert c.selectedFile.None? && c.error.None? && !c.uploading;
  }
}

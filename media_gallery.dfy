/**
 * The `useMediaGallery` hook of `src/hooks/useMediaGallery.ts`: the listing
 * of one folder with its loading flag and last error.
 */
module Gallery {
  import opened Wrappers
  import opened Storage

  /** The folder listed when the caller names none. */
  const DefaultFolder: string := "logos"

  /** The error stored for a failed load: the thrown `Error`, or a new one. */
  function LoadError(err: Thrown): (e: Thrown)
    ensures e.ErrorObject?
    ensures err.ErrorObject? ==> e == err
    ensures err.OtherValue? ==> e.message == "Failed to load media"
  {
    if err.ErrorObject? then err else ErrorObject("Failed to load media")
  }

  class MediaGallery {
    var folder: string
    var media: seq<MediaFile>
    var loading: bool
    var error: Option<Thrown>

    /** A stored error is always an `Error` object. */
    ghost predicate Valid()
      reads this
    {
      error.Some? ==> error.value.ErrorObject?
    }

    /** The first render: nothing listed yet, loading, no error. */
    constructor (folder: string := DefaultFolder)
      ensures Valid() && this.folder == folder
      ensures media == [] && loading && error.None?
    {
      this.folder := folder;
      media, loading, error := [], true, None;
    }

    /**
     * The effect's `loadMedia`: a listing replaces the list wholesale and
     * leaves an earlier error in place; a thrown error is stored and leaves
     * the list as it was. The flag is lowered either way.
     */
    method Load(client: Client, list: string -> ListResponse)
      requires Valid()
      modifies this`media, this`loading, this`error
      ensures Valid() && !loading
      ensures var outcome := ListMedia(client, folder, list);
        && (outcome.Success? ==> media == outcome.value && error == old(error))
        && (outcome.Failure? ==> media == old(media) && error == Some(LoadError(outcome.error)))
    {
      loading := true;
      var outcome := ListMedia(client, folder, list);
      match outcome {
        case Success(files) =>
          media := files;
        case Failure(err) =>
          error := Some(LoadError(err));
      }
      loading := false;
    }

    /**
     * A new `folder` argument. The effect depends on the folder, so it loads
     * again only when the folder changes; the list and the error are not reset.
     */
    method SetFolder(newFolder: string, client: Client, list: string -> ListResponse)
      requires Valid()
      modifies this
      ensures Valid() && folder == newFolder
      ensures newFolder == old(folder) ==>
        media == old(media) && loading == old(loading) && error == old(error)
      ensures newFolder != old(folder) ==>
        var outcome := ListMedia(client, newFolder, list);
        && !loading
        && (outcome.Success? ==> media == outcome.value && error == old(error))
        && (outcome.Failure? ==> media == old(media) && error == Some(LoadError(outcome.error)))
    {
      if newFolder == folder {
        return;
      }
      folder := newFolder;
      Load(client, list);
    }
  }
}

/**
 * The media manager page of `src/pages/MediaAdmin.tsx`: loading the
 * selected folder, deleting a file, classifying files as videos and
 * choosing what the gallery panel shows.
 */
module Admin {
  import opened Wrappers
  import opened Text
  import opened Seqs
  import opened Storage
  import LatestVideo

  /** The folder ids offered by the page, in display order. */
  const Folders: seq<string> := ["screenshots", "logos", "videos", "general"]

  const InitialFolder: string := "screenshots"

  lemma InitialFolderOffered()
    ensures InitialFolder in Folders && Folders[0] == InitialFolder
  {
  }

  /** `s` ends with `suffix`, letters compared without regard to ASCII case. */
  predicate EndsWithIgnoringCase(s: string, suffix: string) {
    && |suffix| <= |s|
    && forall k :: 0 <= k < |suffix| ==>
         LowerChar(s[|s| - |suffix| + k]) == LowerChar(suffix[k])
  }

  /** `/\.(mp4|webm|mov|avi)$/i.test(name)` */
  predicate IsVideo(name: string) {
    || EndsWithIgnoringCase(name, ".mp4") || EndsWithIgnoringCase(name, ".webm")
    || EndsWithIgnoringCase(name, ".mov") || EndsWithIgnoringCase(name, ".avi")
  }

  /** For an already lower-case suffix the two ways of matching agree. */
  lemma LowerSuffix(s: string, suffix: string)
    requires forall k :: 0 <= k < |suffix| ==> LowerChar(suffix[k]) == suffix[k]
    ensures EndsWith(Lower(s), suffix) <==> EndsWithIgnoringCase(s, suffix)
  {
    var l := Lower(s);
    if EndsWith(l, suffix) {
      forall k | 0 <= k < |suffix|
        ensures LowerChar(s[|s| - |suffix| + k]) == LowerChar(suffix[k])
      {
        assert l[|l| - |suffix|..][k] == suffix[k];
      }
    }
    if EndsWithIgnoringCase(s, suffix) {
      assert l[|l| - |suffix|..] == suffix;
    }
  }

  /**
   * The page's regular expression and the storage layer's extension list
   * classify every name the same way.
   */
  lemma IsVideoAgrees(name: string)
    ensures IsVideo(name) <==> LatestVideo.HasVideoExtension(name)
  {
    var exts := LatestVideo.VideoExtensions;
    LowerSuffix(name, ".mp4");
    LowerSuffix(name, ".webm");
    LowerSuffix(name, ".mov");
    LowerSuffix(name, ".avi");
    assert exts[0] == ".mp4" && exts[1] == ".webm" && exts[2] == ".mov" && exts[3] == ".avi";
    if IsVideo(name) {
      assert exists k :: 0 <= k < |exts| && EndsWith(Lower(name), exts[k]);
    }
  }

  /** `media.filter(m => m.fullPath !== path)` */
  function WithoutPath(media: seq<MediaFile>, path: string): seq<MediaFile> {
    Filter((m: MediaFile) => m.fullPath != path, media)
  }

  /**
   * Deleting `path` from the list removes every entry with that key and
   * keeps every other entry, as often as it occurred.
   */
  lemma WithoutPathSpec(media: seq<MediaFile>, path: string, m: MediaFile)
    ensures multiset(WithoutPath(media, path))[m]
         == if m.fullPath == path then 0 else multiset(media)[m]
  {
    FilterCount((m: MediaFile) => m.fullPath != path, media, m);
  }

  /** Removing a key keeps the order of what remains, segment by segment. */
  lemma WithoutPathAppend(a: seq<MediaFile>, b: seq<MediaFile>, path: string)
    ensures WithoutPath(a + b, path) == WithoutPath(a, path) + WithoutPath(b, path)
  {
    FilterAppend((m: MediaFile) => m.fullPath != path, a, b);
  }

  /** A tile of the grid: a video player or an image, both showing the public URL. */
  datatype Tile = VideoTile(src: string) | ImageTile(src: string, alt: string)

  /** What the gallery panel shows. */
  datatype GalleryView = LoadingMessage | EmptyMessage | Grid(tiles: seq<Tile>)

  function TileOf(m: MediaFile): Tile {
    if IsVideo(m.name) then VideoTile(m.publicUrl) else ImageTile(m.publicUrl, m.name)
  }

  /** The panel: the loading message, else the empty message, else one tile per file. */
  function View(loading: bool, media: seq<MediaFile>): (v: GalleryView)
    ensures v.LoadingMessage? <==> loading
    ensures v.EmptyMessage? <==> !loading && |media| == 0
    ensures v.Grid? ==> |v.tiles| == |media| && forall i :: 0 <= i < |media| ==>
      && v.tiles[i].src == media[i].publicUrl
      && (v.tiles[i].VideoTile? <==> LatestVideo.HasVideoExtension(media[i].name))
  {
    if loading then LoadingMessage
    else if |media| == 0 then EmptyMessage
    else
      var tiles := seq(|media|, i requires 0 <= i < |media| => TileOf(media[i]));
      assert forall i :: 0 <= i < |media| ==>
        (tiles[i].VideoTile? <==> LatestVideo.HasVideoExtension(media[i].name)) by {
        forall i | 0 <= i < |media|
          ensures tiles[i].VideoTile? <==> LatestVideo.HasVideoExtension(media[i].name)
        {
          IsVideoAgrees(media[i].name);
        }
      }
      Grid(tiles)
  }

  /** `alert` text for a failed load. */
  function LoadAlert(err: Thrown): string {
    "Failed to load media: " + err.MessageOr("Unknown error")
  }

  const DeleteAlert: string := "Failed to delete file"

  class MediaAdminPage {
    var media: seq<MediaFile>
    var loading: bool
    var selectedFolder: string

    ghost predicate Valid()
      reads this
    {
      selectedFolder in Folders
    }

    constructor ()
      ensures Valid()
      ensures media == [] && loading && selectedFolder == InitialFolder
    {
      media, loading, selectedFolder := [], true, InitialFolder;
    }

    function CurrentView(): GalleryView
      reads this
    {
      View(loading, media)
    }

    /** `setLoading(true)` at the start of a load. */
    method BeginLoad()
      modifies this`loading
      ensures loading && CurrentView() == LoadingMessage
    {
      loading := true;
    }

    /**
     * `loadMedia`: one listing of the selected folder. A listing replaces the
     * list wholesale; a thrown error is alerted and leaves the list as it
     * was. The flag is lowered either way.
     */
    method LoadMedia(client: Client, list: string -> ListResponse) returns (alert: Option<string>)
      requires Valid()
      modifies this`loading, this`media
      ensures Valid() && !loading
      ensures var outcome := ListMedia(client, selectedFolder, list);
        && (outcome.Success? ==> media == outcome.value && alert.None?)
        && (outcome.Failure? ==> media == old(media) && alert == Some(LoadAlert(outcome.error)))
    {
      BeginLoad();
      var outcome := ListMedia(client, selectedFolder, list);
      match outcome {
        case Success(files) =>
          media := files;
          alert := None;
        case Failure(err) =>
          alert := Some(LoadAlert(err));
      }
      loading := false;
    }

    /**
     * Picking a folder. The load effect depends on the folder, so it runs
     * again only when the folder actually changes.
     */
    method SelectFolder(folder: string, client: Client, list: string -> ListResponse)
      returns (alert: Option<string>)
      requires Valid() && folder in Folders
      modifies this
      ensures Valid() && selectedFolder == folder
      ensures folder == old(selectedFolder) ==>
        media == old(media) && loading == old(loading) && alert.None?
      ensures folder != old(selectedFolder) ==>
        var outcome := ListMedia(client, folder, list);
        && !loading
        && (outcome.Success? ==> media == outcome.value && alert.None?)
        && (outcome.Failure? ==> media == old(media) && alert == Some(LoadAlert(outcome.error)))
    {
      if folder == selectedFolder {
        return None;
      }
      selectedFolder := folder;
      alert := LoadMedia(client, list);
    }

    /** `onUploadComplete={loadMedia}`: a finished upload reloads the folder. */
    method UploadCompleted(client: Client, list: string -> ListResponse) returns (alert: Option<string>)
      requires Valid()
      modifies this`loading, this`media
      ensures Valid() && !loading
      ensures var outcome := ListMedia(client, selectedFolder, list);
        && (outcome.Success? ==> media == outcome.value && alert.None?)
        && (outcome.Failure? ==> media == old(media) && alert == Some(LoadAlert(outcome.error)))
    {
      alert := LoadMedia(client, list);
    }

    /**
     * `handleDelete(path)`: nothing unless the user confirms; then one delete
     * call, and only when it succeeds is the key removed from the list.
     */
    method HandleDelete(path: string, confirmed: bool, client: Client,
                        remove: string -> Option<Thrown>) returns (alert: Option<string>)
      requires Valid()
      modifies this`media
      ensures Valid()
      ensures !confirmed ==> media == old(media) && alert.None?
      ensures confirmed ==>
        var outcome := DeleteMedia(client, path, remove);
        && (outcome.Success? ==> media == WithoutPath(old(media), path) && alert.None?)
        && (outcome.Failure? ==> media == old(media) && alert == Some(DeleteAlert))
    {
      if !confirmed {
        return None;
      }
      var outcome := DeleteMedia(client, path, remove);
      if outcome.Success? {
        media := WithoutPath(media, path);
        alert := None;
      } else {
        alert := Some(DeleteAlert);
      }
    }
  }
}

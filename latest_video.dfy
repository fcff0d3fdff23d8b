/**
 * `getLatestVideo` of `src/lib/supabase.ts`: scan the candidate video
 * folders, keep the files with a video extension, sort them newest first
 * and return the first record.
 */
module LatestVideo {
  import opened Wrappers
  import opened Text
  import opened Seqs
  import opened Storage

  const VideoExtensions: seq<string> := [".mp4", ".webm", ".mov", ".avi"]

  /** The folders scanned, in scan order. */
  const VideoFolders: seq<string> := ["Videos", "videos"]

  /** `videoExtensions.some(ext => name.toLowerCase().endsWith(ext))` */
  predicate HasVideoExtension(name: string) {
    exists k :: 0 <= k < |VideoExtensions| && EndsWith(Lower(name), VideoExtensions[k])
  }

  predicate IsVideoFile(m: MediaFile) {
    HasVideoExtension(m.name)
  }

  /** What one folder contributes: its video files, or nothing when its listing throws. */
  function FolderVideos(client: Client, folder: string, list: string -> ListResponse)
    : seq<MediaFile>
  {
    match ListMedia(client, folder, list)
    case Success(files) => Filter(IsVideoFile, files)
    case Failure(_) => []
  }

  /** The candidates of the given folders, concatenated in folder order. */
  function Candidates(client: Client, folders: seq<string>, list: string -> ListResponse)
    : seq<MediaFile>
  {
    if folders == [] then []
    else Candidates(client, folders[..|folders| - 1], list)
         + FolderVideos(client, folders[|folders| - 1], list)
  }

  /** Every candidate is a listed file of one of the folders and has a video extension. */
  lemma {:induction false} CandidatesAreVideos(client: Client, folders: seq<string>,
                                               list: string -> ListResponse, m: MediaFile)
    requires m in Candidates(client, folders, list)
    ensures HasVideoExtension(m.name)
    ensures exists k :: 0 <= k < |folders| && ListMedia(client, folders[k], list).Success?
                        && m in ListMedia(client, folders[k], list).value
  {
    var last := |folders| - 1;
    var front := folders[..last];
    if m in Candidates(client, front, list) {
      CandidatesAreVideos(client, front, list, m);
      var k :| 0 <= k < |front| && ListMedia(client, front[k], list).Success?
               && m in ListMedia(client, front[k], list).value;
      assert front[k] == folders[k];
    } else {
      assert m in FolderVideos(client, folders[last], list);
      assert ListMedia(client, folders[last], list).Success?;
    }
  }

  /** Scanning one more folder appends its candidates. */
  lemma CandidatesSnoc(client: Client, folders: seq<string>, f: string, list: string -> ListResponse)
    ensures Candidates(client, folders + [f], list)
         == Candidates(client, folders, list) + FolderVideos(client, f, list)
  {
    var all := folders + [f];
    assert all[..|all| - 1] == folders && all[|all| - 1] == f;
  }

  /** For two folders, the first folder's candidates come first. */
  lemma CandidatesOfTwo(client: Client, a: string, b: string, list: string -> ListResponse)
    ensures Candidates(client, [a, b], list)
         == FolderVideos(client, a, list) + FolderVideos(client, b, list)
  {
    CandidatesSnoc(client, [], a, list);
    assert [] + [a] == [a] && [a] + [b] == [a, b];
    CandidatesSnoc(client, [a], b, list);
    assert Candidates(client, [], list) + FolderVideos(client, a, list) == FolderVideos(client, a, list);
  }

  /** Both folders' candidates, the upper-case folder's first. */
  lemma CandidatesOfVideoFolders(client: Client, list: string -> ListResponse)
    ensures Candidates(client, VideoFolders, list)
         == FolderVideos(client, "Videos", list) + FolderVideos(client, "videos", list)
  {
    CandidatesOfTwo(client, "Videos", "videos", list);
  }

  /** A folder whose listing throws contributes nothing, and the other folder is still scanned. */
  lemma FailingFolderSkipped(client: Client, list: string -> ListResponse)
    ensures list("Videos").ListFailed? ==>
      Candidates(client, VideoFolders, list) == FolderVideos(client, "videos", list)
    ensures list("videos").ListFailed? ==>
      Candidates(client, VideoFolders, list) == FolderVideos(client, "Videos", list)
  {
    CandidatesOfVideoFolders(client, list);
  }

  /** A name is a video when its lower-cased form ends with one listed extension. */
  lemma VideoNameExamples()
    ensures HasVideoExtension("clip.mp4")
    ensures HasVideoExtension("reel.MOV")
    ensures !HasVideoExtension("logo.png")
  {
    var clip, reel, logo := Lower("clip.mp4"), Lower("reel.MOV"), Lower("logo.png");
    assert clip[4..] == ".mp4";
    assert EndsWith(clip, VideoExtensions[0]);
    assert reel[4..] == ".mov";
    assert EndsWith(reel, VideoExtensions[2]);
    assert logo[3] == 'o' && logo[4..] == ".png";
  }

  /**
   * Of `clip.mp4`, `logo.png` and `reel.MOV`, the two videos are kept, the
   * upper-case extension included.
   */
  lemma VideoFilterExample(clip: MediaFile, logo: MediaFile, reel: MediaFile)
    requires clip.name == "clip.mp4" && logo.name == "logo.png" && reel.name == "reel.MOV"
    ensures Filter(IsVideoFile, [clip, logo, reel]) == [clip, reel]
  {
    VideoNameExamples();
    assert IsVideoFile(clip) && !IsVideoFile(logo) && IsVideoFile(reel);
    assert [reel][1..] == [];
    assert Filter(IsVideoFile, [reel]) == [reel] + Filter(IsVideoFile, []);
    assert [logo, reel][1..] == [reel];
    assert Filter(IsVideoFile, [logo, reel]) == [] + Filter(IsVideoFile, [reel]);
    assert [clip, logo, reel][1..] == [logo, reel];
    assert Filter(IsVideoFile, [clip, logo, reel]) == [clip] + Filter(IsVideoFile, [logo, reel]);
  }

  /** Newest first: `created_at` never increases along the sequence. */
  predicate NewestFirst(s: seq<MediaFile>) {
    forall p, q :: 0 <= p < q < |s| ==> s[p].createdAt >= s[q].createdAt
  }

  /** Exchanges `a[k]` and `a[k + 1]`, keeping the same elements. */
  method SwapAdjacent(a: array<MediaFile>, k: nat)
    requires k + 1 < a.Length
    modifies a
    ensures a[..] == old(a[..])[k := old(a[k + 1])][k + 1 := old(a[k])]
    ensures multiset(a[..]) == old(multiset(a[..]))
  {
    a[k], a[k + 1] := a[k + 1], a[k];
  }

  /**
   * One insertion step: `a[i]` moves left past the strictly older elements
   * in front of it, so `a[..i + 1]` becomes newest first.
   */
  method InsertNewest(a: array<MediaFile>, i: nat)
    requires i < a.Length && NewestFirst(a[..i])
    modifies a
    ensures NewestFirst(a[..i + 1])
    ensures multiset(a[..]) == old(multiset(a[..]))
  {
    var j := i;
    while j > 0 && a[j - 1].createdAt < a[j].createdAt
      invariant 0 <= j <= i
      invariant forall p, q :: 0 <= p < q <= i && p != j && q != j ==>
                  a[p].createdAt >= a[q].createdAt
      invariant forall q :: j < q <= i ==> a[q].createdAt < a[j].createdAt
      invariant multiset(a[..]) == old(multiset(a[..]))
    {
      SwapAdjacent(a, j - 1);
      j := j - 1;
    }
  }

  /**
   * `allVideoFiles.sort((a, b) => timeB - timeA)`, in place, as a stable
   * insertion sort: an element moves left only past strictly older ones.
   */
  method SortNewestFirst(a: array<MediaFile>)
    modifies a
    ensures NewestFirst(a[..])
    ensures multiset(a[..]) == old(multiset(a[..]))
  {
    var i := 0;
    while i < a.Length
      invariant 0 <= i <= a.Length
      invariant NewestFirst(a[..i])
      invariant multiset(a[..]) == old(multiset(a[..]))
    {
      InsertNewest(a, i);
      i := i + 1;
    }
    assert a[..a.Length] == a[..];
  }

  /**
   * The scan of lines 98-112: each folder in turn, a throwing folder
   * skipped, the video files of the others appended in folder order.
   */
  method CollectCandidates(client: Client, list: string -> ListResponse)
    returns (all: seq<MediaFile>)
    ensures all == Candidates(client, VideoFolders, list)
  {
    all := [];
    for i := 0 to |VideoFolders|
      invariant all == Candidates(client, VideoFolders[..i], list)
    {
      var folder := VideoFolders[i];
      var listing := ListMedia(client, folder, list);
      match listing {
        case Success(files) =>
          all := all + Filter(IsVideoFile, files);
        case Failure(_) =>
      }
      assert all == Candidates(client, VideoFolders[..i], list) + FolderVideos(client, folder, list);
      assert VideoFolders[..i + 1] == VideoFolders[..i] + [folder];
      CandidatesSnoc(client, VideoFolders[..i], folder, list);
    }
    assert VideoFolders[..|VideoFolders|] == VideoFolders;
  }

  /** Sorts a copy of `all` newest first and takes its first element. */
  method FirstNewest(all: seq<MediaFile>) returns (m: MediaFile)
    requires |all| > 0
    ensures m in all
    ensures forall c :: c in all ==> c.createdAt <= m.createdAt
  {
    var a := new MediaFile[|all|](k requires 0 <= k < |all| => all[k]);
    assert a[..] == all;
    SortNewestFirst(a);
    m := a[0];
    assert m in multiset(a[..]);
    forall c | c in all
      ensures c.createdAt <= m.createdAt
    {
      assert c in multiset(a[..]);
      var k :| 0 <= k < a.Length && a[k] == c;
      assert k == 0 || a[..][0].createdAt >= a[..][k].createdAt;
    }
  }

  /**
   * `getLatestVideo()`: `None` (the source's `null`) when there is no client
   * or no candidate; otherwise a candidate that no other candidate is newer than.
   */
  method GetLatestVideo(client: Client, list: string -> ListResponse) returns (r: Option<MediaFile>)
    ensures r.None? <==> client.Unconfigured? || Candidates(client, VideoFolders, list) == []
    ensures r.Some? ==> r.value in Candidates(client, VideoFolders, list)
    ensures r.Some? ==> forall c :: c in Candidates(client, VideoFolders, list) ==>
                          c.createdAt <= r.value.createdAt
  {
    if client.Unconfigured? {
      return None;
    }
    var all := CollectCandidates(client, list);
    if |all| == 0 {
      return None;
    }
    var latest := FirstNewest(all);
    r := Some(latest);
  }
}

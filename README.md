# Media storage and index state machines of a pricing-intelligence landing page, in Dafny

This project models the parts of the landing page's front end, and of its media admin page,
that have behaviour one can state:

* the **storage gateway** over the `media` bucket (`src/lib/supabase.ts`). It lists a folder,
  keeping only real files and attaching each one's key and public URL. It builds upload
  keys that differ whenever the timestamp or the random token differs, uploads, deletes, and finds the newest video across the `Videos` and `videos`
  folders. When the client is unconfigured, listing degrades to an empty result and writes fail
  before any storage call;
* the **upload controller** (`MediaUploader.tsx`). It is a class over `folder`, `selectedFile`,
  `fileType`, `preview`, `error` and `uploading`, with folder-change, select, preview-loaded, upload (success or failure)
  and clear transitions;
* the **media manager page** (`MediaAdmin.tsx`) and the **gallery hook** (`useMediaGallery.ts`).
  Both are classes whose loads replace the list wholesale and keep it on failure. The page's
  delete removes a key only after the backend confirms. The page's video test is proved to agree
  with the storage layer's;
* the **logo list** of `DynamicLogosMarquee.tsx` and the **deploy base path** of `vite.config.ts`,
  as pure functions;
* the **rotating indices** of `TestimonialsCarousel`, `IndustryQuotesCarousel` and `WordRotator`,
  as classes over JavaScript's `%`.

Each backend call is a function parameter that gives the backend's answer for the folder or key
it is asked about: `list: string -> ListResponse`, `store: string -> UploadResponse`,
`remove: string -> Option<Thrown>`. So "no storage call" means that the result does not depend on
that parameter. `Date.now()` is a `nat`. The random token is a string. A parsed `created_at` is an
`int`. A thrown value is `Thrown`: an `Error` with its message, or some other value. The timers are
`Tick` methods. The file reader's completion is `PreviewLoaded`. The user's answers to `confirm`
are a `confirmed` parameter. The `alert` texts are returned values.

The code has these behaviours, which a reader might not expect:

* The code has no guard against stale listing responses. Each load is one atomic step.
* Picking the folder that is already selected does not reload. The load effect depends only on
  the folder value, so React does not re-run it.
* `getLatestVideo` returns the whole record, not only its URL.
* A failed load keeps the previous list. In the gallery hook an error stays set after a later
  successful load.

Files: `wrappers.dfy`, `text.dfy` (JavaScript `split`/`join`, `startsWith`, `endsWith`, ASCII
`toLowerCase`, decimal numbers), `seqs.dfy` (`Array.prototype.filter`), `storage.dfy`,
`latest_video.dfy`, `uploader.dfy`, `media_admin.dfy`, `media_gallery.dfy`, `logos_marquee.dfy`,
`deploy_base.dfy`, `cyclic.dfy`, `testimonials_carousel.dfy`, `industry_quotes_carousel.dfy`,
`word_rotator.dfy`.

## Model

| member | source | states |
|---|---|---|
| Text.JoinSplit | vite.config.ts:12 | joining the pieces of `split(sep)` with `sep` gives back the string |
| Text.SplitJoin | vite.config.ts:12 | splitting a join of separator-free pieces gives back exactly those pieces |
| Text.AfterLastSpec | src/lib/supabase.ts:14 | `split(sep).pop()` is a separator-free suffix: the whole string when it has no separator, otherwise the text right after the last separator |
| Text.NatToStringInjective | src/lib/supabase.ts:15 | different timestamps render as different decimal strings (via the parse round trip `ParseNatToString`) |
| Seqs.FilterCount | src/lib/supabase.ts:71 | a filter keeps each passing element exactly as often as it occurs and drops every other one |
| Seqs.FilterAppend | src/lib/supabase.ts:71 | a filter distributes over concatenation, so the kept elements stay in backend order |
| Storage.ListMedia | src/lib/supabase.ts:44-86 | empty without a client or without data; rethrows the backend's error; otherwise one record per raw entry whose `id` is truthy (present and not `""`), in order, with `fullPath` = `folder/name` (or `name` at the root) and `publicUrl` derived from that key |
| Storage.ListMediaInFolder | src/lib/supabase.ts:71-84 | every file listed under a non-empty folder has a non-empty id and a key starting with `folder/` and ending with its name |
| Storage.ListRootKeys | src/lib/supabase.ts:44-85 | a listing that names no folder lists the bucket root, where each file's key is its name and its URL is that key's |
| Storage.ListUnconfiguredNoCall | src/lib/supabase.ts:45-48 | without a client the listing is `[]` whatever the backend would answer |
| Storage.PublicUrlInjective | src/lib/supabase.ts:76-78 | a property of the assumed URL scheme (public prefix followed by the key, see "Left out"): two keys of the bucket have the same public URL iff they are the same key |
| Storage.ExtensionSpec | src/lib/supabase.ts:14 | the extension has no `.`, ends the name, is the whole name iff the name has no `.`, and otherwise follows a `.` |
| Storage.UploadKeyShape | src/lib/supabase.ts:15 | the key starts with `folder/`, continues with `timestamp-token` and ends with `.` + extension |
| Storage.UploadKeyInjective | src/lib/supabase.ts:14-15 | in one folder, equal keys have the same timestamp, token and extension, so uploads differing in timestamp or token never collide |
| Storage.UploadMedia | src/lib/supabase.ts:10-31 | the configuration error without a client; otherwise one store call with the generated key, whose error is rethrown or whose path is returned with its public URL |
| Storage.UploadDefaultFolder | src/lib/supabase.ts:10-15 | an upload that names no folder stores a key under `general/`, and its result is that store call's |
| Storage.DeleteMedia | src/lib/supabase.ts:33-42 | the configuration error without a client; otherwise succeeds iff the backend removes the path, rethrowing its error |
| Storage.WritesUnconfiguredNoCall | src/lib/supabase.ts:11-36 | without a client, upload and delete give the same result whatever the backend would answer |
| LatestVideo.CandidatesAreVideos | src/lib/supabase.ts:93-108 | every candidate has a video extension (lower-cased name ending in `.mp4`, `.webm`, `.mov` or `.avi`) and was listed in one of the scanned folders |
| LatestVideo.CandidatesOfVideoFolders | src/lib/supabase.ts:94-112 | the candidates are the `Videos` folder's videos followed by the `videos` folder's videos |
| LatestVideo.FailingFolderSkipped | src/lib/supabase.ts:98-111 | a folder whose listing throws contributes nothing, and the other folder's videos are still all the candidates |
| LatestVideo.VideoNameExamples | src/lib/supabase.ts:103-105 | `clip.mp4` and `reel.MOV` are videos, `logo.png` is not |
| LatestVideo.VideoFilterExample | src/lib/supabase.ts:103-105 | filtering `clip.mp4`, `logo.png`, `reel.MOV` keeps exactly `clip.mp4` and `reel.MOV` |
| LatestVideo.SortNewestFirst | src/lib/supabase.ts:118-122 | the in-place sort leaves the array newest first and a permutation of what it was |
| LatestVideo.CollectCandidates | src/lib/supabase.ts:96-112 | the folder loop accumulates exactly the candidates of both folders, in folder order |
| LatestVideo.FirstNewest | src/lib/supabase.ts:116-125 | the first element after sorting is a candidate that no candidate is newer than |
| LatestVideo.GetLatestVideo | src/lib/supabase.ts:88-126 | `null` iff there is no client or no candidate; otherwise a candidate with the greatest `created_at` over both folders |
| Uploader.KindOf | src/components/MediaUploader.tsx:31 | a file is an image iff its MIME type starts with `image/`, otherwise a video |
| Uploader.UploadErrorText | src/components/MediaUploader.tsx:56 | the message of a thrown `Error`, or `Upload failed` for any other value |
| Uploader.UploadController.constructor | src/components/MediaUploader.tsx:12-22 | starts on the given folder (`general` by default) with no file, kind, preview or error and not uploading |
| Uploader.UploadController.HandleFileSelect | src/components/MediaUploader.tsx:25-33 | no file changes nothing; a file becomes the selection with its kind and clears the error; the kind always belongs to the selected file |
| Uploader.UploadController.PreviewLoaded | src/components/MediaUploader.tsx:34-38 | the reader's result becomes the preview |
| Uploader.UploadController.BeginUpload | src/components/MediaUploader.tsx:44-45 | while uploading the error is clear and both buttons are disabled |
| Uploader.UploadController.FinishUpload | src/components/MediaUploader.tsx:46-59 | success reports `(publicUrl, path)` once and drops the draft and preview; failure keeps draft and preview, sets the message and reports nothing; `uploading` ends false |
| Uploader.UploadController.HandleUpload | src/components/MediaUploader.tsx:41-60 | without a selected file nothing changes and nothing is reported; otherwise the outcome of one `uploadMedia` call with the file and the current folder decides the new state as above |
| Uploader.UploadController.ClearPreview | src/components/MediaUploader.tsx:62-70 | preview, kind, error and file become empty whatever they were, so a second clear changes nothing |
| Uploader.UploadController.FolderChanged | src/pages/MediaAdmin.tsx:141-142 | a new `folder` prop replaces the destination and keeps the draft, preview, error and flag, so the next upload goes to the new folder |
| Admin.InitialFolderOffered | src/pages/MediaAdmin.tsx:21-28 | the initial folder `screenshots` is the first of the four offered folders |
| Admin.IsVideoAgrees | src/pages/MediaAdmin.tsx:74-76 | the page's case-insensitive `\.(mp4|webm|mov|avi)$` test holds iff the storage layer's extension test does |
| Admin.WithoutPathSpec | src/pages/MediaAdmin.tsx:54 | removing a path drops every entry with that key and keeps every other entry as often as it occurred |
| Admin.WithoutPathAppend | src/pages/MediaAdmin.tsx:54 | removing a path keeps the remaining entries in order |
| Admin.View | src/pages/MediaAdmin.tsx:180-204 | the loading message iff loading; else the empty message iff there are no files; else one tile per file showing its URL, a video player iff the name is a video |
| Admin.MediaAdminPage.constructor | src/pages/MediaAdmin.tsx:18-21 | starts with no files, loading, in folder `screenshots` |
| Admin.MediaAdminPage.BeginLoad | src/pages/MediaAdmin.tsx:31 | a load starts by showing the loading message |
| Admin.MediaAdminPage.LoadMedia | src/pages/MediaAdmin.tsx:30-43 | a listing replaces the files wholesale; a thrown error is alerted and keeps the files; loading ends false |
| Admin.MediaAdminPage.SelectFolder | src/pages/MediaAdmin.tsx:45-47 | a different folder is loaded as above; the folder already selected changes nothing |
| Admin.MediaAdminPage.UploadCompleted | src/pages/MediaAdmin.tsx:141-145 | a finished upload reloads the selected folder |
| Admin.MediaAdminPage.HandleDelete | src/pages/MediaAdmin.tsx:49-59 | nothing without confirmation; after a confirmed delete the key is removed only if the backend succeeded, otherwise the files stay and the failure is alerted |
| Gallery.LoadError | src/hooks/useMediaGallery.ts:23 | the stored error is the thrown `Error`, or a new one reading `Failed to load media` |
| Gallery.MediaGallery.constructor | src/hooks/useMediaGallery.ts:11-14 | starts on the given folder (`logos` by default) with no files, loading, no error |
| Gallery.MediaGallery.Load | src/hooks/useMediaGallery.ts:16-29 | a listing replaces the files and keeps any earlier error; a failure stores the error and keeps the files; loading ends false |
| Gallery.MediaGallery.SetFolder | src/hooks/useMediaGallery.ts:16-30 | a different folder is loaded as above; the same folder changes nothing |
| LogosMarquee.Mount | src/components/DynamicLogosMarquee.tsx:11-17 | the marquee starts the gallery hook on its `folder` prop (`logos` by default) and first shows the skeleton |
| LogosMarquee.Logos | src/components/DynamicLogosMarquee.tsx:19-21 | one logo per file (URL, name) in order; with no files, `fallbackCount` (10 by default) placeholders `Logo 1`, `Logo 2`, ... with an empty source (none for a negative count) |
| LogosMarquee.PlaceholdersDistinct | src/components/DynamicLogosMarquee.tsx:21 | no two placeholders are equal |
| LogosMarquee.DefaultPlaceholders | src/components/DynamicLogosMarquee.tsx:15-21 | with the default count, an empty folder shows ten placeholders, the first `Logo 1` with no source |
| LogosMarquee.Render | src/components/DynamicLogosMarquee.tsx:23-38 | six skeleton slots while loading, whatever the files; otherwise the marquee of exactly `Logos(media, fallbackCount)`, non-empty iff there are files or a positive fallback count |
| DeployBase.RepoOf | vite.config.ts:12 | the repository never contains a `/` |
| DeployBase.Base | vite.config.ts:10-16 | the base starts and ends with `/`; it is `/` iff the repository is empty or ends in `.github.io` ignoring case, otherwise `/repo/` |
| DeployBase.RepoOfSlug | vite.config.ts:12 | for `owner/repo` with any further segments the repository is `repo` |
| DeployBase.SlugWithoutSlash | vite.config.ts:12-14 | a slug without `/` gives an empty repository and base `/` |
| DeployBase.BaseSlashes | vite.config.ts:14-15 | the base has no `/` besides its first and last character |
| Cyclic.Next | src/components/ui/TestimonialsCarousel.tsx:26 | `(n + 1) % size` stays in `[0, size)` |
| Cyclic.Prev | src/components/ui/TestimonialsCarousel.tsx:40 | `(n - 1 + size) % size` stays in `[0, size)` |
| Cyclic.NextPrevInverse | src/components/ui/TestimonialsCarousel.tsx:40 | next then previous, and previous then next, return to the same index |
| Cyclic.AdvanceMod | src/components/ui/IndustryQuotesCarousel.tsx:21-23 | `k` ticks from `n` reach `(n + k) % size` |
| Cyclic.FullTurn | src/components/ui/IndustryQuotesCarousel.tsx:21-23 | `size` ticks return to the start |
| Cyclic.OneDotHighlighted | src/components/ui/TestimonialsCarousel.tsx:73-81 | a dot row drawn for an in-range active index has exactly one highlighted dot, at that index |
| Testimonials.Swiped | src/components/ui/TestimonialsCarousel.tsx:38-40 | a swipe of at most 40 pixels keeps the index; further left advances, further right goes back; the index stays in range |
| Testimonials.SwipeBackAndForth | src/components/ui/TestimonialsCarousel.tsx:39-40 | a left swipe and a right swipe, in either order, cancel out |
| Testimonials.TestimonialsCarousel.constructor | src/components/ui/TestimonialsCarousel.tsx:20-22 | starts at index 0 with no touch recorded, for a non-empty list |
| Testimonials.TestimonialsCarousel.Tick | src/components/ui/TestimonialsCarousel.tsx:24-28 | the timer advances the index only when there is more than one testimonial |
| Testimonials.TestimonialsCarousel.TouchStart | src/components/ui/TestimonialsCarousel.tsx:32-34 | records where the touch began |
| Testimonials.TestimonialsCarousel.TouchEnd | src/components/ui/TestimonialsCarousel.tsx:36-43 | ignored without a recorded start; otherwise applies the swipe and clears the start |
| Testimonials.TestimonialsCarousel.DotClick | src/components/ui/TestimonialsCarousel.tsx:73-77 | jumps to the clicked index |
| Testimonials.TestimonialsCarousel.OneActiveDot | src/components/ui/TestimonialsCarousel.tsx:73-81 | in the row of dots, one per testimonial, the set of highlighted dots is exactly the active index |
| IndustryQuotes.IndustryQuotesCarousel.constructor | src/components/ui/IndustryQuotesCarousel.tsx:17-18 | starts at quote 0 of a non-empty list |
| IndustryQuotes.IndustryQuotesCarousel.Tick | src/components/ui/IndustryQuotesCarousel.tsx:20-24 | the interval moves to `(current + 1) % length`, staying in range |
| IndustryQuotes.IndustryQuotesCarousel.DotClick | src/components/ui/IndustryQuotesCarousel.tsx:61 | jumps to the clicked quote |
| IndustryQuotes.IndustryQuotesCarousel.OneHighlighted | src/components/ui/IndustryQuotesCarousel.tsx:58-67 | in the row of dots, one per quote, the set of highlighted dots is exactly the current index |
| IndustryQuotes.FullRotation | src/components/ui/IndustryQuotesCarousel.tsx:20-24 | as many ticks as there are quotes bring back the starting quote |
| WordRotation.WordRotator.constructor | src/components/ui/animations/WordRotator.tsx:11-13 | starts at word 0, not paused |
| WordRotation.WordRotator.Tick | src/components/ui/animations/WordRotator.tsx:15-19 | the interval advances the index only when not paused and with more than one word |
| WordRotation.WordRotator.MouseEnter | src/components/ui/animations/WordRotator.tsx:23 | pauses without changing the word |
| WordRotation.WordRotator.MouseLeave | src/components/ui/animations/WordRotator.tsx:24 | resumes without changing the word |
| WordRotation.WordRotator.Displayed | src/components/ui/animations/WordRotator.tsx:38 | a word is shown iff the list is non-empty, and then it is `words[index]`, so each `Tick` brings up the next word |

## Left out

- The storage client itself (`createClient`, `.list`, `.upload`, `.remove`, `.getPublicUrl`) is foreign code. Its answers are parameters, and a public URL is the bucket's public prefix followed by the key.
- The listing options (first 100 entries, newest first) belong to the backend. They are not verifiable here. Listed records keep `name`, `id` and `created_at` from the raw entry; its other fields, such as the size metadata, are not modelled.
- Console logging, `formatFileSize` (floating point), the clipboard copy with its two-second reset, and the `testStorageAccess` debug routine are left out.
- The file reader's conversion to a data URL is left out; only its completion (`PreviewLoaded`) is modelled. The reset of the hidden file input's DOM value is also left out.
- Interleavings of asynchronous completions are left out. A load or an upload is one step, apart from the split into begin and finish that shows the flags during the call.
- An exception thrown by the `onUploadComplete` callback is left out. The `Notification` returned by `HandleUpload` is the callback's single call when the prop is given.
- Props that change after the first render are left out, except a `folder` prop (the uploader's `FolderChanged`, the gallery hook's `SetFolder`): the item, quote or word lists and the intervals are fixed. Timer periods are left out; each firing is a `Tick`.
- Touch coordinates are integers.
- An empty testimonial or quote list makes the carousel read `items[0]` or `quotes[0]` of an empty array at its first render. So both carousel constructors require a non-empty list, and that failure is not modelled.
- Case mapping covers ASCII letters only.
- Invalid `created_at` strings, which JavaScript parses to `NaN`, are left out.
- LatestVideo.GetLatestVideo: among candidates with equal `created_at`, which one is returned is not stated. The sort is stable, as JavaScript's is, but stability is not proved.
- LatestVideo.SortNewestFirst: states order and permutation but not stability.
- The `LogosMarquee` child component ignores the logos it is given, so nothing is modelled after `Render`.
- Animations, particle canvases, layout and static marketing content are left out.

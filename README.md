# convert_to_videos — a verified model of the timelapse job

The job (`index.js`, exported as `handler`) runs once per invocation. It lists
the top-level prefixes of the bucket, one prefix per camera. For each camera in
turn it then does five things:

1. It checks that `<cam>/Images/` has a sub-folder.
2. It selects the day's `.jpg` images from `<cam>/Images/<date>/` that were
   modified inside a time window, walking every page of the listing.
3. It stages them as `/tmp/image-<i>.jpg`.
4. It encodes them into `/tmp/video.mp4`.
5. It publishes the video as
   `<cam>/Footage/<date>/<cam>-<hour stamp>-24hrs.mp4`, with tag set
   `camera=<cam>&interval_hours=1`. First it creates an empty marker at
   `<cam>/Footage/<date>/` if nothing is stored under that folder yet.
   Then it deletes every image file from `/tmp`.

One try/catch surrounds the camera loop. The first error makes the run return
`Error`; otherwise it returns `Success`.

The model has six modules, one file each:

- `common.dfy`: `Option`, `Result` and the job's faults.
- `text.dfy`: the JavaScript string operations the job uses. These are
  `split('/')`, `startsWith`, `endsWith`, `includes`, decimal rendering of
  an index in a template string, and ASCII case folding as a `/i` regular
  expression does it.
- `naming.dfy`: camera names, folders, keys, the tag set, staged file names,
  and the clean-up pattern.
- `selection.dfy`: `listImageKeys`. The per-page filter and stable sort are
  functions. The do-while pagination loop is a method, proved against the
  function `Collect`.
- `storage.dfy`: the bucket is the class `ObjectStore`, a map from key to
  object. The staging directory is the class `StagingArea`, a map from file
  name to contents. Their methods `EnsureFolder`, `WriteImagesToTmp` and
  `RemoveImages` change the maps in place. Each method is proved equal to a
  value-level function (`EnsuredFolder`, `StageFrom`, `WithoutImages`), and
  the lemmas are stated about those functions.
- `orchestrator.dfy`: `main`. The camera loop is the method `Run`, and its
  body is the method `ProcessCamera`. Both are proved against the functions
  `RunFrom` and `Step`. The lemmas about the run are stated through `After`,
  the world after the first *n* turns.

The things the code reads from its surroundings are inputs, collected in
`Orchestrator.Env`:

- the date string;
- the hour stamp and listing window for each camera position;
- for each folder, the responses to its successive listing requests;
- the encoder;
- the time stamp the bucket gives new objects.

Timestamps are integers. An object's LastModified is in the window when
`start <= LastModified <= end`, with both bounds inclusive.

### How the code behaves, and how the model follows it

Some of the job's behaviour is easy to misread. In each case the model follows
the code:

- **Sorting is per page, not global.** Each listing page's survivors are
  sorted and then appended. With more than one page, the result is not
  sorted overall (`PerPageOrderIsNotGlobal`). A multi-page listing need not
  give the same result as one page holding the same objects.
- **Ties are not broken by key.** Objects with equal LastModified keep their
  listing order, because JavaScript's sort is stable (`SortByTimeFacts`).
- **The window is closed at both ends**, `[start, end]`, not half-open. The
  code computes both bounds from the clock on every page. The model fixes
  them for one call.
- **One failure ends the whole run.** Cameras are not isolated from each
  other: the first error returns `Error` and later cameras are not processed
  (`RunOutcome`).
- **The staging directory is not reset before staging.** It is only emptied
  of images after a successful publish. Within one run this is enough as
  long as the clean-up succeeds (`RunKeepsStagingClean`), because any other
  failure ends the run. A clean-up error is caught inside `saveVideo`
  (`index.js:181-209`) and the run continues, with the remaining images still
  in `/tmp`; the model does not capture that case (see "Left out"). An image
  left behind by a run that failed after staging is still present when the
  next run encodes (`LeftoverFrameReachesEncoder`).
- **Staged names are not zero-padded**: `image-0.jpg`, `image-1.jpg`, ….
- **A common prefix with no non-empty segment gives camera `undefined`.**
  JavaScript renders the missing name as the text `undefined`
  (`CameraLabel`).
- **The date is fixed once per module load.** It is computed when the module
  is loaded (`index.js:22`), not per invocation, so it is an input of the
  model. The hour stamp is read for each camera.

## Model

| member | source | states |
|---|---|---|
| `Text.Split` | index.js:62 | `split('/')` yields at least one piece and no piece contains `/` |
| `Text.JoinSplit` | index.js:62 | joining the pieces of `split('/')` with `/` gives back the prefix |
| `Text.DecimalRoundTrip` | index.js:117 | the decimal text of the index reads back as the index, so distinct indices give distinct names |
| `Text.EndsWithContains` | index.js:93-115 | a key that ends in `.jpg` (the selection filter) contains `.jpg` (the staging test) |
| `Naming.CameraName` | index.js:62 | defines `split('/').filter(Boolean)[0]`: the first non-empty `/`-separated piece of a prefix, or none |
| `Naming.CameraLabel` | index.js:62 | the camera name used in every key is non-empty and has no `/` |
| `Naming.CameraNameIsFirstSegment` | index.js:62 | `split('/').filter(Boolean)[0]` equals the reference definition: skip leading `/`s, take up to the next `/` |
| `Naming.CameraNameShape` | index.js:62 | the camera name is a non-empty, `/`-free piece of the prefix, preceded only by `/`s and followed by `/` or the end |
| `Naming.CameraNameOfFolder` | index.js:29-34 | every name built as `cam + "/" + …` gives back `cam` as its camera name |
| `Naming.CameraOfCommonPrefix` | index.js:62 | the common prefix `cam/` names camera `cam` |
| `Naming.ImagesFolder` | index.js:29-33 | defines `IMAGES_FOLDER` as `<cam>/Images/<date>/` |
| `Naming.FootageFolder` | index.js:30-34 | defines `FOOTAGE_FOLDER` as `<cam>/Footage/<date>/` |
| `Naming.VideoKey` | index.js:42 | defines the video key `<FOOTAGE_FOLDER><cam>-<hour stamp>-24hrs.mp4` |
| `Naming.Tagging` | index.js:156 | defines the tag set `camera=<cam>&interval_hours=1` |
| `Naming.VideoKeyShape` | index.js:34-42 | the video key starts with the footage folder, the footage folder starts with `<cam>/Footage/`, and the key ends in `-24hrs.mp4` |
| `Naming.VideoKeyNamesCamera` | index.js:42 | the video key's camera name is its camera, so two cameras never share a video key |
| `Naming.FootageDisjointFromImages` | index.js:29-34 | no key under a camera's `Footage/` folder lies under any camera's `Images/` folder |
| `Naming.TaggingRoundTrip` | index.js:156 | the tag set `camera=<cam>&interval_hours=1` reads back as its camera |
| `Naming.StagedName` | index.js:117 | defines the staged file name `image-<i>.jpg`, with `i` in decimal and not padded |
| `Naming.IsImageFileName` | index.js:187 | defines the clean-up pattern `/\.(jpg\|jpeg\|png\|gif)$/i` as a case-insensitive suffix test |
| `Naming.StagedNameInjective` | index.js:117 | distinct indices are staged under distinct file names |
| `Naming.StagedNamesAreImages` | index.js:117-187 | every staged name matches the clean-up pattern and `video.mp4` does not |
| `Selection.Qualifying` | index.js:92-93 | a page's survivors are exactly its objects inside the closed window whose key ends in `.jpg` |
| `Selection.QualifyingPositions` | index.js:92-93 | the survivors sit at strictly increasing positions of the page, exactly the positions whose object qualifies: listing order and duplicates are kept |
| `Selection.Insert` | index.js:94 | defines one insertion step of the stable sort: `x` goes before the first element that is not older |
| `Selection.SortByTime` | index.js:94 | defines `.sort((a, b) => a.LastModified - b.LastModified)` as a stable insertion sort |
| `Selection.HasMore` | index.js:98-99 | defines the loop test: a continuation token is present and not the empty string |
| `Selection.Collect` | index.js:84-99 | defines the whole walk over the listing responses: fail at the first failed request, stop after the first response without a token |
| `Selection.SortByTimeFacts` | index.js:94 | the page sort is ordered by LastModified, is a permutation, and keeps equal-time objects in listing order |
| `Selection.PageKeysSelection` | index.js:90-96 | a page contributes the keys of its survivors in stable LastModified order |
| `Selection.CollectSucceeds` | index.js:84-99 | the walk succeeds exactly when it reaches a response without a continuation token, and then returns the pages' keys in fetch order |
| `Selection.SelectionExact` | index.js:84-99 | every selected key ends in `.jpg` and comes from an object in the window on a page read; every such object is selected |
| `Selection.PerPageOrderIsNotGlobal` | index.js:84-99 | two pages give `b, a` where one page with the same objects gives `a, b` |
| `Selection.ListImageKeys` | index.js:75-102 | the loop returns `Collect`, starts without a token and sends each response's token with the next request |
| `Storage.AnyObjectUnder` | index.js:165-168 | defines `Contents.length > 0` for a listing of the footage folder |
| `Storage.HasSubfolder` | index.js:65-73 | defines `CommonPrefixes.length > 0` for a listing of `<cam>/Images/` with delimiter `/` |
| `Storage.EnsuredFolder` | index.js:160-177 | defines the ensure step: the bucket is unchanged if some key is under the folder, otherwise the tagged empty marker is put at the folder key |
| `Storage.StageFrom` | index.js:113-121 | defines the staging loop from index `i`: skip a key without `.jpg`, fail at a missing key, otherwise write `image-i.jpg` |
| `Storage.EnsuredFolderFacts` | index.js:160-177 | afterwards the footage folder is non-empty; the empty marker is written only if the folder was empty |
| `Storage.EnsuredFolderIdempotent` | index.js:160-177 | a second ensure step leaves the bucket unchanged |
| `Storage.StageFromNames` | index.js:113-121 | with all keys present, staging adds exactly `image-i.jpg` for the indices whose key contains `.jpg` and keeps the other files |
| `Storage.StageFromBodies` | index.js:113-121 | `image-i.jpg` holds the body of key `i` |
| `Storage.StageFromFails` | index.js:104-119 | staging fails exactly when a staged key is missing, and names the first missing one |
| `Storage.DenseStaging` | index.js:114-118 | when every key ends in `.jpg`, the staged indices are exactly `0 … n-1` |
| `Storage.StagedImagesExactly` | index.js:113-121 | in a directory without images, the image files after staging are exactly `image-0.jpg … image-(n-1).jpg` with the keys' bodies in list order |
| `Storage.WithoutImages` | index.js:184-196 | the files left after clean-up are exactly those whose names do not match `/\.(jpg\|jpeg\|png\|gif)$/i` |
| `Storage.WithoutImagesFacts` | index.js:184-196 | clean-up leaves no image, keeps other files with their contents, and repeating it changes nothing |
| `Storage.ImageNames` | index.js:187 | the filtered names are exactly the listed names that match the pattern |
| `Storage.ObjectStore.Put` | index.js:176-179 | a put replaces or adds exactly one key |
| `Storage.ObjectStore.GetBody` | index.js:104-111 | a get returns the stored body, or fails with `NoSuchKey` |
| `Storage.ObjectStore.EnsureFolder` | index.js:160-177 | the bucket becomes `EnsuredFolder` of the old bucket |
| `Storage.StagingArea.ReadDir` | index.js:184 | lists exactly the directory's names |
| `Storage.StagingArea.WriteFile` | index.js:118 | writes exactly one file |
| `Storage.StagingArea.Unlink` | index.js:195 | deletes exactly one file |
| `Storage.StagingArea.WriteImagesToTmp` | index.js:113-121 | the directory and the fault become those of `StageFrom` on the old directory |
| `Storage.StagingArea.RemoveImages` | index.js:181-196 | the directory becomes `WithoutImages` of the old directory |
| `Orchestrator.CameraFolders` | index.js:55-63 | one camera per top-level common prefix, in order; each is non-empty and `/`-free, is the prefix's first non-empty segment, or `undefined` when there is none |
| `Orchestrator.SaveVideoSpec` | index.js:148-196 | defines `saveVideo`: ensure the folder, fail without `video.mp4`, put the tagged video, delete the images from the directory |
| `Orchestrator.Step` | index.js:28-47 | defines one pass of the camera loop: skip without an `Images/` sub-folder or with no selected key, otherwise stage, encode and save, failing at the first error |
| `Orchestrator.RunFrom` | index.js:24-53 | defines the loop over the cameras from position `i`: `Error` at the first failing turn, `Success` after the last camera |
| `Orchestrator.CameraSkipped` | index.js:31-47 | a camera without an `Images/` sub-folder, or with an empty selection, is skipped with the matching reason and leaves bucket and staging unchanged |
| `Orchestrator.SkippedCameraChangesNothing` | index.js:31-47 | a skipped turn leaves bucket and staging unchanged, and it is skipped for `NoImagesFolder` exactly when there is no `Images/` sub-folder and for `NoImagesSelected` exactly when there is one and the selection is empty |
| `Orchestrator.PublishedCamera` | index.js:40-43 | a published camera's selection and encode succeeded; its video key holds the encoder's output on the staged images, typed `video/mp4` and tagged with the camera; the folder marker is written only when the folder was empty; no image is staged; no other key changed |
| `Orchestrator.StepKeepsImages` | index.js:27-48 | no camera's turn changes an object under any camera's `Images/` folder |
| `Orchestrator.StepKeepsStagingClean` | index.js:40-43 | a turn that does not fail leaves no image in a staging directory that had none |
| `Orchestrator.EncoderSeesOnlyThisCamera` | index.js:35-41 | from a staging directory without images, the encoder gets exactly this camera's selected images as `image-0.jpg … image-(n-1).jpg` |
| `Orchestrator.LeftoverFrameReachesEncoder` | index.js:113-121 | an image left in the staging directory is still present beside the new camera's frame when encoding starts |
| `Orchestrator.RunOutcome` | index.js:24-53 | `Success` exactly when no turn fails, after every camera's turn; otherwise `Error` at the first failing turn, with no later camera processed |
| `Orchestrator.RunKeepsStagingClean` | index.js:27-48 | from a clean staging directory, every camera reached starts with no image staged |
| `Orchestrator.CompileVideo` | index.js:123-146 | the encoder's output becomes `video.mp4`, or the step fails with nothing written |
| `Orchestrator.SaveVideo` | index.js:148-210 | the bucket and directory become those of `SaveVideoSpec`: ensure the folder, upload the video, delete the images |
| `Orchestrator.ProcessCamera` | index.js:27-47 | one pass of the camera loop has the outcome and effect of `Step` |
| `Orchestrator.Run` | index.js:24-53 | the run's status and final state are those of `RunFrom` over the discovered cameras |

## Left out

- AWS SDK configuration (retries, timeouts, region) and the real S3 client.
  Get, put, the footage-folder check and the `Images/` sub-folder check act
  on the `Objects` map. The top-level listing of cameras is the parameter
  `prefixes` of `Run`, and an image folder's listing pages are the input
  `Env.listing`. Neither is tied to the bucket: a listed key may be missing
  from it, which is how `NoSuchKey` arises, and a listed LastModified need
  not match the stored object's.
- `HasSubfolder`: `checkFolderExists` and `getCameraFolders` read a single
  listing page of at most 1000 entries, with no continuation. `HasSubfolder`
  looks at the whole bucket. With 1000 or more keys directly under
  `<cam>/Images/` that sort before its first sub-folder, the code sees no
  common prefix and skips the camera, while the model finds the sub-folder.
  Likewise the model does not cap the number of cameras at one page.
- Only the presence of a continuation token is modelled, not its value. The
  model does not check that the store honours a token.
- Failures are modelled for: a listing page request, `getObject` on a missing
  key, the encoder, and a missing `video.mp4`. The top-level listing, the
  folder-existence check and `putObject` are modelled as never failing.
- `compileVideo`'s encoding (codec, frame rate, pixel format, bitrate, MP4
  flags) is an opaque function from the staging directory to a video or a
  failure. The model does not capture how ffmpeg's `image-%d.jpg` pattern
  picks frames from the directory.
- Date and time-zone computation (`moment().utcOffset(480)`, `new Date()`).
  The date string, the hour stamps, the window bounds and the store's clock
  are inputs.
- Real file-system behaviour and errors: clean-up never fails, so its caught
  errors and the `statusCode` object `saveVideo` returns are not modelled.
  In the code an `unlinkSync` error (say, on a directory whose name matches
  the image pattern) stops the `forEach`, is caught inside `saveVideo`, and
  `main` carries on with the remaining images still staged.
  `RunKeepsStagingClean`, `StepKeepsStagingClean`, `PublishedCamera` (no image
  left staged) and `EncoderSeesOnlyThisCamera` for later cameras rely on the
  clean-up succeeding.
- Logging (`console.log`, `console.error`).
- The async/await structure. Every call is awaited in turn, so the model is
  sequential.

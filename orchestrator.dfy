/** The job (`main`): discover the cameras, then for each camera in turn check
    its `Images/` folder, select the images, stage them, encode, publish and
    clean up. One try/catch surrounds the whole loop: the first error ends the
    run with `Error`; otherwise the run ends with `Success`. */
module Orchestrator {
  import opened Common
  import opened Text
  import opened Naming
  import opened Selection
  import opened Storage

  datatype Status = Success | Error

  datatype SkipReason = NoImagesFolder | NoImagesSelected

  /** How one camera's turn ended. */
  datatype CameraOutcome =
    | Skipped(reason: SkipReason)
    | Published(videoKey: string)
    | Failed(fault: Fault)

  /** The bucket and the staging directory together. */
  datatype World = World(objects: Objects, files: Files)

  datatype StepResult = StepResult(outcome: CameraOutcome, world: World)

  datatype RunResult = RunResult(status: Status, world: World)

  /** What the job takes from its surroundings besides the two stores. */
  datatype Env = Env(
    folderDate: string,                   // the date string fixed when the module is loaded
    hourStamp: nat -> string,             // the hour stamp read for the camera at a position
    window: nat -> Window,                // the listing window in effect for the camera at a position
    listing: string -> seq<ListResponse>, // the responses to the successive listing requests of a folder
    encoder: Files -> Option<Bytes>,      // the encoder run on the staging directory: a video or a failure
    now: int)                             // the LastModified time the bucket gives to new objects

  // ---------------------------------------------------------------------------
  // Specification of one camera's turn

  /** `getCameraFolders`: the camera name of each top-level common prefix, in
      order: its first non-empty `/`-separated segment, or `undefined`. */
  function CameraFolders(prefixes: seq<string>): (cams: seq<string>)
    ensures |cams| == |prefixes|
    ensures forall i :: 0 <= i < |cams| ==>
              cams[i] != [] && '/' !in cams[i] &&
              (FirstSegment(prefixes[i]).Some? ==> cams[i] == FirstSegment(prefixes[i]).value) &&
              (FirstSegment(prefixes[i]).None? ==> cams[i] == "undefined")
  {
    seq(|prefixes|, i requires 0 <= i < |prefixes| => CameraLabel(prefixes[i]))
  }

  /** The selection for the camera at position `idx`. */
  function Selected(cam: string, idx: nat, env: Env): Result<seq<string>> {
    Collect(env.listing(ImagesFolder(cam, env.folderDate)), env.window(idx))
  }

  /** `saveVideo`: ensure the date folder, upload the local video, delete the
      staged images. */
  function SaveVideoSpec(w: World, videoKey: string, cam: string, folder: string, now: int): StepResult {
    var tag := Tagging(cam);
    var marked := EnsuredFolder(w.objects, folder, tag, now);
    // Reached through `Step`, this branch cannot be taken: a successful encode
    // has just written the video file.
    if VideoFile !in w.files then StepResult(Failed(NoVideoFile), World(marked, w.files))
    else
      var video := StoredObject(now, w.files[VideoFile], VideoContentType, tag);
      StepResult(Published(videoKey), World(marked[videoKey := video], WithoutImages(w.files)))
  }

  /** One pass of the camera loop for the camera at position `idx`. */
  function Step(w: World, cam: string, idx: nat, env: Env): StepResult {
    if !HasSubfolder(w.objects, ImagesRoot(cam)) then StepResult(Skipped(NoImagesFolder), w)
    else match Selected(cam, idx, env)
      case Err(f) => StepResult(Failed(f), w)
      case Ok(keys) =>
        if |keys| == 0 then StepResult(Skipped(NoImagesSelected), w)
        else
          var staged := StageFrom(w.files, keys, w.objects, 0);
          if staged.fault.Some? then StepResult(Failed(staged.fault.value), World(w.objects, staged.files))
          else match env.encoder(staged.files)
            case None => StepResult(Failed(EncodingFailed), World(w.objects, staged.files))
            case Some(video) =>
              SaveVideoSpec(World(w.objects, staged.files[VideoFile := video]),
                            VideoKey(cam, env.folderDate, env.hourStamp(idx)), cam,
                            FootageFolder(cam, env.folderDate), env.now)
  }

  // ---------------------------------------------------------------------------
  // Specification of the run

  /** The camera loop from position `i` on. */
  function RunFrom(w: World, cams: seq<string>, i: nat, env: Env): RunResult
    requires i <= |cams|
    decreases |cams| - i
  {
    if i == |cams| then RunResult(Success, w)
    else
      var r := Step(w, cams[i], i, env);
      if r.outcome.Failed? then RunResult(Error, r.world) else RunFrom(r.world, cams, i + 1, env)
  }

  /** The world after the first `n` cameras' turns, taken one after another. */
  function After(w: World, cams: seq<string>, n: nat, env: Env): World
    requires n <= |cams|
  {
    if n == 0 then w else Step(After(w, cams, n - 1, env), cams[n - 1], n - 1, env).world
  }

  /** The turn of the camera at position `i`, in the world the earlier turns left. */
  function TurnAt(w: World, cams: seq<string>, i: nat, env: Env): StepResult
    requires i < |cams|
  {
    Step(After(w, cams, i, env), cams[i], i, env)
  }

  predicate FailsAt(w: World, cams: seq<string>, i: nat, env: Env)
    requires i < |cams|
  {
    TurnAt(w, cams, i, env).outcome.Failed?
  }

  // ---------------------------------------------------------------------------
  // Properties of one camera's turn

  /** A skipped camera causes no staging and no write to the bucket. */
  lemma SkippedCameraChangesNothing(w: World, cam: string, idx: nat, env: Env)
    requires Step(w, cam, idx, env).outcome.Skipped?
    ensures Step(w, cam, idx, env).world == w
    ensures Step(w, cam, idx, env).outcome.reason == NoImagesFolder <==>
              !HasSubfolder(w.objects, ImagesRoot(cam))
    ensures Step(w, cam, idx, env).outcome.reason == NoImagesSelected <==>
              HasSubfolder(w.objects, ImagesRoot(cam)) && Selected(cam, idx, env) == Ok([])
  {
  }

  /** A camera without an `Images/` sub-folder, or whose selection is empty,
      is skipped with no staging and no write to the bucket. */
  lemma CameraSkipped(w: World, cam: string, idx: nat, env: Env)
    requires !HasSubfolder(w.objects, ImagesRoot(cam)) || Selected(cam, idx, env) == Ok([])
    ensures Step(w, cam, idx, env) ==
            StepResult(Skipped(if !HasSubfolder(w.objects, ImagesRoot(cam)) then NoImagesFolder
                               else NoImagesSelected), w)
  {
  }

  /** A published camera: the video is under the camera's footage folder for
      the date, typed and tagged with the camera, and holds the encoder's
      output on the staged images; the folder key is given the empty marker
      if nothing was stored under the folder and is left alone otherwise; the
      staging directory holds no image; and nothing else in the bucket changed. */
  lemma PublishedCamera(w: World, cam: string, idx: nat, env: Env)
    requires Step(w, cam, idx, env).outcome.Published?
    ensures var r := Step(w, cam, idx, env);
            var key := VideoKey(cam, env.folderDate, env.hourStamp(idx));
            var folder := FootageFolder(cam, env.folderDate);
            r.outcome.videoKey == key &&
            key in r.world.objects &&
            r.world.objects[key].contentType == VideoContentType &&
            r.world.objects[key].tagging == Tagging(cam) &&
            Selected(cam, idx, env).Ok? &&
            var staged := StageFrom(w.files, Selected(cam, idx, env).value, w.objects, 0).files;
            env.encoder(staged).Some? &&
            r.world.objects[key].body == env.encoder(staged).value &&
            AnyObjectUnder(r.world.objects, folder) &&
            (!AnyObjectUnder(w.objects, folder) ==>
               folder in r.world.objects && r.world.objects[folder] == Marker(Tagging(cam), env.now)) &&
            (AnyObjectUnder(w.objects, folder) ==>
               (folder in r.world.objects <==> folder in w.objects) &&
               (folder in w.objects ==> r.world.objects[folder] == w.objects[folder])) &&
            NoImageFiles(r.world.files) &&
            forall k :: k != key && k != folder ==>
              (k in r.world.objects <==> k in w.objects) &&
              (k in w.objects ==> r.world.objects[k] == w.objects[k])
  {
    var r := Step(w, cam, idx, env);
    var key := VideoKey(cam, env.folderDate, env.hourStamp(idx));
    var folder := FootageFolder(cam, env.folderDate);
    var keys := Selected(cam, idx, env).value;
    var staged := StageFrom(w.files, keys, w.objects, 0);
    var marked := EnsuredFolder(w.objects, folder, Tagging(cam), env.now);
    EnsuredFolderFacts(w.objects, folder, Tagging(cam), env.now);
    WithoutImagesFacts(staged.files[VideoFile := env.encoder(staged.files).value]);
    VideoKeyShape(cam, env.folderDate, env.hourStamp(idx));
    assert AnyObjectUnder(marked, folder);
    var k0 :| k0 in marked && StartsWith(k0, folder);
    assert k0 in r.world.objects;
  }

  /** The job never changes an object under any camera's `Images/` folder. */
  lemma StepKeepsImages(w: World, cam: string, idx: nat, env: Env, other: string, k: string)
    requires '/' !in cam && '/' !in other
    requires StartsWith(k, ImagesRoot(other))
    ensures var after := Step(w, cam, idx, env).world.objects;
            (k in after <==> k in w.objects) && (k in w.objects ==> after[k] == w.objects[k])
  {
    var r := Step(w, cam, idx, env);
    if r.outcome.Published? {
      var key := VideoKey(cam, env.folderDate, env.hourStamp(idx));
      var folder := FootageFolder(cam, env.folderDate);
      PublishedCamera(w, cam, idx, env);
      VideoKeyShape(cam, env.folderDate, env.hourStamp(idx));
      if k == key || k == folder {
        assert StartsWith(k, FootageRoot(cam));
        FootageDisjointFromImages(cam, other, k);
      }
    } else if r.outcome.Failed? {
      assert r.world.objects == w.objects;
    }
  }

  /** A turn that does not fail leaves no image in a staging directory that
      held none. */
  lemma StepKeepsStagingClean(w: World, cam: string, idx: nat, env: Env)
    requires NoImageFiles(w.files)
    requires !Step(w, cam, idx, env).outcome.Failed?
    ensures NoImageFiles(Step(w, cam, idx, env).world.files)
  {
    var r := Step(w, cam, idx, env);
    if r.outcome.Published? {
      PublishedCamera(w, cam, idx, env);
    }
  }

  /** Starting from a staging directory with no image in it, the encoder sees
      exactly this camera's frames: `image-0.jpg` … `image-(n-1).jpg` holding
      the selected images in selection order, and no other image file. */
  lemma EncoderSeesOnlyThisCamera(w: World, cam: string, idx: nat, env: Env, keys: seq<string>)
    requires NoImageFiles(w.files)
    requires Selected(cam, idx, env) == Ok(keys)
    requires StageFrom(w.files, keys, w.objects, 0).fault == None
    ensures var files := StageFrom(w.files, keys, w.objects, 0).files;
            (forall name :: name in files && IsImageFileName(name) <==>
               exists i :: 0 <= i < |keys| && name == StagedName(i)) &&
            (forall i :: 0 <= i < |keys| ==>
               keys[i] in w.objects && StagedName(i) in files &&
               files[StagedName(i)] == w.objects[keys[i]].body)
  {
    var pages := env.listing(ImagesFolder(cam, env.folderDate));
    var win := env.window(idx);
    CollectSucceeds(pages, win);
    var n :| StopsAfter(pages, n);
    SelectionExact(pages, win, n);
    StageFromFails(w.files, keys, w.objects, 0);
    StagedImagesExactly(w.files, keys, w.objects);
  }

  /** Staging is not reset before a camera: an image left in the directory
      (for instance by an earlier run that failed after staging) is still
      there when the encoder reads `image-%d.jpg`, next to this camera's frame. */
  lemma LeftoverFrameReachesEncoder()
    ensures var key := "cam/Images/2024-01-15/a.jpg";
            var objects := map[key := StoredObject(1, [1], "image/jpeg", "")];
            var files := StageFrom(map["image-1.jpg" := [2]], [key], objects, 0).files;
            files == map["image-0.jpg" := [1], "image-1.jpg" := [2]]
  {
    var key := "cam/Images/2024-01-15/a.jpg";
    assert StagedName(0) == "image-0.jpg" by {
      assert NatToString(0) == "0";
    }
    assert OccursAt(key, ".jpg", |key| - 4);
    assert Contains(key, ".jpg");
  }

  // ---------------------------------------------------------------------------
  // Properties of the run

  lemma {:induction false} RunFromAfter(w: World, cams: seq<string>, env: Env, k: nat)
    requires k <= |cams|
    requires forall j :: 0 <= j < k ==> !FailsAt(w, cams, j, env)
    ensures var r := RunFrom(After(w, cams, k, env), cams, k, env);
            (r.status == Success <==> forall j :: k <= j < |cams| ==> !FailsAt(w, cams, j, env)) &&
            (r.status == Success ==> r.world == After(w, cams, |cams|, env)) &&
            (r.status == Error ==>
               exists i :: k <= i < |cams| && FailsAt(w, cams, i, env) &&
                           (forall j :: k <= j < i ==> !FailsAt(w, cams, j, env)) &&
                           r.world == TurnAt(w, cams, i, env).world)
    decreases |cams| - k
  {
    if k < |cams| {
      if !FailsAt(w, cams, k, env) {
        assert After(w, cams, k + 1, env) == TurnAt(w, cams, k, env).world;
        RunFromAfter(w, cams, env, k + 1);
      }
    }
  }

  /** The run returns `Success` exactly when no camera's turn fails, and then
      every camera has had its turn; it returns `Error` at the first failing
      turn, with the world that turn left and no later camera processed. */
  lemma RunOutcome(w: World, cams: seq<string>, env: Env)
    ensures var r := RunFrom(w, cams, 0, env);
            (r.status == Success <==> forall j :: 0 <= j < |cams| ==> !FailsAt(w, cams, j, env)) &&
            (r.status == Success ==> r.world == After(w, cams, |cams|, env)) &&
            (r.status == Error ==>
               exists i :: 0 <= i < |cams| && FailsAt(w, cams, i, env) &&
                           (forall j :: 0 <= j < i ==> !FailsAt(w, cams, j, env)) &&
                           r.world == TurnAt(w, cams, i, env).world)
  {
    RunFromAfter(w, cams, env, 0);
  }

  /** Within a run that starts with no image in the staging directory, every
      camera reached starts staging with no image in it, and a successful run
      leaves none. */
  lemma {:induction false} RunKeepsStagingClean(w: World, cams: seq<string>, env: Env, k: nat)
    requires NoImageFiles(w.files)
    requires k <= |cams|
    requires forall j :: 0 <= j < k ==> !FailsAt(w, cams, j, env)
    ensures NoImageFiles(After(w, cams, k, env).files)
  {
    if k > 0 {
      RunKeepsStagingClean(w, cams, env, k - 1);
      assert !FailsAt(w, cams, k - 1, env);
      StepKeepsStagingClean(After(w, cams, k - 1, env), cams[k - 1], k - 1, env);
    }
  }

  // ---------------------------------------------------------------------------
  // The job, in place

  /** `compileVideo`: run the encoder on the staging directory and write its
      output to `video.mp4`. */
  method CompileVideo(tmp: StagingArea, encoder: Files -> Option<Bytes>) returns (fault: Option<Fault>)
    modifies tmp
    ensures encoder(old(tmp.files)).None? ==> fault == Some(EncodingFailed) && tmp.files == old(tmp.files)
    ensures encoder(old(tmp.files)).Some? ==>
              fault == None && tmp.files == old(tmp.files)[VideoFile := encoder(old(tmp.files)).value]
  {
    var video := encoder(tmp.files);
    if video.None? {
      return Some(EncodingFailed);
    }
    tmp.WriteFile(VideoFile, video.value);
    fault := None;
  }

  method SaveVideo(store: ObjectStore, tmp: StagingArea, videoKey: string, cam: string, folder: string, now: int)
    returns (outcome: CameraOutcome)
    modifies store, tmp
    ensures StepResult(outcome, World(store.objects, tmp.files)) ==
            SaveVideoSpec(World(old(store.objects), old(tmp.files)), videoKey, cam, folder, now)
  {
    var tag := Tagging(cam);
    store.EnsureFolder(folder, tag, now);
    if VideoFile !in tmp.files {
      return Failed(NoVideoFile);
    }
    store.Put(videoKey, StoredObject(now, tmp.files[VideoFile], VideoContentType, tag));
    tmp.RemoveImages();
    outcome := Published(videoKey);
  }

  /** The body of the camera loop for the camera at position `idx`. */
  method ProcessCamera(store: ObjectStore, tmp: StagingArea, cam: string, idx: nat, env: Env)
    returns (outcome: CameraOutcome)
    modifies store, tmp
    ensures StepResult(outcome, World(store.objects, tmp.files)) ==
            Step(World(old(store.objects), old(tmp.files)), cam, idx, env)
  {
    var imagesFolderExists := HasSubfolder(store.objects, ImagesRoot(cam));
    if !imagesFolderExists {
      return Skipped(NoImagesFolder);
    }
    var selected, _ := ListImageKeys(env.listing(ImagesFolder(cam, env.folderDate)), env.window(idx));
    if selected.Err? {
      return Failed(selected.fault);
    }
    var keys := selected.value;
    if |keys| == 0 {
      return Skipped(NoImagesSelected);
    }
    var fault := tmp.WriteImagesToTmp(keys, store);
    if fault.Some? {
      return Failed(fault.value);
    }
    fault := CompileVideo(tmp, env.encoder);
    if fault.Some? {
      return Failed(fault.value);
    }
    outcome := SaveVideo(store, tmp, VideoKey(cam, env.folderDate, env.hourStamp(idx)), cam,
                         FootageFolder(cam, env.folderDate), env.now);
  }

  /** `main`: the camera loop inside one try/catch. `prefixes` is the top-level
      listing's common prefixes. */
  method Run(store: ObjectStore, tmp: StagingArea, prefixes: seq<string>, env: Env) returns (status: Status)
    modifies store, tmp
    ensures RunResult(status, World(store.objects, tmp.files)) ==
            RunFrom(World(old(store.objects), old(tmp.files)), CameraFolders(prefixes), 0, env)
  {
    var cams := CameraFolders(prefixes);
    for i := 0 to |cams|
      invariant RunFrom(World(old(store.objects), old(tmp.files)), cams, 0, env) ==
                RunFrom(World(store.objects, tmp.files), cams, i, env)
    {
      var outcome := ProcessCamera(store, tmp, cams[i], i, env);
      if outcome.Failed? {
        return Error;
      }
    }
    status := Success;
  }
}

/** How the job names cameras, storage folders, object keys, tags and staged
    files. Every name is built by string concatenation; the date string
    (`YYYY-MM-DD`) and the hour stamp (`YYYY-MM-DD-HH`) are inputs. */
module Naming {
  import opened Common
  import opened Text

  // ---------------------------------------------------------------------------
  // Camera discovery

  /** The first non-empty element of a list of pieces (`filter(Boolean)[0]`). */
  function FirstNonEmpty(parts: seq<string>): Option<string> {
    if parts == [] then None
    else if parts[0] != "" then Some(parts[0])
    else FirstNonEmpty(parts[1..])
  }

  /** The camera name taken from a top-level common prefix:
      `prefix.split('/').filter(Boolean)[0]`, absent when every piece is empty. */
  function CameraName(prefix: string): Option<string> {
    FirstNonEmpty(Split(prefix))
  }

  /** Reference definition: skip the leading `/` characters, then take the
      characters up to the next `/`. */
  function FirstSegment(p: string): Option<string> {
    if p == [] then None
    else if p[0] == '/' then FirstSegment(p[1..])
    else Some(TakeUntilSlash(p))
  }

  /** The camera name as the job uses it in template strings: an absent name
      is rendered by JavaScript as the text `undefined`. */
  function CameraLabel(prefix: string): (cam: string)
    ensures cam != [] && '/' !in cam
    ensures FirstSegment(prefix).Some? ==> cam == FirstSegment(prefix).value
    ensures FirstSegment(prefix).None? ==> cam == "undefined"
  {
    CameraNameIsFirstSegment(prefix);
    match CameraName(prefix)
    case Some(n) =>
      CameraNameShape(prefix, n);
      n
    case None => "undefined"
  }

  lemma {:induction false} CameraNameIsFirstSegment(p: string)
    ensures CameraName(p) == FirstSegment(p)
  {
    if p == [] {
    } else if p[0] == '/' {
      CameraNameIsFirstSegment(p[1..]);
      assert Split(p) == [""] + Split(p[1..]);
    } else {
      SplitHead(p);
    }
  }

  lemma {:induction false} FirstSegmentShape(p: string, n: string)
    requires FirstSegment(p) == Some(n)
    ensures n != [] && '/' !in n
    ensures exists i :: 0 <= i && i + |n| <= |p| && LeadingSlashes(p, i) &&
                        p[i..i + |n|] == n && (i + |n| == |p| || p[i + |n|] == '/')
  {
    if p[0] == '/' {
      FirstSegmentShape(p[1..], n);
      var i :| 0 <= i && i + |n| <= |p| - 1 && LeadingSlashes(p[1..], i) &&
                p[1..][i..i + |n|] == n && (i + |n| == |p| - 1 || p[1..][i + |n|] == '/');
      assert p[i + 1..i + 1 + |n|] == p[1..][i..i + |n|];
      assert LeadingSlashes(p, i + 1);
    } else {
      assert LeadingSlashes(p, 0);
      assert p[0..|n|] == n;
    }
  }

  /** The first `i` characters of `p` are all `/`. */
  predicate LeadingSlashes(p: string, i: nat)
    requires i <= |p|
  {
    forall j :: 0 <= j < i ==> p[j] == '/'
  }

  /** The camera name is a non-empty piece of the prefix without `/`, preceded
      only by `/` characters and followed by a `/` or the end of the prefix. */
  lemma CameraNameShape(prefix: string, n: string)
    requires CameraName(prefix) == Some(n)
    ensures n != [] && '/' !in n
    ensures exists i :: 0 <= i && i + |n| <= |prefix| && LeadingSlashes(prefix, i) &&
                        prefix[i..i + |n|] == n &&
                        (i + |n| == |prefix| || prefix[i + |n|] == '/')
  {
    CameraNameIsFirstSegment(prefix);
    FirstSegmentShape(prefix, n);
  }

  /** A camera's own folder names give back the camera's name. */
  lemma CameraNameOfFolder(cam: string, rest: string)
    requires cam != [] && '/' !in cam
    ensures CameraName(cam + "/" + rest) == Some(cam)
  {
    var p := cam + "/" + rest;
    CameraNameIsFirstSegment(p);
    TakeUntilSlashOf(cam, rest);
  }

  lemma {:induction false} TakeUntilSlashOf(cam: string, rest: string)
    requires '/' !in cam
    ensures TakeUntilSlash(cam + "/" + rest) == cam
  {
    if cam != [] {
      assert (cam + "/" + rest)[1..] == cam[1..] + "/" + rest;
      TakeUntilSlashOf(cam[1..], rest);
    }
  }

  /** A top-level common prefix such as `cam/` names the camera `cam`. */
  lemma CameraOfCommonPrefix(cam: string)
    requires cam != [] && '/' !in cam
    ensures CameraLabel(cam + "/") == cam
  {
    CameraNameOfFolder(cam, "");
    assert cam + "/" + "" == cam + "/";
  }

  // ---------------------------------------------------------------------------
  // Storage folders and keys

  function ImagesRoot(cam: string): string {
    cam + "/Images/"
  }

  function FootageRoot(cam: string): string {
    cam + "/Footage/"
  }

  /** `IMAGES_FOLDER`: where the camera's images for the date are read. */
  function ImagesFolder(cam: string, date: string): string {
    ImagesRoot(cam) + date + "/"
  }

  /** `FOOTAGE_FOLDER`: where the camera's videos for the date are published. */
  function FootageFolder(cam: string, date: string): string {
    FootageRoot(cam) + date + "/"
  }

  /** The key the camera's video is published under. */
  function VideoKey(cam: string, date: string, hourStamp: string): string {
    FootageFolder(cam, date) + cam + "-" + hourStamp + "-24hrs.mp4"
  }

  /** The tag set attached to the video and to the folder marker. */
  function Tagging(cam: string): string {
    "camera=" + cam + "&interval_hours=1"
  }

  /** The camera name read back from a tag set, if the tag set has the job's form. */
  function TaggedCamera(tag: string): Option<string> {
    var head, tail := "camera=", "&interval_hours=1";
    if |tag| >= |head| + |tail| && StartsWith(tag, head) && EndsWith(tag, tail)
    then Some(tag[|head|..|tag| - |tail|])
    else None
  }

  lemma VideoKeyShape(cam: string, date: string, hourStamp: string)
    ensures StartsWith(VideoKey(cam, date, hourStamp), FootageFolder(cam, date))
    ensures StartsWith(FootageFolder(cam, date), FootageRoot(cam))
    ensures EndsWith(VideoKey(cam, date, hourStamp), "-24hrs.mp4")
  {
    var k := VideoKey(cam, date, hourStamp);
    assert k == FootageFolder(cam, date) + (cam + "-" + hourStamp + "-24hrs.mp4");
    assert k[..|FootageFolder(cam, date)|] == FootageFolder(cam, date);
    assert FootageFolder(cam, date) == FootageRoot(cam) + (date + "/");
    assert k == (FootageFolder(cam, date) + cam + "-" + hourStamp) + "-24hrs.mp4";
  }

  /** The video key names its camera, so two cameras never share a video key. */
  lemma VideoKeyNamesCamera(cam: string, date: string, hourStamp: string)
    requires cam != [] && '/' !in cam
    ensures CameraName(VideoKey(cam, date, hourStamp)) == Some(cam)
  {
    var rest := "Footage/" + date + "/" + cam + "-" + hourStamp + "-24hrs.mp4";
    assert VideoKey(cam, date, hourStamp) == cam + "/" + rest;
    CameraNameOfFolder(cam, rest);
  }

  /** Nothing the job writes under a camera's footage root lies under any
      camera's images root. */
  lemma FootageDisjointFromImages(cam: string, other: string, key: string)
    requires '/' !in cam && '/' !in other
    requires StartsWith(key, FootageRoot(cam))
    ensures !StartsWith(key, ImagesRoot(other))
  {
    var root := ImagesRoot(other);
    assert key[..|FootageRoot(cam)|] == FootageRoot(cam);
    // An index at which the key and the images root differ.
    var j := if |cam| < |other| then |cam| else if |other| < |cam| then |other| else |cam| + 1;
    assert j < |key| && j < |root|;
    assert key[j] == FootageRoot(cam)[j];
    assert key[j] != root[j];
  }

  lemma TaggingRoundTrip(cam: string)
    ensures TaggedCamera(Tagging(cam)) == Some(cam)
  {
    var t, head, tail := Tagging(cam), "camera=", "&interval_hours=1";
    assert t == head + (cam + tail);
    assert t == (head + cam) + tail;
    assert t[|head|..|t| - |tail|] == cam;
  }

  // ---------------------------------------------------------------------------
  // The local staging directory

  /** The staged copy of the `i`-th selected image: `image-${i}.jpg`. */
  function StagedName(i: nat): string {
    "image-" + NatToString(i) + ".jpg"
  }

  /** The encoder's output file in the staging directory. */
  const VideoFile: string := "video.mp4"

  /** The clean-up pattern `/\.(jpg|jpeg|png|gif)$/i`. */
  predicate IsImageFileName(name: string) {
    EndsWithIgnoreCase(name, ".jpg") || EndsWithIgnoreCase(name, ".jpeg") ||
    EndsWithIgnoreCase(name, ".png") || EndsWithIgnoreCase(name, ".gif")
  }

  lemma StagedNameInjective(i: nat, j: nat)
    requires StagedName(i) == StagedName(j)
    ensures i == j
  {
    var a, b := StagedName(i), StagedName(j);
    assert a[6..|a| - 4] == NatToString(i);
    assert b[6..|b| - 4] == NatToString(j);
    NatToStringInjective(i, j);
  }

  /** Every staged image is an image file to the clean-up, the video is not. */
  lemma StagedNamesAreImages(i: nat)
    ensures IsImageFileName(StagedName(i))
    ensures !IsImageFileName(VideoFile)
  {
    var s := StagedName(i);
    assert s[|s| - 4..] == ".jpg";
    assert Lower(".jpg") == ".jpg";
    assert VideoFile[5..] == ".mp4";
    assert Lower(".mp4") == ".mp4";
  }
}

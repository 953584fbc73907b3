/** The two pieces of mutable state the job works on: the bucket (a map from
    key to object) and the local staging directory `/tmp` (a map from file
    name to contents). Value-level functions describe each operation; the
    classes carry out the same operations in place. */
module Storage {
  import opened Common
  import opened Text
  import opened Naming

  type Bytes = seq<bv8>

  datatype StoredObject = StoredObject(lastModified: int, body: Bytes, contentType: string, tagging: string)

  type Objects = map<string, StoredObject>

  type Files = map<string, Bytes>

  // ---------------------------------------------------------------------------
  // Listing questions about the bucket

  /** A listing of `prefix` without delimiter has at least one entry. */
  predicate AnyObjectUnder(objects: Objects, prefix: string) {
    exists k :: k in objects && StartsWith(k, prefix)
  }

  /** A listing of `prefix` with delimiter `/` has at least one common prefix:
      some key continues past `prefix` with another `/`. */
  predicate HasSubfolder(objects: Objects, prefix: string) {
    exists k :: k in objects && StartsWith(k, prefix) && '/' in k[|prefix|..]
  }

  // ---------------------------------------------------------------------------
  // The destination-folder ensure step of `saveVideo`

  const VideoContentType: string := "video/mp4"

  /** The empty object that makes a date folder visible. */
  function Marker(tagging: string, now: int): StoredObject {
    StoredObject(now, [], VideoContentType, tagging)
  }

  function EnsuredFolder(objects: Objects, folder: string, tagging: string, now: int): Objects {
    if AnyObjectUnder(objects, folder) then objects
    else objects[folder := Marker(tagging, now)]
  }

  /** After the step the folder is non-empty; the step writes only the marker,
      and only when the folder was empty. */
  lemma EnsuredFolderFacts(objects: Objects, folder: string, tagging: string, now: int)
    ensures var after := EnsuredFolder(objects, folder, tagging, now);
            AnyObjectUnder(after, folder) &&
            (AnyObjectUnder(objects, folder) ==> after == objects) &&
            (!AnyObjectUnder(objects, folder) ==> after == objects[folder := Marker(tagging, now)])
  {
    var after := EnsuredFolder(objects, folder, tagging, now);
    if !AnyObjectUnder(objects, folder) {
      assert folder in after && StartsWith(folder, folder);
    }
  }

  /** Running the step a second time changes nothing. */
  lemma EnsuredFolderIdempotent(objects: Objects, folder: string, tagging: string, now: int, later: int)
    ensures var once := EnsuredFolder(objects, folder, tagging, now);
            EnsuredFolder(once, folder, tagging, later) == once
  {
    EnsuredFolderFacts(objects, folder, tagging, now);
  }

  // ---------------------------------------------------------------------------
  // Staging (`writeImagesToTmp`)

  datatype StageResult = StageResult(fault: Option<Fault>, files: Files)

  /** The staging loop from index `i` on: every key containing `.jpg` is
      fetched and written to `image-<index>.jpg`; a key missing from the
      bucket stops the loop with `NoSuchKey`. */
  function StageFrom(files: Files, keys: seq<string>, objects: Objects, i: nat): StageResult
    decreases |keys| - i
  {
    if i >= |keys| then StageResult(None, files)
    else if !Contains(keys[i], ".jpg") then StageFrom(files, keys, objects, i + 1)
    else if keys[i] !in objects then StageResult(Some(NoSuchKey(keys[i])), files)
    else StageFrom(files[StagedName(i) := objects[keys[i]].body], keys, objects, i + 1)
  }

  /** The index `i` is one the staging loop writes for. */
  predicate Staged(keys: seq<string>, i: int) {
    0 <= i < |keys| && Contains(keys[i], ".jpg")
  }

  predicate AllStagedPresent(keys: seq<string>, objects: Objects, from: nat) {
    forall i :: from <= i < |keys| && Staged(keys, i) ==> keys[i] in objects
  }

  /** A name the staging loop writes from index `i` on. */
  predicate WrittenFrom(keys: seq<string>, i: nat, name: string) {
    exists j :: i <= j < |keys| && Staged(keys, j) && name == StagedName(j)
  }

  /** When every staged key is in the bucket, staging succeeds, adds exactly
      the files `image-i.jpg` for the staged indices and keeps every other
      file as it was. */
  lemma {:induction false} StageFromNames(files: Files, keys: seq<string>, objects: Objects, i: nat)
    requires AllStagedPresent(keys, objects, i)
    ensures var after := StageFrom(files, keys, objects, i);
            after.fault == None &&
            (forall name :: name in after.files <==> name in files || WrittenFrom(keys, i, name)) &&
            (forall name :: name in files && !WrittenFrom(keys, i, name) ==> after.files[name] == files[name])
    decreases |keys| - i
  {
    if i < |keys| {
      if !Contains(keys[i], ".jpg") {
        StageFromNames(files, keys, objects, i + 1);
        forall name ensures WrittenFrom(keys, i, name) <==> WrittenFrom(keys, i + 1, name) {
          if WrittenFrom(keys, i, name) {
            var j :| i <= j < |keys| && Staged(keys, j) && name == StagedName(j);
            assert j != i;
          }
        }
      } else {
        var next := files[StagedName(i) := objects[keys[i]].body];
        StageFromNames(next, keys, objects, i + 1);
        assert WrittenFrom(keys, i, StagedName(i));
        forall name ensures WrittenFrom(keys, i, name) <==> name == StagedName(i) || WrittenFrom(keys, i + 1, name) {
          if WrittenFrom(keys, i, name) && name != StagedName(i) {
            var j :| i <= j < |keys| && Staged(keys, j) && name == StagedName(j);
            assert j != i;
          }
        }
      }
    }
  }

  /** When every staged key is in the bucket, `image-j.jpg` ends up holding
      the body of key `j`, for every staged index `j`. */
  lemma {:induction false} StageFromBodies(files: Files, keys: seq<string>, objects: Objects, i: nat, j: nat)
    requires AllStagedPresent(keys, objects, i)
    requires i <= j && Staged(keys, j)
    ensures var after := StageFrom(files, keys, objects, i).files;
            StagedName(j) in after && after[StagedName(j)] == objects[keys[j]].body
    decreases |keys| - i
  {
    if !Contains(keys[i], ".jpg") {
      StageFromBodies(files, keys, objects, i + 1, j);
    } else {
      var next := files[StagedName(i) := objects[keys[i]].body];
      if j == i {
        StageFromNames(next, keys, objects, i + 1);
        if WrittenFrom(keys, i + 1, StagedName(i)) {
          var m :| i + 1 <= m < |keys| && Staged(keys, m) && StagedName(i) == StagedName(m);
          StagedNameInjective(i, m);
        }
      } else {
        StageFromBodies(next, keys, objects, i + 1, j);
      }
    }
  }

  /** Staging fails exactly when some staged key is missing from the bucket,
      and then it names the first such key. */
  lemma {:induction false} StageFromFails(files: Files, keys: seq<string>, objects: Objects, i: nat)
    ensures StageFrom(files, keys, objects, i).fault == None <==> AllStagedPresent(keys, objects, i)
    ensures StageFrom(files, keys, objects, i).fault.Some? ==>
              exists j :: i <= j && Staged(keys, j) && keys[j] !in objects &&
                          StageFrom(files, keys, objects, i).fault == Some(NoSuchKey(keys[j])) &&
                          forall m :: i <= m < j && Staged(keys, m) ==> keys[m] in objects
    decreases |keys| - i
  {
    if i < |keys| {
      if !Contains(keys[i], ".jpg") {
        StageFromFails(files, keys, objects, i + 1);
      } else if keys[i] in objects {
        StageFromFails(files[StagedName(i) := objects[keys[i]].body], keys, objects, i + 1);
      } else {
        assert Staged(keys, i);
      }
    }
  }

  /** With every key ending in `.jpg` the staged names are the dense range
      `image-0.jpg` … `image-(n-1).jpg`, in list order. */
  lemma DenseStaging(keys: seq<string>, i: int)
    requires forall k <- keys :: EndsWith(k, ".jpg")
    ensures Staged(keys, i) <==> 0 <= i < |keys|
  {
    if 0 <= i < |keys| {
      EndsWithContains(keys[i], ".jpg");
    }
  }

  /** Staging `.jpg` keys into a directory that holds no image: afterwards the
      image files are exactly `image-0.jpg` … `image-(n-1).jpg`, the `i`-th
      holding the body of the `i`-th key. */
  lemma StagedImagesExactly(files: Files, keys: seq<string>, objects: Objects)
    requires NoImageFiles(files)
    requires forall k <- keys :: EndsWith(k, ".jpg")
    requires AllStagedPresent(keys, objects, 0)
    ensures var after := StageFrom(files, keys, objects, 0).files;
            (forall name :: name in after && IsImageFileName(name) <==>
               exists i :: 0 <= i < |keys| && name == StagedName(i)) &&
            (forall i :: 0 <= i < |keys| ==>
               keys[i] in objects && StagedName(i) in after &&
               after[StagedName(i)] == objects[keys[i]].body)
  {
    StageFromNames(files, keys, objects, 0);
    var after := StageFrom(files, keys, objects, 0).files;
    forall i | 0 <= i < |keys|
      ensures keys[i] in objects && StagedName(i) in after && after[StagedName(i)] == objects[keys[i]].body
      ensures IsImageFileName(StagedName(i))
    {
      DenseStaging(keys, i);
      StagedNamesAreImages(i);
      StageFromBodies(files, keys, objects, 0, i);
    }
    forall name | name in after && IsImageFileName(name)
      ensures exists i :: 0 <= i < |keys| && name == StagedName(i)
    {
      if name !in files {
        var j :| 0 <= j < |keys| && Staged(keys, j) && name == StagedName(j);
      }
    }
  }

  // ---------------------------------------------------------------------------
  // Clean-up (`saveVideo`'s deletion of the staged images)

  /** The staging directory after deleting every image file. */
  function WithoutImages(files: Files): (r: Files)
    ensures forall name :: name in r <==> name in files && !IsImageFileName(name)
  {
    map name | name in files && !IsImageFileName(name) :: files[name]
  }

  predicate NoImageFiles(files: Files) {
    forall name :: name in files ==> !IsImageFileName(name)
  }

  /** Clean-up leaves no image file, keeps every other file with its contents,
      and a second clean-up changes nothing. */
  lemma WithoutImagesFacts(files: Files)
    ensures NoImageFiles(WithoutImages(files))
    ensures forall name :: name in files && !IsImageFileName(name) ==>
              WithoutImages(files)[name] == files[name]
    ensures WithoutImages(WithoutImages(files)) == WithoutImages(files)
  {
  }

  // ---------------------------------------------------------------------------
  // The bucket

  class ObjectStore {
    var objects: Objects

    constructor (initial: Objects)
      ensures objects == initial
    {
      objects := initial;
    }

    /** `putObject` */
    method Put(key: string, obj: StoredObject)
      modifies this
      ensures objects == old(objects)[key := obj]
    {
      objects := objects[key := obj];
    }

    /** `getObject(...).Body` */
    method GetBody(key: string) returns (r: Result<Bytes>)
      ensures key in objects ==> r == Ok(objects[key].body)
      ensures key !in objects ==> r == Err(NoSuchKey(key))
    {
      if key in objects {
        r := Ok(objects[key].body);
      } else {
        r := Err(NoSuchKey(key));
      }
    }

    /** The folder check and marker put of `saveVideo`. */
    method EnsureFolder(folder: string, tagging: string, now: int)
      modifies this
      ensures objects == EnsuredFolder(old(objects), folder, tagging, now)
    {
      var folderExists := AnyObjectUnder(objects, folder);
      if !folderExists {
        Put(folder, Marker(tagging, now));
      }
    }
  }

  // ---------------------------------------------------------------------------
  // The staging directory

  class StagingArea {
    var files: Files

    constructor (initial: Files)
      ensures files == initial
    {
      files := initial;
    }

    /** `fs.writeFileSync` */
    method WriteFile(name: string, body: Bytes)
      modifies this
      ensures files == old(files)[name := body]
    {
      files := files[name := body];
    }

    /** `fs.unlinkSync` */
    method Unlink(name: string)
      modifies this
      ensures files == old(files) - {name}
    {
      files := files - {name};
    }

    /** `fs.readdirSync`: every file name once, in some order. */
    method ReadDir() returns (names: seq<string>)
      ensures forall name :: name in names <==> name in files
    {
      names := [];
      var rest := files.Keys;
      while rest != {}
        invariant rest <= files.Keys
        invariant forall name :: name in names <==> name in files && name !in rest
        decreases rest
      {
        var name :| name in rest;
        names := names + [name];
        rest := rest - {name};
      }
    }

    /** `writeImagesToTmp`: for each index whose key contains `.jpg`, fetch the
        object and write it to `image-<index>.jpg`. */
    method WriteImagesToTmp(keys: seq<string>, store: ObjectStore) returns (fault: Option<Fault>)
      modifies this
      ensures StageResult(fault, files) == StageFrom(old(files), keys, store.objects, 0)
    {
      fault := None;
      for i := 0 to |keys|
        invariant StageFrom(old(files), keys, store.objects, 0) == StageFrom(files, keys, store.objects, i)
      {
        if Contains(keys[i], ".jpg") {
          var image := store.GetBody(keys[i]);
          if image.Err? {
            fault := Some(image.fault);
            return;
          }
          WriteFile(StagedName(i), image.value);
        }
      }
    }

    /** The clean-up of `saveVideo`: list the directory, keep the names that
        match `/\.(jpg|jpeg|png|gif)$/i`, delete each of them. */
    method RemoveImages()
      modifies this
      ensures files == WithoutImages(old(files))
    {
      var names := ReadDir();
      var images := ImageNames(names);
      ghost var start := files;
      for j := 0 to |images|
        invariant files == Without(start, images[..j])
      {
        assert images[..j + 1] == images[..j] + [images[j]];
        Unlink(images[j]);
      }
      assert images[..|images|] == images;
    }
  }

  /** The directory `files` with the names in `gone` deleted. */
  function Without(files: Files, gone: seq<string>): (r: Files)
    ensures forall name :: name in r <==> name in files && name !in gone
    ensures forall name :: name in r ==> r[name] == files[name]
  {
    map name | name in files && name !in gone :: files[name]
  }

  /** `files.filter(file => /\.(jpg|jpeg|png|gif)$/i.test(file))` */
  function ImageNames(names: seq<string>): (r: seq<string>)
    ensures forall name :: name in r <==> name in names && IsImageFileName(name)
  {
    if names == [] then []
    else (if IsImageFileName(names[0]) then [names[0]] else []) + ImageNames(names[1..])
  }
}

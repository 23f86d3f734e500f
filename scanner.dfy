/**
 * Directory scanning: `isImageFile` sniffs a file's leading bytes and
 * `analyzeDirectory` partitions the files of a folder tree into the images
 * to archive and the non-images to report.
 */
module Scanner {
  import opened GoStrings
  import opened Sorting

  /** How the read of the first 512 bytes ended. */
  datatype ReadStatus = ReadOk | ReadEof | ReadFailed

  /**
   * What `isImageFile` observes of one file: whether `os.Open` succeeded (`openOk`), how
   * the first read ended, and the content type `http.DetectContentType`
   * derives from the buffer (that sniffing algorithm is not modelled).
   */
  datatype Probe = Probe(openOk: bool, read: ReadStatus, mime: string)

  /** The outcome of classifying one file. */
  datatype Classification = Image | NonImage | ReadError

  const ImagePrefix: string := "image/"

  /**
   * `isImageFile`: an open failure or a read failure other than end-of-file
   * is an error; otherwise the file is an image iff its content type starts
   * with "image/".
   */
  function IsImageFile(p: Probe): (c: Classification)
    ensures c == ReadError <==> !p.openOk || p.read == ReadFailed
    ensures c == Image <==> p.openOk && p.read != ReadFailed && HasPrefix(p.mime, ImagePrefix)
  {
    if !p.openOk then ReadError
    else if p.read == ReadFailed then ReadError
    else if HasPrefix(p.mime, ImagePrefix) then Image
    else NonImage
  }

  /**
   * An empty file, whose first read returns `io.EOF`, is classified like any
   * other readable file, not treated as an error.
   */
  lemma EofIsNotAnError(mime: string)
    ensures IsImageFile(Probe(true, ReadEof, mime)) != ReadError
    ensures IsImageFile(Probe(true, ReadEof, mime)) == IsImageFile(Probe(true, ReadOk, mime))
  {
  }

  /** The fail-safe policy: a file goes into the archive unless it is known not to be an image. */
  predicate Included(c: Classification)
  {
    c != NonImage
  }

  /** One call of the `filepath.WalkDir` callback. */
  datatype WalkEvent =
    | VisitDir
    | VisitFile(path: string, name: string, probe: Probe)  // name: filepath.Base(path)
    | VisitError

  predicate WalkFailed(walk: seq<WalkEvent>)
  {
    exists i :: 0 <= i < |walk| && walk[i].VisitError?
  }

  /** Number of regular files in the walk. */
  function FileCount(walk: seq<WalkEvent>): nat
  {
    if walk == [] then 0
    else FileCount(walk[..|walk| - 1]) + (if walk[|walk| - 1].VisitFile? then 1 else 0)
  }

  /** Paths of the included files, in walk order. */
  function ImagePaths(walk: seq<WalkEvent>): (paths: seq<string>)
    ensures |paths| <= FileCount(walk)
  {
    if walk == [] then []
    else
      var e := walk[|walk| - 1];
      ImagePaths(walk[..|walk| - 1]) +
      (if e.VisitFile? && Included(IsImageFile(e.probe)) then [e.path] else [])
  }

  /** Base names of the non-image files, in walk order. */
  function NonImageNames(walk: seq<WalkEvent>): (names: seq<string>)
    ensures |names| <= FileCount(walk)
  {
    if walk == [] then []
    else
      var e := walk[|walk| - 1];
      NonImageNames(walk[..|walk| - 1]) +
      (if e.VisitFile? && !Included(IsImageFile(e.probe)) then [e.name] else [])
  }

  /** Every file lands in exactly one of the two lists; directories in neither. */
  lemma {:induction false} PartitionComplete(walk: seq<WalkEvent>)
    ensures |ImagePaths(walk)| + |NonImageNames(walk)| == FileCount(walk)
    decreases |walk|
  {
    if walk != [] {
      PartitionComplete(walk[..|walk| - 1]);
    }
  }

  /** A path is in the image list iff some file of the walk has it and is an image or unreadable. */
  lemma {:induction false} ImageMembership(walk: seq<WalkEvent>, p: string)
    ensures p in ImagePaths(walk) <==>
            exists i :: 0 <= i < |walk| && walk[i].VisitFile? && walk[i].path == p &&
                        IsImageFile(walk[i].probe) in {Image, ReadError}
    decreases |walk|
  {
    if walk != [] {
      var init, e := walk[..|walk| - 1], walk[|walk| - 1];
      ImageMembership(init, p);
      assert ImagePaths(walk) ==
             ImagePaths(init) + (if e.VisitFile? && Included(IsImageFile(e.probe)) then [e.path] else []);
      if p in ImagePaths(init) {
        var i :| 0 <= i < |init| && init[i].VisitFile? && init[i].path == p &&
                 IsImageFile(init[i].probe) in {Image, ReadError};
        assert walk[i] == init[i];
      }
      if exists i :: 0 <= i < |walk| && walk[i].VisitFile? && walk[i].path == p &&
                     IsImageFile(walk[i].probe) in {Image, ReadError} {
        var i :| 0 <= i < |walk| && walk[i].VisitFile? && walk[i].path == p &&
                 IsImageFile(walk[i].probe) in {Image, ReadError};
        if i < |init| {
          assert init[i] == walk[i];
        }
      }
    }
  }

  /** A name is in the non-image list iff some file of the walk has it and was read as a non-image. */
  lemma {:induction false} NonImageMembership(walk: seq<WalkEvent>, n: string)
    ensures n in NonImageNames(walk) <==>
            exists i :: 0 <= i < |walk| && walk[i].VisitFile? && walk[i].name == n &&
                        IsImageFile(walk[i].probe) == NonImage
    decreases |walk|
  {
    if walk != [] {
      var init := walk[..|walk| - 1];
      NonImageMembership(init, n);
      if n in NonImageNames(init) {
        var i :| 0 <= i < |init| && init[i].VisitFile? && init[i].name == n &&
                 IsImageFile(init[i].probe) == NonImage;
        assert walk[i] == init[i];
      }
      if exists i :: 0 <= i < |walk| && walk[i].VisitFile? && walk[i].name == n &&
                     IsImageFile(walk[i].probe) == NonImage {
        var i :| 0 <= i < |walk| && walk[i].VisitFile? && walk[i].name == n &&
                 IsImageFile(walk[i].probe) == NonImage;
        if i < |init| {
          assert init[i] == walk[i];
        }
      }
    }
  }

  /**
   * `analyzeDirectory`: the first walk error aborts the scan and discards both
   * lists; otherwise each file is classified and appended to one list, and
   * both lists are sorted.
   */
  method AnalyzeDirectory(walk: seq<WalkEvent>) returns (imageFiles: seq<string>, nonImageFiles: seq<string>, ok: bool)
    ensures ok <==> !WalkFailed(walk)
    ensures !ok ==> imageFiles == [] && nonImageFiles == []
    ensures ok ==> imageFiles == SortStrings(ImagePaths(walk)) && nonImageFiles == SortStrings(NonImageNames(walk))
    ensures ok ==> Sorted(imageFiles) && Sorted(nonImageFiles)
    ensures ok ==> |imageFiles| + |nonImageFiles| == FileCount(walk)
  {
    imageFiles, nonImageFiles := [], [];
    var i := 0;
    while i < |walk|
      invariant 0 <= i <= |walk|
      invariant forall k :: 0 <= k < i ==> !walk[k].VisitError?
      invariant imageFiles == ImagePaths(walk[..i])
      invariant nonImageFiles == NonImageNames(walk[..i])
    {
      ghost var prefix := walk[..i + 1];
      assert prefix[..i] == walk[..i] && prefix[i] == walk[i];
      assert ImagePaths(prefix) == ImagePaths(walk[..i]) +
        (if walk[i].VisitFile? && Included(IsImageFile(walk[i].probe)) then [walk[i].path] else []);
      assert NonImageNames(prefix) == NonImageNames(walk[..i]) +
        (if walk[i].VisitFile? && !Included(IsImageFile(walk[i].probe)) then [walk[i].name] else []);
      match walk[i] {
        case VisitError =>
          return [], [], false;
        case VisitDir =>
        case VisitFile(path, name, probe) =>
          var c := IsImageFile(probe);
          if c == ReadError {
            imageFiles := imageFiles + [path];
          } else if c == Image {
            imageFiles := imageFiles + [path];
          } else {
            nonImageFiles := nonImageFiles + [name];
          }
      }
      i := i + 1;
    }
    assert walk[..i] == walk;
    PartitionComplete(walk);
    imageFiles := SortStrings(imageFiles);
    nonImageFiles := SortStrings(nonImageFiles);
    ok := true;
    assert !WalkFailed(walk);
  }
}

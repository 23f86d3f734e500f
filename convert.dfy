/**
 * `convertToCBZ`: scan the folder, refuse an empty image set, create the
 * archive and add the images to it in sorted order, stopping at the first
 * failure. Zip encoding itself is not modelled: the archive is the list of
 * image paths whose entries were written.
 */
module Convert {
  import opened GoStrings
  import opened Sorting
  import opened Scanner

  datatype ConvertError =
    | AnalyzeFailed  // "failed to analyze directory"
    | NoImageFiles   // "no image files found"
    | CreateFailed   // "failed to create CBZ file"
    | AddFailed      // "failed to add file to archive"

  datatype Status = Succeeded | Failed(reason: ConvertError)

  /**
   * The result of one conversion: the excluded count `convertToCBZ` returns,
   * its error, whether the destination file was created on disk, and the
   * image paths written into it, in order.
   */
  datatype Conversion = Conversion(nonImageCount: nat, status: Status, created: bool, archived: seq<string>)

  /** Index of the first image `addFileToZip` fails on, or `|images|` if none fails. */
  function FirstRejected(images: seq<string>, addOk: string -> bool): (k: nat)
    ensures k <= |images|
    ensures forall i :: 0 <= i < k ==> addOk(images[i])
    ensures k < |images| ==> !addOk(images[k])
  {
    if images == [] then 0
    else if !addOk(images[0]) then 0
    else 1 + FirstRejected(images[1..], addOk)
  }

  /**
   * What converting a folder yields, given its walk, whether `os.Create`
   * succeeds on the destination, and which image files `addFileToZip`
   * manages to add.
   */
  function Expected(walk: seq<WalkEvent>, createOk: bool, addOk: string -> bool): (c: Conversion)
    ensures c.created ==> createOk && !WalkFailed(walk)
    ensures c.created <==> c.status == Succeeded || c.status == Failed(AddFailed)
    ensures |c.archived| <= |ImagePaths(walk)|
  {
    if WalkFailed(walk) then Conversion(0, Failed(AnalyzeFailed), false, [])
    else
      var images := SortStrings(ImagePaths(walk));
      if |images| == 0 then Conversion(0, Failed(NoImageFiles), false, [])
      else if !createOk then Conversion(0, Failed(CreateFailed), false, [])
      else
        var k := FirstRejected(images, addOk);
        if k < |images| then Conversion(0, Failed(AddFailed), true, images[..k])
        else Conversion(|NonImageNames(walk)|, Succeeded, true, images)
  }

  /**
   * The loop of `convertToCBZ` that adds the images to the archive in order
   * and stops at the first one `addFileToZip` fails on.
   */
  method AddImages(imageFiles: seq<string>, addOk: string -> bool) returns (archived: seq<string>, ok: bool)
    ensures ok <==> forall j :: 0 <= j < |imageFiles| ==> addOk(imageFiles[j])
    ensures archived == imageFiles[..FirstRejected(imageFiles, addOk)]
  {
    archived := [];
    var i := 0;
    while i < |imageFiles|
      invariant 0 <= i <= |imageFiles|
      invariant archived == imageFiles[..i]
      invariant forall j :: 0 <= j < i ==> addOk(imageFiles[j])
    {
      if !addOk(imageFiles[i]) {
        assert FirstRejected(imageFiles, addOk) == i;
        return archived, false;
      }
      archived := archived + [imageFiles[i]];
      i := i + 1;
    }
    assert FirstRejected(imageFiles, addOk) == |imageFiles|;
    ok := true;
  }

  /** `convertToCBZ`, with the archive I/O given by `createOk` and `addOk`. */
  method ConvertToCBZ(walk: seq<WalkEvent>, createOk: bool, addOk: string -> bool) returns (c: Conversion)
    ensures c == Expected(walk, createOk, addOk)
  {
    var imageFiles, nonImageFiles, ok := AnalyzeDirectory(walk);
    if !ok {
      return Conversion(0, Failed(AnalyzeFailed), false, []);
    }
    assert |nonImageFiles| == |NonImageNames(walk)|;
    if |imageFiles| == 0 {
      return Conversion(0, Failed(NoImageFiles), false, []);
    }
    if !createOk {
      return Conversion(0, Failed(CreateFailed), false, []);
    }
    var archived, added := AddImages(imageFiles, addOk);
    if !added {
      return Conversion(0, Failed(AddFailed), true, archived);
    }
    c := Conversion(|nonImageFiles|, Succeeded, true, archived);
  }

  /** A failed conversion reports no excluded files. */
  lemma FailureReportsZero(walk: seq<WalkEvent>, createOk: bool, addOk: string -> bool)
    ensures Expected(walk, createOk, addOk).status.Failed? ==> Expected(walk, createOk, addOk).nonImageCount == 0
  {
  }

  /**
   * A conversion succeeds exactly when the walk has no error, at least one
   * file is included, the archive can be created and every included file can
   * be added.
   */
  lemma SucceedsIff(walk: seq<WalkEvent>, createOk: bool, addOk: string -> bool)
    ensures Expected(walk, createOk, addOk).status == Succeeded <==>
            !WalkFailed(walk) && |ImagePaths(walk)| > 0 && createOk &&
            forall p :: p in ImagePaths(walk) ==> addOk(p)
  {
    if !WalkFailed(walk) {
      var images := SortStrings(ImagePaths(walk));
      forall p
        ensures p in images <==> p in ImagePaths(walk)
      {
        assert p in images <==> p in multiset(images);
      }
      var k := FirstRejected(images, addOk);
      if k < |images| {
        assert images[k] in ImagePaths(walk);
      } else {
        forall p | p in ImagePaths(walk)
          ensures addOk(p)
        {
          var j :| 0 <= j < |images| && images[j] == p;
        }
      }
    }
  }

  /**
   * On success the archive holds exactly the included files, in ascending
   * order, and the reported count is the number of non-image files.
   */
  lemma {:induction false} SuccessArchivesExactlyImages(walk: seq<WalkEvent>, createOk: bool, addOk: string -> bool)
    requires Expected(walk, createOk, addOk).status == Succeeded
    ensures var c := Expected(walk, createOk, addOk);
            Sorted(c.archived) && multiset(c.archived) == multiset(ImagePaths(walk)) &&
            c.nonImageCount == |NonImageNames(walk)| &&
            c.nonImageCount + |c.archived| == FileCount(walk)
  {
    PartitionComplete(walk);
  }

  /** A folder whose files are all non-images fails and leaves no archive behind. */
  lemma {:induction false} OnlyNonImagesFails(walk: seq<WalkEvent>, createOk: bool, addOk: string -> bool)
    requires !WalkFailed(walk)
    requires forall i :: 0 <= i < |walk| && walk[i].VisitFile? ==> IsImageFile(walk[i].probe) == NonImage
    ensures Expected(walk, createOk, addOk) == Conversion(0, Failed(NoImageFiles), false, [])
  {
    if ImagePaths(walk) != [] {
      var p := ImagePaths(walk)[0];
      ImageMembership(walk, p);
    }
  }

  /**
   * A write failure after `os.Create` leaves the partly written destination
   * file on disk, holding the images added before the failing one.
   */
  lemma PartialArchiveRemains(walk: seq<WalkEvent>, createOk: bool, addOk: string -> bool)
    requires Expected(walk, createOk, addOk).status == Failed(AddFailed)
    ensures var c := Expected(walk, createOk, addOk);
            c.created && |c.archived| < |SortStrings(ImagePaths(walk))| &&
            c.archived == SortStrings(ImagePaths(walk))[..|c.archived|]
  {
  }

  /**
   * Whatever the outcome, the archive holds a prefix of the sorted image
   * list: images are added in order and adding stops at the first failure.
   */
  lemma ArchivedIsPrefix(walk: seq<WalkEvent>, createOk: bool, addOk: string -> bool)
    ensures Expected(walk, createOk, addOk).archived <= SortStrings(ImagePaths(walk))
  {
  }
}

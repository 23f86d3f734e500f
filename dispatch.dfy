/**
 * Work dispatch: `processWorkItem` settles one job into exactly one outcome,
 * and `main` runs every job of the input root. The worker pool and its
 * channel are replaced by a sequential loop; `OrderIndependent` shows that
 * the final counters do not depend on the order the workers pick jobs in.
 */
module Dispatch {
  import opened Sorting
  import opened Threads
  import opened Jobs
  import opened Scanner
  import opened Convert
  import opened Stats
  import opened Multisets

  /**
   * The file system as the jobs observe it during one run: whether a path
   * exists (`os.Stat`), what `filepath.WalkDir` visits under a folder,
   * whether `os.Create` succeeds on a destination, and whether
   * `addFileToZip` succeeds on an image path.
   */
  datatype FileSystem = FileSystem(
    present: Path -> bool,
    walk: Path -> seq<WalkEvent>,
    createOk: Path -> bool,
    addOk: string -> bool)

  /** What `convertToCBZ` yields for a job. */
  function JobConversion(item: WorkItem, fs: FileSystem): (c: Conversion)
    ensures c.created ==> fs.createOk(item.outputPath)
    ensures |c.archived| <= |ImagePaths(fs.walk(item.sourcePath))|
  {
    Expected(fs.walk(item.sourcePath), fs.createOk(item.outputPath), fs.addOk)
  }

  /** The terminal outcome of a job: skip if the archive exists, else error or success. */
  function JobOutcome(item: WorkItem, fs: FileSystem): (o: Outcome)
    ensures o == Skip <==> fs.present(item.outputPath)
    ensures o == Error <==> !fs.present(item.outputPath) && JobConversion(item, fs).status.Failed?
    ensures o.Success? ==> o.excluded == |NonImageNames(fs.walk(item.sourcePath))|
  {
    if fs.present(item.outputPath) then Skip
    else if JobConversion(item, fs).status.Failed? then Error
    else Success(JobConversion(item, fs).nonImageCount)
  }

  /** A job archives images of its own source folder, in sorted order. */
  lemma JobArchivesOwnImages(item: WorkItem, fs: FileSystem)
    ensures JobConversion(item, fs).archived <= SortStrings(ImagePaths(fs.walk(item.sourcePath)))
  {
    ArchivedIsPrefix(fs.walk(item.sourcePath), fs.createOk(item.outputPath), fs.addOk);
  }

  /**
   * `processWorkItem`: the existence check runs first, so a skipped job never
   * scans the folder; a failed conversion counts one error; a successful one
   * counts one success and its excluded files.
   */
  method ProcessWorkItem(item: WorkItem, stats: ConversionStats, fs: FileSystem)
    modifies stats
    ensures stats.total == old(stats.total)
    ensures stats.Counters() == Plus(old(stats.Counters()), Of(JobOutcome(item, fs)))
  {
    if fs.present(item.outputPath) {
      stats.RecordSkipped();
      return;
    }
    var c := ConvertToCBZ(fs.walk(item.sourcePath), fs.createOk(item.outputPath), fs.addOk);
    if c.status.Failed? {
      stats.RecordError();
      return;
    }
    stats.RecordSuccess(c.nonImageCount);
  }

  /** The outcomes of the jobs, in the order given. */
  function Outcomes(items: seq<WorkItem>, fs: FileSystem): (os: seq<Outcome>)
    ensures |os| == |items|
    ensures forall i :: 0 <= i < |items| ==> os[i] == JobOutcome(items[i], fs)
  {
    seq(|items|, i requires 0 <= i < |items| => JobOutcome(items[i], fs))
  }

  lemma OutcomesConcat(a: seq<WorkItem>, b: seq<WorkItem>, fs: FileSystem)
    ensures Outcomes(a + b, fs) == Outcomes(a, fs) + Outcomes(b, fs)
  {
  }

  /** One more job adds exactly its own outcome to the tally. */
  lemma TallyStep(items: seq<WorkItem>, i: nat, fs: FileSystem)
    requires i < |items|
    ensures Tally(Outcomes(items[..i + 1], fs)) == Plus(Tally(Outcomes(items[..i], fs)), Of(JobOutcome(items[i], fs)))
  {
    assert items[..i + 1] == items[..i] + [items[i]];
    OutcomesConcat(items[..i], [items[i]], fs);
    TallySnoc(Outcomes(items[..i], fs), JobOutcome(items[i], fs));
  }

  /** Each job is processed once, one after the other, into the shared counters. */
  method ProcessAll(items: seq<WorkItem>, stats: ConversionStats, fs: FileSystem)
    modifies stats
    ensures stats.total == old(stats.total)
    ensures stats.Counters() == Plus(old(stats.Counters()), Tally(Outcomes(items, fs)))
  {
    var i := 0;
    assert Outcomes(items[..0], fs) == [];
    while i < |items|
      invariant 0 <= i <= |items|
      invariant stats.total == old(stats.total)
      invariant stats.Counters() == Plus(old(stats.Counters()), Tally(Outcomes(items[..i], fs)))
    {
      ProcessWorkItem(items[i], stats, fs);
      TallyStep(items, i, fs);
      PlusAssociative(old(stats.Counters()), Tally(Outcomes(items[..i], fs)), Of(JobOutcome(items[i], fs)));
      i := i + 1;
    }
    assert items[..i] == items;
  }

  /** Taking one job out of the list takes exactly its outcome out of the outcomes. */
  lemma OutcomesRemove(b: seq<WorkItem>, j: nat, fs: FileSystem)
    requires j < |b|
    ensures multiset(Outcomes(b, fs)) == multiset(Outcomes(b[..j] + b[j + 1..], fs)) + multiset{JobOutcome(b[j], fs)}
  {
    RemoveAt(b, j);
    OutcomesConcat(b[..j] + [b[j]], b[j + 1..], fs);
    OutcomesConcat(b[..j], [b[j]], fs);
    OutcomesConcat(b[..j], b[j + 1..], fs);
    var pre, post := Outcomes(b[..j], fs), Outcomes(b[j + 1..], fs);
    assert Outcomes([b[j]], fs) == [JobOutcome(b[j], fs)];
    assert Outcomes(b, fs) == pre + [JobOutcome(b[j], fs)] + post;
  }

  /** Processing the same jobs in another order yields the same multiset of outcomes. */
  lemma {:induction false} OutcomesPermutation(a: seq<WorkItem>, b: seq<WorkItem>, fs: FileSystem)
    requires multiset(a) == multiset(b)
    ensures multiset(Outcomes(a, fs)) == multiset(Outcomes(b, fs))
    decreases |a|
  {
    if a == [] {
      EmptyPermutation(a, b);
    } else {
      var j := MatchLast(a, b);
      OutcomesPermutation(a[..|a| - 1], b[..j] + b[j + 1..], fs);
      OutcomesRemove(b, j, fs);
      OutcomesRemove(a, |a| - 1, fs);
      assert a[..|a| - 1] + a[|a|..] == a[..|a| - 1];
    }
  }

  /**
   * Whatever order the workers take the jobs in, the final counters are the
   * same: the concurrent run ends where the sequential one does.
   */
  lemma OrderIndependent(a: seq<WorkItem>, b: seq<WorkItem>, fs: FileSystem)
    requires multiset(a) == multiset(b)
    ensures Tally(Outcomes(a, fs)) == Tally(Outcomes(b, fs))
  {
    OutcomesPermutation(a, b, fs);
    TallyPermutation(Outcomes(a, fs), Outcomes(b, fs));
  }

  /**
   * The folder listing and work-item construction in `main`: list the
   * folders of the input root and build one work item per folder, in
   * ascending folder order.
   */
  method EnumerateJobs(listing: Listing, inputDir: string, outputDir: string)
    returns (items: seq<WorkItem>, ok: bool)
    ensures ok <==> listing.Listed?
    ensures !ok ==> items == []
    ensures ok ==>
              var folders := SortStrings(DirNames(listing.entries));
              |items| == |folders| &&
              forall i :: 0 <= i < |items| ==>
                items[i] == WorkItem(folders[i], Join(inputDir, folders[i]), Join(outputDir, ArchiveName(folders[i])))
    ensures ok && DistinctNames(listing.entries) ==>
              forall j, k :: 0 <= j < k < |items| ==> items[j].outputPath != items[k].outputPath
  {
    var folders;
    folders, ok := GetFolders(listing);
    if !ok {
      return [], false;
    }
    items := BuildWorkItems(inputDir, outputDir, folders);
    if DistinctNames(listing.entries) {
      DistinctOutputs(outputDir, folders, items);
    }
  }

  /**
   * `main` from the thread clamp on: a listing error ends the process, an
   * input root without folders ends it early, and otherwise every job runs
   * against counters initialised with the job count.
   */
  method Run(listing: Listing, inputDir: string, outputDir: string, requested: int, cpu: int, fs: FileSystem)
    returns (threads: int, items: seq<WorkItem>, stats: ConversionStats?)
    requires cpu >= 1
    ensures 1 <= threads <= 2 * cpu
    ensures stats == null <==> listing.ListFailed? || DirNames(listing.entries) == []
    ensures listing.ListFailed? ==> items == []
    ensures listing.Listed? ==>
              var folders := SortStrings(DirNames(listing.entries));
              |items| == |folders| &&
              forall i :: 0 <= i < |items| ==>
                items[i] == WorkItem(folders[i], Join(inputDir, folders[i]), Join(outputDir, ArchiveName(folders[i])))
    ensures listing.Listed? && DistinctNames(listing.entries) ==>
              forall j, k :: 0 <= j < k < |items| ==> items[j].outputPath != items[k].outputPath
    ensures stats != null ==>
              fresh(stats) && stats.total == |items| &&
              stats.Counters() == Tally(Outcomes(items, fs)) &&
              stats.success + stats.errors + stats.skipped == stats.total
  {
    var limited, ok;
    threads, limited := ClampThreads(requested, cpu);
    items, ok := EnumerateJobs(listing, inputDir, outputDir);
    if !ok {
      return threads, [], null;
    }
    if |items| == 0 {
      assert |SortStrings(DirNames(listing.entries))| == 0;
      return threads, [], null;
    }
    stats := new ConversionStats(|items|);
    ProcessAll(items, stats, fs);
    PlusZero(Tally(Outcomes(items, fs)));
  }

  /** The destination file exists after this job ran: it was written by this run. */
  predicate Created(item: WorkItem, fs: FileSystem)
  {
    !fs.present(item.outputPath) && JobConversion(item, fs).created
  }

  /** The file system a following run sees: every archive this run created now exists. */
  function AfterRun(items: seq<WorkItem>, fs: FileSystem): FileSystem
  {
    fs.(present := p => fs.present(p) || exists k :: 0 <= k < |items| && items[k].outputPath == p && Created(items[k], fs))
  }

  /**
   * Running again over the same jobs skips exactly the jobs that were skipped
   * or succeeded, and those that failed while writing their archive: the
   * partly written file is taken for a finished one. Jobs that failed before
   * creating the file are tried again.
   */
  lemma RerunSkips(items: seq<WorkItem>, fs: FileSystem, i: int)
    requires 0 <= i < |items|
    requires forall j, k :: 0 <= j < k < |items| ==> items[j].outputPath != items[k].outputPath
    ensures JobOutcome(items[i], AfterRun(items, fs)) == Skip <==>
            JobOutcome(items[i], fs) != Error || JobConversion(items[i], fs).status == Failed(AddFailed)
  {
    var item := items[i];
    var c := JobConversion(item, fs);
    if !fs.present(item.outputPath) {
      if c.status == Succeeded || c.status == Failed(AddFailed) {
        assert c.created;
        assert Created(items[i], fs);
      } else {
        assert !c.created;
      }
    }
  }
}

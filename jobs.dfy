/**
 * Job enumeration: `getFolders` keeps the sub-directories of the input root,
 * sorted, and `main` builds one work item per folder.
 */
module Jobs {
  import opened GoStrings
  import opened Sorting
  import opened Multisets

  /** One entry of an `os.ReadDir` listing. */
  datatype DirEntry = DirEntry(name: string, isDir: bool)

  /** What `os.ReadDir` returned: the entries, or an error. */
  datatype Listing = Listed(entries: seq<DirEntry>) | ListFailed

  /** `filepath.Join(dir, elem)`, kept symbolic. */
  datatype Path = Join(dir: string, elem: string)

  /** One conversion job. */
  datatype WorkItem = WorkItem(folderName: string, sourcePath: Path, outputPath: Path)

  const ArchiveSuffix: string := ".cbz"

  /** The names of the directory entries, in listing order. */
  function DirNames(entries: seq<DirEntry>): (names: seq<string>)
    ensures |names| <= |entries|
    ensures (forall i :: 0 <= i < |entries| ==> entries[i].isDir) ==> |names| == |entries|
  {
    if entries == [] then []
    else
      var last := entries[|entries| - 1];
      DirNames(entries[..|entries| - 1]) + (if last.isDir then [last.name] else [])
  }

  /** A name is among `DirNames` exactly when some directory entry carries it. */
  lemma {:induction false} DirNamesMembership(entries: seq<DirEntry>, n: string)
    ensures n in DirNames(entries) <==>
            exists i :: 0 <= i < |entries| && entries[i].isDir && entries[i].name == n
    decreases |entries|
  {
    if entries != [] {
      var init := entries[..|entries| - 1];
      DirNamesMembership(init, n);
      if n in DirNames(init) {
        var i :| 0 <= i < |init| && init[i].isDir && init[i].name == n;
        assert entries[i] == init[i];
      }
      if exists i :: 0 <= i < |entries| && entries[i].isDir && entries[i].name == n {
        var i :| 0 <= i < |entries| && entries[i].isDir && entries[i].name == n;
        if i < |init| {
          assert init[i] == entries[i];
        }
      }
    }
  }

  /** A directory never lists two entries under the same name. */
  predicate DistinctNames(entries: seq<DirEntry>)
  {
    forall i, j :: 0 <= i < j < |entries| ==> entries[i].name != entries[j].name
  }

  predicate NoDuplicates(s: seq<string>)
  {
    forall i, j :: 0 <= i < j < |s| ==> s[i] != s[j]
  }

  /** Distinct entry names give distinct folder names. */
  lemma {:induction false} DirNamesDistinct(entries: seq<DirEntry>)
    requires DistinctNames(entries)
    ensures NoDuplicates(DirNames(entries))
    decreases |entries|
  {
    if entries != [] {
      var init, last := entries[..|entries| - 1], entries[|entries| - 1];
      assert DistinctNames(init) by {
        forall i, j | 0 <= i < j < |init| ensures init[i].name != init[j].name {
          assert init[i] == entries[i] && init[j] == entries[j];
        }
      }
      DirNamesDistinct(init);
      if last.isDir {
        DirNamesMembership(init, last.name);
        forall i | 0 <= i < |init| ensures init[i].name != last.name {
          assert init[i] == entries[i];
        }
        var names := DirNames(init) + [last.name];
        forall i, j | 0 <= i < j < |names| ensures names[i] != names[j] {
          if j == |names| - 1 {
            assert names[i] in DirNames(init);
          }
        }
      }
    }
  }

  /** Sorting a slice without repeats leaves it without repeats. */
  lemma SortKeepsDistinct(s: seq<string>)
    requires NoDuplicates(s)
    ensures NoDuplicates(SortStrings(s))
  {
    var r := SortStrings(s);
    forall i, j | 0 <= i < j < |r|
      ensures r[i] != r[j]
    {
      if r[i] == r[j] {
        RepeatCount(r, i, j);
        DistinctCount(s, r[i]);
      }
    }
  }

  /**
   * `getFolders`: on a listing error nothing is returned; otherwise the names
   * of the directory entries, files dropped, in ascending order.
   */
  method GetFolders(listing: Listing) returns (folders: seq<string>, ok: bool)
    ensures ok <==> listing.Listed?
    ensures !ok ==> folders == []
    ensures ok ==> Sorted(folders) && multiset(folders) == multiset(DirNames(listing.entries))
    ensures ok ==> folders == SortStrings(DirNames(listing.entries))
    ensures ok && DistinctNames(listing.entries) ==> NoDuplicates(folders)
    ensures ok ==> forall n :: n in folders <==>
                     exists i :: 0 <= i < |listing.entries| && listing.entries[i].isDir && listing.entries[i].name == n
  {
    if listing.ListFailed? {
      return [], false;
    }
    var entries := listing.entries;
    folders := [];
    var i := 0;
    while i < |entries|
      invariant 0 <= i <= |entries|
      invariant folders == DirNames(entries[..i])
    {
      assert entries[..i + 1][..i] == entries[..i];
      if entries[i].isDir {
        folders := folders + [entries[i].name];
      }
      i := i + 1;
    }
    assert entries[..i] == entries;
    folders := SortStrings(folders);
    ok := true;
    if DistinctNames(entries) {
      DirNamesDistinct(entries);
      SortKeepsDistinct(DirNames(entries));
    }
    forall n
      ensures n in folders <==> exists i :: 0 <= i < |entries| && entries[i].isDir && entries[i].name == n
    {
      assert n in folders <==> n in multiset(DirNames(entries));
      DirNamesMembership(entries, n);
    }
  }

  /** The archive a folder is converted into: `folder + ".cbz"`. */
  function ArchiveName(folder: string): string
  {
    folder + ArchiveSuffix
  }

  /** Different folders never share an archive name. */
  lemma ArchiveNameInjective(a: string, b: string)
    requires ArchiveName(a) == ArchiveName(b)
    ensures a == b
  {
    assert |a| == |b|;
    assert a == ArchiveName(a)[..|a|] && b == ArchiveName(b)[..|b|];
  }

  /**
   * The work-item loop of `main`: one item per folder, in folder order, reading
   * from `inputDir/folder` and writing `outputDir/folder.cbz`.
   */
  method BuildWorkItems(inputDir: string, outputDir: string, folders: seq<string>)
    returns (items: seq<WorkItem>)
    ensures |items| == |folders|
    ensures forall i :: 0 <= i < |folders| ==>
              items[i].folderName == folders[i] &&
              items[i].sourcePath == Join(inputDir, folders[i]) &&
              items[i].outputPath == Join(outputDir, ArchiveName(folders[i]))
  {
    var a := new WorkItem[|folders|];
    for i := 0 to |folders|
      invariant forall k :: 0 <= k < i ==>
                  a[k] == WorkItem(folders[k], Join(inputDir, folders[k]), Join(outputDir, ArchiveName(folders[k])))
    {
      a[i] := WorkItem(folders[i], Join(inputDir, folders[i]), Join(outputDir, ArchiveName(folders[i])));
    }
    items := a[..];
  }

  /** Distinct folder names give distinct destination archives. */
  lemma DistinctOutputs(outputDir: string, folders: seq<string>, items: seq<WorkItem>)
    requires NoDuplicates(folders)
    requires |items| == |folders|
    requires forall i :: 0 <= i < |folders| ==> items[i].outputPath == Join(outputDir, ArchiveName(folders[i]))
    ensures forall i, j :: 0 <= i < j < |items| ==> items[i].outputPath != items[j].outputPath
  {
    forall i, j | 0 <= i < j < |items|
      ensures items[i].outputPath != items[j].outputPath
    {
      if items[i].outputPath == items[j].outputPath {
        ArchiveNameInjective(folders[i], folders[j]);
      }
    }
  }
}

# convert_cbz, modelled in Dafny

`convert_cbz` is a command-line tool. It turns every top-level folder of an input directory into a comic-book archive: a zip file named `<folder>.cbz` in the output directory. If the archive already exists, the folder is skipped. Each file gets a content-type sniff. A file reported as an image goes into the archive, and so does any file that could not be read (the fail-safe policy). The other files are only counted and reported. Jobs run on a pool of workers whose size is clamped to `[1, 2 × CPUs]`. All jobs feed one set of shared counters.

This project models the sequential decision logic under that plumbing, over abstract inputs, and proves what it promises:

- `truncate.dfy` (`Truncate`): the rune-level truncation used for folder names in log lines.
- `threads.dfy` (`Threads`): the thread-count clamp in `main`.
- `jobs.dfy` (`Jobs`): `getFolders` and the loop that builds the work items. A directory listing is a sequence of `DirEntry(name, isDir)`, or a listing error.
- `scanner.dfy` (`Scanner`): `isImageFile` and the partition that `analyzeDirectory` performs. The walk of a folder is a sequence of `WalkEvent`s: a directory, a file with what its first read observed, or a walk error.
- `convert.dfy` (`Convert`): the decisions `convertToCBZ` makes. The function `Expected` states them, and the method `ConvertToCBZ` is proved to agree with it.
- `stats.dfy` (`Stats`): the `ConversionStats` counters, each job's `Outcome`, `Tally` (what a run of jobs adds up to), and the success rate of the final report.
- `dispatch.dfy` (`Dispatch`): `processWorkItem`, the dispatch of all jobs, `main`'s flow, and what a second run over the same output does.
- `strings.dfy`, `sorting.dfy`, `multisets.dfy`, `wrappers.dfy`: Go's string order, `sort.Strings`, and shared helpers.

A few modelling choices:

- A Go string is a `seq<char>` with one element per rune.
- Go orders strings by their UTF-8 bytes. For valid UTF-8, byte order is the same as code-point order, so `LessEq` compares runes lexicographically. Names are taken to be valid UTF-8.
- `sort.Strings` sorts in place. Here it is the pure function `SortStrings`. `SortedPermutationUnique` shows that any correct sort gives the same result.
- The file system is a `FileSystem` value: which paths exist, what a walk of each folder visits, whether `os.Create` succeeds, and whether `addFileToZip` succeeds for an image. Each job reads it as a snapshot. That is exact when all destinations differ, which is the case when folder names differ (`DistinctOutputs`). Jobs also must not scan each other's archives (the output directory is outside the input folders).
- The worker pool is a sequential loop. `OrderIndependent` proves that every processing order gives the same final counters.

A partly written archive counts as finished on the next run. A failure while adding files leaves the partly written destination on disk (main.go:260-275; `PartialArchiveRemains`). The next run's existence check then skips that folder (main.go:216-222; `RerunSkips`).

## Model

| member | source | states |
|---|---|---|
| `Truncate.TruncateString` | main.go:439-449 | Needs `maxLen >= 0`, since Go panics on a negative slice bound. The result has `min(len, maxLen)` runes. It equals the input iff the input fits. Otherwise it is the first `maxLen` runes when `maxLen <= 3`, or else the first `maxLen-3` runes followed by `"..."`. |
| `Truncate.TruncateWithinBudget` | main.go:439-449 | A truncated string never has more than `maxLen` runes. |
| `Truncate.TruncateIdempotent` | main.go:439-449 | Truncating a truncated string to the same budget changes nothing. |
| `Threads.ClampThreads` | main.go:71-77 | The effective count lies in `[1, 2*cpu]`. A request already in range is kept. A request below 1 becomes 1. A request above the ceiling becomes exactly `2*cpu`, and only then is the notice logged. |
| `GoStrings.LessEq` | main.go:169 | Go's string order, as `sort.Strings` uses it. A non-empty string sorts at or before another only if the other is non-empty and starts with a rune that is not smaller. |
| `GoStrings.PrefixFirst` | main.go:169 | A string sorts at or before every string it is a prefix of. |
| `GoStrings.LessEqReflexive` | main.go:169 | Every string is at or before itself. |
| `GoStrings.LessEqTotal` | main.go:169 | Any two strings are ordered one way or the other. |
| `GoStrings.LessEqAntisymmetric` | main.go:169 | Two strings each at or before the other are equal. |
| `GoStrings.LessEqTransitive` | main.go:169 | The order is transitive. |
| `Sorting.SortStrings` | main.go:169 | `sort.Strings` leaves the strings sorted ascending, as a permutation of the input. |
| `Sorting.SortedPermutationUnique` | main.go:169 | Two sorted sequences holding the same strings are equal, so the sorted order is fully determined. |
| `Sorting.SortIgnoresOrder` | main.go:318-319 | Sorting depends only on which strings were collected, not on the order the walk produced them in. |
| `Jobs.DirNames` | main.go:162-166 | The listing loop keeps at most one name per entry. When every entry is a directory, it keeps all of them. |
| `Jobs.DirNamesMembership` | main.go:162-166 | A name is kept by the listing loop iff some directory entry carries it. Files are dropped. |
| `Jobs.GetFolders` | main.go:154-171 | A listing error gives no folders and an error. Otherwise the result holds exactly the names of the directory entries (same multiset), sorted ascending. When the listing's names are distinct, so are the folders. |
| `Jobs.DirNamesDistinct` | main.go:162-166 | Entries with distinct names give folder names without repeats. |
| `Jobs.SortKeepsDistinct` | main.go:169 | Sorting a list without repeats leaves it without repeats. |
| `Jobs.ArchiveNameInjective` | main.go:115 | Two folders with the same archive name `folder + ".cbz"` are the same folder. |
| `Jobs.BuildWorkItems` | main.go:110-117 | One work item per folder, in folder order. Item `i` has `FolderName == folders[i]`, source `inputDir/folders[i]` and output `outputDir/folders[i].cbz`. |
| `Jobs.DistinctOutputs` | main.go:110-117 | Distinct folder names give pairwise distinct destination archives. |
| `Scanner.IsImageFile` | main.go:324-346 | An open failure, or a read failure other than EOF, is an error. Otherwise the file is an image iff its sniffed content type starts with `"image/"`. |
| `Scanner.EofIsNotAnError` | main.go:334-337 | A read that ends at EOF is classified exactly like a full read. It is never an error. |
| `Scanner.ImagePaths` | main.go:296-303 | The included paths, in walk order. There are at most as many as the walk has files. |
| `Scanner.NonImageNames` | main.go:304-307 | The base names of the excluded files, in walk order. There are at most as many as the walk has files. |
| `Scanner.PartitionComplete` | main.go:291-307 | Directories are not recorded, and every file lands in exactly one list: `|images| + |nonImages|` is the number of files. |
| `Scanner.ImageMembership` | main.go:296-303 | A path is in the image list iff some walked file has it and is classified `Image` or `ReadError` (the fail-safe inclusion). |
| `Scanner.NonImageMembership` | main.go:304-307 | A name is in the non-image list iff some walked file has that base name and is classified `NonImage`. |
| `Scanner.AnalyzeDirectory` | main.go:280-322 | Any walk error aborts the scan and returns no lists. Otherwise both lists are the sorted partition of the walk's files. Both are sorted, and their lengths add up to the file count. |
| `Convert.FirstRejected` | main.go:271-275 | The index where adding stops: every earlier image was added, and the image at that index, if any, failed. |
| `Convert.AddImages` | main.go:271-275 | The add loop succeeds iff every image can be added. The archive then holds the images up to the first failure, in order. |
| `Convert.Expected` | main.go:248-278 | A destination is created only if the walk had no error and `os.Create` succeeded. It is left on disk exactly when the conversion succeeds or fails while adding files. It holds at most as many paths as the walk has included files. |
| `Convert.ArchivedIsPrefix` | main.go:270-275 | Whatever the outcome, the archive holds a prefix of the sorted image list, since images are added in order and adding stops at the first failure. |
| `Convert.ConvertToCBZ` | main.go:248-278 | The conversion equals `Expected`. In order, it fails on a scan error, on an empty image list ("no image files found"), on a create failure, or on the first add failure. Otherwise it succeeds with `len(nonImageFiles)`. |
| `Convert.FailureReportsZero` | main.go:250-274 | Every failed conversion reports 0 excluded files. |
| `Convert.SucceedsIff` | main.go:248-278 | A conversion succeeds iff the walk has no error, at least one file is included, the archive can be created, and every included file can be added. |
| `Convert.SuccessArchivesExactlyImages` | main.go:271-277 | On success the archive holds exactly the included files, sorted. The reported count is the number of non-image files, and the two add up to the file count. |
| `Convert.OnlyNonImagesFails` | main.go:255-257 | A folder whose files are all non-images fails with "no image files found", creates no archive, and reports 0. |
| `Convert.PartialArchiveRemains` | main.go:260-275 | After an add failure, the created destination stays on disk. It holds the images added before the failing one: a strict prefix of the sorted image list. |
| `Stats.Of` | main.go:216-238 | One job moves exactly one of `Success`, `Errors`, `Skipped`. `NonImageFiles` grows only on success, and then by the job's count. |
| `Stats.Tally` | main.go:120 | Starting from zero, after `k` jobs `Success + Errors + Skipped == k`. |
| `Stats.TallyConcat` | main.go:216-238 | The counters of two runs of jobs add up. |
| `Stats.TallyPermutation` | main.go:216-238 | Counters that only receive additive increments end the same whatever order the outcomes arrive in. |
| `Stats.ConversionStats.constructor` | main.go:120 | `Total` is the job count, and every other counter is zero. |
| `Stats.ConversionStats.RecordSkipped` | main.go:218-220 | Adds one to `Skipped`. Nothing else changes, including `Total`. |
| `Stats.ConversionStats.RecordError` | main.go:228-230 | Adds one to `Errors`. Nothing else changes. |
| `Stats.ConversionStats.RecordSuccess` | main.go:235-238 | Adds one to `Success` and the job's count to `NonImageFiles`. Nothing else changes. |
| `Stats.SuccessRate` | main.go:413-418 | A rate exists iff `Success + Errors > 0`. It lies in `[0, 100]`, is 100 with no errors, and is 0 with no successes. |
| `Dispatch.JobConversion` | main.go:225-226 | The destination is created only if `os.Create` succeeds on the job's own output path, and it holds at most as many paths as the job's source folder has included files. |
| `Dispatch.JobArchivesOwnImages` | main.go:225-226 | What a job archives is a prefix of the sorted images of its own source folder. |
| `Dispatch.JobOutcome` | main.go:216-238 | A job is skipped iff its destination exists. It is an error iff the destination is absent and the conversion fails. On success its excluded count is the number of non-image files in its folder. |
| `Dispatch.ProcessWorkItem` | main.go:210-246 | The existence check runs first, so a skip touches no other counter. Otherwise an error adds one error, and a success adds one success and its excluded count. `Total` never changes. |
| `Dispatch.ProcessAll` | main.go:173-208 | Each work item is processed once. The counters grow by the tally of all the items' outcomes, and `Total` is unchanged. |
| `Dispatch.OutcomesPermutation` | main.go:173-208 | Processing the same items in another order yields the same multiset of outcomes. |
| `Dispatch.OrderIndependent` | main.go:173-208 | Any order in which workers take the items ends with the same counters. |
| `Dispatch.EnumerateJobs` | main.go:95-117 | A listing error gives no jobs. Otherwise there is one job per directory entry, in sorted name order, with the paths `main` builds. When the listing's names are distinct, the destinations are pairwise distinct. |
| `Dispatch.Run` | main.go:70-121 | The thread count lies in `[1, 2*cpu]`. A listing error gives no jobs. Otherwise job `i` is the `i`-th folder in sorted order, with source `inputDir/folder` and destination `outputDir/folder.cbz`, and distinct listed names give distinct destinations. No counters are created iff the listing fails or has no folders. Otherwise `Total` is the number of folders, and the final counters are the tally of all jobs, so `Success + Errors + Skipped == Total`. |
| `Dispatch.RerunSkips` | main.go:216-222 | With distinct destinations, a second run skips exactly the jobs that were skipped, the ones that succeeded, and the ones that failed while adding files. Jobs that failed before creating the archive are tried again. |

## Left out

- Flag parsing, usage and version text, and logging with colours (main.go:45-68, 127-152, 423-437). This is command-line glue. `TruncateString` is modelled, but the log line it feeds is not.
- The `os.Stat` check on the input root and `os.MkdirAll` on the output root (main.go:79-89). The first exits when the input root is missing. The second creates the output root, with any missing parent directories, and exits if it cannot. A listing error from `getFolders` is modelled; what follows it, `os.Exit(1)`, is not.
- The real file-system calls `os.ReadDir`, `filepath.WalkDir`, `os.Open`, `os.Create` and `os.Stat`. They are replaced by the `Listing`, `WalkEvent`, `Probe` and `FileSystem` values.
- `http.DetectContentType` is a library sniffing algorithm. It is an abstract content-type string, and only the `"image/"` prefix test on it is modelled.
- Writing the zip data: `zip.NewWriter`, `zip.FileInfoHeader`, deflate, `io.Copy`, and the entry name from `filepath.Rel` and `filepath.ToSlash` (main.go:260-275, 348-391). An archive is modelled as the list of image paths written into it. The errors of the deferred `Close` calls are ignored by the source. The model ignores them too, so a failing close is not visible.
- `filepath.Join` and `filepath.Base` path semantics. A joined path is the symbolic `Join(dir, elem)`. The base name of a walked file is the entry name the walk reports.
- Goroutines, the bounded channel, `sync.WaitGroup`, the mutex and `time.Sleep` (main.go:173-208). The dispatch is a sequential loop, and `OrderIndependent` covers every other order.
- Files appearing during a run: each job sees the file-system snapshot it started with. An archive written by one job is not seen by the scan of another.
- `Stats.SuccessRate` uses exact rationals, not `float64`, and does not model the `%.1f` formatting.
- Names that are not valid UTF-8. `[]rune(s)` (main.go:440) turns each invalid byte into U+FFFD, so a truncated invalid name is not a byte prefix of the original, while an untruncated one is returned as raw bytes. Byte order and rune order can also differ on such names. The model treats every name as a sequence of runes, so it covers valid UTF-8 names only.
- `Convert.PartialArchiveRemains` and `Convert.AddImages` treat each `addFileToZip` call as atomic: an image is either fully in the archive or absent. In the source, if `io.Copy` (main.go:389) fails after `CreateHeader` (main.go:383), the deferred `zipWriter.Close()` (main.go:268) still completes the truncated entry for the failing image. The archive left on disk then also holds that partial entry.
- `Sorting.SortStrings` models the in-place `sort.Strings` on values. It is not the library's algorithm, only its result.

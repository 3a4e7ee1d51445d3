# cruise-lug `get cruise`: a verified model

This project models the core of the `clug get cruise` command, which downloads NOAA
multibeam bathymetry surveys from the public bathymetry bucket to a local directory:

- **Survey resolution** (`DcdbBathy`): a depth-first walk of the `mb/` namespace through
  three levels of delimited listings: platform types, then platforms, then surveys. Each
  survey prefix's base name is compared with the requested names. The walk returns the
  matching prefixes in discovery order. After each platform it stops early if the number
  of matches equals the number of requested names. Any failing listing is fatal.
- **The command** (`Cruise`):
  - argument and data-type gating;
  - the target check, then dispatch on the data-type flags;
  - the multibeam sequence: resolve, stop when nothing matched, compare the size estimate
    with the free space, then download;
  - the download itself. Each survey root's objects are listed in pages of ten keys. Every
    key of a page is fetched to `path.Join(targetDir, key)`, and the whole page finishes
    before the next page is requested.
- **The target check** (`FileUtils`): the decision `VerifyTarget` takes on the outcome of
  `os.Stat`.
- **Supporting modules**:
  - `GoPath`: the parts of Go's `strings` and `path` packages that the core uses
    (`TrimRight`, `Split`/`Join`, `Base`, `Clean`, `Join`).
  - `Listing`: listing responses as data. A delimited listing is a sequence of pages, any
    of which may fail. A flat listing is computed from a store of keys and is cut into
    pages of at most `MaxKeys` keys.
  - `Wrappers`: `Option`.

Resolution has a reference definition, `DcdbBathy.Resolve`:

- The walk is flattened into a stream of events: a survey prefix seen, a platform
  finished, a listing failed.
- `Advance` folds those events into a walk state: `Searching`, `Stopped` or `Aborted`.
- The nested-loop method `ResolveMultibeamSurveys` is proved to return exactly `Resolve`.
- The properties are proved about `Resolve`.

In the same way, the download is specified by `Cruise.Plan`, a `DownloadRun` made of one
round per listed page. The loop methods `DownloadFiles`, `DownloadPages` and `StartPage`
are proved to compute it.

`log.Fatal` ends the process. In the model it becomes an error outcome:

- `None` from resolution;
- `completed == false` on a download run;
- `EstimateFailed` for a failed size estimate.

Facts about the code that a reader might not expect:

- **Target check.** The command's help text (cmd/get/cruise/cruise.go:34-35) says the path
  must exist and have the necessary permissions. The code accepts any directory whatever
  its permission bits. It also accepts a non-directory whose user read and write bits are
  both set. See `FileUtils.DirectoryIgnoresPermissions` and
  `FileUtils.OnlyDirAndUserBitsMatter`.
- **Capacity.** Equal sizes are rejected: the free space must be strictly larger than the
  estimate. See `Cruise.EqualSizesDoNotFit`.
- **Early stop.** The stop test is exact equality between the match count and the number
  of requested names, and it runs only after a platform. When the count reaches that
  number exactly, the walk stops at the next platform boundary (`DcdbBathy.StopsAtExactCount`).
  Once two prefixes with the same base name make the count overshoot, the walk never
  stops early, and a later failing listing then loses the whole result. See
  `DcdbBathy.OvershootNeverStops` and `DcdbBathy.OvershootScenario`.
- **Data-type gate.** The crowdsourced flag alone does not pass the gate, and no outcome
  of the command depends on it. See `Cruise.CrowdsourcedAloneIsRejected` and
  `Cruise.RunIgnoresCrowdsourced`.
- **Local file names.** A key is joined to the target directory with `path.Join`, which
  cleans the result. Keys in canonical form land below the target, each in its own file.
  Two keys that differ by a doubled slash share one file (`GoPath.DoubledSlashCollides`),
  and a key with `..` elements can name a file outside the target
  (`GoPath.DotDotLeavesDir`).

## Model

| member | source | states |
|---|---|---|
| FileUtils.VerifyTarget | cmd/common/fileUtils.go:35-73 | the target is accepted exactly when stat succeeds and the path is a directory or has both the user read (0400) and user write (0200) bits |
| FileUtils.StatErrorsReject | cmd/common/fileUtils.go:36-45 | a path that does not exist and any other stat error both reject the target |
| FileUtils.DirectoryIgnoresPermissions | cmd/common/fileUtils.go:47-48 | every directory is accepted, even one with no permission bits at all |
| FileUtils.MissingPermissionRejects | cmd/common/fileUtils.go:53-72 | a non-directory lacking read, write or both is rejected in each of the three branches |
| FileUtils.SameDecisionBits | cmd/common/fileUtils.go:47-61 | two modes that agree on the directory bit and the two user bits get the same verdict |
| FileUtils.OnlyDirAndUserBitsMatter | cmd/common/fileUtils.go:47-61 | the verdict depends only on the directory, user-read and user-write bits; a plain file with mode 0600 is accepted |
| DcdbBathy.IsSurveyMatch | cmd/gets/dcdb/dcdbBathy.go:84-92 | true exactly when the resolved name is one of the requested names (exact equality) |
| DcdbBathy.SurveyName | cmd/gets/dcdb/dcdbBathy.go:65-66 | the name compared for a survey prefix is never empty and is a single path element without a slash, or "/" |
| DcdbBathy.ResolveMultibeamSurveys | cmd/gets/dcdb/dcdbBathy.go:13-82 | the nested walk over root, platform-type, platform and survey pages returns exactly the reference resolution `Resolve`: the fatal failures, the matches in order and the early return after a platform |
| DcdbBathy.SurveyNameOfPrefix | cmd/gets/dcdb/dcdbBathy.go:65-66 | the name compared for a survey prefix `<parent><name>/` is `<name>` |
| DcdbBathy.Matches | cmd/gets/dcdb/dcdbBathy.go:64-70 | every matched prefix was listed by the walk and its base name was requested |
| DcdbBathy.AdvanceOutcome | cmd/gets/dcdb/dcdbBathy.go:64-76 | a walk still searching at the end holds all matches and met no failure; a stopped walk holds as many prefixes as names were requested and they are a leading part of the matches; an aborted walk met a listing failure |
| DcdbBathy.AdvanceAppend | cmd/gets/dcdb/dcdbBathy.go:29-79 | walking two stretches of the namespace one after the other is walking their concatenation |
| DcdbBathy.StopSkipsRest | cmd/gets/dcdb/dcdbBathy.go:74-76 | once the walk has returned early, nothing later in the bucket (failures included) changes the result |
| DcdbBathy.FailureIsFatal | cmd/gets/dcdb/dcdbBathy.go:24-62 | a listing failure reached while searching ends resolution with no result, whatever follows |
| DcdbBathy.OvershootNeverStops | cmd/gets/dcdb/dcdbBathy.go:74-76 | once more prefixes matched than names were requested, the early return can no longer happen |
| DcdbBathy.SurveysNeverStop | cmd/gets/dcdb/dcdbBathy.go:57-76 | the early-return test runs only after a platform: the survey pages of one platform never stop the walk |
| DcdbBathy.NoPlatformDoneInSurveys | cmd/gets/dcdb/dcdbBathy.go:57-73 | the survey pages of a platform contain no platform boundary |
| DcdbBathy.StoppedNeedsPlatformDone | cmd/gets/dcdb/dcdbBathy.go:74-76 | a walk can only stop at a platform boundary |
| DcdbBathy.StopsAtExactCount | cmd/gets/dcdb/dcdbBathy.go:74-76 | a walk still searching with exactly as many matches as requested names stops at the next platform boundary, and nothing after it changes the result |
| DcdbBathy.ResolveSound | cmd/gets/dcdb/dcdbBathy.go:13-82 | no result only after a listing failure; always a result when nothing fails; a result is a leading part of the matches, all of them or exactly as many as names were requested |
| DcdbBathy.ResolveOnlyMatches | cmd/gets/dcdb/dcdbBathy.go:64-70 | every returned prefix was listed under some platform and its base name was requested |
| DcdbBathy.RootFirstPageOnly | cmd/gets/dcdb/dcdbBathy.go:18-29 | only the first response of the `mb/` listing is used; continuation pages are never requested |
| DcdbBathy.OvershootScenario | cmd/gets/dcdb/dcdbBathy.go:64-76 | with two names requested, three matching prefixes across two platforms and a failing third platform, resolution fails although both names were found |
| DcdbBathy.ExactCountScenario | cmd/gets/dcdb/dcdbBathy.go:74-76 | the same bucket with exactly two matches stops after the second platform and returns both prefixes in order, never reaching the failing listing |
| Cruise.SplitArgs | cmd/get/cruise/cruise.go:37-46 | a split exists exactly when there are at least two arguments, and the surveys followed by the path give back the arguments |
| Cruise.Run | cmd/get/cruise/cruise.go:36-57 | usage exactly for one argument or none; the data-type error exactly when no multibeam, water-column or trackline flag is set; otherwise `download` runs on the split arguments |
| Cruise.TooFewArgumentsShowUsage | cmd/get/cruise/cruise.go:37-43 | with one argument or none only the usage is shown, whatever the flags |
| Cruise.ArgumentsSplit | cmd/get/cruise/cruise.go:45-46 | the target path is the last argument and the surveys are all the others, in order |
| Cruise.CrowdsourcedAloneIsRejected | cmd/get/cruise/cruise.go:48-52 | the crowdsourced flag alone fails the data-type gate |
| Cruise.RunIgnoresCrowdsourced | cmd/get/cruise/cruise.go:36-113 | changing only the crowdsourced flag never changes the outcome of the command: neither the data-type gate nor the dispatch reads it |
| Cruise.Download | cmd/get/cruise/cruise.go:93-113 | nothing happens exactly when the target check fails; otherwise there is a multibeam outcome exactly when the multibeam flag is set, and it is the outcome of `downloadBathySurveys` on the same surveys, path and environment |
| Cruise.OnlyMultibeamRetrieves | cmd/get/cruise/cruise.go:99-110 | the crowdsourced, water-column and trackline flags change nothing about what is downloaded |
| Cruise.DiskSpaceCheck | cmd/get/cruise/cruise.go:115-136 | a failed estimate gives no verdict; otherwise the estimate fits exactly when the free space is strictly larger than the estimate clamped at zero |
| Cruise.EqualSizesDoNotFit | cmd/get/cruise/cruise.go:131-135 | free space equal to the estimate does not fit; one byte more does |
| Cruise.NegativeEstimateIsZero | cmd/get/cruise/cruise.go:124-126 | a negative estimate is judged as zero |
| Cruise.DiskSpaceCheckMonotone | cmd/get/cruise/cruise.go:124-135 | more free space or a smaller estimate never turns a fit into a misfit |
| Cruise.DownloadBathySurveys | cmd/get/cruise/cruise.go:142-167 | resolution failure exactly when resolution fails; no match exactly when it finds nothing; for a non-empty resolution, an estimate failure exactly when the estimate fails, no space exactly when the estimate does not fit, and a download exactly when it fits, which then follows the plan for the resolved roots |
| Cruise.NoRootsSkipsDiskCheck | cmd/get/cruise/cruise.go:149-151 | when nothing matched, the outcome does not depend on the free space or the estimate |
| Cruise.NoSpaceSkipsDownload | cmd/get/cruise/cruise.go:157-161 | when the estimate does not fit, nothing is downloaded |
| Cruise.SmallDiskScenario | cmd/get/cruise/cruise.go:157-161 | 500 bytes free against a 1000-byte estimate downloads nothing |
| Cruise.PageJobs | cmd/get/cruise/cruise.go:188-191 | one download per key of the page, in page order, each to `path.Join(targetDir, key)` |
| Cruise.StartPage | cmd/get/cruise/cruise.go:187-192 | the downloads started for a page are exactly `PageJobs` of its keys |
| Cruise.DownloadPages | cmd/get/cruise/cruise.go:179-193 | the page loop for one root yields exactly `PrefixRounds` of its listing: one round per page, ending in failure at the first failing page |
| Cruise.DownloadFiles | cmd/get/cruise/cruise.go:169-195 | the whole download is exactly `Plan`: the roots in order, each listed in pages of ten keys, ending at the first failing page |
| Cruise.PlanRoundsAreBounded | cmd/get/cruise/cruise.go:170-191 | every round belongs to a resolved root and holds at most ten downloads, of keys under that root and present in the bucket, each written to `path.Join(targetDir, key)` |
| Cruise.JobKeysOfPage | cmd/get/cruise/cruise.go:188-191 | the keys fetched for a page are the page's keys, in order |
| Cruise.PrefixRoundsKeys | cmd/get/cruise/cruise.go:180-193 | the keys fetched for one root are exactly the keys its listing delivered, and the root completes exactly when no page failed |
| Cruise.PlanKeysInOrder | cmd/get/cruise/cruise.go:169-195 | the fetched keys are a leading part of all keys under the roots, root after root in listing order; all of them when the run completes; and the run completes when no listing fails |
| Cruise.CleanKeysGetDistinctFiles | cmd/get/cruise/cruise.go:190 | distinct keys in canonical form are written to distinct local files |
| Cruise.DoubledSlashKeysShareFile | cmd/get/cruise/cruise.go:169-191 | two bucket keys under a resolved root whose listing does not fail, differing only by a doubled slash, are both downloaded and to the same local file |
| Cruise.RunDownloadsOnlyRequestedSurveys | cmd/get/cruise/cruise.go:36-164 | when the command downloads: the target passed its check, the multibeam flag is set, the space check passed, and every file comes from a listed survey root whose name was one of the arguments; every file of a key in canonical form goes below the cleaned path argument (`JoinRoot`) |
| Cruise.PassingRunDownloads | cmd/get/cruise/cruise.go:36-164 | a run with survey names and a path, the multibeam flag, an accepted target, a non-empty resolution and an estimate that fits downloads exactly the plan for the resolved roots into the path |
| Listing.KeysUnder | cmd/get/cruise/cruise.go:173-177 | the keys listed for a prefix are exactly the bucket keys starting with it |
| Listing.Chunks | cmd/get/cruise/cruise.go:171-176 | pages hold at most `MaxKeys` keys and together give back every key, in order |
| Listing.ObjectPages | cmd/get/cruise/cruise.go:173-181 | every listed page holds at most `MaxKeys` keys, each under the prefix and present in the bucket |
| Listing.ObjectPagesKeys | cmd/get/cruise/cruise.go:179-193 | the keys delivered before any failure are a leading part of the keys under the prefix; all of them when no page fails; and no page fails when the prefix has no fault |
| GoPath.TrimRight | cmd/gets/dcdb/dcdbBathy.go:66 | the result is a prefix of the input that does not end in the trimmed character, and everything cut was that character |
| GoPath.Base | cmd/gets/dcdb/dcdbBathy.go:66 | path.Base is never empty, and is either "/" or a single element without a slash |
| GoPath.BaseOfDirectoryPrefix | cmd/gets/dcdb/dcdbBathy.go:66 | trimming `<parent><name>/` gives `<parent><name>`, and path.Base of that is `<name>` |
| GoPath.JoinSplit | cmd/get/cruise/cruise.go:190 | joining a path's slash-separated elements with "/" gives back the path |
| GoPath.Clean | cmd/get/cruise/cruise.go:190 | path.Clean is never empty, and is rooted exactly when its input is |
| GoPath.Join | cmd/get/cruise/cruise.go:190 | path.Join is empty exactly when both arguments are; otherwise it is rooted exactly when its first non-empty argument is |
| GoPath.JoinCleanKey | cmd/get/cruise/cruise.go:190 | path.Join(dir, key) for a canonical key is a prefix that depends on `dir` alone, followed by the key unchanged |
| GoPath.JoinInjective | cmd/get/cruise/cruise.go:190 | path.Join with the same directory maps distinct canonical keys to distinct paths |
| GoPath.DoubledSlashCollides | cmd/get/cruise/cruise.go:190 | path.Join maps `a//b` and `a/b` to the same path, although the keys differ |
| GoPath.DotDotLeavesDir | cmd/get/cruise/cruise.go:190 | a key `m/s/../../../x`, which starts with the survey root `m/s/`, is joined to `x`, a path outside the target directory |

## Left out

- The S3 client is not modelled as code; its listing calls are inputs. A delimited
  listing is a `DcdbBathy.Bucket` tree whose pages may fail. A flat listing of a prefix
  is computed from a `Listing.ObjectStore`: its keys, and the page index at which a
  prefix's listing fails. The model does not require the two views to describe the same
  bucket. It also does not model retries or any failure pattern beyond a first failing
  page.
- The root listing of `mb/` is a single request. The model uses the first response and
  ignores continuation pages, as the code does.
- `log.Fatal` exits the process. The model turns it into an error outcome and does not
  model the exit itself, or the unreachable `return` after it.
- Printing is not modelled: usage text, progress messages, "Done.", the sizes printed in
  GB by `ByteToGB`, and `logDownloadTime` / `HoursSince`. These only print, and they use
  floating point and the clock.
- Concurrency is not modelled: the goroutines and the `sync.WaitGroup` of
  `downloadFiles`. A `Cruise.Round` records the downloads started for one page. The wait
  before the next page is expressed by rounds being sequential.
- `DownloadLargeObject` is not part of this model. Neither are `createFileWithParents`
  and `closeFileChecked`, which it uses. A download is recorded as a `Job`: its key and
  its local path. File contents, byte counts, and the failure of a single object download
  are not modelled.
- `GetAvailableDiskSpace` is an input (`Environment.available`). Its fatal exit when disk
  usage cannot be read is not modelled.
- `GetDiskUsageEstimate` is not part of this model. It is an input function from survey
  roots to an optional signed 64-bit total.
- `os.Stat` is an input (`FileUtils.StatResult`).
- The command wiring is not modelled: cobra flag registration and AWS configuration
  loading in `init`. Neither are `cmd/root.go`, `cmd/get/get.go` and `main.go`. The flags
  are a `Cruise.Flags` value.
- The loops of `downloadFiles` are factored. The per-page download loop is
  `Cruise.StartPage`, and the page loop for one root is `Cruise.DownloadPages`. Each is
  proved against its specification function, and `Cruise.DownloadFiles` composes them.
- Local file names are not checked against the target directory. A key with `..`
  elements can be written outside it (`GoPath.DotDotLeavesDir`), and keys that differ by a
  doubled slash overwrite one file (`GoPath.DoubledSlashCollides`), as in the code.
  `Cruise.RunDownloadsOnlyRequestedSurveys` states containment only for keys in canonical
  form.
- `GoPath` follows Go's `path` package on strings of characters. Go works on bytes; the
  two agree here because every operation only inspects '/' and '.'.

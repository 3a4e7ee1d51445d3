/**
 * The `get cruise` command: argument and data-type gating, the dispatch on the target
 * check and the data-type flags, the multibeam sequence (resolve, check disk space,
 * download) and the paged download of every object under the resolved survey roots.
 *
 * What the command reads from the outside world is gathered in an `Environment`: the
 * outcome of stat on the target path, the free space there, the size estimate service,
 * and the bucket seen through its delimited listings (for resolution) and its flat
 * listings (for the download).
 */
module Cruise {
  import opened Wrappers
  import opened GoPath
  import opened Listing
  import opened FileUtils
  import opened DcdbBathy

  type uint64 = x: int | 0 <= x < 0x1_0000_0000_0000_0000
  type int64 = x: int | -0x8000_0000_0000_0000 <= x < 0x8000_0000_0000_0000

  /** The command's data-type flags: -m, -c, -w and -t. */
  datatype Flags = Flags(multibeam: bool, crowdsourced: bool, wcd: bool, trackline: bool)

  /**
   * The inputs the command takes from outside: stat of the target path, the space
   * available there, the total size estimate for a list of survey roots (None when the
   * estimate fails), and the bucket as its two kinds of listing present it.
   */
  datatype Environment = Environment(
    target: StatResult,
    available: uint64,
    estimate: seq<string> -> Option<int64>,
    bucket: Bucket,
    store: ObjectStore)

  /** The number of keys requested per page when listing a survey's files. */
  const FileDownloadPageSize: nat := 10

  /** One object download: the key and the local file it is written to. */
  datatype Job = Job(key: string, localPath: string)

  /**
   * One page of a survey's file listing: the downloads started for its keys, all of which
   * finish before the next page is requested.
   */
  datatype Round = Round(prefix: string, jobs: seq<Job>)

  /** The rounds of a download, in order, and whether it ran to the end or hit a fatal listing error. */
  datatype DownloadRun = DownloadRun(rounds: seq<Round>, completed: bool)

  /** The result of the multibeam sequence. */
  datatype BathyOutcome =
    | ResolveFailed
    | NoSurveysFound
    | EstimateFailed(roots: seq<string>)
    | NotEnoughSpace(roots: seq<string>)
    | BathyDownloaded(roots: seq<string>, run: DownloadRun)

  /** The result of `download`. */
  datatype DownloadOutcome = TargetRejected | Dispatched(bathy: Option<BathyOutcome>)

  /** The result of the command. */
  datatype RunOutcome =
    | UsageShown
    | DataTypeMissing
    | Ran(surveys: seq<string>, path: string, outcome: DownloadOutcome)

  // ---------------------------------------------------------------- argument handling

  /** The arguments split into the survey names and the target path, which comes last. */
  function SplitArgs(args: seq<string>): (r: Option<(seq<string>, string)>)
    ensures r.Some? <==> |args| >= 2
    ensures r.Some? ==> r.value.0 + [r.value.1] == args
  {
    if |args| <= 1 then None
    else Some((args[..|args| - 1], args[|args| - 1]))
  }

  /**
   * The data-type gate: passed when the multibeam, water-column or trackline flag is set;
   * the crowdsourced flag is not consulted.
   */
  predicate DataTypeSelected(flags: Flags)
  {
    flags.multibeam || flags.wcd || flags.trackline
  }

  // ---------------------------------------------------------------- disk space

  /**
   * diskSpaceCheck: None when the estimate fails (a fatal exit); otherwise whether the
   * available space strictly exceeds the estimate, a negative estimate counting as zero.
   */
  function DiskSpaceCheck(available: uint64, estimate: Option<int64>): (r: Option<bool>)
    ensures r.None? <==> estimate.None?
    ensures r == Some(true) <==> estimate.Some? && available > (if estimate.value < 0 then 0 else estimate.value)
    ensures r == Some(false) <==> estimate.Some? && available <= (if estimate.value < 0 then 0 else estimate.value)
  {
    match estimate
    case None => None
    case Some(total) =>
      var clamped := if total < 0 then 0 else total;
      Some(available > clamped)
  }

  // ---------------------------------------------------------------- the download plan

  /** The downloads started for one page of keys: each key goes to its path under `dir`. */
  function PageJobs(keys: seq<string>, dir: string): (jobs: seq<Job>)
    ensures |jobs| == |keys|
    ensures forall i | 0 <= i < |keys| :: jobs[i].key == keys[i] && jobs[i].localPath == Join(dir, keys[i])
  {
    if keys == [] then []
    else PageJobs(keys[..|keys| - 1], dir) + [Job(keys[|keys| - 1], Join(dir, keys[|keys| - 1]))]
  }

  /** `a` followed by `b`, unless `a` ended in a fatal error. */
  function Then(a: DownloadRun, b: DownloadRun): DownloadRun
  {
    if !a.completed then a else DownloadRun(a.rounds + b.rounds, b.completed)
  }

  /** The rounds for the pages of one survey's file listing, up to the first failing page. */
  function PrefixRounds(prefix: string, pages: seq<Page<string>>, dir: string): DownloadRun
  {
    if pages == [] then DownloadRun([], true)
    else match pages[0]
      case ListFailed => DownloadRun([], false)
      case Listed(keys) => Then(DownloadRun([Round(prefix, PageJobs(keys, dir))], true), PrefixRounds(prefix, pages[1..], dir))
  }

  /** The whole download: the survey roots in order, each listed in pages of ten keys. */
  function Plan(store: ObjectStore, prefixes: seq<string>, dir: string): DownloadRun
  {
    if prefixes == [] then DownloadRun([], true)
    else Then(PrefixRounds(prefixes[0], ObjectPages(store, prefixes[0], FileDownloadPageSize), dir), Plan(store, prefixes[1..], dir))
  }

  lemma ThenAssoc(a: DownloadRun, b: DownloadRun, c: DownloadRun)
    ensures Then(Then(a, b), c) == Then(a, Then(b, c))
  {
    if a.completed && b.completed {
      assert a.rounds + b.rounds + c.rounds == a.rounds + (b.rounds + c.rounds);
    }
  }

  lemma NextFilePage(prefix: string, pages: seq<Page<string>>, j: nat, dir: string)
    requires j < |pages|
    ensures pages[j].ListFailed? ==> PrefixRounds(prefix, pages[j..], dir) == DownloadRun([], false)
    ensures pages[j].Listed? ==>
              PrefixRounds(prefix, pages[j..], dir)
              == Then(DownloadRun([Round(prefix, PageJobs(pages[j].entries, dir))], true), PrefixRounds(prefix, pages[j + 1..], dir))
  {
    assert pages[j..][1..] == pages[j + 1..];
  }

  /**
   * The downloads started for one page, one per key in page order; the program starts each
   * in its own goroutine and waits for all of them.
   */
  method StartPage(keys: seq<string>, targetDir: string) returns (jobs: seq<Job>)
    ensures jobs == PageJobs(keys, targetDir)
  {
    jobs := [];
    for k := 0 to |keys|
      invariant jobs == PageJobs(keys[..k], targetDir)
    {
      var key := keys[k];
      assert keys[..k + 1][..k] == keys[..k];
      jobs := jobs + [Job(key, Join(targetDir, key))];
    }
    assert keys[..|keys|] == keys;
  }

  /**
   * The page loop of downloadFiles for one survey root: for every key of a listed page
   * start its download to path.Join(targetDir, key) and wait for all of them before taking
   * the next page. A failing page request ends the run.
   */
  method DownloadPages(survey: string, filePaginator: seq<Page<string>>, targetDir: string) returns (run: DownloadRun)
    ensures run == PrefixRounds(survey, filePaginator, targetDir)
  {
    ghost var total := PrefixRounds(survey, filePaginator, targetDir);
    var rounds: seq<Round> := [];
    assert filePaginator[0..] == filePaginator;
    var j := 0;
    while j < |filePaginator|
      invariant 0 <= j <= |filePaginator|
      invariant total == Then(DownloadRun(rounds, true), PrefixRounds(survey, filePaginator[j..], targetDir))
    {
      var page := filePaginator[j];
      NextFilePage(survey, filePaginator, j, targetDir);
      if page.ListFailed? {
        return DownloadRun(rounds, false);
      }
      var jobs := StartPage(page.entries, targetDir);
      ghost var round := DownloadRun([Round(survey, jobs)], true);
      ThenAssoc(DownloadRun(rounds, true), round, PrefixRounds(survey, filePaginator[j + 1..], targetDir));
      rounds := rounds + [Round(survey, jobs)];
      j := j + 1;
    }
    assert filePaginator[j..] == [];
    assert rounds + [] == rounds;
    return DownloadRun(rounds, true);
  }

  /**
   * downloadFiles: the survey roots in order, each root's file listing requested in pages
   * of ten keys and downloaded page by page. A failing page request ends the whole run.
   */
  method DownloadFiles(prefixes: seq<string>, targetDir: string, store: ObjectStore) returns (run: DownloadRun)
    ensures run == Plan(store, prefixes, targetDir)
  {
    ghost var total := Plan(store, prefixes, targetDir);
    var rounds: seq<Round> := [];
    assert prefixes[0..] == prefixes;
    for i := 0 to |prefixes|
      invariant total == Then(DownloadRun(rounds, true), Plan(store, prefixes[i..], targetDir))
    {
      var survey := prefixes[i];
      var filePaginator := ObjectPages(store, survey, FileDownloadPageSize);
      var surveyRun := DownloadPages(survey, filePaginator, targetDir);
      NextRoot(store, prefixes, i, targetDir);
      ThenAssoc(DownloadRun(rounds, true), surveyRun, Plan(store, prefixes[i + 1..], targetDir));
      if !surveyRun.completed {
        return DownloadRun(rounds + surveyRun.rounds, false);
      }
      rounds := rounds + surveyRun.rounds;
    }
    assert rounds + [] == rounds;
    return DownloadRun(rounds, true);
  }

  lemma NextRoot(store: ObjectStore, prefixes: seq<string>, i: nat, dir: string)
    requires i < |prefixes|
    ensures Plan(store, prefixes[i..], dir)
         == Then(PrefixRounds(prefixes[i], ObjectPages(store, prefixes[i], FileDownloadPageSize), dir), Plan(store, prefixes[i + 1..], dir))
  {
    assert prefixes[i..][1..] == prefixes[i + 1..];
  }

  // ---------------------------------------------------------------- the command

  /**
   * downloadBathySurveys: resolve the names; stop when nothing matched; check the disk
   * space for the matched roots; stop when it does not fit; otherwise download them.
   */
  function DownloadBathySurveys(surveys: seq<string>, targetPath: string, env: Environment): (r: BathyOutcome)
    ensures r.ResolveFailed? <==> Resolve(surveys, env.bucket).None?
    ensures r.NoSurveysFound? <==> Resolve(surveys, env.bucket) == Some([])
    ensures (r.EstimateFailed? || r.NotEnoughSpace? || r.BathyDownloaded?) ==>
              Resolve(surveys, env.bucket) == Some(r.roots) && r.roots != []
    ensures r.EstimateFailed? <==>
              var found := Resolve(surveys, env.bucket);
              found.Some? && found.value != [] && env.estimate(found.value).None?
    ensures r.NotEnoughSpace? <==>
              var found := Resolve(surveys, env.bucket);
              found.Some? && found.value != [] && DiskSpaceCheck(env.available, env.estimate(found.value)) == Some(false)
    ensures r.BathyDownloaded? <==>
              var found := Resolve(surveys, env.bucket);
              found.Some? && found.value != [] && DiskSpaceCheck(env.available, env.estimate(found.value)) == Some(true)
    ensures r.BathyDownloaded? ==> r.run == Plan(env.store, r.roots, targetPath)
  {
    match Resolve(surveys, env.bucket)
    case None => ResolveFailed
    case Some(surveyRoots) =>
      if |surveyRoots| == 0 then NoSurveysFound
      else match DiskSpaceCheck(env.available, env.estimate(surveyRoots))
        case None => EstimateFailed(surveyRoots)
        case Some(false) => NotEnoughSpace(surveyRoots)
        case Some(true) => BathyDownloaded(surveyRoots, Plan(env.store, surveyRoots, targetPath))
  }

  /**
   * download: nothing happens when the target check fails; otherwise only the multibeam
   * flag leads to a download, the other data types having no action.
   */
  function Download(surveys: seq<string>, targetPath: string, flags: Flags, env: Environment): (r: DownloadOutcome)
    ensures r.TargetRejected? <==> !VerifyTarget(env.target)
    ensures r.Dispatched? ==> (r.bathy.Some? <==> flags.multibeam)
    ensures r.Dispatched? && flags.multibeam ==> r.bathy == Some(DownloadBathySurveys(surveys, targetPath, env))
  {
    if !VerifyTarget(env.target) then TargetRejected
    else if flags.multibeam then Dispatched(Some(DownloadBathySurveys(surveys, targetPath, env)))
    else Dispatched(None)
  }

  /** The command's Run: usage for too few arguments, then the data-type gate, then download. */
  function Run(args: seq<string>, flags: Flags, env: Environment): (r: RunOutcome)
    ensures r.UsageShown? <==> |args| <= 1
    ensures r.DataTypeMissing? <==> |args| >= 2 && !DataTypeSelected(flags)
    ensures r.Ran? ==> r.surveys + [r.path] == args && r.outcome == Download(r.surveys, r.path, flags, env)
  {
    match SplitArgs(args)
    case None => UsageShown
    case Some((surveys, path)) =>
      if !DataTypeSelected(flags) then DataTypeMissing
      else Ran(surveys, path, Download(surveys, path, flags, env))
  }

  // ---------------------------------------------------------------- properties of the decisions

  /** With one argument or none the usage is shown, whatever the flags, and nothing is downloaded. */
  lemma TooFewArgumentsShowUsage(args: seq<string>, flags: Flags, env: Environment)
    requires |args| <= 1
    ensures Run(args, flags, env) == UsageShown
  {
  }

  /** The target path is the last argument and the surveys are the others, in order. */
  lemma ArgumentsSplit(args: seq<string>, flags: Flags, env: Environment)
    requires |args| >= 2 && DataTypeSelected(flags)
    ensures Run(args, flags, env).Ran?
    ensures Run(args, flags, env).path == args[|args| - 1]
    ensures Run(args, flags, env).surveys == args[..|args| - 1]
  {
    var r := Run(args, flags, env);
    assert r.surveys + [r.path] == args;
    assert args[..|args| - 1] == r.surveys;
  }

  /** The crowdsourced flag alone does not pass the data-type gate. */
  lemma CrowdsourcedAloneIsRejected(args: seq<string>, env: Environment)
    requires |args| >= 2
    ensures Run(args, Flags(false, true, false, false), env) == DataTypeMissing
  {
  }

  /**
   * Only the multibeam flag retrieves anything: the water-column, trackline and
   * crowdsourced flags change nothing about what `download` does.
   */
  lemma OnlyMultibeamRetrieves(surveys: seq<string>, targetPath: string, flags: Flags, env: Environment)
    ensures Download(surveys, targetPath, flags, env) == Download(surveys, targetPath, Flags(flags.multibeam, false, false, false), env)
    ensures VerifyTarget(env.target) && !flags.multibeam ==> Download(surveys, targetPath, flags, env) == Dispatched(None)
  {
  }

  /** Equal sizes do not fit: the available space must be strictly larger than the estimate. */
  lemma EqualSizesDoNotFit(size: int64)
    requires size >= 0
    ensures DiskSpaceCheck(size, Some(size)) == Some(false)
    ensures DiskSpaceCheck(size + 1, Some(size)) == Some(true)
  {
  }

  /** A negative estimate counts as zero: it fits exactly when some space is available. */
  lemma NegativeEstimateIsZero(available: uint64, total: int64)
    requires total < 0
    ensures DiskSpaceCheck(available, Some(total)) == DiskSpaceCheck(available, Some(0))
    ensures DiskSpaceCheck(available, Some(total)) == Some(available > 0)
  {
  }

  /** More free space, or a smaller estimate, never turns a fit into a misfit. */
  lemma DiskSpaceCheckMonotone(a1: uint64, a2: uint64, t1: int64, t2: int64)
    requires a1 <= a2 && t2 <= t1
    requires DiskSpaceCheck(a1, Some(t1)) == Some(true)
    ensures DiskSpaceCheck(a2, Some(t2)) == Some(true)
  {
  }

  /** When no survey is found, neither the estimate nor the free space is consulted. */
  lemma NoRootsSkipsDiskCheck(surveys: seq<string>, targetPath: string, env: Environment,
                              available: uint64, estimate: seq<string> -> Option<int64>)
    requires Resolve(surveys, env.bucket) == Some([])
    ensures DownloadBathySurveys(surveys, targetPath, env) == NoSurveysFound
    ensures DownloadBathySurveys(surveys, targetPath, env.(available := available, estimate := estimate)) == NoSurveysFound
  {
  }

  /** When the estimate does not fit, nothing is downloaded. */
  lemma NoSpaceSkipsDownload(surveys: seq<string>, targetPath: string, env: Environment)
    requires Resolve(surveys, env.bucket).Some? && Resolve(surveys, env.bucket).value != []
    requires DiskSpaceCheck(env.available, env.estimate(Resolve(surveys, env.bucket).value)) == Some(false)
    ensures DownloadBathySurveys(surveys, targetPath, env) == NotEnoughSpace(Resolve(surveys, env.bucket).value)
  {
  }

  /**
   * The scenario of a 1000-byte estimate with 500 bytes free: the matched roots are not
   * downloaded.
   */
  lemma SmallDiskScenario(surveys: seq<string>, targetPath: string, env: Environment)
    requires Resolve(surveys, env.bucket).Some? && Resolve(surveys, env.bucket).value != []
    requires env.available == 500 && env.estimate(Resolve(surveys, env.bucket).value) == Some(1000)
    ensures DownloadBathySurveys(surveys, targetPath, env).NotEnoughSpace?
  {
  }

  // ---------------------------------------------------------------- properties of the plan

  /** What every round of a plan satisfies. */
  predicate GoodRound(store: ObjectStore, prefixes: seq<string>, dir: string, round: Round)
  {
    && round.prefix in prefixes
    && |round.jobs| <= FileDownloadPageSize
    && forall job | job in round.jobs ::
         job.localPath == Join(dir, job.key) && round.prefix <= job.key && job.key in store.keys
  }

  lemma {:induction false} PrefixRoundsGood(store: ObjectStore, prefixes: seq<string>, prefix: string, pages: seq<Page<string>>, dir: string)
    requires prefix in prefixes
    requires forall i | 0 <= i < |pages| && pages[i].Listed? :: |pages[i].entries| <= FileDownloadPageSize
    requires forall i | 0 <= i < |pages| && pages[i].Listed? :: forall k | k in pages[i].entries :: prefix <= k && k in store.keys
    ensures forall round | round in PrefixRounds(prefix, pages, dir).rounds :: GoodRound(store, prefixes, dir, round)
    decreases |pages|
  {
    if pages != [] && pages[0].Listed? {
      PrefixRoundsGood(store, prefixes, prefix, pages[1..], dir);
      var jobs := PageJobs(pages[0].entries, dir);
      forall job | job in jobs
        ensures job.localPath == Join(dir, job.key) && prefix <= job.key && job.key in store.keys
      {
        var i :| 0 <= i < |jobs| && jobs[i] == job;
        assert pages[0].entries[i] in pages[0].entries;
      }
      assert GoodRound(store, prefixes, dir, Round(prefix, jobs));
    }
  }

  lemma {:induction false} PlanGoodFrom(store: ObjectStore, prefixes: seq<string>, i: nat, dir: string)
    requires i <= |prefixes|
    ensures forall round | round in Plan(store, prefixes[i..], dir).rounds :: GoodRound(store, prefixes, dir, round)
    decreases |prefixes| - i
  {
    if i < |prefixes| {
      assert prefixes[i..][0] == prefixes[i];
      assert prefixes[i..][1..] == prefixes[i + 1..];
      PlanGoodFrom(store, prefixes, i + 1, dir);
      PrefixRoundsGood(store, prefixes, prefixes[i], ObjectPages(store, prefixes[i], FileDownloadPageSize), dir);
    }
  }

  /**
   * Every round of a download lists at most ten keys, all under the round's survey root
   * and present in the bucket, and writes each key to path.Join(targetDir, key).
   */
  lemma PlanRoundsAreBounded(store: ObjectStore, prefixes: seq<string>, dir: string)
    ensures forall round | round in Plan(store, prefixes, dir).rounds ::
              && round.prefix in prefixes
              && |round.jobs| <= 10
              && forall job | job in round.jobs ::
                   job.localPath == Join(dir, job.key) && round.prefix <= job.key && job.key in store.keys
  {
    PlanGoodFrom(store, prefixes, 0, dir);
    assert prefixes[0..] == prefixes;
  }

  /** The keys of a sequence of rounds, in download order. */
  function RoundKeys(rounds: seq<Round>): seq<string>
  {
    if rounds == [] then [] else JobKeys(rounds[0].jobs) + RoundKeys(rounds[1..])
  }

  function JobKeys(jobs: seq<Job>): seq<string>
  {
    if jobs == [] then [] else JobKeys(jobs[..|jobs| - 1]) + [jobs[|jobs| - 1].key]
  }

  /** The keys under each root, root after root, in listing order. */
  function AllKeys(store: ObjectStore, prefixes: seq<string>): seq<string>
  {
    if prefixes == [] then [] else KeysUnder(store.keys, prefixes[0]) + AllKeys(store, prefixes[1..])
  }

  lemma {:induction false} JobKeysOfPage(keys: seq<string>, dir: string)
    ensures JobKeys(PageJobs(keys, dir)) == keys
    decreases |keys|
  {
    if keys != [] {
      var jobs := PageJobs(keys, dir);
      assert jobs[..|jobs| - 1] == PageJobs(keys[..|keys| - 1], dir);
      JobKeysOfPage(keys[..|keys| - 1], dir);
      assert keys[..|keys| - 1] + [keys[|keys| - 1]] == keys;
    }
  }

  lemma {:induction false} RoundKeysAppend(a: seq<Round>, b: seq<Round>)
    ensures RoundKeys(a + b) == RoundKeys(a) + RoundKeys(b)
    decreases |a|
  {
    if a == [] {
      assert a + b == b;
    } else {
      assert (a + b)[1..] == a[1..] + b;
      RoundKeysAppend(a[1..], b);
    }
  }

  lemma {:induction false} PrefixRoundsKeys(prefix: string, pages: seq<Page<string>>, dir: string)
    ensures RoundKeys(PrefixRounds(prefix, pages, dir).rounds) == ListedKeys(pages)
    ensures PrefixRounds(prefix, pages, dir).completed <==> ListFailed !in pages
    decreases |pages|
  {
    if pages != [] {
      assert pages == [pages[0]] + pages[1..];
      PrefixRoundsKeys(prefix, pages[1..], dir);
      if pages[0].Listed? {
        ListedPageKeys(prefix, pages[0].entries, PrefixRounds(prefix, pages[1..], dir), dir);
      }
    }
  }

  /** The keys of a listed page's round come first, then those of the rounds after it. */
  lemma ListedPageKeys(prefix: string, keys: seq<string>, rest: DownloadRun, dir: string)
    ensures var round := Round(prefix, PageJobs(keys, dir));
            RoundKeys(Then(DownloadRun([round], true), rest).rounds) == keys + RoundKeys(rest.rounds)
  {
    var round := Round(prefix, PageJobs(keys, dir));
    RoundKeysAppend([round], rest.rounds);
    JobKeysOfPage(keys, dir);
    assert RoundKeys([round]) == JobKeys(round.jobs) + RoundKeys([]);
  }

  /**
   * The files are downloaded in listing order, root after root: the keys of the run are a
   * leading part of all keys under the roots, all of them when the run completes, and it
   * completes when no listing fails.
   */
  lemma {:induction false} PlanKeysInOrder(store: ObjectStore, prefixes: seq<string>, dir: string)
    ensures RoundKeys(Plan(store, prefixes, dir).rounds) <= AllKeys(store, prefixes)
    ensures Plan(store, prefixes, dir).completed ==> RoundKeys(Plan(store, prefixes, dir).rounds) == AllKeys(store, prefixes)
    ensures (forall p | p in prefixes :: p !in store.faults) ==> Plan(store, prefixes, dir).completed
    decreases |prefixes|
  {
    if prefixes != [] {
      var prefix := prefixes[0];
      var pages := ObjectPages(store, prefix, FileDownloadPageSize);
      var first := PrefixRounds(prefix, pages, dir);
      var rest := Plan(store, prefixes[1..], dir);
      PrefixRoundsKeys(prefix, pages, dir);
      ObjectPagesKeys(store, prefix, FileDownloadPageSize);
      PlanKeysInOrder(store, prefixes[1..], dir);
      var under := KeysUnder(store.keys, prefix);
      assert AllKeys(store, prefixes) == under + AllKeys(store, prefixes[1..]);
      if first.completed {
        RoundKeysAppend(first.rounds, rest.rounds);
        assert RoundKeys(first.rounds) == under;
      } else {
        assert RoundKeys(first.rounds) <= under;
      }
      assert (forall p | p in prefixes :: p !in store.faults) ==> (forall p | p in prefixes[1..] :: p !in store.faults);
    }
  }

  /**
   * Distinct keys in canonical form (no empty, "." or ".." segment and no leading slash)
   * are written to distinct local files.
   */
  lemma CleanKeysGetDistinctFiles(store: ObjectStore, prefixes: seq<string>, dir: string, r1: Round, r2: Round, j1: Job, j2: Job)
    requires r1 in Plan(store, prefixes, dir).rounds && r2 in Plan(store, prefixes, dir).rounds
    requires j1 in r1.jobs && j2 in r2.jobs
    requires IsCleanKey(j1.key) && IsCleanKey(j2.key) && j1.key != j2.key
    ensures j1.localPath != j2.localPath
  {
    PlanRoundsAreBounded(store, prefixes, dir);
    if j1.localPath == j2.localPath {
      JoinInjective(dir, j1.key, j2.key);
    }
  }

  /**
   * Keys that differ only by a doubled slash are both downloaded, to the same local file,
   * since path.Join cleans the joined path: two keys under a resolved root whose listing
   * does not fail.
   */
  lemma DoubledSlashKeysShareFile(store: ObjectStore, prefixes: seq<string>, dir: string, root: string, a: string, b: string)
    requires dir != []
    requires root in prefixes && root <= a
    requires a + "//" + b in store.keys && a + "/" + b in store.keys
    requires forall p | p in prefixes :: p !in store.faults
    ensures var k1, k2, rounds := a + "//" + b, a + "/" + b, Plan(store, prefixes, dir).rounds;
            && k1 != k2
            && exists r1, j1, r2, j2 | r1 in rounds && j1 in r1.jobs && r2 in rounds && j2 in r2.jobs ::
                 j1.key == k1 && j2.key == k2 && j1.localPath == j2.localPath
  {
    DoubledSlashCollides(dir, a, b);
    KeysOfRootPath(root, a, b);
    var r1, j1 := PlannedKey(store, prefixes, dir, root, a + "//" + b);
    var r2, j2 := PlannedKey(store, prefixes, dir, root, a + "/" + b);
  }

  lemma KeysOfRootPath(root: string, a: string, b: string)
    requires root <= a
    ensures root <= a + "//" + b && root <= a + "/" + b
  {
    assert (a + "//" + b)[..|root|] == a[..|root|];
    assert (a + "/" + b)[..|root|] == a[..|root|];
  }

  /** A key under a root whose listing does not fail is downloaded to path.Join(dir, key). */
  lemma PlannedKey(store: ObjectStore, prefixes: seq<string>, dir: string, root: string, k: string) returns (round: Round, job: Job)
    requires root in prefixes && root <= k && k in store.keys
    requires forall p | p in prefixes :: p !in store.faults
    ensures round in Plan(store, prefixes, dir).rounds && job in round.jobs
    ensures job.key == k && job.localPath == Join(dir, k)
  {
    PlanKeysInOrder(store, prefixes, dir);
    InAllKeys(store, prefixes, root, k);
    round, job := RoundKeysMember(Plan(store, prefixes, dir).rounds, k);
    PlanRoundsAreBounded(store, prefixes, dir);
  }

  /** A key under one of the roots is among the keys listed for the roots. */
  lemma {:induction false} InAllKeys(store: ObjectStore, prefixes: seq<string>, root: string, k: string)
    requires root in prefixes && root <= k && k in store.keys
    ensures k in AllKeys(store, prefixes)
    decreases |prefixes|
  {
    if prefixes[0] == root {
      assert k in KeysUnder(store.keys, root);
    } else {
      InAllKeys(store, prefixes[1..], root, k);
    }
  }

  /** A downloaded key comes from a job of one of the rounds. */
  lemma {:induction false} RoundKeysMember(rounds: seq<Round>, k: string) returns (round: Round, job: Job)
    requires k in RoundKeys(rounds)
    ensures round in rounds && job in round.jobs && job.key == k
    decreases |rounds|
  {
    if k in JobKeys(rounds[0].jobs) {
      round := rounds[0];
      job := JobKeysMember(round.jobs, k);
    } else {
      round, job := RoundKeysMember(rounds[1..], k);
    }
  }

  lemma {:induction false} JobKeysMember(jobs: seq<Job>, k: string) returns (job: Job)
    requires k in JobKeys(jobs)
    ensures job in jobs && job.key == k
    decreases |jobs|
  {
    if k == jobs[|jobs| - 1].key {
      job := jobs[|jobs| - 1];
    } else {
      job := JobKeysMember(jobs[..|jobs| - 1], k);
    }
  }

  /**
   * End to end: a run that passes every gate downloads. With a path and survey names, the
   * multibeam flag, an accepted target, a non-empty resolution and an estimate that fits,
   * the command downloads exactly the plan for the resolved roots into the path.
   */
  lemma PassingRunDownloads(args: seq<string>, flags: Flags, env: Environment)
    requires |args| >= 2 && flags.multibeam && VerifyTarget(env.target)
    requires var found := Resolve(args[..|args| - 1], env.bucket);
             found.Some? && found.value != [] && DiskSpaceCheck(env.available, env.estimate(found.value)) == Some(true)
    ensures var roots, path := Resolve(args[..|args| - 1], env.bucket).value, args[|args| - 1];
            Run(args, flags, env) == Ran(args[..|args| - 1], path, Dispatched(Some(BathyDownloaded(roots, Plan(env.store, roots, path)))))
  {
  }

  /** The crowdsourced flag changes nothing about the command's outcome. */
  lemma RunIgnoresCrowdsourced(args: seq<string>, flags: Flags, env: Environment, crowdsourced: bool)
    ensures Run(args, flags, env) == Run(args, flags.(crowdsourced := crowdsourced), env)
  {
  }

  /**
   * End to end: when the command downloads, the target is valid, the space fits, and
   * every file comes from a listed survey root whose name was among the arguments.
   */
  lemma RunDownloadsOnlyRequestedSurveys(args: seq<string>, flags: Flags, env: Environment)
    requires Run(args, flags, env).Ran?
    requires Run(args, flags, env).outcome.Dispatched?
    requires Run(args, flags, env).outcome.bathy.Some?
    requires Run(args, flags, env).outcome.bathy.value.BathyDownloaded?
    ensures var o := Run(args, flags, env).outcome.bathy.value;
            && VerifyTarget(env.target)
            && flags.multibeam
            && DiskSpaceCheck(env.available, env.estimate(o.roots)) == Some(true)
            && forall round | round in o.run.rounds ::
                 && SurveyName(round.prefix) in args[..|args| - 1]
                 && SurveySeen(round.prefix) in Events(env.bucket)
                 && forall job | job in round.jobs :: round.prefix <= job.key
                      && job.localPath == Join(args[|args| - 1], job.key)
                      && (IsCleanKey(job.key) ==> JoinRoot(args[|args| - 1]) <= job.localPath)
  {
    var r := Run(args, flags, env);
    var o := r.outcome.bathy.value;
    assert r.surveys == args[..|args| - 1] && r.path == args[|args| - 1] by {
      ArgumentsSplit(args, flags, env);
    }
    assert o == DownloadBathySurveys(r.surveys, r.path, env);
    assert Resolve(r.surveys, env.bucket) == Some(o.roots);
    assert forall p | p in o.roots :: SurveyName(p) in r.surveys && SurveySeen(p) in Events(env.bucket) by {
      ResolveOnlyMatches(r.surveys, env.bucket);
    }
    assert o.run == Plan(env.store, o.roots, r.path);
    forall round | round in o.run.rounds
      ensures SurveyName(round.prefix) in args[..|args| - 1] && SurveySeen(round.prefix) in Events(env.bucket)
      ensures forall job | job in round.jobs :: round.prefix <= job.key && job.localPath == Join(args[|args| - 1], job.key)
      ensures forall job | job in round.jobs && IsCleanKey(job.key) :: JoinRoot(args[|args| - 1]) <= job.localPath
    {
      PlanRoundsAreBounded(env.store, o.roots, r.path);
      forall job | job in round.jobs && IsCleanKey(job.key)
        ensures JoinRoot(r.path) <= job.localPath
      {
        JoinCleanKey(r.path, job.key);
      }
    }
  }
}

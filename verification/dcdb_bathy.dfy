/**
 * Resolution of multibeam survey names to survey prefixes in the bathymetry bucket.
 *
 * The bucket's `mb/` namespace is a three-level tree of delimited listings:
 * platform types, then platforms, then surveys. The walk lists it depth first, compares
 * the base name of each survey prefix with the requested names, and returns the matching
 * prefixes in discovery order. After each platform it stops if the number of matches
 * equals the number of requested names.
 *
 * `Resolve` is the reference definition: the walk flattened into a stream of events
 * (a survey prefix seen, a platform finished, a listing failed) folded by `Advance`.
 * `ResolveMultibeamSurveys` is the nested-loop walk, proved to compute `Resolve`.
 */
module DcdbBathy {
  import opened Wrappers
  import opened GoPath
  import opened Listing

  /** A platform prefix and the pages of its delimited listing: survey prefixes. */
  datatype Platform = Platform(prefix: string, surveyPages: seq<Page<string>>)

  /** A platform-type prefix and the pages of its delimited listing: platforms. */
  datatype PlatformType = PlatformType(prefix: string, platformPages: seq<Page<Platform>>)

  /**
   * The responses to listing `mb/`: the first response and any continuation pages. An
   * empty sequence stands for an empty response.
   */
  datatype Bucket = Bucket(rootPages: seq<Page<PlatformType>>)

  /**
   * The base name of a survey prefix: trailing slashes trimmed, then path.Base. It is one
   * non-empty path element, or "/" for a prefix made only of slashes.
   */
  function SurveyName(surveyPrefix: string): (name: string)
    ensures name != []
    ensures name == "/" || '/' !in name
  {
    Base(TrimRight(surveyPrefix, '/'))
  }

  /** The observable steps of the walk, in the order it takes them. */
  datatype Event = SurveySeen(prefix: string) | PlatformDone | ListingFailed

  function SurveyEvents(prefixes: seq<string>): seq<Event>
  {
    if prefixes == [] then [] else [SurveySeen(prefixes[0])] + SurveyEvents(prefixes[1..])
  }

  function SurveyPageEvents(pages: seq<Page<string>>): seq<Event>
  {
    if pages == [] then []
    else
      (match pages[0]
       case ListFailed => [ListingFailed]
       case Listed(prefixes) => SurveyEvents(prefixes))
      + SurveyPageEvents(pages[1..])
  }

  function PlatformEvents(platforms: seq<Platform>): seq<Event>
  {
    if platforms == [] then []
    else SurveyPageEvents(platforms[0].surveyPages) + [PlatformDone] + PlatformEvents(platforms[1..])
  }

  function PlatformPageEvents(pages: seq<Page<Platform>>): seq<Event>
  {
    if pages == [] then []
    else
      (match pages[0]
       case ListFailed => [ListingFailed]
       case Listed(platforms) => PlatformEvents(platforms))
      + PlatformPageEvents(pages[1..])
  }

  function PlatformTypeEvents(types: seq<PlatformType>): seq<Event>
  {
    if types == [] then []
    else PlatformPageEvents(types[0].platformPages) + PlatformTypeEvents(types[1..])
  }

  /** The events of a complete walk. Only the first response of the root listing is used. */
  function Events(bucket: Bucket): seq<Event>
  {
    if bucket.rootPages == [] then []
    else match bucket.rootPages[0]
      case ListFailed => [ListingFailed]
      case Listed(types) => PlatformTypeEvents(types)
  }

  /** The state of the walk: still searching, stopped early, or aborted by a listing failure. */
  datatype Walk = Searching(paths: seq<string>) | Stopped(paths: seq<string>) | Aborted

  function Step(wanted: seq<string>, paths: seq<string>, e: Event): Walk
  {
    match e
    case SurveySeen(p) => if SurveyName(p) in wanted then Searching(paths + [p]) else Searching(paths)
    case PlatformDone => if |paths| == |wanted| then Stopped(paths) else Searching(paths)
    case ListingFailed => Aborted
  }

  /** The walk's state after the events, starting from `w`; a stopped or aborted walk stays so. */
  function Advance(wanted: seq<string>, w: Walk, events: seq<Event>): Walk
    decreases |events|
  {
    if !w.Searching? || events == [] then w
    else Advance(wanted, Step(wanted, w.paths, events[0]), events[1..])
  }

  /** The outcome of resolution: the matched prefixes, or None for a fatal listing failure. */
  function Resolve(wanted: seq<string>, bucket: Bucket): Option<seq<string>>
  {
    match Advance(wanted, Searching([]), Events(bucket))
    case Aborted => None
    case Searching(p) => Some(p)
    case Stopped(p) => Some(p)
  }

  /** isSurveyMatch: whether `resolvedSurvey` equals one of `surveys`, exactly. */
  method IsSurveyMatch(surveys: seq<string>, resolvedSurvey: string) returns (matched: bool)
    ensures matched <==> resolvedSurvey in surveys
  {
    for i := 0 to |surveys|
      invariant forall j :: 0 <= j < i ==> surveys[j] != resolvedSurvey
    {
      if surveys[i] == resolvedSurvey {
        return true;
      }
    }
    return false;
  }

  lemma AdvanceCons(wanted: seq<string>, paths: seq<string>, e: Event, rest: seq<Event>)
    ensures Advance(wanted, Searching(paths), [e] + rest) == Advance(wanted, Step(wanted, paths, e), rest)
  {
    assert ([e] + rest)[0] == e;
    assert ([e] + rest)[1..] == rest;
  }

  // One-step unfoldings of the event stream, one per loop of the walk.

  lemma NextSurvey(prefixes: seq<string>, n: nat, after: seq<Event>)
    requires n < |prefixes|
    ensures SurveyEvents(prefixes[n..]) + after
         == [SurveySeen(prefixes[n])] + (SurveyEvents(prefixes[n + 1..]) + after)
  {
    assert prefixes[n..][1..] == prefixes[n + 1..];
  }

  lemma NextSurveyPage(pages: seq<Page<string>>, m: nat, after: seq<Event>)
    requires m < |pages|
    ensures pages[m].ListFailed? ==>
              SurveyPageEvents(pages[m..]) + after == [ListingFailed] + (SurveyPageEvents(pages[m + 1..]) + after)
    ensures pages[m].Listed? ==>
              SurveyPageEvents(pages[m..]) + after
              == SurveyEvents(pages[m].entries[0..]) + (SurveyPageEvents(pages[m + 1..]) + after)
  {
    assert pages[m..][1..] == pages[m + 1..];
    if pages[m].Listed? {
      assert pages[m].entries[0..] == pages[m].entries;
    }
  }

  lemma NextPlatform(platforms: seq<Platform>, k: nat, after: seq<Event>)
    requires k < |platforms|
    ensures PlatformEvents(platforms[k..]) + after
         == SurveyPageEvents(platforms[k].surveyPages[0..]) + ([PlatformDone] + (PlatformEvents(platforms[k + 1..]) + after))
  {
    assert platforms[k..][1..] == platforms[k + 1..];
    assert platforms[k].surveyPages[0..] == platforms[k].surveyPages;
  }

  lemma NextPlatformPage(pages: seq<Page<Platform>>, j: nat, after: seq<Event>)
    requires j < |pages|
    ensures pages[j].ListFailed? ==>
              PlatformPageEvents(pages[j..]) + after == [ListingFailed] + (PlatformPageEvents(pages[j + 1..]) + after)
    ensures pages[j].Listed? ==>
              PlatformPageEvents(pages[j..]) + after
              == PlatformEvents(pages[j].entries[0..]) + (PlatformPageEvents(pages[j + 1..]) + after)
  {
    assert pages[j..][1..] == pages[j + 1..];
    if pages[j].Listed? {
      assert pages[j].entries[0..] == pages[j].entries;
    }
  }

  lemma NextPlatformType(types: seq<PlatformType>, i: nat)
    requires i < |types|
    ensures PlatformTypeEvents(types[i..])
         == PlatformPageEvents(types[i].platformPages[0..]) + PlatformTypeEvents(types[i + 1..])
  {
    assert types[i..][1..] == types[i + 1..];
    assert types[i].platformPages[0..] == types[i].platformPages;
  }

  lemma RootEvents(bucket: Bucket)
    requires bucket.rootPages != []
    ensures bucket.rootPages[0].ListFailed? ==> Events(bucket) == [ListingFailed] + []
    ensures bucket.rootPages[0].Listed? ==> Events(bucket) == PlatformTypeEvents(bucket.rootPages[0].entries[0..])
  {
    if bucket.rootPages[0].Listed? {
      assert bucket.rootPages[0].entries[0..] == bucket.rootPages[0].entries;
    }
  }

  /**
   * ResolveMultibeamSurveys: the walk as nested loops over the listing pages, with the
   * match counter kept equal to the number of matched prefixes and the early return
   * checked after each platform.
   */
  method ResolveMultibeamSurveys(inputSurveys: seq<string>, bucket: Bucket) returns (r: Option<seq<string>>)
    ensures r == Resolve(inputSurveys, bucket)
  {
    ghost var total := Advance(inputSurveys, Searching([]), Events(bucket));
    var surveyPaths: seq<string> := [];
    var wantedSurveys := |inputSurveys|;
    var foundSurveys := 0;

    if bucket.rootPages == [] {
      return Some(surveyPaths);
    }
    var pt := bucket.rootPages[0];
    RootEvents(bucket);
    if pt.ListFailed? {
      AdvanceCons(inputSurveys, [], ListingFailed, []);
      return None;
    }
    var platformTypes := pt.entries;
    for i := 0 to |platformTypes|
      invariant foundSurveys == |surveyPaths|
      invariant total == Advance(inputSurveys, Searching(surveyPaths), PlatformTypeEvents(platformTypes[i..]))
    {
      ghost var afterType := PlatformTypeEvents(platformTypes[i + 1..]);
      NextPlatformType(platformTypes, i);
      var allPlatforms := platformTypes[i].platformPages;
      for j := 0 to |allPlatforms|
        invariant foundSurveys == |surveyPaths|
        invariant total == Advance(inputSurveys, Searching(surveyPaths), PlatformPageEvents(allPlatforms[j..]) + afterType)
      {
        ghost var afterPage := PlatformPageEvents(allPlatforms[j + 1..]) + afterType;
        NextPlatformPage(allPlatforms, j, afterType);
        var platsPage := allPlatforms[j];
        if platsPage.ListFailed? {
          AdvanceCons(inputSurveys, surveyPaths, ListingFailed, afterPage);
          return None;
        }
        var platforms := platsPage.entries;
        for k := 0 to |platforms|
          invariant foundSurveys == |surveyPaths|
          invariant total == Advance(inputSurveys, Searching(surveyPaths), PlatformEvents(platforms[k..]) + afterPage)
        {
          ghost var afterPlatform := [PlatformDone] + (PlatformEvents(platforms[k + 1..]) + afterPage);
          NextPlatform(platforms, k, afterPage);
          var platformPaginator := platforms[k].surveyPages;
          for m := 0 to |platformPaginator|
            invariant foundSurveys == |surveyPaths|
            invariant total == Advance(inputSurveys, Searching(surveyPaths), SurveyPageEvents(platformPaginator[m..]) + afterPlatform)
          {
            ghost var afterSurveys := SurveyPageEvents(platformPaginator[m + 1..]) + afterPlatform;
            NextSurveyPage(platformPaginator, m, afterPlatform);
            var surveysPage := platformPaginator[m];
            if surveysPage.ListFailed? {
              AdvanceCons(inputSurveys, surveyPaths, ListingFailed, afterSurveys);
              return None;
            }
            var surveys := surveysPage.entries;
            for n := 0 to |surveys|
              invariant foundSurveys == |surveyPaths|
              invariant total == Advance(inputSurveys, Searching(surveyPaths), SurveyEvents(surveys[n..]) + afterSurveys)
            {
              var surveyPrefix := surveys[n];
              NextSurvey(surveys, n, afterSurveys);
              AdvanceCons(inputSurveys, surveyPaths, SurveySeen(surveyPrefix), SurveyEvents(surveys[n + 1..]) + afterSurveys);
              var survey := SurveyName(surveyPrefix);
              var isMatch := IsSurveyMatch(inputSurveys, survey);
              if isMatch {
                surveyPaths := surveyPaths + [surveyPrefix];
                foundSurveys := foundSurveys + 1;
              }
            }
            assert SurveyEvents(surveys[|surveys|..]) + afterSurveys == afterSurveys;
          }
          assert SurveyPageEvents(platformPaginator[|platformPaginator|..]) + afterPlatform == afterPlatform;
          AdvanceCons(inputSurveys, surveyPaths, PlatformDone, PlatformEvents(platforms[k + 1..]) + afterPage);
          if wantedSurveys == foundSurveys {
            return Some(surveyPaths);
          }
        }
        assert PlatformEvents(platforms[|platforms|..]) + afterPage == afterPage;
      }
      assert PlatformPageEvents(allPlatforms[|allPlatforms|..]) + afterType == afterType;
    }
    return Some(surveyPaths);
  }

  /** A survey prefix's base name is the directory name it ends with: "mb/<type>/<platform>/<name>/" gives "<name>". */
  lemma SurveyNameOfPrefix(parent: string, name: string)
    requires name != [] && '/' !in name
    requires parent == [] || parent[|parent| - 1] == '/'
    ensures SurveyName(parent + name + "/") == name
  {
    BaseOfDirectoryPrefix(parent, name);
  }

  /**
   * The reference list of matches: the prefixes of the survey events whose base name is
   * wanted, in the order the walk sees them, up to the first listing failure.
   */
  function Matches(wanted: seq<string>, events: seq<Event>): (r: seq<string>)
    ensures forall p | p in r :: SurveyName(p) in wanted && SurveySeen(p) in events
  {
    if events == [] then []
    else match events[0]
      case SurveySeen(p) => (if SurveyName(p) in wanted then [p] else []) + Matches(wanted, events[1..])
      case PlatformDone => Matches(wanted, events[1..])
      case ListingFailed => []
  }

  /**
   * What a walk from `Searching(paths0)` ends in. Still searching: every match was appended
   * and nothing failed. Stopped: the count equalled the wanted count at a platform
   * boundary, and the result is a leading part of the matches. Aborted: some listing failed.
   */
  lemma {:induction false} AdvanceOutcome(wanted: seq<string>, paths0: seq<string>, events: seq<Event>)
    ensures Advance(wanted, Searching(paths0), events).Searching? ==>
              Advance(wanted, Searching(paths0), events).paths == paths0 + Matches(wanted, events)
              && ListingFailed !in events
    ensures Advance(wanted, Searching(paths0), events).Stopped? ==>
              var found := Advance(wanted, Searching(paths0), events).paths;
              |found| == |wanted| && paths0 <= found && found <= paths0 + Matches(wanted, events)
    ensures Advance(wanted, Searching(paths0), events).Aborted? ==> ListingFailed in events
    decreases |events|
  {
    if events != [] {
      var next := Step(wanted, paths0, events[0]);
      assert Advance(wanted, Searching(paths0), events) == Advance(wanted, next, events[1..]);
      if next.Searching? {
        AdvanceOutcome(wanted, next.paths, events[1..]);
        SearchingStep(wanted, paths0, events);
      } else if next.Stopped? {
        assert paths0 <= paths0 + Matches(wanted, events);
      } else {
        assert events[0] in events;
      }
    }
  }

  /** One event that keeps the walk searching: what it adds to the paths and to the matches agree. */
  lemma SearchingStep(wanted: seq<string>, paths0: seq<string>, events: seq<Event>)
    requires events != [] && Step(wanted, paths0, events[0]).Searching?
    ensures var paths1 := Step(wanted, paths0, events[0]).paths;
            && paths1 + Matches(wanted, events[1..]) == paths0 + Matches(wanted, events)
            && paths0 <= paths1
            && (ListingFailed in events[1..] ==> ListingFailed in events)
            && events[0] != ListingFailed
  {
    var e, rest := events[0], events[1..];
    var paths1 := Step(wanted, paths0, e).paths;
    StepMatch(wanted, paths0, e);
    MatchesCons(wanted, events);
    calc {
      paths1 + Matches(wanted, rest);
      (paths0 + MatchOf(wanted, e)) + Matches(wanted, rest);
      { AppendAssoc(paths0, MatchOf(wanted, e), Matches(wanted, rest)); }
      paths0 + (MatchOf(wanted, e) + Matches(wanted, rest));
      paths0 + Matches(wanted, events);
    }
    assert events == [e] + rest;
  }

  lemma AppendAssoc<T>(a: seq<T>, b: seq<T>, c: seq<T>)
    ensures (a + b) + c == a + (b + c)
  {
  }

  /** A step that keeps the walk searching appends exactly the event's match. */
  lemma StepMatch(wanted: seq<string>, paths0: seq<string>, e: Event)
    requires Step(wanted, paths0, e).Searching?
    ensures Step(wanted, paths0, e).paths == paths0 + MatchOf(wanted, e)
    ensures e != ListingFailed
  {
    if !(e.SurveySeen? && SurveyName(e.prefix) in wanted) {
      assert paths0 + [] == paths0;
    }
  }

  /** The matches one event contributes. */
  function MatchOf(wanted: seq<string>, e: Event): seq<string>
  {
    if e.SurveySeen? && SurveyName(e.prefix) in wanted then [e.prefix] else []
  }

  lemma MatchesCons(wanted: seq<string>, events: seq<Event>)
    requires events != [] && events[0] != ListingFailed
    ensures Matches(wanted, events) == MatchOf(wanted, events[0]) + Matches(wanted, events[1..])
  {
  }

  /** Running the walk over two stretches of events is running it over their concatenation. */
  lemma {:induction false} AdvanceAppend(wanted: seq<string>, w: Walk, a: seq<Event>, b: seq<Event>)
    ensures Advance(wanted, w, a + b) == Advance(wanted, Advance(wanted, w, a), b)
    decreases |a|
  {
    if a == [] {
      assert a + b == b;
    } else if w.Searching? {
      assert (a + b)[0] == a[0];
      assert (a + b)[1..] == a[1..] + b;
      AdvanceAppend(wanted, Step(wanted, w.paths, a[0]), a[1..], b);
    }
  }

  /** Once the walk has stopped, nothing after it is listed: later failures included. */
  lemma StopSkipsRest(wanted: seq<string>, a: seq<Event>, b: seq<Event>, found: seq<string>)
    requires Advance(wanted, Searching([]), a) == Stopped(found)
    ensures Advance(wanted, Searching([]), a + b) == Stopped(found)
  {
    AdvanceAppend(wanted, Searching([]), a, b);
  }

  /**
   * The walk stops at the platform boundary where the match count equals the number of
   * requested names, and nothing after that boundary changes the result.
   */
  lemma StopsAtExactCount(wanted: seq<string>, a: seq<Event>, b: seq<Event>, found: seq<string>)
    requires Advance(wanted, Searching([]), a) == Searching(found) && |found| == |wanted|
    ensures Advance(wanted, Searching([]), a + [PlatformDone] + b) == Stopped(found)
  {
    assert a + [PlatformDone] + b == a + ([PlatformDone] + b);
    AdvanceAppend(wanted, Searching([]), a, [PlatformDone] + b);
    AdvanceCons(wanted, found, PlatformDone, b);
  }

  /** A listing failure reached while the walk is still searching ends it with no result. */
  lemma FailureIsFatal(wanted: seq<string>, a: seq<Event>, b: seq<Event>)
    requires Advance(wanted, Searching([]), a).Searching?
    ensures Advance(wanted, Searching([]), a + [ListingFailed] + b) == Aborted
  {
    AdvanceAppend(wanted, Searching([]), a, [ListingFailed] + b);
    assert a + [ListingFailed] + b == a + ([ListingFailed] + b);
  }

  /**
   * The stop test is an exact comparison: once more prefixes have matched than names were
   * requested, the walk never stops early and lists the rest of the bucket.
   */
  lemma OvershootNeverStops(wanted: seq<string>, paths0: seq<string>, events: seq<Event>)
    requires |paths0| > |wanted|
    ensures !Advance(wanted, Searching(paths0), events).Stopped?
  {
    AdvanceOutcome(wanted, paths0, events);
  }

  /** The early-exit test runs only at platform boundaries: the surveys of one platform never stop the walk. */
  lemma {:induction false} SurveysNeverStop(wanted: seq<string>, paths0: seq<string>, pages: seq<Page<string>>)
    ensures !Advance(wanted, Searching(paths0), SurveyPageEvents(pages)).Stopped?
  {
    AdvanceOutcome(wanted, paths0, SurveyPageEvents(pages));
    if Advance(wanted, Searching(paths0), SurveyPageEvents(pages)).Stopped? {
      assert PlatformDone !in SurveyPageEvents(pages) by {
        NoPlatformDoneInSurveys(pages);
      }
      StoppedNeedsPlatformDone(wanted, paths0, SurveyPageEvents(pages));
    }
  }

  lemma {:induction false} NoPlatformDoneInSurveys(pages: seq<Page<string>>)
    ensures PlatformDone !in SurveyPageEvents(pages)
    decreases |pages|
  {
    if pages != [] {
      NoPlatformDoneInSurveys(pages[1..]);
      if pages[0].Listed? {
        NoPlatformDoneInPrefixes(pages[0].entries);
      }
    }
  }

  lemma {:induction false} NoPlatformDoneInPrefixes(prefixes: seq<string>)
    ensures PlatformDone !in SurveyEvents(prefixes)
    decreases |prefixes|
  {
    if prefixes != [] {
      NoPlatformDoneInPrefixes(prefixes[1..]);
    }
  }

  lemma {:induction false} StoppedNeedsPlatformDone(wanted: seq<string>, paths0: seq<string>, events: seq<Event>)
    requires Advance(wanted, Searching(paths0), events).Stopped?
    ensures PlatformDone in events
    decreases |events|
  {
    var e := events[0];
    if e != PlatformDone {
      StoppedNeedsPlatformDone(wanted, Step(wanted, paths0, e).paths, events[1..]);
    }
  }

  /**
   * What resolution returns. A fatal listing failure is the only way to get no result. A
   * result holds the matching survey prefixes in discovery order: all of them when the
   * walk ran to the end, and a leading part of them whose length is the number of
   * requested names when it stopped early.
   */
  lemma ResolveSound(wanted: seq<string>, bucket: Bucket)
    ensures Resolve(wanted, bucket).None? ==> ListingFailed in Events(bucket)
    ensures ListingFailed !in Events(bucket) ==> Resolve(wanted, bucket).Some?
    ensures Resolve(wanted, bucket).Some? ==>
              var found := Resolve(wanted, bucket).value;
              && found <= Matches(wanted, Events(bucket))
              && (found == Matches(wanted, Events(bucket)) || |found| == |wanted|)
  {
    AdvanceOutcome(wanted, [], Events(bucket));
    assert [] + Matches(wanted, Events(bucket)) == Matches(wanted, Events(bucket));
  }

  /** Every returned prefix is a survey prefix the walk listed, and its base name was requested. */
  lemma ResolveOnlyMatches(wanted: seq<string>, bucket: Bucket)
    ensures Resolve(wanted, bucket).Some? ==>
              forall p | p in Resolve(wanted, bucket).value :: SurveyName(p) in wanted && SurveySeen(p) in Events(bucket)
  {
    ResolveSound(wanted, bucket);
    if Resolve(wanted, bucket).Some? {
      var found := Resolve(wanted, bucket).value;
      var all := Matches(wanted, Events(bucket));
      forall p | p in found ensures p in all {
        var i :| 0 <= i < |found| && found[i] == p;
        assert all[i] == p;
      }
    }
  }

  /** Only the first response of the root listing counts; further pages are never requested. */
  lemma RootFirstPageOnly(wanted: seq<string>, first: Page<PlatformType>, more: seq<Page<PlatformType>>)
    ensures Resolve(wanted, Bucket([first] + more)) == Resolve(wanted, Bucket([first]))
  {
    assert ([first] + more)[0] == first;
  }

  /**
   * The exact-equality quirk on a bucket of one platform type and three platforms. The
   * first platform holds survey `x`; the second holds `y`, with the same base name as `x`,
   * and `z`; listing the third fails. With the names of `x` and `z` requested, the count
   * goes from 1 to 3 without ever equalling 2, so the walk reaches the third platform and
   * the whole resolution fails, although both names were found.
   */
  lemma OvershootScenario(t: string, pp: string, qp: string, rp: string, x: string, y: string, z: string)
    requires SurveyName(x) == SurveyName(y) && SurveyName(x) != SurveyName(z)
    ensures var p := Platform(pp, [Listed([x])]);
            var q := Platform(qp, [Listed([y, z])]);
            var r := Platform(rp, [ListFailed]);
            Resolve([SurveyName(x), SurveyName(z)], Bucket([Listed([PlatformType(t, [Listed([p, q, r])])])])) == None
  {
    var wanted := [SurveyName(x), SurveyName(z)];
    var p := Platform(pp, [Listed([x])]);
    var q := Platform(qp, [Listed([y, z])]);
    var r := Platform(rp, [ListFailed]);
    var overshoot := [SurveySeen(x)] + [PlatformDone] + ([SurveySeen(y), SurveySeen(z)] + [PlatformDone] + ([ListingFailed] + [PlatformDone]));
    assert Events(Bucket([Listed([PlatformType(t, [Listed([p, q, r])])])])) == overshoot by {
      OnePlatformPage(x);
      TwoSurveyPage(y, z);
      ThreePlatformEvents(t, p, q, r);
    }
    OvershootWalk(wanted, x, y, z);
  }

  /**
   * The same bucket with only `z` on the second platform: the count reaches 2 exactly at
   * the end of that platform and the walk stops before the failing platform.
   */
  lemma ExactCountScenario(t: string, pp: string, qp: string, rp: string, x: string, z: string)
    requires SurveyName(x) != SurveyName(z)
    ensures var p := Platform(pp, [Listed([x])]);
            var q := Platform(qp, [Listed([z])]);
            var r := Platform(rp, [ListFailed]);
            Resolve([SurveyName(x), SurveyName(z)], Bucket([Listed([PlatformType(t, [Listed([p, q, r])])])])) == Some([x, z])
  {
    var wanted := [SurveyName(x), SurveyName(z)];
    var p := Platform(pp, [Listed([x])]);
    var q := Platform(qp, [Listed([z])]);
    var r := Platform(rp, [ListFailed]);
    var exact := [SurveySeen(x)] + [PlatformDone] + ([SurveySeen(z)] + [PlatformDone] + ([ListingFailed] + [PlatformDone]));
    assert Events(Bucket([Listed([PlatformType(t, [Listed([p, q, r])])])])) == exact by {
      OnePlatformPage(x);
      OnePlatformPage(z);
      ThreePlatformEvents(t, p, q, r);
    }
    ExactCountWalk(wanted, x, z);
  }

  lemma TwoSurveyPage(y: string, z: string)
    ensures SurveyPageEvents([Listed([y, z])]) == [SurveySeen(y), SurveySeen(z)]
  {
    assert [y, z][1..] == [z];
    assert SurveyEvents([z]) == [SurveySeen(z)];
    assert SurveyEvents([y, z]) == [SurveySeen(y)] + SurveyEvents([z]);
    assert SurveyPageEvents([Listed([y, z])]) == SurveyEvents([y, z]) + [];
  }

  lemma OnePlatformPage(x: string)
    ensures SurveyPageEvents([Listed([x])]) == [SurveySeen(x)]
    ensures SurveyPageEvents([ListFailed]) == [ListingFailed]
  {
    assert SurveyEvents([x]) == [SurveySeen(x)];
    assert SurveyPageEvents([Listed([x])]) == SurveyEvents([x]) + [];
  }

  lemma ThreePlatformEvents(t: string, p: Platform, q: Platform, r: Platform)
    ensures Events(Bucket([Listed([PlatformType(t, [Listed([p, q, r])])])]))
         == SurveyPageEvents(p.surveyPages) + [PlatformDone]
          + (SurveyPageEvents(q.surveyPages) + [PlatformDone]
          + (SurveyPageEvents(r.surveyPages) + [PlatformDone]))
  {
    var ps := [p, q, r];
    assert ps[1..] == [q, r];
    assert ps[1..][1..] == [r];
    assert PlatformEvents([r]) == SurveyPageEvents(r.surveyPages) + [PlatformDone] + [];
    assert PlatformEvents([q, r]) == SurveyPageEvents(q.surveyPages) + [PlatformDone] + PlatformEvents([r]);
    assert PlatformEvents(ps) == SurveyPageEvents(p.surveyPages) + [PlatformDone]
          + (SurveyPageEvents(q.surveyPages) + [PlatformDone]
          + (SurveyPageEvents(r.surveyPages) + [PlatformDone]));
    var types := [PlatformType(t, [Listed(ps)])];
    assert PlatformPageEvents([Listed(ps)]) == PlatformEvents(ps) + [];
    assert PlatformTypeEvents(types) == PlatformPageEvents([Listed(ps)]) + [];
  }

  lemma OvershootWalk(wanted: seq<string>, x: string, y: string, z: string)
    requires |wanted| == 2 && SurveyName(x) in wanted && SurveyName(y) in wanted && SurveyName(z) in wanted
    ensures Advance(wanted, Searching([]),
              [SurveySeen(x)] + [PlatformDone] + ([SurveySeen(y), SurveySeen(z)] + [PlatformDone] + ([ListingFailed] + [PlatformDone])))
         == Aborted
  {
    var e5 := [ListingFailed] + [PlatformDone];
    var e4 := [PlatformDone] + e5;
    var e3 := [SurveySeen(z)] + e4;
    var e2 := [SurveySeen(y)] + e3;
    var e1 := [PlatformDone] + e2;
    OvershootEvents(x, y, z);
    calc {
      Advance(wanted, Searching([]), [SurveySeen(x)] + e1);
      { SeenStep(wanted, [], x, e1); assert [] + [x] == [x]; }
      Advance(wanted, Searching([x]), e1);
      { DoneStep(wanted, [x], e2); }
      Advance(wanted, Searching([x]), e2);
      { SeenStep(wanted, [x], y, e3); assert [x] + [y] == [x, y]; }
      Advance(wanted, Searching([x, y]), e3);
      { SeenStep(wanted, [x, y], z, e4); assert [x, y] + [z] == [x, y, z]; }
      Advance(wanted, Searching([x, y, z]), e4);
      { DoneStep(wanted, [x, y, z], e5); }
      Advance(wanted, Searching([x, y, z]), e5);
      { AdvanceCons(wanted, [x, y, z], ListingFailed, [PlatformDone]); }
      Aborted;
    }
  }

  lemma ExactCountWalk(wanted: seq<string>, x: string, z: string)
    requires |wanted| == 2 && SurveyName(x) in wanted && SurveyName(z) in wanted
    ensures Advance(wanted, Searching([]),
              [SurveySeen(x)] + [PlatformDone] + ([SurveySeen(z)] + [PlatformDone] + ([ListingFailed] + [PlatformDone])))
         == Stopped([x, z])
  {
    var e4 := [PlatformDone] + ([ListingFailed] + [PlatformDone]);
    var e2 := [SurveySeen(z)] + e4;
    var e1 := [PlatformDone] + e2;
    ExactCountEvents(x, z);
    calc {
      Advance(wanted, Searching([]), [SurveySeen(x)] + e1);
      { SeenStep(wanted, [], x, e1); assert [] + [x] == [x]; }
      Advance(wanted, Searching([x]), e1);
      { DoneStep(wanted, [x], e2); }
      Advance(wanted, Searching([x]), e2);
      { SeenStep(wanted, [x], z, e4); assert [x] + [z] == [x, z]; }
      Advance(wanted, Searching([x, z]), e4);
      { AdvanceCons(wanted, [x, z], PlatformDone, [ListingFailed] + [PlatformDone]); }
      Stopped([x, z]);
    }
  }

  lemma OvershootEvents(x: string, y: string, z: string)
    ensures [SurveySeen(x)] + [PlatformDone] + ([SurveySeen(y), SurveySeen(z)] + [PlatformDone] + ([ListingFailed] + [PlatformDone]))
         == [SurveySeen(x)] + ([PlatformDone] + ([SurveySeen(y)] + ([SurveySeen(z)] + ([PlatformDone] + ([ListingFailed] + [PlatformDone])))))
  {
  }

  lemma ExactCountEvents(x: string, z: string)
    ensures [SurveySeen(x)] + [PlatformDone] + ([SurveySeen(z)] + [PlatformDone] + ([ListingFailed] + [PlatformDone]))
         == [SurveySeen(x)] + ([PlatformDone] + ([SurveySeen(z)] + ([PlatformDone] + ([ListingFailed] + [PlatformDone]))))
  {
  }

  /** A survey with a wanted name is appended to the paths. */
  lemma SeenStep(wanted: seq<string>, paths: seq<string>, p: string, rest: seq<Event>)
    requires SurveyName(p) in wanted
    ensures Advance(wanted, Searching(paths), [SurveySeen(p)] + rest) == Advance(wanted, Searching(paths + [p]), rest)
  {
    AdvanceCons(wanted, paths, SurveySeen(p), rest);
  }

  /** A platform boundary with a count that differs from the wanted count changes nothing. */
  lemma DoneStep(wanted: seq<string>, paths: seq<string>, rest: seq<Event>)
    requires |paths| != |wanted|
    ensures Advance(wanted, Searching(paths), [PlatformDone] + rest) == Advance(wanted, Searching(paths), rest)
  {
    AdvanceCons(wanted, paths, PlatformDone, rest);
  }
}

/** The public entry `fetch_serp` of backend/scraper.py with its provider
    fallback chain, and the keyword loop of `scrape_keywords_from_file`.
    Provider outcomes and key presence are inputs: a `World` says what each
    outside call does for one keyword. */
module Pipeline {
  import opened Wrappers
  import opened Text
  import opened Detection
  import opened Extraction
  import ApiRows
  import opened Headful

  /** The `source` tag of a unified record. */
  datatype Source = SerpApi | Selenium | GoogleCse | Blocked {
    function Name(): string {
      match this
      case SerpApi => "serpapi"
      case Selenium => "selenium"
      case GoogleCse => "google_cse"
      case Blocked => "blocked"
    }
  }

  /** The stored `source` strings tell the sources apart. */
  lemma SourceNamesDistinct(a: Source, b: Source)
    ensures a.Name() == b.Name() <==> a == b
  {
  }

  /** A unified record: `{keyword, title, snippet, url, position, source,
      blocked, debug_path}`, plus `blocked_reason` on the sentinel. A record
      without the `blocked_reason` key carries `None` here. */
  datatype Record = Record(
    keyword: string,
    title: string,
    snippet: string,
    url: string,
    position: int,
    source: Source,
    blocked: bool,
    debugPath: Option<string>,
    blockedReason: Option<BlockReason>)

  /** The settings `fetch_serp` reads: its `max_items` and `api_first`
      arguments, the three environment keys (`None` when unset) and where
      debug HTML goes. */
  datatype Config = Config(
    maxItems: int,
    apiFirst: bool,
    serpApiKey: Option<string>,
    cseKey: Option<string>,
    cseCx: Option<string>,
    debugDir: string,
    isAlnum: char -> bool)

  /** What the outside calls do for one keyword: the API-first SerpAPI call,
      the browser sessions of the headful attempts, the fallback SerpAPI call
      and the Custom Search call. A call that raises covers the HTTP error,
      `raise_for_status` and an undecodable body alike. */
  datatype World = World(
    serpFirst: Call<ApiRows.SerpApiResponse>,
    headful: nat -> Session,
    serpAgain: Call<ApiRows.SerpApiResponse>,
    cse: Call<ApiRows.CseResponse>)

  /** Python truthiness of an optional environment value. */
  predicate Present(key: Option<string>) {
    key.Some? && key.value != ""
  }

  /** The headful request `fetch_serp` makes for `keyword`. */
  function HeadfulRequest(keyword: string, cfg: Config): Request {
    Request(keyword, cfg.maxItems, cfg.debugDir, cfg.isAlnum)
  }

  /** Provider rows turned into unified records carrying `source`. */
  function Tag(keyword: string, rows: seq<SerpRow>, source: Source): (r: seq<Record>)
    ensures |r| == |rows|
    ensures forall j :: 0 <= j < |r| ==>
      r[j] == Record(keyword, rows[j].title, rows[j].snippet, rows[j].url, rows[j].position, source, false, None, None)
  {
    seq(|rows|, j requires 0 <= j < |rows| =>
      Record(keyword, rows[j].title, rows[j].snippet, rows[j].url, rows[j].position, source, false, None, None))
  }

  /** The single record returned when every provider failed. */
  function Sentinel(keyword: string, reason: Option<BlockReason>, debugPath: Option<string>): (r: Record)
    ensures IsSentinel(r, keyword) && r.source.Name() == "blocked"
    ensures r.blockedReason == reason && r.debugPath == debugPath
  {
    Record(keyword, "", "", "", 0, Blocked, true, debugPath, reason)
  }

  /** The code after the headful call: SerpAPI if its key is set, then
      Custom Search if both of its keys are set, each skipped when it raises,
      and finally the sentinel built from the headful failure payload. */
  function AfterHeadful(keyword: string, cfg: Config, w: World, payload: Attempt): (r: seq<Record>)
    requires payload.Failure?
    ensures forall j :: 0 <= j < |r| ==> r[j].keyword == keyword
    ensures (|r| == 1 && r[0].blocked)
        <==> !(Present(cfg.serpApiKey) && w.serpAgain.Returns?)
             && !(Present(cfg.cseKey) && Present(cfg.cseCx) && w.cse.Returns?)
    ensures |r| == 1 && r[0].blocked ==> r[0] == Sentinel(keyword, Some(payload.reason), payload.debugPath)
  {
    if Present(cfg.serpApiKey) && w.serpAgain.Returns? then
      Tag(keyword, ApiRows.SerpApiRows(w.serpAgain.value, cfg.maxItems), SerpApi)
    else if Present(cfg.cseKey) && Present(cfg.cseCx) && w.cse.Returns? then
      Tag(keyword, ApiRows.CseRows(w.cse.value, cfg.maxItems), GoogleCse)
    else
      [Sentinel(keyword, Some(payload.reason), payload.debugPath)]
  }

  /** Whether the API-first branch answers. */
  predicate ApiFirstAnswers(cfg: Config, w: World) {
    cfg.apiFirst && Present(cfg.serpApiKey) && w.serpFirst.Returns?
  }

  /** How `fetch_serp` ends as written: with records, or with the
      `RetryError` that the decorated headful call raises after four failures. */
  datatype Fetched = Records(records: seq<Record>) | RaisesRetryError(last: Attempt)

  /** `fetch_serp` as written: the decorated headful call is not guarded,
      so its `RetryError` leaves `fetch_serp` and the fallbacks never run
      after a headful failure. SerpAPI rows carry the string title of
      `ApiRows.SerpApiRows`, not the as-written title, which may be the
      item's position (see `ApiRows.SerpApiTitleAsWritten`). */
  function FetchSerpAsWritten(keyword: string, cfg: Config, w: World): (r: Fetched)
    ensures r.RaisesRetryError? ==> !ApiFirstAnswers(cfg, w) && r.last.Failure?
    ensures r.Records? ==> forall j :: 0 <= j < |r.records| ==> r.records[j].keyword == keyword
  {
    if ApiFirstAnswers(cfg, w) then
      Records(Tag(keyword, ApiRows.SerpApiRows(w.serpFirst.value, cfg.maxItems), SerpApi))
    else
      match FetchSerpHeadful(HeadfulRequest(keyword, cfg), w.headful)
      case RetryError(last) => RaisesRetryError(last)
      // the decorated call settles only on a true success flag, so the
      // fallback code after `if success_flag:` is never reached
      case Settled(a, _) => Records(Tag(keyword, a.rows, Selenium))
  }

  /** The `(success_flag, payload)` pair the corrected code works with: the
      settled outcome, or the last failure when the retries are exhausted
      (what tenacity hands back when told to return the last result). */
  function HeadfulPayload(keyword: string, cfg: Config, w: World): Attempt {
    var h := FetchSerpHeadful(HeadfulRequest(keyword, cfg), w.headful);
    if h.Settled? then h.outcome else h.last
  }

  /** `fetch_serp` as evidently intended: a blocked browser falls through to
      the SerpAPI and Custom Search fallbacks and then to the sentinel. */
  function Unified(keyword: string, cfg: Config, w: World): (r: seq<Record>)
    ensures forall j :: 0 <= j < |r| ==> r[j].keyword == keyword
    ensures ApiFirstAnswers(cfg, w) ==> forall j :: 0 <= j < |r| ==> r[j].source == SerpApi
  {
    if ApiFirstAnswers(cfg, w) then
      Tag(keyword, ApiRows.SerpApiRows(w.serpFirst.value, cfg.maxItems), SerpApi)
    else
      var a := HeadfulPayload(keyword, cfg, w);
      if a.Success? then Tag(keyword, a.rows, Selenium)
      else AfterHeadful(keyword, cfg, w, a)
  }

  /** The `for r in rows: unified.append({...})` loops of `fetch_serp`. */
  method TagRows(keyword: string, rows: seq<SerpRow>, source: Source) returns (unified: seq<Record>)
    ensures unified == Tag(keyword, rows, source)
  {
    unified := [];
    for j := 0 to |rows|
      invariant unified == Tag(keyword, rows[..j], source)
    {
      var r := rows[j];
      unified := unified + [Record(keyword, r.title, r.snippet, r.url, r.position, source, false, None, None)];
    }
    assert rows[..|rows|] == rows;
  }

  /** `fetch_serp` with the retry exhaustion caught: the early returns of
      each provider in turn, then the sentinel. */
  method FetchSerp(keyword: string, cfg: Config, w: World) returns (records: seq<Record>)
    ensures records == Unified(keyword, cfg, w)
    ensures WellFormed(keyword, records)
  {
    UnifiedWellFormed(keyword, cfg, w);
    if cfg.apiFirst && Present(cfg.serpApiKey) && w.serpFirst.Returns? {
      var apiRows := ApiRows.SerpApiSearch(w.serpFirst.value, cfg.maxItems);
      records := TagRows(keyword, apiRows, SerpApi);
      return;
    }
    var h := FetchSerpHeadfulWithRetry(HeadfulRequest(keyword, cfg), w.headful);
    var payload := if h.Settled? then h.outcome else h.last;
    if payload.Success? {
      records := TagRows(keyword, payload.rows, Selenium);
      return;
    }
    if Present(cfg.serpApiKey) && w.serpAgain.Returns? {
      var apiRows := ApiRows.SerpApiSearch(w.serpAgain.value, cfg.maxItems);
      records := TagRows(keyword, apiRows, SerpApi);
      return;
    }
    if Present(cfg.cseKey) && Present(cfg.cseCx) && w.cse.Returns? {
      var apiRows := ApiRows.GoogleCseSearch(w.cse.value, cfg.maxItems);
      records := TagRows(keyword, apiRows, GoogleCse);
      return;
    }
    records := [Sentinel(keyword, Some(payload.reason), payload.debugPath)];
  }

  // ---------------------------------------------------------------------
  // The provider chain as an independent reference

  /** The providers `fetch_serp` consults, in the order it consults them. */
  datatype Provider = SerpApiFirst | HeadfulBrowser | SerpApiFallback | CustomSearch

  const Chain: seq<Provider> := [SerpApiFirst, HeadfulBrowser, SerpApiFallback, CustomSearch]

  /** The records a provider answers with, or `None` when it is disabled,
      raises or reports a block. */
  function Answer(p: Provider, keyword: string, cfg: Config, w: World): Option<seq<Record>> {
    match p
    case SerpApiFirst =>
      if cfg.apiFirst && Present(cfg.serpApiKey) && w.serpFirst.Returns?
      then Some(Tag(keyword, ApiRows.SerpApiRows(w.serpFirst.value, cfg.maxItems), SerpApi))
      else None
    case HeadfulBrowser =>
      var h := FetchSerpHeadful(HeadfulRequest(keyword, cfg), w.headful);
      if h.Settled? && h.outcome.Success? then Some(Tag(keyword, h.outcome.rows, Selenium)) else None
    case SerpApiFallback =>
      if Present(cfg.serpApiKey) && w.serpAgain.Returns?
      then Some(Tag(keyword, ApiRows.SerpApiRows(w.serpAgain.value, cfg.maxItems), SerpApi))
      else None
    case CustomSearch =>
      if Present(cfg.cseKey) && Present(cfg.cseCx) && w.cse.Returns?
      then Some(Tag(keyword, ApiRows.CseRows(w.cse.value, cfg.maxItems), GoogleCse))
      else None
  }

  /** The answer of the first provider in `ps` that answers. */
  function FirstAnswer(ps: seq<Provider>, keyword: string, cfg: Config, w: World): Option<seq<Record>>
    decreases |ps|
  {
    if ps == [] then None
    else
      match Answer(ps[0], keyword, cfg, w)
      case Some(r) => Some(r)
      case None => FirstAnswer(ps[1..], keyword, cfg, w)
  }

  /** `FirstAnswer` is the answer of the first answering provider, and
      `None` exactly when none answers. */
  lemma {:induction false} FirstAnswerIsFirst(ps: seq<Provider>, keyword: string, cfg: Config, w: World)
    ensures FirstAnswer(ps, keyword, cfg, w).None?
        <==> forall j :: 0 <= j < |ps| ==> Answer(ps[j], keyword, cfg, w).None?
    ensures forall i :: 0 <= i < |ps| && Answer(ps[i], keyword, cfg, w).Some?
                        && (forall j :: 0 <= j < i ==> Answer(ps[j], keyword, cfg, w).None?)
                    ==> FirstAnswer(ps, keyword, cfg, w) == Answer(ps[i], keyword, cfg, w)
    decreases |ps|
  {
    if ps != [] {
      FirstAnswerIsFirst(ps[1..], keyword, cfg, w);
      forall i | 0 < i < |ps| && Answer(ps[i], keyword, cfg, w).Some?
                 && (forall j :: 0 <= j < i ==> Answer(ps[j], keyword, cfg, w).None?)
        ensures FirstAnswer(ps, keyword, cfg, w) == Answer(ps[i], keyword, cfg, w)
      {
        assert ps[1..][i - 1] == ps[i];
        forall j | 0 <= j < i - 1 ensures Answer(ps[1..][j], keyword, cfg, w).None? {
          assert ps[1..][j] == ps[j + 1];
        }
      }
      if forall j :: 0 <= j < |ps| - 1 ==> Answer(ps[1..][j], keyword, cfg, w).None? {
        forall j | 0 < j < |ps| ensures Answer(ps[j], keyword, cfg, w).None? {
          assert ps[1..][j - 1] == ps[j];
        }
      }
    }
  }

  /** The headful provider answers exactly when its payload is a success,
      and its payload is a failure otherwise. */
  lemma HeadfulAnswer(keyword: string, cfg: Config, w: World)
    ensures Answer(HeadfulBrowser, keyword, cfg, w).Some? <==> HeadfulPayload(keyword, cfg, w).Success?
  {
    RetryGivesUpIffAllFail(Outcomes(HeadfulRequest(keyword, cfg), w.headful), 0);
  }

  /** `fetch_serp` follows the provider chain: it returns the records of
      the first provider that answers, and the sentinel with the last
      headful failure only when none does. */
  lemma UnifiedFollowsChain(keyword: string, cfg: Config, w: World)
    ensures var a := HeadfulPayload(keyword, cfg, w);
      Unified(keyword, cfg, w) ==
        match FirstAnswer(Chain, keyword, cfg, w)
        case Some(r) => r
        case None => [Sentinel(keyword, Some(a.reason), a.debugPath)]
  {
    HeadfulAnswer(keyword, cfg, w);
    assert Chain[1..][1..][1..][1..] == [];
  }

  /** Short circuit: once provider `Chain[i]` answers and the earlier ones
      did not, `fetch_serp` returns its records, whatever the later
      providers would do. */
  lemma FirstSuccessWins(keyword: string, cfg: Config, w: World, i: nat)
    requires i < |Chain| && Answer(Chain[i], keyword, cfg, w).Some?
    requires forall j :: 0 <= j < i ==> Answer(Chain[j], keyword, cfg, w).None?
    ensures Unified(keyword, cfg, w) == Answer(Chain[i], keyword, cfg, w).value
  {
    UnifiedFollowsChain(keyword, cfg, w);
    FirstAnswerIsFirst(Chain, keyword, cfg, w);
  }

  /** The sentinel is returned exactly when no provider answers. */
  lemma SentinelIffNoProviderAnswers(keyword: string, cfg: Config, w: World)
    ensures var a := HeadfulPayload(keyword, cfg, w);
      (forall j :: 0 <= j < |Chain| ==> Answer(Chain[j], keyword, cfg, w).None?)
      <==> a.Failure? && Unified(keyword, cfg, w) == [Sentinel(keyword, Some(a.reason), a.debugPath)]
  {
    UnifiedFollowsChain(keyword, cfg, w);
    FirstAnswerIsFirst(Chain, keyword, cfg, w);
    var a := HeadfulPayload(keyword, cfg, w);
    if FirstAnswer(Chain, keyword, cfg, w).Some? {
      var r := FirstAnswer(Chain, keyword, cfg, w).value;
      var i :| 0 <= i < |Chain| && Answer(Chain[i], keyword, cfg, w).Some?;
      TagNeverBlocked(keyword, cfg, w, Chain[i]);
    }
  }

  /** No provider answer holds a blocked record. */
  lemma TagNeverBlocked(keyword: string, cfg: Config, w: World, p: Provider)
    ensures Answer(p, keyword, cfg, w).Some? ==>
      forall j :: 0 <= j < |Answer(p, keyword, cfg, w).value| ==> !Answer(p, keyword, cfg, w).value[j].blocked
  {
  }

  // ---------------------------------------------------------------------
  // The shape of what fetch_serp returns

  /** Records of one provider: the keyword, the source tag, not blocked, no
      debug path or reason, and positions 1..n in order. */
  predicate Tagged(keyword: string, records: seq<Record>, source: Source) {
    && source != Blocked
    && forall j :: 0 <= j < |records| ==>
         && records[j].keyword == keyword
         && records[j].source == source
         && !records[j].blocked
         && records[j].position == j + 1
         && records[j].debugPath.None?
         && records[j].blockedReason.None?
  }

  /** The sentinel: blocked, source `"blocked"`, position 0, empty texts. */
  predicate IsSentinel(r: Record, keyword: string) {
    && r.keyword == keyword
    && r.title == "" && r.snippet == "" && r.url == ""
    && r.position == 0
    && r.source == Blocked
    && r.blocked
  }

  /** What `fetch_serp` may return: exactly one sentinel, or the records of
      a single provider. */
  predicate WellFormed(keyword: string, records: seq<Record>) {
    || (|records| == 1 && IsSentinel(records[0], keyword))
    || Tagged(keyword, records, SerpApi)
    || Tagged(keyword, records, Selenium)
    || Tagged(keyword, records, GoogleCse)
  }

  /** Headful rows that settled successfully are the extractor's rows of an
      attempt: between 1 and `max_items` of them, positions 1..n. */
  lemma HeadfulSuccessRows(keyword: string, cfg: Config, w: World)
    requires HeadfulPayload(keyword, cfg, w).Success?
    ensures var rows := HeadfulPayload(keyword, cfg, w).rows;
      && 0 < |rows| <= Cap(cfg.maxItems)
      && forall j :: 0 <= j < |rows| ==> rows[j].position == j + 1
  {
    var req := HeadfulRequest(keyword, cfg);
    var outcomes := Outcomes(req, w.headful);
    RetryGivesUpIffAllFail(outcomes, 0);
    var h := FetchSerpHeadful(req, w.headful);
    assert h.Settled?;
    assert h.outcome == AttemptOutcome(req, w.headful(h.attempts - 1));
    AttemptSuccessIff(req, w.headful(h.attempts - 1));
  }

  /** Provider rows with positions 1..n become records of that provider. */
  lemma TagIsTagged(keyword: string, rows: seq<SerpRow>, source: Source)
    requires source != Blocked
    requires forall j :: 0 <= j < |rows| ==> rows[j].position == j + 1
    ensures Tagged(keyword, Tag(keyword, rows, source), source)
  {
  }

  /** Every result of `fetch_serp` is well formed. */
  lemma UnifiedWellFormed(keyword: string, cfg: Config, w: World)
    ensures WellFormed(keyword, Unified(keyword, cfg, w))
  {
    var a := HeadfulPayload(keyword, cfg, w);
    if ApiFirstAnswers(cfg, w) {
      ApiRows.SerpApiRowsShape(w.serpFirst.value, cfg.maxItems);
      TagIsTagged(keyword, ApiRows.SerpApiRows(w.serpFirst.value, cfg.maxItems), SerpApi);
    } else if a.Success? {
      HeadfulSuccessRows(keyword, cfg, w);
      TagIsTagged(keyword, a.rows, Selenium);
    } else if Present(cfg.serpApiKey) && w.serpAgain.Returns? {
      ApiRows.SerpApiRowsShape(w.serpAgain.value, cfg.maxItems);
      TagIsTagged(keyword, ApiRows.SerpApiRows(w.serpAgain.value, cfg.maxItems), SerpApi);
    } else if Present(cfg.cseKey) && Present(cfg.cseCx) && w.cse.Returns? {
      ApiRows.CseRowsShape(w.cse.value, cfg.maxItems);
      TagIsTagged(keyword, ApiRows.CseRows(w.cse.value, cfg.maxItems), GoogleCse);
    }
  }

  /** The sentinel's reason is a classifier reason, `"no_results"` or
      `"exception"`, never the dead `"sorry_unusual"`. */
  lemma SentinelReason(keyword: string, cfg: Config, w: World)
    ensures var r := Unified(keyword, cfg, w);
      r != [] && r[0].blocked ==>
        && r[0].blockedReason.Some?
        && r[0].blockedReason.value != SorryUnusual
        && r[0].blockedReason.value.Name() != "sorry_unusual"
        && r[0].source.Name() == "blocked"
        && (r[0].blockedReason.value.FromClassifier()
            || r[0].blockedReason.value == NoResults
            || r[0].blockedReason.value == Exception)
  {
    var r := Unified(keyword, cfg, w);
    if r != [] && r[0].blocked {
      BlockedIsSentinel(keyword, cfg, w);
      LastFailureShape(keyword, cfg, w);
      ReasonNamesDistinct(r[0].blockedReason.value, SorryUnusual);
    }
  }

  /** A blocked first record is the sentinel built from a failed headful
      payload. */
  lemma BlockedIsSentinel(keyword: string, cfg: Config, w: World)
    ensures var r := Unified(keyword, cfg, w); var a := HeadfulPayload(keyword, cfg, w);
      r != [] && r[0].blocked ==> a.Failure? && r[0] == Sentinel(keyword, Some(a.reason), a.debugPath)
  {
    var r := Unified(keyword, cfg, w);
    var a := HeadfulPayload(keyword, cfg, w);
    if ApiFirstAnswers(cfg, w) {
      var t := Tag(keyword, ApiRows.SerpApiRows(w.serpFirst.value, cfg.maxItems), SerpApi);
      assert r == t;
    } else if a.Success? {
      assert r == Tag(keyword, a.rows, Selenium);
    } else if Present(cfg.serpApiKey) && w.serpAgain.Returns? {
      assert r == Tag(keyword, ApiRows.SerpApiRows(w.serpAgain.value, cfg.maxItems), SerpApi);
    } else if Present(cfg.cseKey) && Present(cfg.cseCx) && w.cse.Returns? {
      assert r == Tag(keyword, ApiRows.CseRows(w.cse.value, cfg.maxItems), GoogleCse);
    } else {
      assert r == [Sentinel(keyword, Some(a.reason), a.debugPath)];
    }
  }

  /** A failed headful payload is the failure of one actual attempt. */
  lemma LastFailureShape(keyword: string, cfg: Config, w: World)
    requires HeadfulPayload(keyword, cfg, w).Failure?
    ensures var a := HeadfulPayload(keyword, cfg, w);
      && a.reason != SorryUnusual
      && (a.reason.FromClassifier() || a.reason == NoResults || a.reason == Exception)
  {
    var req := HeadfulRequest(keyword, cfg);
    RetryGivesUpIffAllFail(Outcomes(req, w.headful), 0);
    var h := FetchSerpHeadful(req, w.headful);
    assert h.RetryError?;
    assert h.last == AttemptOutcome(req, w.headful(MaxAttempts - 1));
    AttemptFailureShape(req, w.headful(MaxAttempts - 1));
  }

  /** An empty result comes only from an API that answered with zero rows:
      the browser never reports success without rows, and the sentinel is
      one record. */
  lemma EmptyOnlyFromApi(keyword: string, cfg: Config, w: World)
    requires Unified(keyword, cfg, w) == []
    ensures || Answer(SerpApiFirst, keyword, cfg, w) == Some([])
            || Answer(SerpApiFallback, keyword, cfg, w) == Some([])
            || Answer(CustomSearch, keyword, cfg, w) == Some([])
  {
    if !ApiFirstAnswers(cfg, w) && HeadfulPayload(keyword, cfg, w).Success? {
      HeadfulSuccessRows(keyword, cfg, w);
    }
  }

  /** With a non-negative bound, `fetch_serp` returns at most
      `max(1, max_items)` records. */
  lemma UnifiedBound(keyword: string, cfg: Config, w: World)
    requires cfg.maxItems >= 0
    ensures |Unified(keyword, cfg, w)| <= if cfg.maxItems < 1 then 1 else cfg.maxItems
  {
    if ApiFirstAnswers(cfg, w) {
      ApiRows.SerpApiRowsShape(w.serpFirst.value, cfg.maxItems);
    } else if HeadfulPayload(keyword, cfg, w).Success? {
      HeadfulSuccessRows(keyword, cfg, w);
    } else if Present(cfg.serpApiKey) && w.serpAgain.Returns? {
      ApiRows.SerpApiRowsShape(w.serpAgain.value, cfg.maxItems);
    } else if Present(cfg.cseKey) && Present(cfg.cseCx) && w.cse.Returns? {
      ApiRows.CseRowsShape(w.cse.value, cfg.maxItems);
    }
  }

  // ---------------------------------------------------------------------
  // The retry exhaustion, as written and corrected

  /** As written, four failed headful attempts make `fetch_serp` raise
      `RetryError`, even when the SerpAPI fallback would answer; the
      corrected `fetch_serp` hands the last failure to the fallbacks. */
  lemma RetryErrorSkipsFallbacks(keyword: string, cfg: Config, w: World)
    requires !ApiFirstAnswers(cfg, w)
    requires forall i :: 0 <= i < MaxAttempts ==> AttemptOutcome(HeadfulRequest(keyword, cfg), w.headful(i)).Failure?
    ensures FetchSerpAsWritten(keyword, cfg, w)
         == RaisesRetryError(AttemptOutcome(HeadfulRequest(keyword, cfg), w.headful(MaxAttempts - 1)))
    ensures Unified(keyword, cfg, w)
         == AfterHeadful(keyword, cfg, w, AttemptOutcome(HeadfulRequest(keyword, cfg), w.headful(MaxAttempts - 1)))
  {
    RetryGivesUpIffAllFail(Outcomes(HeadfulRequest(keyword, cfg), w.headful), 0);
  }

  /** Wherever the as-written `fetch_serp` returns records, the corrected
      one returns the same records. */
  lemma AsWrittenAgreesWhenItReturns(keyword: string, cfg: Config, w: World)
    ensures FetchSerpAsWritten(keyword, cfg, w).Records? ==>
      FetchSerpAsWritten(keyword, cfg, w).records == Unified(keyword, cfg, w)
    ensures FetchSerpAsWritten(keyword, cfg, w).RaisesRetryError? <==>
      !ApiFirstAnswers(cfg, w) && FetchSerpHeadful(HeadfulRequest(keyword, cfg), w.headful).RetryError?
  {
  }

  /** A browser that never starts, with the SerpAPI key set and SerpAPI
      answering one result: as written, `fetch_serp` raises `RetryError`;
      corrected, it returns that SerpAPI result. */
  lemma DriverDownApiUp(keyword: string, cfg: Config, w: World, item: ApiRows.SerpApiItem)
    requires !cfg.apiFirst && Present(cfg.serpApiKey) && cfg.maxItems >= 1
    requires forall i: nat :: w.headful(i).launch.Raises?
    requires w.serpAgain == Returns(ApiRows.SerpApiResponse(Some([item])))
    ensures FetchSerpAsWritten(keyword, cfg, w).RaisesRetryError?
    ensures Unified(keyword, cfg, w) == Tag(keyword, [ApiRows.SerpApiRow(item, 1)], SerpApi)
  {
    var req := HeadfulRequest(keyword, cfg);
    forall i: nat | i < MaxAttempts ensures AttemptOutcome(req, w.headful(i)).Failure? {
      LaunchFailure(req, w.headful(i));
    }
    RetryErrorSkipsFallbacks(keyword, cfg, w);
    assert ApiRows.SliceTo([item], cfg.maxItems) == [item];
  }

  // ---------------------------------------------------------------------
  // The keyword loop of scrape_keywords_from_file

  /** The stripped lines of the keyword file. */
  function StrippedLines(lines: seq<string>): (r: seq<string>)
    ensures |r| == |lines|
    ensures forall i :: 0 <= i < |lines| ==> r[i] == Strip(lines[i])
  {
    seq(|lines|, i requires 0 <= i < |lines| => Strip(lines[i]))
  }

  /** The non-empty strings of `ss`, in order. */
  function NonEmpty(ss: seq<string>): (r: seq<string>)
    ensures |r| <= |ss|
    ensures forall j :: 0 <= j < |r| ==> r[j] != ""
    decreases |ss|
  {
    if ss == [] then []
    else if ss[0] != "" then [ss[0]] + NonEmpty(ss[1..])
    else NonEmpty(ss[1..])
  }

  /** `[l.strip() for l in fh if l.strip()]`. */
  function Keywords(lines: seq<string>): (r: seq<string>)
    ensures |r| <= |lines|
    ensures forall j :: 0 <= j < |r| ==> r[j] != ""
  {
    NonEmpty(StrippedLines(lines))
  }

  /** `NonEmpty` keeps every non-empty string and invents none. */
  lemma {:induction false} NonEmptyExact(ss: seq<string>)
    ensures forall i :: 0 <= i < |ss| && ss[i] != "" ==> ss[i] in NonEmpty(ss)
    ensures forall k :: k in NonEmpty(ss) ==> k in ss
    decreases |ss|
  {
    if ss != [] {
      NonEmptyExact(ss[1..]);
      forall i | 0 < i < |ss| && ss[i] != "" ensures ss[i] in NonEmpty(ss) {
        assert ss[1..][i - 1] == ss[i];
      }
    }
  }

  /** The keywords are exactly the non-empty stripped lines: every line with
      visible text yields its stripped text, every keyword is the stripped
      text of some line, and no keyword is empty or has surrounding
      whitespace. */
  lemma KeywordsFromLines(lines: seq<string>)
    ensures forall i :: 0 <= i < |lines| && Strip(lines[i]) != "" ==> Strip(lines[i]) in Keywords(lines)
    ensures forall k :: k in Keywords(lines) ==> k != "" && k in StrippedLines(lines)
    ensures forall k :: k in Keywords(lines) ==> Strip(k) == k
  {
    var ss := StrippedLines(lines);
    NonEmptyExact(ss);
    forall k | k in Keywords(lines) ensures Strip(k) == k {
      var i :| 0 <= i < |ss| && ss[i] == k;
      StripIdempotent(lines[i]);
    }
  }

  /** The records of the loop after `kws`: the records of each keyword, in
      keyword order, where keyword `i` meets `worlds(i)`. */
  function Gathered(kws: seq<string>, cfg: Config, worlds: nat -> World): seq<Record>
    decreases |kws|
  {
    if kws == [] then []
    else
      var n := |kws| - 1;
      Gathered(kws[..n], cfg, worlds) + Unified(kws[n], cfg, worlds(n))
  }

  /** One more keyword appends its records. */
  lemma GatheredStep(kws: seq<string>, cfg: Config, worlds: nat -> World, i: nat)
    requires i < |kws|
    ensures Gathered(kws[..i + 1], cfg, worlds) == Gathered(kws[..i], cfg, worlds) + Unified(kws[i], cfg, worlds(i))
  {
    assert kws[..i + 1][..i] == kws[..i];
  }

  /** `scrape_keywords_from_file` without its file I/O and pauses: read the
      keywords, then extend `all_rows` with the records of each. */
  method ScrapeKeywordsFromFile(lines: seq<string>, cfg: Config, worlds: nat -> World) returns (allRows: seq<Record>)
    ensures allRows == Gathered(Keywords(lines), cfg, worlds)
  {
    var keywords := Keywords(lines);
    allRows := [];
    for i := 0 to |keywords|
      invariant allRows == Gathered(keywords[..i], cfg, worlds)
    {
      var rows := FetchSerp(keywords[i], cfg, worlds(i));
      GatheredStep(keywords, cfg, worlds, i);
      allRows := allRows + rows;
    }
    assert keywords[..|keywords|] == keywords;
  }

  /** What holds of every record the loop writes. */
  predicate RecordOk(r: Record) {
    && (r.blocked <==> r.source == Blocked)
    && (r.blocked ==> r.position == 0 && r.title == "" && r.snippet == "" && r.url == "")
    && (!r.blocked ==> r.position >= 1 && r.debugPath.None? && r.blockedReason.None?)
  }

  /** Every gathered record belongs to one of the keywords and is either a
      sentinel or an unblocked provider record. */
  lemma {:induction false} GatheredRecords(kws: seq<string>, cfg: Config, worlds: nat -> World)
    ensures forall j :: 0 <= j < |Gathered(kws, cfg, worlds)| ==>
      Gathered(kws, cfg, worlds)[j].keyword in kws && RecordOk(Gathered(kws, cfg, worlds)[j])
    decreases |kws|
  {
    if kws != [] {
      var n := |kws| - 1;
      GatheredRecords(kws[..n], cfg, worlds);
      UnifiedWellFormed(kws[n], cfg, worlds(n));
      WellFormedOk(kws[n], Unified(kws[n], cfg, worlds(n)));
      RecordsJoin(Gathered(kws[..n], cfg, worlds), Unified(kws[n], cfg, worlds(n)), kws);
    }
  }

  /** The records of one keyword belong to it and are each well formed. */
  lemma WellFormedOk(keyword: string, records: seq<Record>)
    requires WellFormed(keyword, records)
    ensures forall j :: 0 <= j < |records| ==> records[j].keyword == keyword && RecordOk(records[j])
  {
  }

  /** Appending the records of the last keyword to those of the others. */
  lemma RecordsJoin(front: seq<Record>, last: seq<Record>, kws: seq<string>)
    requires kws != []
    requires forall j :: 0 <= j < |front| ==> front[j].keyword in kws[..|kws| - 1] && RecordOk(front[j])
    requires forall j :: 0 <= j < |last| ==> last[j].keyword == kws[|kws| - 1] && RecordOk(last[j])
    ensures forall j :: 0 <= j < |front + last| ==> (front + last)[j].keyword in kws && RecordOk((front + last)[j])
  {
    forall j | 0 <= j < |front + last|
      ensures (front + last)[j].keyword in kws && RecordOk((front + last)[j])
    {
      if j < |front| {
        var k := front[j].keyword;
        var i :| 0 <= i < |kws| - 1 && kws[..|kws| - 1][i] == k;
        assert kws[i] == k;
      } else {
        assert (front + last)[j] == last[j - |front|];
      }
    }
  }

  lemma BoundStep(a: nat, b: nat, n: nat, m: nat)
    requires a <= n * m && b <= m
    ensures a + b <= (n + 1) * m
  {
  }

  /** With a non-negative bound, the loop writes at most `max(1, max_items)`
      records per keyword. */
  lemma {:induction false} GatheredBound(kws: seq<string>, cfg: Config, worlds: nat -> World)
    requires cfg.maxItems >= 0
    ensures |Gathered(kws, cfg, worlds)| <= |kws| * (if cfg.maxItems < 1 then 1 else cfg.maxItems)
    decreases |kws|
  {
    if kws != [] {
      var n := |kws| - 1;
      var m := if cfg.maxItems < 1 then 1 else cfg.maxItems;
      GatheredBound(kws[..n], cfg, worlds);
      UnifiedBound(kws[n], cfg, worlds(n));
      BoundStep(|Gathered(kws[..n], cfg, worlds)|, |Unified(kws[n], cfg, worlds(n))|, n, m);
    }
  }
}

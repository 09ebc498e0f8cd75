/** One headful fetch attempt (`fetch_serp_headful` of backend/scraper.py)
    and the `@retry` wrapper around it. The browser is abstract: a `Session`
    says what each driver call does during one attempt (return a value or
    raise), and each page read comes with its parse. Sleeps, scrolling
    geometry, consent clicks and the random choices are not modelled. */
module Headful {
  import opened Wrappers
  import opened Detection
  import opened Extraction
  import opened DebugFiles

  /** What `driver.page_source` returned, with the two things the code reads
      from its parse: whether any result node exists, and the result structure. */
  datatype Page = Page(html: string, hasResultNodes: bool, dom: Dom)

  /** The behaviour of the outside world during one attempt. */
  datatype Session = Session(
    launch: Call<()>,          // make_chrome_driver(...)
    search: Call<()>,          // driver.get(search URL)
    firstRead: Call<Page>,     // driver.page_source after the initial wait
    scrolling: Call<()>,       // human_scrolling(driver)
    secondRead: Call<Page>,    // driver.page_source after scrolling
    salvageRead: Call<string>, // driver.page_source inside the exception handler
    stamp: string)             // UTC timestamp used if debug HTML is saved

  /** What the caller asked for, and where evidence goes. */
  datatype Request = Request(keyword: string, maxItems: int, debugDir: string, isAlnum: char -> bool)

  /** The pair an attempt returns: `(True, results)` or
      `(False, {"blocked_reason", "debug_path", "error"?})`. */
  datatype Attempt =
    | Success(rows: seq<SerpRow>)
    | Failure(reason: BlockReason, debugPath: Option<string>, error: Option<string>)

  /** How the `try` block ended: by a `return`, or by raising. */
  datatype Step = Returned(attempt: Attempt) | Threw(error: string)

  /** Where `save_debug_html` puts the evidence of this attempt. */
  function SavedPath(req: Request, stamp: string): string {
    DebugPath(req.debugDir, req.keyword, stamp, req.isAlnum)
  }

  /** The `try` block once a driver exists: navigate, classify, scroll,
      classify again, extract. */
  function SearchSteps(req: Request, s: Session): (st: Step)
    ensures st.Returned? && st.attempt.Success? ==>
      && s.secondRead.Returns?
      && st.attempt.rows == Extracted(s.secondRead.value.dom, req.maxItems)
      && st.attempt.rows != []
    ensures st.Returned? && st.attempt.Failure? ==>
      && st.attempt.reason != Exception
      && st.attempt.debugPath == Some(SavedPath(req, s.stamp))
      && st.attempt.error.None?
  {
    if s.search.Raises? then Threw(s.search.error)
    else if s.firstRead.Raises? then Threw(s.firstRead.error)
    else
      var first := DetectBlocking(s.firstRead.value.html, s.firstRead.value.hasResultNodes);
      if first.0 then Returned(Failure(first.1.value, Some(SavedPath(req, s.stamp)), None))
      else if s.scrolling.Raises? then Threw(s.scrolling.error)
      else if s.secondRead.Raises? then Threw(s.secondRead.error)
      else
        var page := s.secondRead.value;
        var second := DetectBlocking(page.html, page.hasResultNodes);
        if second.0 then Returned(Failure(second.1.value, Some(SavedPath(req, s.stamp)), None))
        else
          var results := Extracted(page.dom, req.maxItems);
          if results == [] then Returned(Failure(NoResults, Some(SavedPath(req, s.stamp)), None))
          else Returned(Success(results))
  }

  /** What one call of the undecorated `fetch_serp_headful` returns. */
  function AttemptOutcome(req: Request, s: Session): (a: Attempt)
    ensures a.Success? ==> s.launch.Returns? && SearchSteps(req, s) == Returned(a)
    ensures a.Failure? ==> (a.error.Some? <==> a.reason == Exception)
  {
    var step := if s.launch.Raises? then Threw(s.launch.error) else SearchSteps(req, s);
    match step
    case Returned(a) => a
    case Threw(e) =>
      var html := if s.launch.Returns? && s.salvageRead.Returns? then s.salvageRead.value else "";
      Failure(Exception, if html != "" then Some(SavedPath(req, s.stamp)) else None, Some(e))
  }

  /** The browser session an attempt owns. `quitCalled` records the release. */
  class Browser {
    const session: Session
    var quitCalled: bool

    constructor (s: Session)
      ensures session == s && !quitCalled
    {
      session := s;
      quitCalled := false;
    }

    /** `driver.quit()`; whatever it raises is swallowed by the caller. */
    method Quit()
      modifies this
      ensures quitCalled
    {
      quitCalled := true;
    }
  }

  /** The body of the `try` block, with its early returns. */
  method RunSearch(driver: Browser, req: Request) returns (step: Step)
    ensures step == SearchSteps(req, driver.session)
  {
    var s := driver.session;
    if s.search.Raises? {
      return Threw(s.search.error);
    }
    if s.firstRead.Raises? {
      return Threw(s.firstRead.error);
    }
    var html := s.firstRead.value.html;
    var verdict := DetectBlocking(html, s.firstRead.value.hasResultNodes);
    if verdict.0 {
      var debugPath := SavedPath(req, s.stamp);
      return Returned(Failure(verdict.1.value, Some(debugPath), None));
    }
    if s.scrolling.Raises? {
      return Threw(s.scrolling.error);
    }
    if s.secondRead.Raises? {
      return Threw(s.secondRead.error);
    }
    var page := s.secondRead.value;
    verdict := DetectBlocking(page.html, page.hasResultNodes);
    if verdict.0 {
      var debugPath := SavedPath(req, s.stamp);
      return Returned(Failure(verdict.1.value, Some(debugPath), None));
    }
    var results := ExtractSerpFromHtml(page.dom, req.maxItems);
    if |results| == 0 {
      var debugPath := SavedPath(req, s.stamp);
      return Returned(Failure(NoResults, Some(debugPath), None));
    }
    return Returned(Success(results));
  }

  /** One attempt of `fetch_serp_headful`: create the driver, run the `try`
      block, turn an exception into an `"exception"` failure (saving whatever
      page source can still be read), and in the `finally` block quit the
      driver whenever one was created. */
  method FetchSerpHeadfulAttempt(req: Request, s: Session) returns (a: Attempt, ghost driverQuit: bool)
    ensures a == AttemptOutcome(req, s)
    ensures driverQuit <==> s.launch.Returns?
  {
    var driver: Browser? := null;
    var step: Step;
    if s.launch.Raises? {
      step := Threw(s.launch.error);
    } else {
      driver := new Browser(s);
      step := RunSearch(driver, req);
    }
    // except Exception as e
    if step.Threw? {
      var html := "";
      if driver != null && driver.session.salvageRead.Returns? {
        html := driver.session.salvageRead.value;
      }
      var debugPath := if html != "" then Some(SavedPath(req, s.stamp)) else None;
      a := Failure(Exception, debugPath, Some(step.error));
    } else {
      a := step.attempt;
    }
    // finally
    driverQuit := false;
    if driver != null {
      driver.Quit();
      driverQuit := driver.quitCalled;
    }
  }

  /** An attempt succeeds exactly when the driver starts, nothing raises,
      neither read of the page is classified as blocked and the extractor
      finds something; its rows are then the extractor's rows of the second
      read, between 1 and `max_items` of them with positions 1..n. */
  lemma AttemptSuccessIff(req: Request, s: Session)
    ensures AttemptOutcome(req, s).Success?
        <==> && s.launch.Returns? && s.search.Returns?
             && s.firstRead.Returns? && !DetectBlocking(s.firstRead.value.html, s.firstRead.value.hasResultNodes).0
             && s.scrolling.Returns?
             && s.secondRead.Returns? && !DetectBlocking(s.secondRead.value.html, s.secondRead.value.hasResultNodes).0
             && Extracted(s.secondRead.value.dom, req.maxItems) != []
    ensures AttemptOutcome(req, s).Success? ==>
      var rows := AttemptOutcome(req, s).rows;
      && rows == Extracted(s.secondRead.value.dom, req.maxItems)
      && 0 < |rows| <= Cap(req.maxItems)
      && forall j :: 0 <= j < |rows| ==> rows[j].position == j + 1
  {
    if s.secondRead.Returns? {
      ExtractedShape(s.secondRead.value.dom, req.maxItems);
    }
  }

  /** Every other exit is a failure whose reason is a classifier reason (never
      the dead `sorry_unusual`), `"no_results"` or `"exception"`; only an
      exception carries an error text, and only an exception whose page source
      could not be salvaged lacks a debug path. */
  lemma AttemptFailureShape(req: Request, s: Session)
    requires AttemptOutcome(req, s).Failure?
    ensures var a := AttemptOutcome(req, s);
      && (a.reason.FromClassifier() || a.reason == NoResults || a.reason == Exception)
      && a.reason != SorryUnusual
      && (a.error.Some? <==> a.reason == Exception)
      && (a.reason == Exception <==> s.launch.Raises? || SearchSteps(req, s).Threw?)
      && (a.debugPath.None? ==> a.reason == Exception)
      && (a.debugPath.Some? ==> a.debugPath.value == SavedPath(req, s.stamp))
      && (s.launch.Raises? ==> a == Failure(Exception, None, Some(s.launch.error)))
  {
    if s.firstRead.Returns? {
      SorryUnusualUnreachable(s.firstRead.value.html, s.firstRead.value.hasResultNodes);
    }
    if s.secondRead.Returns? {
      SorryUnusualUnreachable(s.secondRead.value.html, s.secondRead.value.hasResultNodes);
    }
  }

  /** A driver that cannot be created makes the attempt an `"exception"`
      failure without a debug path, carrying the launch error. */
  lemma LaunchFailure(req: Request, s: Session)
    requires s.launch.Raises?
    ensures AttemptOutcome(req, s) == Failure(Exception, None, Some(s.launch.error))
  {
  }

  /** `_should_retry`: retry on `None` or on a false success flag. */
  function ShouldRetry(result: Option<Attempt>): (r: bool)
    ensures r <==> result.None? || result.value.Failure?
  {
    match result
    case None => true
    case Some(a) => !a.Success?
  }

  /** `stop_after_attempt(4)`. */
  const MaxAttempts: nat := 4

  /** How the decorated call ends: a value returned after `attempts` calls,
      or tenacity's `RetryError` wrapping the last failure. */
  datatype Retried = Settled(outcome: Attempt, attempts: nat) | RetryError(last: Attempt)

  /** The retry loop from attempt number `k + 1` on, where attempt `k + 1`
      would return `outcomes(k)`. */
  function RetryFrom(outcomes: nat -> Attempt, k: nat): (r: Retried)
    requires k < MaxAttempts
    ensures r.Settled? ==>
      && r.outcome.Success? && k < r.attempts <= MaxAttempts
      && r.outcome == outcomes(r.attempts - 1)
    ensures r.RetryError? ==> r.last == outcomes(MaxAttempts - 1) && r.last.Failure?
    decreases MaxAttempts - k
  {
    var a := outcomes(k);
    if !ShouldRetry(Some(a)) then Settled(a, k + 1)
    else if k + 1 == MaxAttempts then RetryError(a)
    else RetryFrom(outcomes, k + 1)
  }

  /** What each attempt returns when attempt `k + 1` meets session `world(k)`. */
  function Outcomes(req: Request, world: nat -> Session): nat -> Attempt {
    (k: nat) => AttemptOutcome(req, world(k))
  }

  /** The decorated `fetch_serp_headful`. */
  function FetchSerpHeadful(req: Request, world: nat -> Session): (r: Retried)
    ensures r.Settled? ==>
      && r.outcome.Success? && 1 <= r.attempts <= MaxAttempts
      && r.outcome == AttemptOutcome(req, world(r.attempts - 1))
    ensures r.RetryError? ==> r.last == AttemptOutcome(req, world(MaxAttempts - 1)) && r.last.Failure?
  {
    RetryFrom(Outcomes(req, world), 0)
  }

  /** The attempt loop of `@retry(stop=stop_after_attempt(4),
      retry=retry_if_result(_should_retry))`; the backoff sleeps are not
      modelled. `attempt` is tenacity's attempt number. */
  method FetchSerpHeadfulWithRetry(req: Request, world: nat -> Session) returns (r: Retried)
    ensures r == FetchSerpHeadful(req, world)
    ensures r.Settled? ==> r.outcome.Success? && 1 <= r.attempts <= MaxAttempts
    ensures r.RetryError? ==> r.last.Failure?
  {
    var a, quit := FetchSerpHeadfulAttempt(req, world(0));
    var attempt := 1;
    while ShouldRetry(Some(a)) && attempt < MaxAttempts
      invariant 1 <= attempt <= MaxAttempts
      invariant a == Outcomes(req, world)(attempt - 1)
      invariant FetchSerpHeadful(req, world) == RetryFrom(Outcomes(req, world), attempt - 1)
      decreases MaxAttempts - attempt
    {
      a, quit := FetchSerpHeadfulAttempt(req, world(attempt));
      attempt := attempt + 1;
    }
    if ShouldRetry(Some(a)) {
      r := RetryError(a);
    } else {
      r := Settled(a, attempt);
    }
  }

  /** The retry loop stops at the first successful attempt: if attempt
      `j + 1` succeeds and all earlier ones failed, it returns that success
      after exactly `j + 1` calls. */
  lemma {:induction false} RetryStopsAtFirstSuccess(outcomes: nat -> Attempt, k: nat, j: nat)
    requires k <= j < MaxAttempts
    requires outcomes(j).Success?
    requires forall i :: k <= i < j ==> outcomes(i).Failure?
    ensures RetryFrom(outcomes, k) == Settled(outcomes(j), j + 1)
    decreases j - k
  {
    if k < j {
      RetryStopsAtFirstSuccess(outcomes, k + 1, j);
    }
  }

  /** The retry loop gives up exactly when all four attempts fail, and then
      raises `RetryError` holding the fourth failure. */
  lemma {:induction false} RetryGivesUpIffAllFail(outcomes: nat -> Attempt, k: nat)
    requires k < MaxAttempts
    ensures RetryFrom(outcomes, k).RetryError?
        <==> forall i :: k <= i < MaxAttempts ==> outcomes(i).Failure?
    ensures RetryFrom(outcomes, k).RetryError? ==>
      RetryFrom(outcomes, k).last == outcomes(MaxAttempts - 1)
    ensures RetryFrom(outcomes, k).Settled? ==>
      var r := RetryFrom(outcomes, k);
      && r.outcome.Success? && k < r.attempts <= MaxAttempts
      && r.outcome == outcomes(r.attempts - 1)
      && forall i :: k <= i < r.attempts - 1 ==> outcomes(i).Failure?
    decreases MaxAttempts - k
  {
    if k + 1 < MaxAttempts {
      RetryGivesUpIffAllFail(outcomes, k + 1);
    }
  }
}

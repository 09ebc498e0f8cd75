# SERP acquisition pipeline: a Dafny model

This project models the acquisition core of the SEO keyword tool: how `backend/scraper.py` gets search-engine result pages (SERPs) for a list of keywords, plus the record helpers of `backend/utils.py` that turn those records into a table. The Dafny modules follow the Python code:

- `Text`: the parts of Python's `str` the code relies on:
  - `isspace` (which is also what `\s` matches);
  - `lower`, ASCII letters only;
  - substring tests;
  - `strip`;
  - the truthiness-based `a or b`.
- `Detection`: `detect_blocking`, the classifier that decides if a page is blocked. It is an ordered, first-match-wins list of rules over the lower-cased page. The last rule is structural: no result nodes.
- `Extraction`: `extract_serp_from_html`. It takes rows from result containers that have an `h3`. If that yields nothing, it falls back to every `h3` of the document. It stops at `max_items` rows and numbers positions from 1.
- `ApiRows`: the row mappers of `serpapi_search` and `google_cse_search`. They map a decoded JSON body to rows, using Python slice semantics for `[:max_items]`.
- `DebugFiles`: the file name that `save_debug_html` gives to the HTML it saves as evidence.
- `Headful`: one browser attempt of `fetch_serp_headful`:
  - the steps inside its `try` block and their early returns;
  - the exception handler, which salvages the page source;
  - the `finally` block, which quits the driver.
  It also models the `@retry` wrapper (`stop_after_attempt(4)` with `retry_if_result(_should_retry)`).
- `Pipeline`: `fetch_serp`. The corrected `fetch_serp` (`Pipeline.Unified`, computed by `Pipeline.FetchSerp`) tries four providers in order:
  1. SerpAPI, if API-first mode is on;
  2. the browser, with retries;
  3. SerpAPI as a fallback;
  4. Google Custom Search (CSE).
  If none of them answers, it returns a single "blocked" sentinel record. As written (`Pipeline.FetchSerpAsWritten`), the call ends with `RetryError` once all four browser attempts fail, so steps 3 and 4 and the sentinel are never reached after a browser failure (see Findings). The module also models the keyword loop of `scrape_keywords_from_file`.
- `Utils`:
  - `normalize_text`;
  - the `/url?q=` redirect unwrap;
  - `results_to_dataframe`.

The outside world is passed in as parameters:

- `Call` values stand for calls that either return or raise:
  - the HTTP calls;
  - the browser driver calls;
  - reads of the page source.
- A `Session` says what each driver call does during one attempt.
- A `World` says what each provider does for one keyword.
- A `Dom` is the parsed page, reduced to what the code selects from it: result containers and `h3` nodes.

Behaviour of the code worth noting:

- The code's reason strings are `empty_html`, `unusual_traffic_message`, `recaptcha`, and so on.
- The code has an extra `sorry_unusual` rule. The model proves that this rule can never fire.
- The extractor does not remove duplicates. The redirect unwrap happens in `results_to_dataframe`, not in the extractor.
- When the extractor finds nothing, the attempt fails with reason `no_results`.
- `fetch_serp` returns an empty list when a provider API answers with zero rows.

## Model

| member | source | states |
|---|---|---|
| Text.Lower | backend/scraper.py:104 | same length as its input; each ASCII capital becomes its lower-case letter (code point plus 32) and every other character is kept |
| Text.TrimStart | backend/utils.py:17 | the result is a suffix of the input; everything removed is whitespace; the result is empty or starts with a non-space |
| Text.TrimEnd | backend/utils.py:17 | the result is a prefix of the input; everything removed is whitespace; the result is empty or ends with a non-space |
| Text.StripKeepsVisible | backend/utils.py:17 | `strip()` removes only whitespace: the visible characters are unchanged |
| Text.StripEnds | backend/scraper.py:506 | a stripped string has no whitespace at either end |
| Text.StripIdempotent | backend/scraper.py:506 | stripping twice is stripping once |
| Detection.DetectBlocking | backend/scraper.py:97-122 | reports blocked exactly when it gives a reason; that reason is always one the classifier can produce |
| Detection.FirstFiring | backend/scraper.py:102-121 | reference reading of the rule list: the first rule that fires, with no earlier rule firing, or no rule firing at all |
| Detection.FirstMatchWins | backend/scraper.py:102-122 | `detect_blocking` reports the reason of the first rule that fires, and a clean page exactly when no rule fires |
| Detection.EmptyIsBlocked | backend/scraper.py:102-103 | empty content is `(True, "empty_html")`, whatever the parse says |
| Detection.MarkersOutrankStructure | backend/scraper.py:106-121 | when any adversarial-signal rule fires, the verdict ignores the result nodes and is never `no_result_nodes` |
| Detection.SystemsDetectedMentionsUnusualTraffic | backend/scraper.py:106 | the "our systems have detected" phrase contains "unusual traffic" |
| Detection.SorryUnusualUnreachable | backend/scraper.py:106-113 | `sorry_unusual` is never reported, because the unusual-traffic rule catches its text first |
| Detection.RecaptchaBeatsMissingResults | backend/scraper.py:108-121 | a reCAPTCHA page without unusual-traffic text is reported as `recaptcha`, even when it has no result nodes |
| Detection.ReasonNamesDistinct | backend/scraper.py:102-121 | different reasons have different reason strings, so a stored string names exactly one rule |
| Extraction.TitledIndices | backend/scraper.py:251-256 | the containers the primary loop does not skip are valid indices of containers that have an `h3` |
| Extraction.TitledIndicesIncreasing | backend/scraper.py:251-256 | the kept containers are in document order |
| Extraction.TitledIndicesComplete | backend/scraper.py:254-256 | every container that has an `h3` is kept |
| Extraction.Extracted | backend/scraper.py:244-275 | the extractor's specification: at most `max(0, max_items)` rows, the j-th with position j+1 |
| Extraction.ExtractSerpFromHtml | backend/scraper.py:244-275 | the two loops return the extractor's specification: at most `max_items` rows, positions 1..n |
| Extraction.FallbackLoop | backend/scraper.py:266-274 | the fallback loop returns the first `max_items` `h3` nodes as rows with an empty snippet |
| Extraction.PrimaryLoopDone | backend/scraper.py:250-265 | once the primary loop stops, it has produced the rows of the first `min(titled, max_items)` titled containers |
| Extraction.ExtractedShape | backend/scraper.py:244-275 | at most `max_items` rows with positions 1..n; the result is empty exactly when `max_items <= 0`, or when the page has neither a titled container nor an `h3` |
| Extraction.PrimaryKeepsTitledContainers | backend/scraper.py:249-265 | when some container has an `h3`, the rows are the titled containers in document order, none skipped; a missing link or snippet becomes `""` |
| Extraction.FallbackOnlyWithoutTitledContainers | backend/scraper.py:266-274 | without titled containers, the rows are the document's `h3` nodes in order, each with an empty snippet and its parent link |
| ApiRows.SliceTo | backend/scraper.py:290 | Python's `s[:k]`: a prefix of length `min(len, k)`, or `len + k` (at least 0) for a negative `k` |
| ApiRows.SerpApiRows | backend/scraper.py:287-295 | one row per item of `organic_results[:max_items]`, the j-th row mapped from the j-th item with position j+1 |
| ApiRows.CseRows | backend/scraper.py:304-312 | one row per item of `items[:max_items]`, the j-th row mapped from the j-th item with position j+1 |
| ApiRows.SerpApiTitleAsWritten | backend/scraper.py:291 | the as-written title: a text title is `""` or the item's own title; a number title is the item's non-zero position |
| ApiRows.SerpApiTitleAsWrittenNotText | backend/scraper.py:291 | an item without a title but with a position gets that number as its title |
| ApiRows.SerpApiTitle | backend/scraper.py:291 | the corrected title: the item's title when present and non-empty, otherwise `""` |
| ApiRows.SerpApiTitleAgrees | backend/scraper.py:291 | the corrected title equals the as-written title wherever the latter is text; they differ exactly when a non-zero position would stand in for the title |
| ApiRows.SerpApiSearch | backend/scraper.py:287-296 | the loop returns one row per leading item, at most `max_items` of them, with positions 1..n |
| ApiRows.GoogleCseSearch | backend/scraper.py:304-313 | the loop returns one row per leading item, at most `max_items` of them, with positions 1..n |
| ApiRows.SerpApiRowsShape | backend/scraper.py:288-295 | row count (including negative bounds), positions, titles, and the `""` defaults for a missing snippet or link |
| ApiRows.CseRowsShape | backend/scraper.py:305-312 | row count, positions, titles, and the `""` defaults for missing fields |
| DebugFiles.SafeKeyword | backend/scraper.py:320 | at most 80 characters; each character is the keyword's own character if alphanumeric, otherwise `_` |
| DebugFiles.SafeKeywordAlphabet | backend/scraper.py:320 | the safe keyword holds only alphanumerics kept in place, and `_` |
| DebugFiles.SafeKeywordIdempotent | backend/scraper.py:320 | sanitising twice changes nothing |
| DebugFiles.DebugFileName | backend/scraper.py:319-321 | the name is the safe keyword, `_`, the timestamp and `.html`, in that order and nothing else |
| DebugFiles.DebugPath | backend/scraper.py:322 | the path ends with the debug file name |
| DebugFiles.DebugFileNameStampInjective | backend/scraper.py:319-321 | for one keyword, different timestamps give different file names |
| Headful.Browser.constructor | backend/scraper.py:348 | a new session that has not been quit |
| Headful.Browser.Quit | backend/scraper.py:427-432 | the driver is released |
| Headful.SearchSteps | backend/scraper.py:373-413 | an early success holds the extractor's non-empty rows of the second page read; an early failure is a classifier or `no_results` failure with the saved page's path and no error |
| Headful.AttemptOutcome | backend/scraper.py:337-432 | a success needs a driver and is the success of the `try` steps; a failure carries an error exactly when its reason is `exception` |
| Headful.RunSearch | backend/scraper.py:373-413 | the `try` block with its early returns equals the step specification `SearchSteps` |
| Headful.FetchSerpHeadfulAttempt | backend/scraper.py:337-432 | one attempt returns `AttemptOutcome`; the driver is quit exactly when one was created |
| Headful.AttemptSuccessIff | backend/scraper.py:379-413 | success exactly when nothing raises, neither read is blocked and the extractor finds rows; those rows are 1..`max_items` extractor rows |
| Headful.AttemptFailureShape | backend/scraper.py:379-425 | failure reasons are classifier reasons, `no_results` or `exception`, never `sorry_unusual`; only exceptions carry an error, and only an exception with no salvaged page lacks a debug path |
| Headful.ShouldRetry | backend/scraper.py:328-334 | retry exactly on `None` or on a false success flag |
| Headful.RetryFrom | backend/scraper.py:336 | from attempt k on: settles on a success with a count above k and at most 4, that count's own outcome; otherwise raises `RetryError` holding the 4th outcome, a failure |
| Headful.FetchSerpHeadful | backend/scraper.py:336-432 | the retried call settles on the success of attempt n (1 <= n <= 4), or raises `RetryError` holding the failure of attempt 4 |
| Headful.FetchSerpHeadfulWithRetry | backend/scraper.py:336-340 | the attempt loop equals the retry specification; it either settles on a success within 4 attempts or raises `RetryError` holding a failure |
| Headful.RetryStopsAtFirstSuccess | backend/scraper.py:336 | the first successful attempt `j+1` ends the loop after exactly `j+1` calls, with its result |
| Headful.RetryGivesUpIffAllFail | backend/scraper.py:336 | `RetryError` happens exactly when all 4 attempts fail, and holds the 4th failure; a settled result is the first success, after failures only |
| Pipeline.Tag | backend/scraper.py:449-452 | one record per row, in order, with the keyword, the row's fields, the source, not blocked, and no debug path |
| Pipeline.TagRows | backend/scraper.py:450-452 | the `unified.append` loop builds exactly the tagged records |
| Pipeline.Sentinel | backend/scraper.py:495-496 | the sentinel record: the keyword, empty texts, position 0, source `"blocked"`, blocked, with the given reason and debug path |
| Pipeline.AfterHeadful | backend/scraper.py:467-496 | every record has the keyword; the single sentinel is returned exactly when neither fallback answers, and then it carries the failure's reason and debug path |
| Pipeline.Unified | backend/scraper.py:437-496 | the corrected `fetch_serp`: every record has the keyword; an answering API-first SerpAPI call gives only SerpAPI records |
| Pipeline.FetchSerpAsWritten | backend/scraper.py:437-496 | `fetch_serp` as written: it raises `RetryError` only when the API-first call did not answer, holding a failure; returned records have the keyword |
| Pipeline.FetchSerp | backend/scraper.py:437-496 | the early-return code equals the corrected `fetch_serp` specification, and its result is well formed: one sentinel, or the records of one provider |
| Pipeline.FirstAnswerIsFirst | backend/scraper.py:445-496 | the chain's answer comes from the first provider that answers; there is no answer exactly when no provider answers |
| Pipeline.HeadfulAnswer | backend/scraper.py:458-465 | the browser provider answers exactly when the retried payload is a success |
| Pipeline.UnifiedFollowsChain | backend/scraper.py:445-496 | `fetch_serp` returns the first provider answer in chain order; otherwise it returns the sentinel built from the last browser failure |
| Pipeline.FirstSuccessWins | backend/scraper.py:445-496 | once a provider answers and no earlier one did, later providers do not matter |
| Pipeline.SentinelIffNoProviderAnswers | backend/scraper.py:494-496 | the sentinel is returned exactly when no provider answers |
| Pipeline.TagNeverBlocked | backend/scraper.py:451-452 | provider records are never blocked |
| Pipeline.TagIsTagged | backend/scraper.py:476-477 | rows with positions 1..n become records of that provider |
| Pipeline.HeadfulSuccessRows | backend/scraper.py:458-465 | a settled browser success holds 1..`max_items` rows with positions 1..n |
| Pipeline.UnifiedWellFormed | backend/scraper.py:437-496 | the result is exactly one sentinel, or records of one provider with positions 1..n |
| Pipeline.SentinelReason | backend/scraper.py:467-496 | the sentinel carries a reason, and it is never `sorry_unusual`; its stored reason string is never `"sorry_unusual"` and its source string is `"blocked"` |
| Pipeline.BlockedIsSentinel | backend/scraper.py:458-496 | a blocked first record is the sentinel built from a failed browser payload |
| Pipeline.LastFailureShape | backend/scraper.py:458-469 | a failed payload has a classifier reason, `no_results` or `exception` |
| Pipeline.EmptyOnlyFromApi | backend/scraper.py:437-496 | an empty result comes only from an API provider that answered with zero rows |
| Pipeline.UnifiedBound | backend/scraper.py:437-496 | with `max_items >= 0`, at most `max(1, max_items)` records |
| Pipeline.RetryErrorSkipsFallbacks | backend/scraper.py:458-496 | when all 4 attempts fail: as written, `fetch_serp` raises `RetryError`; corrected, it runs the fallbacks with the last failure |
| Pipeline.AsWrittenAgreesWhenItReturns | backend/scraper.py:437-496 | wherever the as-written `fetch_serp` returns, it returns what the corrected one returns; it raises exactly when the retries are exhausted |
| Headful.LaunchFailure | backend/scraper.py:415-425 | if the driver cannot be created, the attempt is an `exception` failure with no debug path and with the launch error |
| Pipeline.DriverDownApiUp | backend/scraper.py:458-479 | if the browser never starts but SerpAPI answers: as written, `RetryError` is raised; corrected, the SerpAPI result is returned |
| Pipeline.SourceNamesDistinct | backend/scraper.py:451-496 | different sources have different `source` strings |
| Pipeline.StrippedLines | backend/scraper.py:506 | one stripped line per line, in order |
| Pipeline.NonEmpty | backend/scraper.py:506 | the filter keeps no empty string |
| Pipeline.NonEmptyExact | backend/scraper.py:506 | the filter keeps every non-empty string and invents none |
| Pipeline.Keywords | backend/scraper.py:506 | no more keywords than lines, and none empty |
| Pipeline.KeywordsFromLines | backend/scraper.py:505-506 | every line with visible text gives its stripped text; every keyword is a non-empty stripped line with no surrounding whitespace |
| Pipeline.GatheredStep | backend/scraper.py:508-511 | one more keyword appends its records |
| Pipeline.ScrapeKeywordsFromFile | backend/scraper.py:501-518 | the loop returns the records of every keyword, in keyword order |
| Pipeline.GatheredRecords | backend/scraper.py:508-511 | every written record belongs to a keyword, and is either a blocked sentinel or an unblocked provider record with a position of at least 1 |
| Pipeline.GatheredBound | backend/scraper.py:508-511 | at most `max(1, max_items)` records per keyword |
| Utils.NormalizeText | backend/utils.py:14-19 | `None` and `""` give `""`; otherwise the stripped text with its whitespace runs collapsed (see the lemmas below) |
| Utils.Collapse | backend/utils.py:18 | never longer than its input |
| Utils.CollapseEnds | backend/utils.py:18 | keeps emptiness, and whether the text starts and ends with whitespace |
| Utils.CollapseShape | backend/utils.py:18 | leaves only single plain spaces |
| Utils.CollapseAppend | backend/utils.py:18 | works run by run: a split after a visible character commutes with the substitution |
| Utils.CollapseRun | backend/utils.py:18 | a whitespace run becomes exactly one space |
| Utils.CollapseKeepsVisible | backend/utils.py:18 | the visible characters are unchanged |
| Utils.CollapseOfClean | backend/utils.py:18 | text with single plain spaces is unchanged |
| Utils.NormalizeEmpty | backend/utils.py:15-16 | `None` and `""` give `""` |
| Utils.NormalizeTextClean | backend/utils.py:14-19 | the output has no whitespace at the ends, only single plain spaces |
| Utils.NormalizeTextKeepsVisible | backend/utils.py:14-19 | the output has exactly the visible characters of the input; it is empty exactly when the input has none |
| Utils.NormalizeTextIdempotent | backend/utils.py:14-19 | normalising twice is normalising once |
| Utils.SchemeLength | backend/utils.py:9 | 8 exactly for `https://`, 7 exactly for `http://`, otherwise 0 |
| Utils.AmpFreeRun | backend/utils.py:9 | the longest leading run with no `&` |
| Utils.RedirectTarget | backend/utils.py:9 | no `/url?q=` prefix means no match; a match is a non-empty piece of the URL right after the prefix |
| Utils.CleanUrl | backend/utils.py:28-31 | a URL the pattern does not match is unchanged; a matched one becomes strictly shorter |
| Utils.CapturedIsTarget | backend/utils.py:28-31 | whatever the pattern captures is the target the unwrap finds |
| Utils.TargetIsCaptured | backend/utils.py:28-31 | the target the unwrap finds is what the pattern captures |
| Utils.RedirectTargetExact | backend/utils.py:28-31 | the unwrap finds `u` if and only if the pattern captures `u` |
| Utils.CleanUrlShape | backend/utils.py:26-31 | an unwrapped URL starts with `http://` or `https://` and has no `&`; a URL that does not match is unchanged |
| Utils.CleanUrlIdempotent | backend/utils.py:26-31 | unwrapping twice is unwrapping once |
| Utils.Normalized | backend/utils.py:22-38 | one row per record |
| Utils.ResultsToDataframe | backend/utils.py:21-47 | the columns are exactly `expected_cols` in order, even for no records, and the rows are the normalised records |
| Utils.DataframeRows | backend/utils.py:23-38 | per row: the keyword or `""`; clean title and snippet; the unwrapped URL; the position unchanged |
| Utils.DataframeIdempotent | backend/utils.py:23-38 | normalising a table's own rows again changes nothing |
| Utils.NormalizeRowIdempotent | backend/utils.py:23-38 | normalising a normalised row again changes nothing |

## Left out

- Browser automation is not modelled:
  - driver construction options;
  - user agents;
  - viewports;
  - the landing-page visit and the consent click, which are best-effort and cannot change the outcome;
  - the explicit wait for `h3`, whose timeout is swallowed;
  - scrolling geometry.
  Each step that can raise is a `Call` in `Session`.
- Sleeps, random choices, the retry backoff (`wait_exponential_jitter`), logging and the clock are not modelled. The timestamp of a debug file is an input.
- Network and JSON: the HTTP requests, `raise_for_status` and JSON decoding are not modelled. A provider either raises (one `Call` outcome) or returns a decoded body. Query-string construction is not modelled.
- HTML parsing and CSS selection (BeautifulSoup) are not modelled. A page is a `Dom`: the matched containers and the `h3` nodes with the texts and `href`s the code reads. The structural rule of `detect_blocking` is the input `hasResultNodes`.
- File I/O is not modelled:
  - reading the keyword file (its lines are an input);
  - writing the JSON output;
  - `os.makedirs`;
  - the write inside `save_debug_html`, which the model assumes does not raise.
- `Text.Lower`: only ASCII letters are lowered, where Python lowers all of Unicode. For `detect_blocking` the verdicts are the same: the only non-ASCII characters whose lower case holds an ASCII letter are the Kelvin sign (to `k`) and `İ` (to `i` followed by U+0307). No phrase tested at backend/scraper.py:106-116 contains `k`, and none has an `i` followed by U+0307, so neither can complete a match.
- `DebugFiles.SafeKeyword`: Unicode `str.isalnum` cannot be listed, so it is a parameter `isAlnum`.
- `Pipeline.Record`: a record without a `blocked_reason` key carries `None`.
- ApiRows.GoogleCseSearch: a key present with JSON `null` is read as missing, so the row holds `""` where the source's `itm.get("title", "")` stores `None`, which then reaches the written JSON; the same holds for `ApiRows.CseRows` and `ApiRows.CseRowsShape`, and for the snippet and link.
- `ApiRows.SerpApiSearch` uses the corrected, text-only title (see Findings). A non-string JSON value in other fields is not modelled.
- ApiRows.SerpApiRows: each row carries the corrected title `ApiRows.SerpApiTitle`, not the as-written `item.get("title") or item.get("position") or ""` of backend/scraper.py:291, because a record's title is a string; an untitled item with a non-zero position gets `""` where the source stores that integer. The as-written title is modelled on its own by `ApiRows.SerpApiTitleAsWritten`.
- ApiRows.SerpApiRowsShape: its title clause is about the corrected title, for the reason given for `ApiRows.SerpApiRows`.
- Pipeline.FetchSerpAsWritten: models the unguarded `RetryError` as written, but its API-first SerpAPI records take their titles from `ApiRows.SerpApiRows`, so an untitled item with a non-zero position gets the title `""` instead of the integer position.
- Pipeline.AsWrittenAgreesWhenItReturns: both sides share the corrected SerpAPI title, so the agreement says nothing about the integer title that backend/scraper.py:291 gives an untitled item with a non-zero position; `ApiRows.SerpApiTitleAgrees` states exactly where that title and the corrected one differ.
- `Pipeline.ScrapeKeywordsFromFile` calls the corrected `fetch_serp`. As written, the first keyword whose four browser attempts all fail ends the whole loop with `RetryError`, so no output file is written.
- `Headful.FetchSerpHeadfulWithRetry`: models the attempt count and the result, but not the waits between attempts.
- `results_to_dataframe` is modelled without pandas dtypes, the index, or a `url` value that is truthy but not a string.
- The clustering module and the HTTP service (`backend/clusterer.py`, `backend/main.py`) are not part of this model.
- Chrome binary discovery, `load_user_agents` and `make_chrome_driver` are not part of this model. They are configuration and have no behaviour the pipeline's result depends on, other than whether the driver starts. That is the `launch` call of a `Session`.

## Findings

| source | as written | input that shows it | evidently intended | confidence | as-written member | corrected member |
|---|---|---|---|---|---|---|
| backend/scraper.py:336 | `@retry(stop=stop_after_attempt(4), retry=retry_if_result(...))` has no `retry_error_callback` and no `reraise`. After 4 failed attempts, tenacity raises `RetryError`. `fetch_serp` calls the decorated function at line 458 without a guard, so the SerpAPI and CSE fallbacks and the sentinel (467-496) never run after a browser failure | `api_first=False`, SerpAPI key set, Chrome driver cannot start, SerpAPI answers one result: `fetch_serp` raises `RetryError` | use the last failure payload and fall through to the fallbacks, then the sentinel | not executed | Pipeline.FetchSerpAsWritten (shown by Pipeline.DriverDownApiUp and Pipeline.RetryErrorSkipsFallbacks) | Pipeline.Unified and Pipeline.FetchSerp |
| backend/scraper.py:291 | `item.get("title") or item.get("position") or ""` | an organic result `{"position": 3}` with no title: its row's title is the integer 3 | the title is a string: the item's title, or `""` | not executed | ApiRows.SerpApiTitleAsWritten (shown by ApiRows.SerpApiTitleAsWrittenNotText) | ApiRows.SerpApiTitle (related by ApiRows.SerpApiTitleAgrees) |

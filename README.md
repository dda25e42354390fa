# Iran proxy finder, modelled in Dafny

The proxy finder collects candidate HTTP proxies from a fixed list of public
listings. It keeps each candidate once, in the order it was first seen, and
tests every candidate against one or more target URLs. A candidate passes
when the target answers with a status in [200, 400) through the `http` scheme,
or failing that through the `https` scheme. With `VERIFY_IR` set, the proxy's
exit must also not geolocate outside Iran when the lookup succeeds: a lookup
that raises rejects the scheme, and a lookup answered with an error status
does not. A small runner object lets a web front end
start and stop one pass at a time, and a bounded log buffer keeps the latest
log lines.

The model has eight modules, one file each:

- `wrappers.dfy` (`Wrappers`): `Option`.
- `pytext.dfy` (`PyText`): the Python string builtins the program relies on.
  These are `str.isspace`, `str.strip`, `str.split`, `str.splitlines` and
  `int()`. Each is a function, and lemmas state what each one means
  (stripped ends, split/join inverses, `int(str(n)) == n`).
- `patterns.dfy` (`Patterns`): the scraper's three regular expressions, as
  scanners over a string. There is one for IP:port, one for a bare IPv4
  address and one for a 2–5 digit port. `FindAll` is `finditer` and `Search`
  is `search`.
- `firstseen.dfy` (`FirstSeen`): `Dedup`, the "append if not in `seen`"
  idiom the scraper uses five times, with its properties. These are the same
  elements, no duplicates, first-appearance order, and idempotence.
- `scraper.dfy` (`Scraper`): `extract_proxies`, `extract_freeproxy_world`
  and `get_proxies`. Each is a method with loops, proved against a
  specification function (`RegexExtraction`, `PairedExtraction`, `Catalog`).
  A fetched page is given as its raw body plus what the HTML parser yields:
  the page text, the `<td>` texts, and the `<tr>` rows as cell texts.
- `tester.dfy` (`Tester`): `test_proxy`. The two HTTP requests are oracles
  passed as parameters. The method returns the outcome and the requests it
  sent.
- `run.dfy` (`Run`): the environment parsing (`MAX_PROXIES` and
  `MAX_PER_TARGET` caps, `TARGET_URLS` / `TARGET_URL`), `LogBuffer` and
  `ProxyRunner` as classes.
- `workflow.dfy` (`Workflow`): `run_workflow`. It scrapes the candidates,
  applies the cap, runs the two nested loops with the stop flag and the
  per-target cap, persists the results and writes the summary. The observable
  behaviour is a trace of effects: log lines as values, `test_proxy` calls
  and the single `persist_results` call. The trace is proved equal to a
  functional specification, `WorkflowOf`, with lemmas about the schedule of
  tests, the records, cancellation and the single persist.

The stop flag is an input `stopAfter: Option<nat>`. `Some(k)` means every read
of the flag from the `k`-th on (counting from zero) sees it set. `None` means
it is never set. Test outcomes come from an oracle that is also given the
index of the call, so repeated (proxy, target) pairs may get different
answers.

The source and its description disagree in one place, and the model follows
the source. When the stop event is set, `run_workflow` breaks only the inner
loop over candidates. Every remaining target is still announced with its
`Testing target:` line, and no candidate is tested for it.
`Workflow.StoppedBeforeLoop` and `Workflow.TargetsPassAfterStop` state this.

## Model

| member | source | states |
|---|---|---|
| PyText.StripIsStripped | app/scraper.py:110 | `strip()` leaves no whitespace at either end and is idempotent |
| PyText.StripIsSlice | app/scraper.py:110 | `strip()` is a contiguous slice of the input, starting after its leading whitespace |
| PyText.StripFixed | app/run.py:135 | a string with no whitespace at either end strips to itself |
| PyText.Split | app/run.py:135 | `split(sep)` yields at least one part, no part holds `sep`, and joining the parts with `sep` gives back the input |
| PyText.SplitJoin | app/run.py:135 | splitting parts joined with a separator none of them contains gives back exactly those parts |
| PyText.Lines | app/scraper.py:110 | `splitlines()` cuts at every line break and nowhere else: one more piece than breaks, no piece holds a break, and the pieces woven back with the breaks in order give the input |
| PyText.LinesUnique | app/scraper.py:110 | any break-free pieces that, woven back with the input's breaks, give the input are exactly `splitlines()`' pieces |
| PyText.DecimalValue | app/run.py:126 | the decimal text of `n` has the value `n` |
| PyText.ParseDecimal | app/run.py:126 | `int()` reads back the decimal text of every natural number |
| PyText.DropNoUnderscores | app/run.py:126 | `int()`'s underscore removal leaves a plain digit string unchanged |
| Patterns.OctetAlternativeIsOctet | app/scraper.py:36-39 | the octet alternation matches exactly the decimal numbers 0..255 without a leading zero |
| Patterns.DigitRunEnd | app/scraper.py:36-39 | the end of a digit run: every character before it is a digit and the one at it is not |
| Patterns.FindAll | app/scraper.py:44 | every match `finditer` yields has the pattern's shape (an IPv4 address, a colon and a digit run, for the IP:port pattern) |
| Patterns.FindAllReports | app/scraper.py:44 | `finditer` reports the match at a position when no match starting between the search start and that position runs past it |
| Patterns.StandaloneTokenReported | app/scraper.py:36-44 | a token of the pattern between two word boundaries, overlapped by no earlier match, is among the reported matches |
| Patterns.SearchIsFirstMatch | app/scraper.py:54 | `search` finds nothing exactly when `finditer` yields nothing, and otherwise finds the first `finditer` match |
| Patterns.MatchIsToken | app/scraper.py:36-39 | whatever a pattern matches at a position has that pattern's shape |
| Patterns.MatchExactly | app/scraper.py:36-39 | a match at `i` ends at `j` exactly when `s[i:j]` has the pattern's shape and sits between two word boundaries |
| Patterns.TokenIsMatch | app/scraper.py:36-39 | text of the pattern's shape between two word boundaries is matched there, in full |
| Patterns.DottedTextEnd | app/scraper.py:37 | dotted octets not followed by a digit are exactly what the repeated octet-and-dot group consumes |
| Patterns.DigitRunEndAt | app/scraper.py:36-39 | a digit run closed by a non-digit or the end is the run the scanner finds |
| Patterns.DottedEndIsDotted | app/scraper.py:37 | the text consumed by the repeated octet-and-dot group is that many dotted octets |
| Patterns.DottedEndChars | app/scraper.py:37 | the dotted-octet group consumes only digits and dots |
| Patterns.NoMatchAfterWordChar | app/scraper.py:37 | no match starts right after a word character (the leading `\b`) |
| Patterns.NoMatchAtNonDigit | app/scraper.py:37 | no match starts at a non-digit |
| Patterns.FindAllSkip | app/scraper.py:44 | `finditer` moves on by one character where no match starts |
| Patterns.FindAllHit | app/scraper.py:44 | `finditer` yields the match at a position and resumes at its end |
| Patterns.OutOfRangeOctetNoMatch | app/scraper.py:36-39 | `300.1.1.1:80` holds no IP:port match (an octet above 255 is refused, and no match starts inside the number) |
| Patterns.SampleAddressMatchesAt | app/scraper.py:36-39 | `1.2.3.4:8080` between word boundaries is matched in full wherever it occurs |
| Patterns.RepeatedCandidateMatchedTwice | app/scraper.py:44-48 | `finditer` reports a repeated candidate twice, which is why the loop keeps a `seen` set |
| FirstSeen.DedupElements | app/scraper.py:41-48 | the first-seen list has no duplicates and holds exactly the elements of the input |
| FirstSeen.DedupFirstSeenOrder | app/scraper.py:44-48 | the first-seen list orders elements by their first occurrence in the input |
| FirstSeen.DedupNotLonger | app/scraper.py:44-48 | deduplication never lengthens a list |
| FirstSeen.DedupOfDistinct | app/scraper.py:44-48 | a list without duplicates is kept as it is |
| FirstSeen.DedupIdempotent | app/scraper.py:44-48 | deduplicating twice is deduplicating once |
| FirstSeen.DedupAppend | app/scraper.py:101-104 | deduplicating a concatenation keeps the first part's result and appends the second part's unseen elements |
| FirstSeen.DedupSnoc | app/scraper.py:46-48 | one more element is appended exactly when it is not yet in the first-seen list |
| FirstSeen.UnseenElements | app/scraper.py:102 | the unseen part holds exactly the elements not seen before |
| Scraper.ExtractProxies | app/scraper.py:33-61 | `extract_proxies` returns `RegexExtraction`: the distinct text matches, or, only when there are none, the distinct first matches of the cells |
| Scraper.KeepFirstSeen | app/scraper.py:41-48 | the text loop keeps each match the first time it is seen |
| Scraper.SearchCells | app/scraper.py:50-59 | the cell fallback keeps each cell's first match the first time it is seen |
| Scraper.RegexExtractionShape | app/scraper.py:33-61 | the result has no duplicates and only IP:port strings; with text matches it holds exactly them; otherwise it has at most one entry per cell |
| Scraper.CellMatchesAtMostOnePerCell | app/scraper.py:52-56 | the cell search gives at most one IP:port string per cell |
| Scraper.ExtractFreeproxyWorld | app/scraper.py:64-86 | `extract_freeproxy_world` returns `PairedExtraction`: one candidate per row at most, in row order |
| Scraper.ScanRow | app/scraper.py:71-85 | the cell loop of a row stops at the first cell with an IP and returns `ip:port` only when the next cell has a port |
| Scraper.RowProxyFound | app/scraper.py:72-85 | the first IP cell decides the row: `ip:port` when the next cell holds a port, nothing otherwise |
| Scraper.RowProxyAt | app/scraper.py:78-84 | with a following cell, the row's candidate is the IP joined to that cell's port, or nothing |
| Scraper.LaterCellsIgnored | app/scraper.py:85 | cells after the one following the first IP cell never affect the row (the `break`) |
| Scraper.FirstIpCellAt | app/scraper.py:72-75 | the first cell whose text holds an IP is the one the loop stops at |
| Scraper.FirstIpCellNone | app/scraper.py:72-75 | a row with no IP cell yields nothing |
| Scraper.PairedExtractionShape | app/scraper.py:64-86 | at most one candidate per row, each an IPv4 address, a colon and a 2-5 digit port |
| Scraper.RowProxyShape | app/scraper.py:76-84 | a row's candidate is an IPv4 address, a colon and a port of two to five digits |
| Scraper.PairedKeepsDuplicates | app/scraper.py:69-86 | the paired extraction does not deduplicate: two equal rows yield the candidate twice |
| Scraper.LineListEntryShape | app/scraper.py:110-114 | every line-list entry is non-empty, stripped, free of line breaks and holds a colon |
| Scraper.LineListEntriesExactly | app/scraper.py:110-114 | a string is a line-list entry exactly when it holds a colon and is one of the body's stripped lines |
| Scraper.StripAll | app/scraper.py:110 | the stripped lines: one per line, each that line stripped |
| Scraper.NonEmptyStrippedMembers | app/scraper.py:110 | a string is kept exactly when it is non-empty and is one of the stripped lines |
| Scraper.NonEmptyStrippedAppend | app/scraper.py:110 | the strip-and-filter comprehension distributes over concatenated line lists (it keeps line order) |
| Scraper.ColonLinesMembers | app/scraper.py:112 | a line is kept exactly when it is one of the lines and holds a colon |
| Scraper.ColonLinesAppend | app/scraper.py:111-112 | the colon filter distributes over concatenated line lists (it keeps line order) |
| Scraper.NonEmptyStrippedShape | app/scraper.py:110 | the kept lines are non-empty, stripped and free of line breaks |
| Scraper.NonEmptyStrippedOfStripped | app/scraper.py:110 | lines already stripped and non-empty pass through unchanged |
| Scraper.ColonLinesShape | app/scraper.py:112 | only lines holding a colon are kept |
| Scraper.AddUnseen | app/scraper.py:101-104 | appending the unseen items extends the first-seen list of everything so far, keeping `seen` equal to its elements |
| Scraper.AddColonLines | app/scraper.py:111-114 | appending the unseen colon lines extends the first-seen list, keeping `seen` equal to its elements |
| Scraper.GetProxies | app/scraper.py:89-123 | `get_proxies` returns `Catalog`: the first-seen list of every source's contribution, in source order, failed fetches skipped |
| Scraper.CatalogShape | app/scraper.py:89-123 | the catalog holds every candidate some source yields, once each, ordered by first appearance across the sources |
| Scraper.FailedSourceIgnored | app/scraper.py:93-97 | a source whose fetch failed leaves the catalog as if it were not listed |
| Scraper.CatalogPrefix | app/scraper.py:92-120 | the catalog after the first `k` sources is a prefix of the final catalog |
| Scraper.OverlappingSources | app/scraper.py:99-120 | a candidate offered by two sources appears once, where the first source put it |
| Scraper.ExtractionsAt | app/scraper.py:92-120 | the `k`-th part of the extraction list is what source `k` contributes |
| Scraper.ExtractionsAppend | app/scraper.py:92 | the per-source extraction distributes over concatenated source lists |
| Scraper.ConcatAppend | app/scraper.py:92-120 | concatenating the parts distributes over appended part lists |
| Scraper.ConcatMembers | app/scraper.py:92-120 | a candidate is in the concatenation exactly when some source's part holds it |
| Tester.TestProxy | app/tester.py:11-34 | `test_proxy` returns `Decision` and sends exactly `RequestsSent`, in order |
| Tester.OutcomeShape | app/tester.py:31-34 | a success carries a latency and a scheme; a failure is `(False, None, None)`; the latency is the target request's own time |
| Tester.SchemeOrder | app/tester.py:12 | `http` wins whenever its attempt passes; `https` is reported only when `http` did not pass and `https` did |
| Tester.StatusGate | app/tester.py:21 | an attempt passes only on a response with status in [200, 400) |
| Tester.AttemptGate | app/tester.py:19-31 | an attempt passes exactly when the target answers with a status in [200, 400) and, with `VERIFY_IR`, the geolocation reply passes |
| Tester.GeoGate | app/tester.py:23-30 | a lookup that raises fails; an ok lookup passes exactly when its country code is `IR`; a lookup answered with an error status passes |
| Tester.GeoRequestsOnlyWhenVerifying | app/tester.py:19-24 | without `VERIFY_IR` every request goes to the target with the 8 s timeout; at most four requests; the first is the `http` target request |
| Tester.SameUpstreamForBoth | app/tester.py:13-16 | every request routes both URL schemes through the same proxy URL, `http://` or `https://` |
| Tester.DefaultTargetUsed | app/tester.py:19 | a missing or empty target URL falls back to the configured default |
| Tester.HttpsOnlyTarget | app/tester.py:12-31 | a proxy that only works through `https` is reported as `https` with that request's latency |
| Tester.ForeignExitRejected | app/tester.py:25-28 | with `VERIFY_IR`, a geolocation answer other than `IR` rejects both schemes |
| Tester.FailedLookupStillPasses | app/tester.py:25 | with `VERIFY_IR`, a geolocation response that is not ok does not reject the attempt |
| Tester.IranianExitPasses | app/tester.py:22-31 | with `VERIFY_IR` and an `IR` answer, `http` passes after exactly two requests |
| Tester.ConfigDrivesRequests | app/tester.py:7-24 | the first request goes to `TARGET_URL` or, unset, the built-in bank URL; unless `VERIFY_IR` is exactly `"1"` every request is a target request; with it, a passing status is followed by the geolocation request |
| Tester.RoutesFor | app/tester.py:13-16 | both entries of the proxy map are the same URL |
| Run.PositiveCap | app/run.py:123-131 | a cap is in force exactly when the variable is set, non-empty, parses with `int()` and is positive, and then it is that value |
| Run.DecimalCap | app/run.py:123-131 | the decimal text of `n` gives the cap `n` when `n > 0`, and no cap for `0` |
| Run.NonNumericIsNoCap | app/run.py:125-131 | text with no whitespace at either end, starting with neither a digit nor a sign, raises `ValueError` and leaves no cap |
| Run.TargetList | app/run.py:133-145 | `TARGET_URLS` items are non-empty and comma-free; otherwise `TARGET_URL` alone; otherwise the three built-in targets |
| Run.StrippedItemsShape | app/run.py:135 | stripped, non-empty items keep none of the separator |
| Run.TargetsRoundTrip | app/run.py:135 | trimmed, comma-free targets joined with commas are read back as exactly those targets |
| Run.StrippedItemsFixed | app/run.py:135 | items already trimmed and non-empty pass the strip-and-filter unchanged |
| Run.SliceFrom | app/run.py:42 | Python's `xs[start:]` is a suffix of `xs`: all but the first `start` items, or the last `-start` items for a negative start, clamped to `len(xs)` |
| Run.TrimKeepsNewest | app/run.py:38-42 | appending to the retained entries and trimming retains the newest entries of the whole history |
| Run.RetainedShape | app/run.py:38-42 | with a positive limit the buffer holds `min(n, limit)` entries, the newest ones, ending with the latest entry |
| Run.LogBuffer.constructor | app/run.py:33-36 | a new buffer is empty |
| Run.LogBuffer.Add | app/run.py:38-42 | `add` appends and trims, and the buffer keeps holding the newest entries of everything ever added |
| Run.LogBuffer.Snapshot | app/run.py:44-46 | `snapshot` returns the newest entries of everything added, never more than the limit |
| Run.ProxyRunner.constructor | app/run.py:50-59 | a new runner is idle, not stopping, and has no timestamps |
| Run.ProxyRunner.Start | app/run.py:61-71 | `start` is accepted exactly when idle; it then records the start time and a fresh, unset stop flag; a rejected start changes nothing |
| Run.ProxyRunner.Finish | app/run.py:73-81 | however a run ends, the runner goes back to idle and records the finish time |
| Run.ProxyRunner.Stop | app/run.py:88-94 | `stop` is accepted exactly when a run is in flight; it sets the flag and `stopping`; a rejected stop changes nothing |
| Run.ProxyRunner.GetStatus | app/run.py:96-103 | the status reports the four fields; `stopping` implies `running` |
| Run.ProxyRunner.IsRunning | app/run.py:83-86 | `is_running` reports the running field |
| Run.StartTwice | app/run.py:61-71 | a second start during a run is rejected |
| Run.StopWhileIdleThenRunning | app/run.py:88-94 | a stop while idle is rejected; during a run it is accepted, and so is a repeated one |
| Run.RestartAfterFinish | app/run.py:61-81 | after a run finishes, a new start is accepted |
| Workflow.RunWorkflow | app/run.py:116-188 | `run_workflow` scrapes the catalog of all sources, and its result list and trace are `WorkflowOf` that catalog |
| Workflow.ScrapeCandidates | app/run.py:119-131 | the catalog is `get_proxies`' result; the candidates are its first `MAX_PROXIES`; the opening log lines say so |
| Workflow.TestTargets | app/run.py:157-179 | the nested loops produce exactly the specified pass |
| Workflow.TestCandidates | app/run.py:159-179 | the inner loop produces exactly the specified pass for one target |
| Workflow.Conclude | app/run.py:181-187 | the pass ends with the one persist, `Stopped` if the flag is set, and the three summary lines |
| Workflow.Quota | app/run.py:164-165 | a target gets all candidates or exactly `cap` of them, never more than either |
| Workflow.Capped | app/run.py:128 | `proxies[:limit]` is a prefix of the catalog, of length `Quota` |
| Workflow.Reports | app/run.py:177-179 | one report line per test |
| Workflow.Announcements | app/run.py:159 | one `Testing target:` line per target, in target order |
| Workflow.TestsOfAppend | app/run.py:157-179 | the tests of a concatenated trace are the concatenated tests |
| Workflow.ReportsOfAppend | app/run.py:157-179 | the report lines of a concatenated trace are the concatenated report lines |
| Workflow.TargetPassGrows | app/run.py:161-179 | the inner loop only extends the trace and the records, and keeps them consistent with the tests made, never persists, and tests only after a clear flag read |
| Workflow.TargetsPassGrows | app/run.py:158-179 | the same for the outer loop |
| Workflow.TargetsPassAfterStop | app/run.py:158-163 | once the flag is seen set, the outer loop only announces the remaining targets |
| Workflow.TargetsPassCancel | app/run.py:161-165 | a stopped loop makes a prefix of the unstopped loop's tests and keeps a prefix of its records |
| Workflow.TargetsPassUncancelled | app/run.py:158-167 | without a stop the tests are the schedule: per target, the first `Quota` candidates |
| Workflow.ScheduleAppend | app/run.py:158 | the schedule of concatenated target lists is the concatenated schedules |
| Workflow.ScheduleLength | app/run.py:158-167 | `len(targets) * Quota` tests in all |
| Workflow.ScheduleBlock | app/run.py:158-167 | target `i` occupies one block of the schedule: the first `Quota` candidates in catalog order |
| Workflow.LoopFacts | app/run.py:157-179 | the loop's records and report lines match its tests, it never persists, and no more tests run than flag reads found clear |
| Workflow.WorkflowRecords | app/run.py:166-179 | one record per successful test and one `[OK]`/`[FAIL]` line per test, both in test order |
| Workflow.WorkflowPersistsOnce | app/run.py:181-187 | the results are persisted exactly once, after the last test, and three summary lines close the trace |
| Workflow.WorkflowSchedule | app/run.py:158-167 | without a stop, the tests are exactly the schedule over the targets and the capped candidates |
| Workflow.WorkflowCancel | app/run.py:162-163 | a stopped pass makes a prefix of the unstopped pass's tests and keeps a prefix of its records |
| Workflow.WorkflowStopBound | app/run.py:162-163 | a flag set from read `k` on allows at most `k` tests |
| Workflow.StoppedBeforeLoop | app/run.py:157-187 | a flag set before the loop: no test, no record, every target still announced, then `Stopped` and the summary |

## Left out

- HTTP: `fetch_proxy_page`, and the two `requests.get` calls of `test_proxy`.
  These are inputs: one fetch outcome per source, and two oracles for the
  target and geolocation requests. Headers and TLS verification are not
  modelled.
- HTML parsing with BeautifulSoup. A page is given as its body, its text, its
  `<td>` texts and its `<tr>` rows.
- The clock (`time.monotonic`, `time.time`). A latency is the elapsed tick
  count the target oracle reports. Timestamps are parameters.
- Rounding and formatting of the latency, and the log text itself. Log lines
  are values of a datatype.
- `print` calls, including the failure message and the catalog count in
  `get_proxies`.
- `persist_results` and `resolve_output_path` (file I/O). The persist is an
  effect in the trace carrying the records.
- Threads and locks. The runner's methods are atomic steps. `_run` is
  modelled by its `finally` part, `ProxyRunner.Finish`. The run itself is the
  separate `Workflow.RunWorkflow`, and the stop flag is its `stopAfter` input.
- `create_app`, the Flask routes and `main`. These are the web and CLI front
  ends.
- Character classes: `\d`, `\w`, `\b`, `str.isspace` and `int()` are
  Unicode-aware in Python. The model uses ASCII digits and word characters,
  and `int()` reads ASCII digits only.
- PyText.Lines: treats `\r\n` as two breaks and keeps a final empty piece
  after a trailing break. It differs from `str.splitlines` only in empty
  pieces, which every caller drops after stripping.
- Tester.TestProxy: a geolocation body that is not a JSON object (`data.get`
  would raise) is not modelled. The geolocation reply is an ok flag plus an
  optional country code.
- Scraper.ExtractProxies: the cell fallback starts from an empty `seen` set
  instead of the one left by the text loop. The two are equal, because the
  fallback runs only when the text loop kept nothing.

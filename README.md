# BOLA checker core, modelled in Dafny

This project models the deterministic core of `api_bola_checker.py`, a script
that probes HTTP endpoint templates with several resource identifiers to spot
Broken Object Level Authorization (BOLA): the same request shape is sent for
each identifier, every response is reduced to a summary (status code, body
length, top-level JSON keys, a 200-character body sample), and each later
identifier's summary is diffed against the first (baseline) identifier's.

The HTTP session is an oracle `transport(n, request)` giving the outcome
(an error text or a response) of the request sent after `n` earlier ones in
the same session, so retries and repeated identifiers may see different
answers. `json.loads` on the expanded request body is a boolean oracle, and
`resp.json()` is a field of the response holding the top-level JSON shape or
`None` when parsing raised.

Modules, one per component of the script:

- `Wrappers` (`wrappers.dfy`): the `Option` type.
- `Text` (`text.dfy`): Python's `str.strip()` (with the `str.isspace()`
  character set) and `str.split(',')` with its inverse `join`.
- `Template` (`template.dfy`): `apply_template` and `str.replace('{id}', id)`.
- `Inputs` (`inputs.dfy`): the endpoint-line filter of `load_endpoints` and
  the `--ids` parsing of `main`.
- `Summarizer` (`summary.dfy`): `safe_json` and `summarize_response`.
- `DiffEngine` (`diff.dfy`): `compare_summaries`, as a specification function
  `Diff` and the imperative `CompareSummaries` proved equal to it.
- `Runner` (`runner.dfy`): `run_check` (the results loop, the choice of
  request body, the anomaly pass) and the per-endpoint loop of `main`. The
  loops are methods proved against the functions `Probe` (results loop) and
  `Anomalies` (anomaly pass); the lemmas state what those functions promise.

Points of the script's behaviour that the model keeps as written:

- The handler that falls back to sending the body as raw text (lines 65-69)
  wraps both `json.loads` and the JSON request itself. So a JSON request that
  fails on the network is sent a second time with the raw text, and the
  identifier's entry records the outcome of that second request.
  `Runner.Attempt` (with `Runner.AttemptFacts`) and `Runner.Dispatch` model
  one or two requests accordingly.
- The "is there a body" test (`if data:`, line 64) is applied to the expanded
  body, so a body template that expands to the empty string sends no body.
- The body is `resp.text` when the response has that attribute and `''`
  otherwise (line 34); no decoding step is modelled beyond that.
- An empty identifier list makes `run_check` fail at `ids[0]` (line 79);
  `Runner.RunCheck` requires a non-empty list and `Runner.RunChecks` requires
  one whenever there is an endpoint.

## Model

| member | source | states |
|---|---|---|
| `Text.Strip` | shared-tools/api_bola_checker/api_bola_checker.py:17 | the stripped string is no longer than the input and neither starts nor ends with white space |
| `Text.TrimStartFacts` | shared-tools/api_bola_checker/api_bola_checker.py:17 | removing leading white space keeps a suffix of the input, drops only white space, and leaves no white space at the front |
| `Text.TrimEndFacts` | shared-tools/api_bola_checker/api_bola_checker.py:17 | removing trailing white space keeps a prefix of the input, drops only white space, and leaves no white space at the end |
| `Text.StripOfStripped` | shared-tools/api_bola_checker/api_bola_checker.py:17 | a string that neither starts nor ends with white space is its own strip |
| `Text.StripIsSlice` | shared-tools/api_bola_checker/api_bola_checker.py:17 | the stripped string is a contiguous piece of the input with only white space before and after it |
| `Text.StripIdempotent` | shared-tools/api_bola_checker/api_bola_checker.py:17 | stripping twice is stripping once |
| `Text.StripEmptyIff` | shared-tools/api_bola_checker/api_bola_checker.py:17 | a line strips to `''` exactly when it is all white space |
| `Text.Split` | shared-tools/api_bola_checker/api_bola_checker.py:95 | `split(',')` yields at least one piece and no piece holds the separator |
| `Text.JoinSplit` | shared-tools/api_bola_checker/api_bola_checker.py:95 | joining the pieces with the separator gives back the argument |
| `Text.SplitJoin` | shared-tools/api_bola_checker/api_bola_checker.py:95 | splitting the join of separator-free pieces gives back the pieces |
| `Text.SplitFirstPiece` | shared-tools/api_bola_checker/api_bola_checker.py:95 | a separator-free prefix is glued onto the first piece of the split of the rest |
| `Inputs.KeepsLine` | shared-tools/api_bola_checker/api_bola_checker.py:17 | the model of the line test (stripped text non-empty and not starting with `#`); its meaning is stated by `Inputs.EndpointsOfLine`, `Inputs.EndpointsMembership` and `Text.StripEmptyIff` |
| `Inputs.Endpoints` | shared-tools/api_bola_checker/api_bola_checker.py:15-18 | at most one endpoint per line; each is non-empty, already stripped and not a `#` comment |
| `Inputs.EndpointsOfLine` | shared-tools/api_bola_checker/api_bola_checker.py:17 | a single line yields its stripped text if it is neither blank nor a comment, and nothing otherwise |
| `Inputs.EndpointsAppend` | shared-tools/api_bola_checker/api_bola_checker.py:17 | the filter works line by line and keeps line order: filtering `a + b` gives the result for `a` followed by the result for `b` |
| `Inputs.EndpointsMembership` | shared-tools/api_bola_checker/api_bola_checker.py:17 | a string is an endpoint exactly when it is the stripped text of some kept line |
| `Inputs.NonBlankStripped` | shared-tools/api_bola_checker/api_bola_checker.py:95 | every kept piece is non-empty and stripped, and there are no more of them than pieces |
| `Inputs.NonBlankStrippedAppend` | shared-tools/api_bola_checker/api_bola_checker.py:95 | pieces are handled one by one and in order: the result for `a + b` is the result for `a` followed by that for `b` |
| `Inputs.NonBlankStrippedMembership` | shared-tools/api_bola_checker/api_bola_checker.py:95 | a string is kept exactly when it is the non-blank stripped text of some piece |
| `Inputs.NonBlankStrippedOfPiece` | shared-tools/api_bola_checker/api_bola_checker.py:95 | a single piece yields its stripped text when that is not blank, and nothing otherwise |
| `Inputs.ParseIds` | shared-tools/api_bola_checker/api_bola_checker.py:95 | every identifier is non-empty, stripped and free of commas |
| `Inputs.ParseIdsMembership` | shared-tools/api_bola_checker/api_bola_checker.py:95 | an identifier is parsed exactly when it is the non-blank stripped text of one of the argument's comma-separated pieces |
| `Inputs.NonBlankStrippedNoComma` | shared-tools/api_bola_checker/api_bola_checker.py:95 | stripping and filtering comma-free pieces leaves them comma-free |
| `Inputs.NonBlankStrippedOfClean` | shared-tools/api_bola_checker/api_bola_checker.py:95 | already clean pieces pass the filter unchanged |
| `Inputs.ParseIdsJoin` | shared-tools/api_bola_checker/api_bola_checker.py:95 | round trip: parsing the comma-join of clean identifiers gives back the identifiers |
| `Template.Expand` | shared-tools/api_bola_checker/api_bola_checker.py:21 | the model of `str.replace('{id}', id)`, scanning left to right; its contract is carried by `Template.ExpandNoPlaceholder`, `Template.ExpandSplitsAtPlaceholder`, `Template.ExpandAt` and `Template.ExpandFirstPlaceholder` |
| `Template.ExpandNoPlaceholder` | shared-tools/api_bola_checker/api_bola_checker.py:21 | a template with no `{id}` is returned unchanged |
| `Template.ExpandSplitsAtPlaceholder` | shared-tools/api_bola_checker/api_bola_checker.py:21 | the expansion of `a + '{id}' + b` is the expansion of `a`, the identifier, then the expansion of `b` |
| `Template.ExpandAt` | shared-tools/api_bola_checker/api_bola_checker.py:21 | every occurrence of `{id}`, at any index, is replaced by the identifier |
| `Template.NoBraceNoPlaceholder` | shared-tools/api_bola_checker/api_bola_checker.py:21 | a string without `{` holds no placeholder |
| `Template.ExpandFirstPlaceholder` | shared-tools/api_bola_checker/api_bola_checker.py:21 | text before the first `{id}` is copied verbatim and that `{id}` becomes the identifier |
| `Template.ExpandUsersExample` | shared-tools/api_bola_checker/api_bola_checker.py:21 | `/users/{id}` with `42` gives `/users/42` |
| `Template.ApplyTemplate` | shared-tools/api_bola_checker/api_bola_checker.py:20-25 | the URL is the expanded template; there is no body exactly when the body template is absent or empty, otherwise it is the expanded body template |
| `Summarizer.CollapseNewlines` | shared-tools/api_bola_checker/api_bola_checker.py:40 | same length; each `'\n'` becomes `' '` and every other character is kept |
| `Summarizer.Sample` | shared-tools/api_bola_checker/api_bola_checker.py:40 | the sample has length min(200, body length), holds no `'\n'`, agrees with the body's prefix up to newline collapsing, and is `''` for an empty body |
| `Summarizer.Body` | shared-tools/api_bola_checker/api_bola_checker.py:34 | the body text of a response, `''` when the response has none; its meaning is stated by `Summarizer.SummarizeFacts` (content length) and `Summarizer.SampleWithinLength` |
| `Summarizer.SafeJson` | shared-tools/api_bola_checker/api_bola_checker.py:27-31 | the parsed response body, `None` when `resp.json()` raised; its meaning is stated by `Summarizer.SummarizeFacts` (keys exactly for a JSON object) |
| `Summarizer.Summarize` | shared-tools/api_bola_checker/api_bola_checker.py:33-42 | the model of `summarize_response`; its contract is `Summarizer.SummarizeFacts` |
| `Summarizer.SummarizeFacts` | shared-tools/api_bola_checker/api_bola_checker.py:33-42 | status copied; length is the whole body's; keys present exactly when the parsed JSON is an object and then its keys in parser order; sample of the body |
| `Summarizer.SampleWithinLength` | shared-tools/api_bola_checker/api_bola_checker.py:38-40 | the sample never exceeds the content length, equals it exactly when the body has at most 200 characters, and depends only on the body's prefix of that length |
| `Summarizer.SampleDependsOnPrefix` | shared-tools/api_bola_checker/api_bola_checker.py:40 | bodies sharing their first 200 characters have the same sample, whatever their lengths |
| `DiffEngine.Diff` | shared-tools/api_bola_checker/api_bola_checker.py:44-54 | a key for exactly the differing fields; status, length and key list map to the (first, second) pair; a sample mismatch maps `body_sample_sample_diff` to `True` |
| `DiffEngine.CompareSummaries` | shared-tools/api_bola_checker/api_bola_checker.py:44-54 | the map built by the four conditional inserts is `Diff` |
| `DiffEngine.DiffEmptyIff` | shared-tools/api_bola_checker/api_bola_checker.py:44-54 | the diff is empty exactly when the summaries are equal; in particular `compare_summaries(s, s)` is empty |
| `DiffEngine.DiffSwap` | shared-tools/api_bola_checker/api_bola_checker.py:44-54 | swapping the arguments keeps the keys and swaps each recorded pair |
| `DiffEngine.KeyOrderMatters` | shared-tools/api_bola_checker/api_bola_checker.py:50-51 | key lists `["id","name"]` and `["name","id"]` count as different |
| `DiffEngine.StatusOnlyDiff` | shared-tools/api_bola_checker/api_bola_checker.py:46-47 | summaries differing only in status 200 against 403 give exactly `{status_code: (200, 403)}` |
| `Runner.FirstBody` | shared-tools/api_bola_checker/api_bola_checker.py:61-71 | GET and DELETE never carry a body; POST and PUT with non-empty data send JSON exactly when the data parses and raw text exactly when it does not; no data, no body |
| `Runner.Attempt` | shared-tools/api_bola_checker/api_bola_checker.py:60-72 | the model of the requests sent for one identifier and the outcome kept; its contract is `Runner.AttemptFacts` |
| `Runner.AttemptFacts` | shared-tools/api_bola_checker/api_bola_checker.py:60-72 | one or two requests, all with the check's method and the expanded URL; a second request (raw text) exactly when the JSON request failed; the recorded outcome is that of the last request |
| `Runner.Dispatch` | shared-tools/api_bola_checker/api_bola_checker.py:60-71 | the imperative request branch sends exactly the requests of `Attempt` and yields its outcome |
| `Runner.EntryOf` | shared-tools/api_bola_checker/api_bola_checker.py:72-76 | the results entry for an outcome: `error` with the reason for a failed request, `ok` with the summary for a response |
| `Runner.EventsOf` | shared-tools/api_bola_checker/api_bola_checker.py:72-77 | the events of one identifier: its requests in order, then a sleep only when a response came back (a failure skips the sleep); its meaning is stated by `Runner.EventsOfExchange`, `Runner.ProbeSent` and `Runner.ProbeSlept` |
| `Runner.Step` | shared-tools/api_bola_checker/api_bola_checker.py:58-77 | one iteration of the results loop: expand the templates, send, record the entry, sleep after a response; its contract is carried by `Runner.ProbeLast` and `Runner.ProbeOtherKey` (results), `Runner.ProbeSent` (requests) and `Runner.ProbeSlept` (sleeps) |
| `Runner.Probe` | shared-tools/api_bola_checker/api_bola_checker.py:57-77 | the results loop as a function of the identifiers; its contract is carried by `Runner.ProbeKeys`, `Runner.ProbeEntry`, `Runner.ProbeKeeps` and `Runner.ProbeSent` |
| `Runner.ProbeKeys` | shared-tools/api_bola_checker/api_bola_checker.py:57-76 | after the results loop every identifier, and nothing else, has an entry |
| `Runner.ProbeEntry` | shared-tools/api_bola_checker/api_bola_checker.py:58-76 | an identifier's entry is `error` or `ok` with the summary of its own last exchange: failures never stop later identifiers, and repeats overwrite |
| `Runner.ProbeLast` | shared-tools/api_bola_checker/api_bola_checker.py:58-76 | one more identifier sets (or overwrites) its own entry to the outcome of its exchange |
| `Runner.ProbeOtherKey` | shared-tools/api_bola_checker/api_bola_checker.py:58-76 | an identifier's exchange leaves every other identifier's presence and entry as they were |
| `Runner.ProbeKeeps` | shared-tools/api_bola_checker/api_bola_checker.py:58-76 | an identifier that does not recur keeps, to the end of the loop, the entry its last exchange gave it |
| `Runner.ProbeSent` | shared-tools/api_bola_checker/api_bola_checker.py:58-77 | the loop sends between `|ids|` and `2·|ids|` requests, and the event trace holds exactly as many `Sent` events as requests sent |
| `Runner.SentCountAppend` | shared-tools/api_bola_checker/api_bola_checker.py:58-77 | the number of requests in a concatenated trace is the sum over its parts |
| `Runner.EventsOfExchange` | shared-tools/api_bola_checker/api_bola_checker.py:60-77 | one identifier's events are its requests in order, followed by exactly one sleep when a response came back and none when the request failed |
| `Runner.ProbeSlept` | shared-tools/api_bola_checker/api_bola_checker.py:58-77 | the loop sleeps exactly once per identifier whose exchange got a response, so at most `|ids|` times; a failure moves on without sleeping |
| `Runner.SleptCountAppend` | shared-tools/api_bola_checker/api_bola_checker.py:58-77 | the number of sleeps in a concatenated trace is the sum over its parts |
| `Runner.Anomalies` | shared-tools/api_bola_checker/api_bola_checker.py:79-88 | no anomalies when the first identifier has no summary |
| `Runner.Scan` | shared-tools/api_bola_checker/api_bola_checker.py:82-88 | the anomaly loop over the later identifiers; its contract is `Runner.ScanExact` |
| `Runner.ScanExact` | shared-tools/api_bola_checker/api_bola_checker.py:82-88 | the anomaly loop keeps, in list order, exactly the later identifiers that have a summary with a non-empty diff, each with that diff |
| `Runner.AnomaliesSound` | shared-tools/api_bola_checker/api_bola_checker.py:79-88 | each anomaly pairs the first identifier with a later one that has a summary; its diffs are `compare_summaries(base, cur)` and non-empty |
| `Runner.AnomaliesComplete` | shared-tools/api_bola_checker/api_bola_checker.py:79-88 | every later identifier with a summary differing from the baseline's gives an anomaly |
| `Runner.BaselineFailureMeansNoAnomalies` | shared-tools/api_bola_checker/api_bola_checker.py:72-88 | when the first identifier's request fails and the first identifier does not occur again in the list, the check has no anomalies (a later repeat of it overwrites its entry, which line 79 then reads) |
| `Runner.LongerBodyIsFlagged` | shared-tools/api_bola_checker/api_bola_checker.py:79-88 | identifiers `1`,`2` with equal status and keys but a body 50 characters longer give one anomaly `(1, 2)` recording the length pair |
| `Runner.FindAnomalies` | shared-tools/api_bola_checker/api_bola_checker.py:79-88 | the imperative anomaly loop computes `Anomalies` |
| `Runner.RunCheck` | shared-tools/api_bola_checker/api_bola_checker.py:56-90 | the results map has exactly the identifiers as keys and equals `Probe`; the events and request count are `Probe`'s; the anomalies are `Anomalies` of those results |
| `Runner.RunChecks` | shared-tools/api_bola_checker/api_bola_checker.py:100-102 | one check per endpoint in order, each keyed by all identifiers and with its anomalies computed from its own results |

## Left out

- HTTP: `requests.Session`, the 15-second timeout, headers and the text of the exception (lines 62-73, 97) are the `transport` oracle; the headers, passed unchanged to every request, are not modelled.
- JSON: `json.loads` of the body (line 66) is the `parsesAsJson` oracle, and a JSON body is represented by its source text rather than the parsed value; `resp.json()` (line 29) is a field of the response; only the top-level shape of a parsed value is kept.
- Sleep: `time.sleep(delay)` (line 77) appears only as a `Slept` event after a successful request; its duration (a float) is not modelled.
- CLI, files and clock: `argparse` (lines 4-13), opening and iterating the endpoints file (lines 16-17; the model takes its lines as a sequence), `json.loads` of `--headers` (line 96), the `datetime.utcnow()` timestamp (line 99), writing the report (lines 103-104) and the final message (line 105).
- Report round trip: a property of the JSON library, not of this code.
- Results order: the results dictionary is a Dafny `map`, so the insertion order in which the report lists identifiers is not modelled.
- Exceptions other than a failed request (for example from reading `resp.text`), and the bare `except:` also catching interrupts, are not modelled.
- `str(idv)`: identifiers are strings, on which `str` is the identity.
- Runner.RunChecks: states each check's endpoint, keys and anomalies but not how each check's results depend on the requests sent by the earlier checks of the same session.

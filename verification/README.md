# On-Call Copilot in Dafny

On-Call Copilot triages production incidents. A client posts an incident
(alerts, logs, metrics, a runbook excerpt). A model is asked for suspected
root causes, immediate actions, a summary, stakeholder updates and a
post-incident report, and the answer is checked against a JSON schema.
Four specialist agents (triage, summary, comms, post-incident report) each
return a JSON object. The hosted agent concatenates these objects into one
text blob, and the clients walk that blob to merge the objects.

This project models the parts of the system that decide what goes in and
what comes out, as pure functions over an algebraic JSON value:

- **`JsonValue`** (`json.dfy`): the JSON value, `json.loads` over an abstract
  one-value decoder, and the Python lookups the scripts apply (`.get`, `in`,
  `0 <= x <= 1`, set membership). Each lookup raises where Python would.
- **`Schemas` / `SchemaMeaning`**: the incident input schema and the triage
  output schema of `app/schemas.py`, read by a small JSON Schema
  interpreter. The meaning module proves that the interpreter accepts
  exactly the documents that hand-written field-by-field predicates describe.
- **The mock-mode triage service**:
  - `Responses`: `POST /responses` of `app/main.py`.
  - `MockRouter`: the golden-response table.
  - `Fences`: markdown fence stripping.
  - `Redaction`: the secret-redacting regular expression, written out as a
    matcher, with soundness and completeness proved.
- **`BlobMerge` and `MapFold`**: the `raw_decode` walk that the UI server and
  the command-line invoker use to merge the agents' objects, proved equal to
  a left fold of `dict.update`.
- **`AgentRequest`**: what the scripts read from the environment and the
  request body they send.
- **`Agents`**: the key sets the four agents declare.
- **`UiServer`**: `do_GET` and `do_POST` of `ui/server.py`.
- **`InvokeCli`**: `scripts/invoke.py`.
- **`RunScenarios` and `ScenarioRuns`**: the live scenario runner
  `scripts/run_scenarios.py`, and what it shares with the local validator.
- **`ValidateScript`**: `scripts/validate.py`, the local validator against
  the mock-mode service.
- **`DemoCheck`**: `scripts/test_all_demos.py`, the demo sweep through the
  UI server.
- **Support modules**: `DataFiles` (sorted globs of `*.json` files),
  `StrOrder` (code-point string order and a sort), `PyText` (`strip`,
  `str(n)`, `split`) and `Wrappers` (`Option`, `Eval`).

The environment and the outside world are parameters of the model:

- the JSON decoder, `json.dumps` and the prompt builder;
- the directory listings and file contents;
- the `az` token;
- the HTTP transport;
- whether the local server came up.

Python exceptions are modelled as the `Raised` outcome of `Eval`.

## Model

| member | source | states |
|---|---|---|
| JsonValue.Loads | app/main.py:103 | a parse succeeds only with the decoder's value for the text after leading JSON whitespace |
| JsonValue.Get | scripts/validate.py:110 | `.get(k, default)` raises unless the value is a dict, and gives the value under `k` or the default |
| JsonValue.In | scripts/validate.py:101 | `k in x` raises on numbers, booleans and null; it tests keys for a dict and elements for a list |
| JsonValue.Member | scripts/validate.py:73-74 | `if k in d: d[k]` gives the value exactly when a dict holds the key |
| JsonValue.Records | scripts/run_scenarios.py:92-93 | enumerating a list whose entries are all dicts never raises, and yields those dicts in order |
| JsonValue.Between01 | scripts/run_scenarios.py:94 | `0 <= x <= 1` raises exactly for non-numbers; otherwise it is true exactly when the number lies in [0, 1] |
| JsonValue.InStrings | scripts/run_scenarios.py:100 | `x not in {...}` raises exactly for unhashable lists and dicts, and holds exactly for the listed strings |
| SchemaMeaning.IncidentMeaning | app/schemas.py:8-65 | an incident conforms exactly when it is a dict with a string id and title, a severity SEV1 to SEV4, a timeframe with a string start, and well-typed optional alerts, logs, metrics, runbook excerpt and constraints |
| SchemaMeaning.TriageMeaning | app/schemas.py:67-177 | a triage result conforms to the output schema exactly when every section has its documented shape |
| SchemaMeaning.SummaryMeaning | app/schemas.py:80-87 | the summary conforms exactly when what_happened and current_status are strings |
| SchemaMeaning.RootCauseMeaning | app/schemas.py:88-99 | a root cause conforms exactly when it has a string hypothesis, string evidence and a confidence in [0, 1] |
| SchemaMeaning.ActionMeaning | app/schemas.py:100-111 | an action conforms exactly when its step and owner are strings and its priority is one of P0 to P3 |
| SchemaMeaning.TelemetryMeaning | app/schemas.py:160-175 | the telemetry block conforms exactly when the correlation id and deployment are strings, the model is a string or null, and the token block is well-typed or null |
| SchemaMeaning.ConfidenceMeaning | app/schemas.py:96 | a confidence conforms exactly when it is a number between 0 and 1 inclusive |
| Redaction.KeywordValueRedacted | app/main.py:78-86 | a secret keyword in any letter case, followed by `:` or `=` and a value, becomes the keyword followed by `: [REDACTED]` |
| Redaction.Redact | app/main.py:84-86 | the redacted text is empty exactly when the text is |
| Redaction.RedactAtMatch | app/main.py:84-86 | at a match, the output keeps the keyword and the whitespace before the separator, then continues after the value |
| Redaction.NoMatchUnchanged | app/main.py:84-86 | a text the pattern matches nowhere is returned unchanged |
| Redaction.MatchSound | app/main.py:78-81 | whatever the matcher finds has the shape the regular expression describes |
| Redaction.MatchComplete | app/main.py:78-81 | every text starting with that shape is matched, with exactly those parts |
| Redaction.ReplacementKeepsKeyword | app/main.py:86 | splitting the match at `:` then `=` keeps exactly the keyword and its trailing whitespace |
| Fences.FencedJsonParsed | app/main.py:97-103 | a fenced reply, with or without the `json` tag and with any whitespace around the fence, parses exactly as its body alone |
| Fences.StripFencesTrims | app/main.py:99-102 | the unfenced text never starts or ends with whitespace |
| Fences.UnfencedParsedAsIs | app/main.py:99-100 | text that does not start with a fence is only stripped before parsing |
| Fences.ObjectTextParsedAsIs | app/main.py:97-103 | a text from `{` to `}` is parsed as it stands |
| Fences.FenceRoundTrip | app/main.py:100-102 | wrapping a body in a fence, with or without the `json` tag, and stripping it gives the body back |
| MockRouter.KeyOf | app/mock_router.py:28-31 | a golden file is keyed only when it parses to a dict, by its stem when `_incident_id` is absent |
| MockRouter.Entry | app/mock_router.py:28-34 | a file that fails to load contributes nothing |
| MockRouter.LoadGolden | app/mock_router.py:21-26 | loading does nothing when the table is already filled or the directory is missing |
| MockRouter.EntriesFold | app/mock_router.py:27-34 | a key is loaded exactly when some file carries it, with the contents of the last such file |
| MockRouter.GoldenKeying | app/mock_router.py:21-34 | the same, over the sorted `*.json` listing of the golden directory |
| MockRouter.Public | app/mock_router.py:46 | the returned response keeps exactly the keys that do not start with `_`, with their values |
| MockRouter.GetMockResponse | app/mock_router.py:37-47 | a returned response never holds a private key |
| MockRouter.LookupOrder | app/mock_router.py:40-43 | the incident's own entry wins, `_default` is the fallback, and there is none only when both are missing |
| MockRouter.LookupKeepsPublicKeys | app/mock_router.py:44-46 | the stored entry's public keys come back with their values, and nothing else |
| MockRouter.MockModelResponse | app/mock_router.py:50-67 | the response carries the content as its one choice, with prompt and completion counts of a quarter of its length |
| Responses.Finish | app/main.py:223-265 | an unparseable reply gives 502; JSON that is not an object gives 500; an object is answered with 200, holding all its keys plus the overwritten telemetry; the correlation header goes out exactly when the result conforms, and `X-Schema-Valid: false` otherwise |
| Responses.HandleResponses | app/main.py:110-169 | a JSON body that is not a dict gives 500; every answer carries the request's correlation id, the deployment and the mock model in its telemetry |
| Responses.MissingGoldenIs501 | app/main.py:153-160 | for a dict body with a valid incident, 501 is answered exactly when the golden table has neither the incident's own entry nor `_default` |
| Responses.MockAnswer501 | app/main.py:155-160 | the mock path answers 501 exactly when the lookup finds nothing |
| Responses.MockAnswer | app/main.py:153-169 | the mock path answers only with 200, 500, 501 or 502 |
| Responses.StatusCodes | app/main.py:110-265 | the service answers only with 200, 400, 422, 500, 501 or 502, and gives 400 exactly for an unparseable body |
| Responses.InvalidIncidentIs422 | app/main.py:121-128 | 422 means exactly that the unwrapped incident does not conform to the input schema |
| Responses.AnsweredOnlyForValid | app/main.py:153-160 | an answer is given only for a valid incident that has a golden response, its own or the default one |
| Responses.EnvelopeUnwrapped | app/main.py:121 | `{"incident": x}` is processed as `x` |
| Responses.TokensNullIff | app/main.py:240-244 | the token entry is null exactly when there is no prompt count |
| Responses.TelemetryConforms | app/main.py:236-245 | the injected block conforms unless there is a prompt count without a completion count |
| Responses.ModelKeysKept | app/main.py:235-236 | every key of the model's object other than telemetry is kept with its value |
| Responses.MockTelemetry | app/main.py:161-164 | mock telemetry carries the request's id, the deployment, the mock model, and quarter-length token counts of the redacted prompt and the golden text |
| Responses.MockAnswerIsGolden | app/main.py:161-265 | when `json.dumps` output reads back, mock mode answers with the golden response plus the injected telemetry |
| Responses.HeaderFlagsInvalid | app/main.py:247-260 | a 200 answer carries `X-Schema-Valid: false` exactly when its result does not conform |
| Responses.MockModeOn | app/main.py:50 | mock mode is off when `MOCK_MODE` is unset |
| Responses.MockModeMeaning | app/main.py:50 | mock mode is on exactly when the lower-cased value is `true`, `1` or `yes`, so the letter case of the value never matters |
| MapFold.LastIndexOf | scripts/invoke.py:137 | the index found holds the key and no later map does |
| MapFold.LaterWins | scripts/invoke.py:122-140 | successive `dict.update` calls hold every key seen, with its value from the last map that has it |
| MapFold.KeysOnlyGrow | ui/server.py:108 | an update never removes a key |
| MapFold.FoldAppend | ui/server.py:96-111 | merging two runs of parts is merging the second onto the result of the first |
| MapFold.OrderIndependent | ui/server.py:94-111 | maps with pairwise disjoint keys merge to the same dict in any order |
| BlobMerge.Next | ui/server.py:100-106 | one step skips JSON whitespace and decodes one value; it stops exactly at the end or at a decode error, and always advances |
| BlobMerge.Walk | ui/server.py:99-111 | the walk of a part never loses a key merged before it |
| BlobMerge.WalkStep | ui/server.py:100-109 | the walk of a text is one decoded value absorbed, then the walk of the rest |
| BlobMerge.WalkIsFold | ui/server.py:99-111 | walking a text equals folding `dict.update` over the objects it holds, non-objects skipped |
| BlobMerge.MergeTexts | ui/server.py:96-111 | merging further parts never loses a key merged before |
| BlobMerge.MergeReply | ui/server.py:93-111 | the merge raises exactly when the parts' texts cannot be read, and is otherwise the in-order `dict.update` of every object of every stripped part |
| BlobMerge.MergeTextsIsFold | scripts/invoke.py:122-140 | merging all parts equals folding over the objects of every part in order |
| BlobMerge.MergedValueIsLast | scripts/invoke.py:122-140 | a merged key comes from the last object holding it |
| BlobMerge.MergeTextsAppend | ui/server.py:96-97 | the parts merge one after the other |
| BlobMerge.ErrorEndsPart | ui/server.py:110-111 | a decode error ends the walk of that part only |
| BlobMerge.FailingPartIsSkipped | ui/server.py:105-111 | a part that fails to decode leaves the merge of the other parts unchanged |
| BlobMerge.NextSkipsWhitespace | ui/server.py:101-102 | leading JSON whitespace does not change the next value |
| BlobMerge.WhitespaceSkipped | scripts/invoke.py:129-131 | leading JSON whitespace does not change the walk |
| BlobMerge.BlankTextAddsNothing | ui/server.py:103-104 | an all-whitespace text adds nothing |
| BlobMerge.SeparatorInsensitive | scripts/invoke.py:128-138 | whitespace between two objects does not change the merge |
| BlobMerge.TextsOf | ui/server.py:97-98 | reading the parts' texts raises exactly when some part's `text` is not a string |
| BlobMerge.StripAll | ui/server.py:98 | each part's text is stripped before the walk |
| BlobMerge.BlankPartAddsNothing | scripts/invoke.py:126 | a blank part adds nothing |
| DataFiles.JsonStem | app/mock_router.py:30 | the stem with `.json` put back is the file name |
| DataFiles.Glob | ui/server.py:179 | the glob keeps exactly the files matching `prefix*.json` |
| DataFiles.Listing | ui/server.py:179 | `sorted(glob)` is in name order and holds exactly the matching files |
| DataFiles.Parse | ui/server.py:204 | a file parses only when it reads, to the decoder's value |
| StrOrder.SortBy | app/mock_router.py:27 | `sorted` gives a permutation in ascending order |
| AgentRequest.Endpoint | scripts/invoke.py:58 | the stripped endpoint never ends in a slash, and is empty exactly when the variable is unset or all slashes |
| AgentRequest.GetConfig | scripts/invoke.py:57-65 | the scripts exit exactly when the endpoint is empty; otherwise the name and version come from the environment, the version defaulting to empty |
| AgentRequest.UrlJoinsCleanly | scripts/invoke.py:102 | the request URL extends the endpoint with exactly one slash |
| AgentRequest.AgentSpec | scripts/invoke.py:72-74 | the agent reference names a version exactly when one is set |
| AgentRequest.RequestRoundTrip | scripts/invoke.py:89-92 | the message and the agent name and version can be read back from the request body |
| AgentRequest.VersionLabel | scripts/invoke.py:94 | the label is never empty and is the version when one is set |
| AgentRequest.LabelSplits | ui/server.py:117 | splitting the agent label at its colon gives back the name and the version label |
| AgentRequest.UnpinnedLooksLatest | ui/server.py:117 | an unpinned agent shows the same label as a version named latest, though only the second request pins it |
| Agents.ExpectedIsDisjointUnion | scripts/run_scenarios.py:33-41 | the expected keys are exactly the union of the four agents' declared keys, which are pairwise disjoint |
| Agents.AgentOrderIrrelevant | app/agents/triage.py:5-6 | the four agents' replies merge to the same dict in any order of arrival |
| Agents.MergedKeysExpected | scripts/run_scenarios.py:33-41 | replies within their declared keys merge to expected keys only, and to all of them when every agent is complete |
| UiServer.NormalizePath | ui/server.py:160 | the normalised path is never empty and ends in a slash only when it is the root |
| UiServer.NormalizeFixedPoints | ui/server.py:160 | normalisation leaves a path alone exactly when it is the root or does not end in a slash |
| UiServer.NormalizeIdempotent | ui/server.py:160 | normalising twice is normalising once |
| UiServer.TrailingSlashesIgnored | ui/server.py:160 | any number of trailing slashes normalise away |
| UiServer.RouteIgnoresTrailingSlashes | ui/server.py:160-208 | a path with trailing slashes takes the route of the path without them |
| UiServer.Config | ui/server.py:167-175 | the config reply has exactly the endpoint, name, version and configured fields |
| UiServer.ConfigVersusInvoke | ui/server.py:167-175 | an endpoint an invocation accepts is reported configured, but an endpoint of `/` is reported configured and then refused |
| UiServer.Severity | ui/server.py:184 | reading a severity succeeds exactly when the file parses to a dict holding `severity` |
| UiServer.Entries | ui/server.py:179-192 | listing entries succeeds exactly when every file has a severity |
| UiServer.IncidentsListed | ui/server.py:177-194 | the incident list holds the sorted demos then the sorted scenarios, each with its kind, file, label and severity |
| UiServer.LoadFile | ui/server.py:196-206 | the loader answers 200 with exactly `content` and `meta`, answers 404, or drops the connection |
| UiServer.LoadOutcome | ui/server.py:196-206 | the loader answers 404 exactly for a missing name or path; any type other than demo reads scenarios; a loaded file comes back as it parses |
| UiServer.HandleGet | ui/server.py:158-208 | a GET answers 200 or 404 |
| UiServer.GetNotFound | ui/server.py:158-208 | 404 means an unknown path or a file the loader cannot find; the page is served for the root with any trailing slashes |
| UiServer.UiSendsContentVerbatim | ui/server.py:75-78 | the UI sends the content unchanged |
| UiServer.NoRequestWithoutEndpoint | ui/server.py:60-69 | without an endpoint or a token nothing is sent, whatever the network would do |
| UiServer.InvokeAgent | ui/server.py:59-119 | nothing but a failure comes back without an endpoint and a token; a result has exactly the five documented keys, a dict output and the measured time |
| UiServer.InvokeReturns | ui/server.py:59-119 | an invocation returns exactly when the reply is a dict with no truthy error whose parts merge, with that merge as its output |
| UiServer.OutputFromObjects | ui/server.py:94-111 | the output's keys are those of the reply's objects, each valued by the last object holding it |
| UiServer.HandlePost | ui/server.py:210-227 | a POST answers 200 or one of 400, 404, 500 and 504 |
| UiServer.PostOutcome | ui/server.py:210-227 | 404 exactly off `/api/invoke`; 400 exactly for blank content; 504 only after a request went out; 200 with the invocation's result |
| InvokeCli.FirstFile | scripts/invoke.py:196-200 | no file is chosen exactly when the listing is empty, and the chosen text is the first file's |
| InvokeCli.DemoIsFirstMatch | scripts/invoke.py:195-208 | `--demo n` sends the first file matching `demo_n_*.json`; zero or an empty prompt sends the default prompt |
| InvokeCli.UserMessageInverse | scripts/invoke.py:78-87 | the content can be read back from the message: unchanged, or after the instruction prefix when it is JSON |
| InvokeCli.CliRequestCarries | scripts/invoke.py:89-92 | the request carries the message and the configured agent and version |
| InvokeCli.Preview | scripts/invoke.py:97 | the preview is the content up to 120 characters, then an ellipsis |
| InvokeCli.TitleIn | scripts/invoke.py:161 | an unlabelled key is shown under its upper-case form |
| InvokeCli.SectionsShowLabelled | scripts/invoke.py:166-175 | without a key, exactly the labelled keys present are shown, with their titles and values |
| InvokeCli.SectionsInOrder | scripts/invoke.py:167 | sections follow the label table's order |
| InvokeCli.Display | scripts/invoke.py:110-175 | the reply error is shown exactly when the reply is a dict with a truthy `error`; a missing key lists a non-empty set of keys without it |
| InvokeCli.KeyFilter | scripts/invoke.py:142-165 | with a key, exactly its value is shown; a missing key is an error listing the keys; empty output ends quietly first |
| InvokeCli.DebugSkipsMerge | scripts/invoke.py:116-118 | the debug key shows the raw reply without merging |
| InvokeCli.Main | scripts/invoke.py:178-210 | without an endpoint the script exits before anything else; once a file is sent, a login is asked for exactly when there is no token |
| InvokeCli.ExitStatus | scripts/invoke.py:178-210 | the script succeeds exactly when it shows something, and fails on a missing endpoint before any file is read |
| ScenarioRuns.Containing | scripts/run_scenarios.py:70 | the filter keeps exactly the files whose name contains the needle |
| ScenarioRuns.Discover | scripts/run_scenarios.py:67-74 | discovery, as written, fails exactly when nothing is selected, and returns the selected files sorted |
| ScenarioRuns.DiscoverExact | scripts/validate.py:37-45 | the corrected discovery selects exactly `scenario_N_*.json`, sorted, and fails exactly when there is none |
| ScenarioRuns.ExactIsNarrower | scripts/validate.py:41 | every file the corrected filter selects, the written one selects too |
| ScenarioRuns.SubstringOverselects | scripts/run_scenarios.py:70 | as written, `--scenario n` also selects `scenario_{10n+d}_...`, which the corrected filter does not |
| ScenarioRuns.Failures | scripts/run_scenarios.py:188-197 | the failure count is zero exactly when every run passed |
| ScenarioRuns.Tally | scripts/validate.py:173-188 | the counters add up to the number of runs, and no failure means every run passed |
| ScenarioRuns.ExitCode | scripts/run_scenarios.py:201-204 | the exit status is 0 exactly when nothing failed |
| ScenarioRuns.Collect | scripts/validate.py:80-85 | the loop over records raises exactly when some record's check raises, and reports exactly the records' findings |
| RunScenarios.ConfidenceCheck | scripts/run_scenarios.py:93-95 | a root cause raises exactly for a non-numeric confidence, and is reported exactly when it lies outside [0, 1] |
| RunScenarios.PriorityCheck | scripts/run_scenarios.py:99-101 | an action raises exactly for an unhashable priority, and is reported exactly when it is not P0 to P3 |
| RunScenarios.CauseIssues | scripts/run_scenarios.py:91-95 | the root-cause loop reports only confidences |
| RunScenarios.ActionIssues | scripts/run_scenarios.py:97-101 | the action loop reports only priorities |
| RunScenarios.Present | scripts/run_scenarios.py:86 | the present keys are those of the dict among the expected ones; `in` raises on other values |
| RunScenarios.ValidateText | scripts/run_scenarios.py:77-84 | the reply is "not valid JSON" exactly when it does not parse |
| RunScenarios.MissingKeysReported | scripts/run_scenarios.py:86-89 | one issue, first, names exactly the missing expected keys, and none is raised when all are there |
| RunScenarios.ConfidenceIssuesExact | scripts/run_scenarios.py:91-95 | root cause `i` is reported exactly when its confidence, or -1, lies outside [0, 1] |
| RunScenarios.PriorityIssuesExact | scripts/run_scenarios.py:97-101 | action `i` is reported exactly when its priority, or None, is not P0 to P3 |
| RunScenarios.Joined | scripts/run_scenarios.py:153-156 | a single part's text is passed on as it is |
| RunScenarios.BlobRejectedAsWritten | scripts/run_scenarios.py:153-158 | a reply holding objects back to back is always "not valid JSON" |
| RunScenarios.CheckReplyAsWritten | scripts/run_scenarios.py:152-158 | as written, the reply is "not valid JSON" exactly when the joined texts do not parse |
| RunScenarios.CheckReply | scripts/run_scenarios.py:153-158 | the corrected check never reports "not valid JSON" |
| RunScenarios.BlobMergedWhenCorrected | scripts/run_scenarios.py:153-158 | corrected, a back-to-back reply is validated on the union of its objects |
| RunScenarios.Judge | scripts/run_scenarios.py:141-162 | judging never asks for a login; an API error means a 200 dict reply with a truthy `error`; a run that is not completed carries the status it read, null when absent |
| RunScenarios.JudgeOrder | scripts/run_scenarios.py:141-162 | with the corrected reply check: a non-200 status fails first, then an error, and a run passes exactly when every check passes |
| RunScenarios.RunScenario | scripts/run_scenarios.py:106-162 | a run needs a file that parses to a dict, and asks for a login exactly when there is no token |
| RunScenarios.ScenarioSentVerbatim | scripts/run_scenarios.py:115-125 | the scenario's JSON text is sent without the invoker's prefix |
| RunScenarios.RunAll | scripts/run_scenarios.py:188-204 | the exit status is 0 exactly when every selected scenario passed |
| RunScenarios.Prepare | scripts/run_scenarios.py:179-180 | with the corrected discovery, the runner stops before any scenario exactly when there is no endpoint or no matching file |
| RunScenarios.Session | scripts/run_scenarios.py:165-204 | with the corrected discovery and reply check, the exit status is 0 exactly with an endpoint, a non-empty selection and every scenario passing |
| ValidateScript.SchemaErrors | scripts/validate.py:66-70 | a schema error is reported exactly when the reply does not conform |
| ValidateScript.PairErrors | scripts/validate.py:73-77 | each of the two fields of a present section is reported exactly when it is falsy, and nothing else is; an absent section reports nothing |
| ValidateScript.CauseCheck | scripts/validate.py:80-85 | a root cause raises exactly for a non-numeric confidence; it is reported for a range violation and for empty evidence |
| ValidateScript.ActionCheck | scripts/validate.py:89-91 | an action raises exactly for an unhashable priority and is reported exactly when it is not P0 to P3 |
| ValidateScript.ContentErrors | scripts/validate.py:73-102 | the content checks never report a schema violation or a false header, and report the header key exactly when `"X-Schema-Valid" in data` holds |
| ValidateScript.ValidateResponse | scripts/validate.py:62-104 | a non-conforming reply's first error is the schema violation; a conforming one gets only the content errors |
| ValidateScript.ValidNeverRaises | scripts/validate.py:62-104 | a conforming reply never raises and draws no schema, confidence or priority error |
| ValidateScript.CausesOnValid | scripts/validate.py:79-85 | on a conforming reply, the root-cause loop reports only empty evidence |
| ValidateScript.ActionsOnValid | scripts/validate.py:87-91 | on a conforming reply, the action loop reports nothing |
| ValidateScript.ValidShape | scripts/validate.py:73-102 | on a conforming reply, the findings are those of summary, root causes and telemetry, plus the header key in the body |
| ValidateScript.CleanIffAcceptable | scripts/validate.py:62-104 | no error is reported exactly when the reply conforms, has non-empty texts and evidence, and holds no header key |
| ValidateScript.Judge | scripts/validate.py:113-142 | a timeout raises; a refused connection, a non-200 status and a false header all fail |
| ValidateScript.PassIffAcceptable | scripts/validate.py:107-142 | a scenario passes exactly on a 200 JSON reply that is acceptable and not flagged invalid |
| ValidateScript.RunScenario | scripts/validate.py:107-119 | a run needs a file parsing to a dict, and is judged on the reply to that payload |
| ValidateScript.Received | app/main.py:256-265 | the client sees the service's status |
| ValidateScript.MockScenarioPasses | scripts/validate.py:107-142 | against the mock service, a scenario passes exactly when it is answered with an acceptable result |
| ValidateScript.ValidateAll | scripts/validate.py:172-194 | the exit status is 0 exactly when every scenario passed; it raises exactly when some run raises |
| ValidateScript.RunValidation | scripts/validate.py:145-202 | with the corrected discovery, the exit status is 0 exactly with a selection, a server that started or was not needed, and every scenario passing |
| DemoCheck.PanelKeysDeclared | scripts/test_all_demos.py:9-14 | each panel's keys are declared by the agent behind that panel |
| DemoCheck.Missing | scripts/test_all_demos.py:50 | the missing panels are exactly the unfilled ones |
| DemoCheck.MissingAscending | scripts/test_all_demos.py:50 | the missing panels keep the panel order |
| DemoCheck.MissingPanels | scripts/test_all_demos.py:44-50 | the missing panels are exactly the unfilled ones, in panel order |
| DemoCheck.Classify | scripts/test_all_demos.py:44-54 | a demo passes exactly when every panel has one of its keys, and is partial otherwise, naming the missing panels |
| DemoCheck.Judge | scripts/test_all_demos.py:37-54 | a truthy error is an error; a pass needs an output dict with every panel filled |
| DemoCheck.TestIncident | scripts/test_all_demos.py:16-60 | an incident is judged on the invocation of its loaded content unless the item or a request fails |
| DemoCheck.ExpectedKeysPass | scripts/test_all_demos.py:44-54 | an output with all the expected keys passes |
| DemoCheck.CompleteAgentsPass | scripts/test_all_demos.py:44-54 | four complete agent replies merge to a passing output |
| DemoCheck.PassWithoutRootCauses | scripts/test_all_demos.py:45 | an output lacking root causes still passes, though it lacks an expected key |
| DemoCheck.CountPassed | scripts/test_all_demos.py:92 | every result passed exactly when the pass count is the number of results |
| DemoCheck.CountPartial | scripts/test_all_demos.py:93 | the partial count is zero exactly when no result is partial |
| DemoCheck.CountFailed | scripts/test_all_demos.py:94 | the failed count is zero exactly when no result is an error or an exception |
| DemoCheck.Summarise | scripts/test_all_demos.py:92-94 | the three counts cover every result |
| DemoCheck.ExitCode | scripts/test_all_demos.py:110 | the exit status is 0 or 1 |
| DemoCheck.Sweep | scripts/test_all_demos.py:63-110 | the sweep exits 0 exactly when every incident was shown and passed; it crashes only on an unshowable item or an unprintable error |

## Left out

- The live model path (app/main.py:170-213), which calls Azure through the
  SDK. Only mock mode is modelled; a live reply enters the model as
  `Responses.Finish`'s raw text.
- `build_user_message` and `json.dumps`. Both are parameters. The JSON
  decoder is abstract: any function that reads one value from the front of
  a text and says how much it read.
- Files, the network, the `az` token and the clock. Directory listings and
  file contents, the HTTP transport, the token and the elapsed time are
  parameters.
- Logging, tracing spans, printed messages and error-message texts. Error
  outcomes are modelled by kind (status code, issue constructor), not by
  their wording.
- `do_OPTIONS` and the HTML page of the UI server. The page is served as a
  `Page` outcome.
- `--list` of `scripts/run_scenarios.py`, which only prints.
- The subprocess of `scripts/validate.py` that starts the server,
  `wait_for_server`, and its termination. The model takes a `started` flag.
- `scripts/test_all_demos.py`'s listing request. The incidents are an
  input, and its printed report is not modelled.
- Python dict insertion order, which only changes the order of listed key
  names in messages.
- Non-ASCII case mapping in `upper`/`lower`, outside the redaction pattern's
  case folding.
- The hash equality of `1`, `True` and `1.0` as golden-table keys. A
  non-string `_incident_id` is a key of its own.
- jsonschema's `format: date-time`, which is not asserted by default.
- InvokeCli.ExitStatus: the `requests` timeout is uncaught in
  `scripts/invoke.py`. It is modelled as `Raised`, and no exit status is
  stated for it.
- DemoCheck.ExitCode: only the range of the status is stated there. Its
  meaning is stated by `DemoCheck.Sweep`.
- RunScenarios.CauseIssues: only the kind of issue is stated here. Which
  causes are reported is stated by `RunScenarios.ConfidenceIssuesExact`.
- RunScenarios.ActionIssues: only the kind of issue is stated here. Which
  actions are reported is stated by `RunScenarios.PriorityIssuesExact`.
- UiServer.HandleGet: only the status codes are stated here. Which request
  gets which status is stated by `UiServer.GetNotFound` and
  `UiServer.LoadOutcome`.
- UiServer.HandlePost: only the status codes are stated here. Which request
  gets which status is stated by `UiServer.PostOutcome`.
- Responses.MockAnswer: only the status codes are stated here. What the
  answer holds is stated by `Responses.MockTelemetry` and
  `Responses.MockAnswerIsGolden`.
- Redaction.Redact: only emptiness is stated here. What a match becomes is
  stated by `Redaction.RedactAtMatch` and `Redaction.KeywordValueRedacted`,
  and unmatched text by `Redaction.NoMatchUnchanged`.
- RunScenarios.Judge: it validates with the corrected reply check
  `RunScenarios.CheckReply` (see "## Findings"), so it does not state the
  written script's outcome on a back-to-back reply. That outcome, always
  "not valid JSON", is stated by `RunScenarios.BlobRejectedAsWritten`.
- RunScenarios.JudgeOrder: states the corrected judge, as for
  `RunScenarios.Judge`. The order of the status, `error` and `status`
  checks is the same as written.
- RunScenarios.Prepare: selects with the corrected discovery
  `ScenarioRuns.DiscoverExact` (see "## Findings"). As written,
  `--scenario n` also selects `scenario_{10n+d}_...`, which
  `ScenarioRuns.SubstringOverselects` states.
- RunScenarios.Session: runs the corrected discovery and reply check, as
  for `RunScenarios.Prepare` and `RunScenarios.Judge`. The written script's
  session is not stated as a whole.
- ValidateScript.RunValidation: selects with the corrected discovery, since
  `scripts/validate.py:41` has the same filter as
  `scripts/run_scenarios.py:70`. The written selection is stated by
  `ScenarioRuns.Discover` and `ScenarioRuns.SubstringOverselects`.
- Floats that are not finite. `Float` holds a real, so NaN and the
  infinities, which Python's `json.loads` accepts, are not represented. A
  NaN confidence passes the schema's bounds in jsonschema but fails the
  range test of `scripts/validate.py:81`. The service's `JSONResponse`
  renders with `allow_nan=False`, so an answer holding one is a 500. `ValidateScript.ValidNeverRaises`
  and `ValidateScript.CleanIffAcceptable` hold for finite numbers only.
- Float rounding. Which real a number's text denotes is left to the
  abstract decoder.

## Findings

| source | as written | input that shows it | evidently intended | confidence | as-written member | corrected member |
|---|---|---|---|---|---|---|
| scripts/run_scenarios.py:153-158 | the texts of all content parts are joined and handed to `json.loads` | a reply whose text holds the four agents' objects back to back, `{...}{...}`; `json.loads` rejects the extra data, so every such run fails with "not valid JSON" | merge the objects with the `raw_decode` walk that `ui/server.py` and `scripts/invoke.py` use, then validate the merged dict | not executed | RunScenarios.BlobRejectedAsWritten | RunScenarios.BlobMergedWhenCorrected |
| scripts/run_scenarios.py:70 | `--scenario N` keeps every file whose name contains `scenario_N` | `--scenario 1` with `scenario_1_a.json` and `scenario_12_b.json` present runs both | select only `scenario_N_*.json`, the pattern `scripts/invoke.py:202` globs | not executed | ScenarioRuns.SubstringOverselects | ScenarioRuns.DiscoverExact |

`scripts/validate.py:41` has the same filter as the second row.
`RunScenarios.Prepare`, `RunScenarios.Session` and
`ValidateScript.RunValidation` use the corrected discovery.
`RunScenarios.Judge`, `RunScenarios.JudgeOrder` and `RunScenarios.Session`
use the corrected reply check `RunScenarios.CheckReply`. The reply check as
written is `RunScenarios.CheckReplyAsWritten`.

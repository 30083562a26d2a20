# A verified model of the TDD agent pipeline's control core

The system drives a coding agent through a test-driven cycle: PLAN, RED
(write failing tests), GREEN (implement), a bounded REVIEW loop and a
REPORT. The agent's own claims about test status are never trusted. A
post-tool hook watches every test command the agent runs, and an
independent test run gates each stage. Two pre-tool guardrails refuse
dangerous shell commands, and they refuse edits to test files while the
implementation stages run. Events go over a publish/subscribe bus to a web
page. The page shows a stage stepper, tool descriptions, an elapsed-time
clock and a fuzzy directory picker. A stopped run can be summarized for a
later resume.

This project models that core in Dafny, one module per source file, plus
two helper modules:

- `Text` holds string helpers: ASCII case mapping, slicing, number
  printing, lexicographic order and `Distinct`.
- `Scan` writes the fixed regular expressions out as explicit predicates.
  `(\d+)\s+word` is matched greedily, a lazy `.*?` stops at the first later
  position on the same line, and `re.search` takes the leftmost start.
- `Tracker` covers `test_tracker.py`: the test result record, the
  test-command classifier, the count parser, and the tracker, a class whose
  history of results grows only by appends.
- `Hooks` covers `test_hooks.py`: exit-code inference, classification of a
  run, the stuck-loop counter and the corrective context message.
- `Verifier` covers `test_verifier.py`. The gate's result is a function of
  how the test run ended, and a rule table is proved equal to the
  detection if-chain.
- `Guardrails` and `Orchestrator` cover `run_pipeline.py`:
  - the test-file and dangerous-command guardrails;
  - the approval override;
  - the stage state machine, written as a class. The agent, the test suite
    and the stop flag are parameters of its environment. So are the Bash
    calls each agent stage before REPORT makes, which run through the test
    monitor hook and fill the tracker. The REPORT stage has no hooks.
- `Events` covers `events.py`: the bus, written as classes over queues.
- `Summarize` covers `summarize.py`: the collection of modified files, the
  sorted listing, the prompt fields and the summary record.
- `Stages`, `Sse` and `DirBrowser` cover `static/js/stages.js`, `sse.js`
  and `dirBrowser.js`:
  - stage classification and the stepper;
  - tool descriptions;
  - the elapsed-time text;
  - the fuzzy match, the highlight and the filter over directory entries.

The agent and the test subprocess are not part of the model: their results
are inputs. The file system probe becomes the set of paths that exist.

## Model

| member | source | states |
|---|---|---|
| Scan.NumberThen | test_tracker.py:53 | a match of `(\d+)\s+word` at a start begins with a digit and ends after the word |
| Scan.NumberThenIsGreedy | test_tracker.py:53-69 | whenever any split into digits, spaces and the word matches, the greedy reading succeeds with the same number and end, so the regex has one reading |
| Scan.NumberThenSound | test_tracker.py:53-69 | every greedy match really is digits, then spaces, then the word |
| Scan.FirstNumberThenIsLeftmost | test_tracker.py:60-61 | `re.search`: the match found is at the leftmost start where the pattern matches, and None means no start matches |
| Scan.LazyNumberThenIsFirstOnLine | test_tracker.py:53 | `.*?` stops at the first position on the same line where the rest matches, and never crosses a newline |
| Tracker.IsTestCommandSpec | test_tracker.py:29-47 | a command is a test command exactly when some runner pattern matches at some position |
| Tracker.AnyPatternSpec | test_tracker.py:47 | `any(re.search ...)` holds exactly when some pattern matches at some position |
| Tracker.SearchFromSpec | test_tracker.py:47 | the search over positions holds exactly when the pattern matches at one of them |
| Tracker.PytestIsTestCommand | test_tracker.py:31 | "pytest -x" is a test command |
| Tracker.RailsTestIsTestCommand | test_tracker.py:30 | `\s+` admits several spaces: "bin/rails  test" is a test command |
| Tracker.GluedNameIsNoMatch | test_tracker.py:31 | `\b` rejects a runner name glued to a longer word ("pytests") |
| Tracker.ParseTestCounts | test_tracker.py:50-72 | parsing changes only the three counts, and keeps them non-negative |
| Tracker.ParsePytestCounts | test_tracker.py:59-67 | without a minitest summary, total = passed + failed, failures = failed, a missing side counts 0, and errors keep their value |
| Tracker.JestFromHasFailed | test_tracker.py:68-69 | text the jest matcher accepts always contains an "N failed" that the pytest matcher finds first |
| Tracker.JestMatcherIsDead | test_tracker.py:68-72 | when the first two matchers find nothing, the result is unchanged: the third matcher never changes anything |
| Tracker.JestLineReadAsPytest | test_tracker.py:59-69 | "Tests: 2 failed, 5 passed, 7 total" gives 2 failures and 7 tests through the pytest branch, and errors are unchanged |
| Tracker.MinitestLineCounts | test_tracker.py:52-58 | a minitest summary line gives its run, failure and error counts |
| Tracker.FailuresThenErrorsSkip | test_tracker.py:53 | the lazy failure/error search passes over line positions where no failure count starts |
| Tracker.FailuresThenErrorsAt | test_tracker.py:53 | where a failure count is followed on its line by an error count, the lazy search returns both |
| Tracker.NoRunWordMeansNoMinitest | test_tracker.py:53-54 | a text without "run" has no minitest summary |
| Tracker.SummaryKinds | test_tracker.py:95-110 | the summary is the "no results" text exactly for an empty history, starts with "PASS: " exactly when the latest run passed, and starts with "FAIL: " for every other latest outcome |
| Tracker.TestTracker.constructor | test_tracker.py:75-80 | a tracker starts with no results and the default command "bin/rails test" |
| Tracker.TestTracker.Record | test_tracker.py:82-84 | the result is appended at the end and earlier results are unchanged |
| Tracker.TestTracker.LastResult | test_tracker.py:86-88 | None exactly for an empty history, otherwise the newest result |
| Tracker.TestTracker.AllPassing | test_tracker.py:90-93 | true exactly when there is a latest result and it passed |
| Tracker.TestTracker.Summary | test_tracker.py:95-110 | the no-results text exactly without results, and a "PASS: " line exactly when all are passing |
| Hooks.FailuresErrorsAtMatch | test_hooks.py:113 | every way the failure/error pattern can match at a start gives the counts read there: the optional "s", the comma and the spaces leave one reading |
| Hooks.InferExitCode | test_hooks.py:110-119 | the inferred code is 0 or 1 |
| Hooks.LeftmostFailuresErrorsSkip | test_hooks.py:113 | the search passes over every start at which no failure/error pair matches |
| Hooks.InferExitCodeWithCounts | test_hooks.py:112-118 | with a failure/error pair present, the code is 1 exactly when the leftmost pair is non-zero or a failure marker appears |
| Hooks.InferExitCodeWithoutCounts | test_hooks.py:116-119 | without a pair, the code is 1 exactly when a whole-word failure marker appears |
| Hooks.InferFromMinitestCounts | test_hooks.py:113-115 | "3 failures, 1 error" gives exit code 1 |
| Hooks.GluedMarkerIsNoFailure | test_hooks.py:117 | "Failures: 2" holds no failure marker, because `\bFail(?:ure\|ed)\b` needs a word end |
| Hooks.ExitCodeOf | test_hooks.py:35-44 | an object response gives its exit code (0 when missing), and a text response gives the inferred code |
| Hooks.MonitoredResultSpec | test_hooks.py:46-60 | the recorded result is PASS exactly when the exit code is 0 and no failures were parsed, FAIL otherwise; stderr is empty and the counts are non-negative |
| Hooks.ConsecutiveSame | test_hooks.py:67-77 | the count is the length of the longest run of identical failures at the newest end of the recent runs |
| Hooks.ConsecutiveSameUnique | test_hooks.py:67-77 | that longest-run length is the only count with those properties |
| Hooks.Recent | test_hooks.py:67 | the recent runs are the newest five at most, a suffix of the history |
| Hooks.PreviousRuns | test_hooks.py:67 | `results[-6:-1]` after the append is the newest five runs before the new one |
| Hooks.ConsecutiveSameBound | test_hooks.py:67-77 | the count is between 0 and 5 |
| Hooks.StuckMeansFourInARow | test_hooks.py:67-89 | the count is at least 3 exactly when the three runs before the current one failed with the same counts |
| Hooks.FourInARowMeansStuck | test_hooks.py:67-89 | three runs before the current one failing with its counts make the count at least 3 |
| Hooks.ContextMessageShape | test_hooks.py:79-96 | the message starts with the fixed failure text and is longer exactly when the stuck warning applies |
| Hooks.ExpectedOutputSpec | test_hooks.py:31-105 | context is returned exactly for a failed test run; it starts with the failure text, and carries the warning exactly when the run is the fourth identical failure in a row |
| Hooks.ClassifyRun | test_hooks.py:46-60 | the built result equals the classification above |
| Hooks.CountConsecutiveSame | test_hooks.py:67-77 | the backwards loop that stops at the first different run computes that longest-run count |
| Hooks.MonitorMessage | test_hooks.py:64-96 | the message is the context message for the previous runs' count |
| Hooks.Hook | test_hooks.py:26-105 | a non-test command changes nothing; a test command appends exactly its result; the reply is the expected output |
| Hooks.HookCall | test_hooks.py:26-105 | one call adds that call's records to the tracker |
| Hooks.HookCalls | run_pipeline.py:209-211 | the hook after each Bash call of a stage adds the monitored result of every test command, in call order |
| Hooks.HookRecordsAppend | run_pipeline.py:209-211 | the records of calls made one after another are the first calls' records followed by the later ones' |
| Verifier.RunFor | test_verifier.py:25-34 | a missing test command always ends in the exception branch |
| Verifier.GateOutcome | test_verifier.py:40-63 | PASS exactly for a completed run whose return code is 0 or missing |
| Verifier.GateOutcomeIsOutcome | test_verifier.py:15-75 | the gate result's outcome is that outcome |
| Verifier.TimeoutResult | test_verifier.py:42-52 | a timeout gives ERROR, exit code -1, the timeout text and zero counts, and is not recorded |
| Verifier.ExceptionResult | test_verifier.py:53-61 | an exception gives ERROR, exit code -1 and its text as stderr, and is not recorded |
| Verifier.CompletedResult | test_verifier.py:63-75 | a completion is PASS exactly for return code 0 or none, with no override from parsed failures; its output is kept and it is recorded |
| Verifier.CountsIgnoreStderr | test_verifier.py:72 | the counts come from stdout only |
| Verifier.VerifyTests | test_verifier.py:15-75 | the result is the gate result for the tracker's command; exactly a completed run is appended to the tracker |
| Verifier.FirstRuleIsFirst | test_verifier.py:78-145 | the command of the first rule that fires, and None exactly when none fires |
| Verifier.FirstRuleAppend | test_verifier.py:78-145 | the first rule of two tables in sequence comes from the first table if any fires there, otherwise from the second |
| Verifier.FirstRuleIs | test_verifier.py:78-145 | the first rule that fires decides the command |
| Verifier.RubyRulesFirst | test_verifier.py:87-93 | the Ruby table agrees with that stretch of the if-chain |
| Verifier.PythonRulesFirst | test_verifier.py:95-101 | the Python table agrees with that stretch of the if-chain |
| Verifier.PhpRulesFirst | test_verifier.py:103-109 | the PHP table agrees with that stretch of the if-chain |
| Verifier.JavaScriptRulesFirst | test_verifier.py:111-117 | the JavaScript table agrees with that stretch of the if-chain |
| Verifier.GoRustJavaRulesFire | test_verifier.py:119-131 | each Go, Rust and Java rule fires exactly on its marker files |
| Verifier.GoRustJavaRulesFirst | test_verifier.py:119-131 | the Go, Rust and Java table agrees with that stretch of the if-chain |
| Verifier.OtherRulesFirst | test_verifier.py:133-145 | the .NET, Elixir and Swift table agrees with the end of the if-chain |
| Verifier.DetectIsFirstRule | test_verifier.py:78-145 | detection returns the first rule that fires and None exactly when no rule fires |
| Verifier.DetectExamples | test_verifier.py:87-145 | Rails beats RSpec, pytest config beats Django, jest beats vitest beats npm, and "App.sln" does not match the literal name "*.sln" |
| Guardrails.ProtectTestFiles | run_pipeline.py:147-163 | a write is denied exactly in GREEN or REVIEW_GREEN for a non-empty test-file path, with a reason naming the file and the stage |
| Guardrails.TestDirectoryIsTestFile | run_pipeline.py:28 | "tests/test_api.py" is a test file |
| Guardrails.GoSuffixIsTestFile | run_pipeline.py:30 | "pkg/user_test.go" is a test file |
| Guardrails.PytestNameIsTestFile | run_pipeline.py:34 | "src/test_api.py" is a test file |
| Guardrails.SourceFileIsNotTestFile | run_pipeline.py:27-39 | "lib/app.rb" is not a test file |
| Guardrails.TestsWritableDuringRed | run_pipeline.py:148-149 | during RED a test file may be written, and during GREEN the same write is denied |
| Guardrails.BashGuardrail | run_pipeline.py:165-179 | a command is denied exactly when some blocked pattern matches, quoting at most its first 120 characters |
| Guardrails.BashGuardrailIgnoresCase | run_pipeline.py:168 | commands that differ only in ASCII case get the same decision |
| Guardrails.RmRootDenied | run_pipeline.py:14 | "rm -rf /" is denied |
| Guardrails.UpperCaseSudoDenied | run_pipeline.py:21 | "SUDO ls" is denied, because matching ignores case |
| Guardrails.RmPathAllowed | run_pipeline.py:14 | "rm -rf /tmp/x" is allowed: the negative lookahead needs the slash to be the whole path |
| Orchestrator.StoppedMessage | run_pipeline.py:56 | the stop message is the fixed prefix followed by a stage name from which the stage in progress is read back |
| Orchestrator.StoppedMessageInjective | run_pipeline.py:56 | stops during different stages give different messages |
| Orchestrator.OverriddenStartsNoSuffix | run_pipeline.py:330 | the replacement verdict does not begin with a proper suffix of the approval verdict |
| Orchestrator.ReplacedStartsWithSuffix | run_pipeline.py:330 | after the rewrite, a text starts with a proper suffix of the approval verdict only where the original did |
| Orchestrator.NoApprovedInOverridden | run_pipeline.py:330 | the replacement text never contains the approval verdict, even across its end |
| Orchestrator.ReplacedHasNoApproval | run_pipeline.py:330 | after the rewrite no approval verdict is left anywhere |
| Orchestrator.ApprovalRequiresPass | run_pipeline.py:322-334 | a review approves exactly when the reviewer approved and the gate before it passed |
| Orchestrator.ExtendsTransitive | run_pipeline.py:114-411 | log extension is transitive: the run's log only grows |
| Orchestrator.PipelineRun.constructor | run_pipeline.py:123-142 | a run starts in INIT with nothing completed, an empty tracker and the detected test command |
| Orchestrator.PipelineRun.CheckStop | run_pipeline.py:127-130 | a stop check fires exactly when it is the check that first sees the stop flag |
| Orchestrator.PipelineRun.RunStage | run_pipeline.py:145-211 | a stage returns the environment's next agent reply, and the tracker gains exactly the monitored results of that stage's test commands |
| Orchestrator.PipelineRun.Gate | run_pipeline.py:87-111 | a gate gives the next test run's result and records it exactly when the run completed |
| Orchestrator.PipelineRun.FixAttempt | run_pipeline.py:266-286 | one fix attempt is a stop check, then a fix stage and a gate unless stopped; the tracker gains the stage's monitored runs and then the gate's result when it was recorded, or nothing when stopped |
| Orchestrator.PipelineRun.GreenFixes | run_pipeline.py:261-291 | no fixes after a passing gate; at most the maximum attempts, stopping at the first passing gate; the warning is logged exactly when all attempts failed; the tracker's history only grows |
| Orchestrator.PipelineRun.Judge | run_pipeline.py:322-335 | an approval survives exactly when the gate before it passed; the override, the approval or the issues are logged accordingly |
| Orchestrator.PipelineRun.ReviewVerdict | run_pipeline.py:294-336 | a round approves exactly when the reviewer approved and its gate passed; an overridden approval is logged, and issues are logged otherwise; the tracker's history only grows |
| Orchestrator.PipelineRun.FixFindings | run_pipeline.py:337-367 | after findings: REVIEW_RED, REVIEW_GREEN and a gate, with "still failing" logged exactly when that gate failed; the tracker's history only grows |
| Orchestrator.PipelineRun.ReviewLoop | run_pipeline.py:293-372 | at most the maximum rounds; an approval implies that the latest gate passed; without approval or stop, every round ran and "not approved" is logged; the tracker's history only grows |
| Orchestrator.PipelineRun.FirstStages | run_pipeline.py:215-263 | PLAN, RED and GREEN complete in order before the first gate, after three stop checks; a stop leaves a consistent prefix, and a stop during GREEN comes before GREEN completes; the session id is the PLAN reply's; the tracker's history only grows |
| Orchestrator.PipelineRun.ReportStage | run_pipeline.py:376-411 | a stop at the final check changes neither the tests run nor the tracker; otherwise one final gate runs and is recorded exactly when the suite completed, then REPORT, whose read-only client adds nothing to the tracker, completes with its reply as the report |
| Orchestrator.PipelineRun.Run | run_pipeline.py:114-411 | a run finishes exactly when no stop check sees the flag, with all five stages completed in order and the last reply as report; otherwise it stops with a consistent prefix of stages and the message naming the stage in progress; a stop during GREEN has GREEN completed exactly when it came in a fix attempt; the tracker's history only grows |
| Events.UpToDoneIsPrefix | events.py:19-23 | a subscription hands out a prefix of its queue, with no "done" before the last event handed out |
| Events.UpToDoneSkips | events.py:19-23 | events before the first "done" are all handed out |
| Events.UpToDoneEndsAtFirstDone | events.py:19-23 | the subscription ends on a "done" event exactly when one was queued; without one it hands out everything |
| Events.RemoveFirst | events.py:25 | `list.remove` takes out one element when present and changes nothing otherwise |
| Events.RemoveFirstRestores | events.py:16-25 | removing a queue gives back the other subscribers in their order |
| Events.RemoveFirstKeepsDistinct | events.py:25 | removal keeps queues distinct and removes the queue completely |
| Events.Queue.Put | events.py:13 | the event goes to the end of the queue |
| Events.Queue.Drain | events.py:19-23 | it takes the events up to the first "done"; it finishes exactly when a "done" was queued; the rest stays queued |
| Events.EventBus.constructor | events.py:8-9 | a bus starts with no subscribers |
| Events.EventBus.Emit | events.py:11-13 | every subscribed queue gets the event at its end |
| Events.EventBus.Subscribe | events.py:16-17 | a fresh empty queue is registered last |
| Events.EventBus.Unsubscribe | events.py:24-25 | the queue leaves the bus, and the subscribers stay distinct |
| Events.EventBus.Listen | events.py:15-25 | the handed-out events are those up to the first "done"; the queue is unsubscribed exactly when a "done" arrived |
| Summarize.EventFile | summarize.py:62-75 | only "tool" events contribute a file |
| Summarize.FilesOfSpec | summarize.py:61-75 | a file is collected exactly when some event of the history contributes it |
| Summarize.OtherEventsAddNothing | summarize.py:63 | an event that is not a tool event adds no file |
| Summarize.EmittedToolEvent | pipeline.py:44 | a tool event as the agent stage emits it names its tool and carries no input |
| Summarize.InputlessHistoryHasNoFiles | summarize.py:61-75 | a history whose tool events carry no input, as every emitted tool event does, lists no modified file |
| Summarize.CollectFiles | summarize.py:61-75 | the loop collects exactly the files of the history |
| Summarize.Insert | summarize.py:78 | inserting into a sorted list keeps it strictly sorted and adds exactly one element |
| Summarize.SortedFiles | summarize.py:123 | `sorted(set)`: strictly sorted, every element exactly once |
| Summarize.SortedIsUnique | summarize.py:123 | two strictly sorted lists of the same paths are equal, so the listing does not depend on history order |
| Summarize.FileLines | summarize.py:78 | one "  - path" line per file, in order |
| Summarize.FilesListing | summarize.py:78 | the placeholder appears exactly when no file was found; otherwise the listing starts with the first file's line |
| Summarize.CompletedField | summarize.py:89 | "(none)" for no stages, and otherwise the names joined by ", " |
| Summarize.EmptyNameCountsAsNone | summarize.py:89 | a single empty stage name also gives "(none)", because the empty join is false |
| Summarize.StatusOf | summarize.py:52-58 | passing exactly when the outcome is PASS; the counts and command are the result's |
| Summarize.StatusLine | summarize.py:79-84 | the line starts with "Passing: True" exactly when the status is passing |
| Summarize.SummarizePipeline | summarize.py:30-126 | the status comes from a fresh gate, whose result is appended to the tracker exactly when it is recorded; the files are the history's, sorted; the tickets are cut to 1000 and 500 characters; every other field is passed through |
| Sse.FloorDiv | static/js/sse.js:8-9 | `Math.floor` of the quotient, for a positive divisor |
| Sse.JsRem | static/js/sse.js:10 | JavaScript's `%`: the remainder of truncated division, with the dividend's sign |
| Sse.PadStart2 | static/js/sse.js:11 | `padStart(2, '0')`: zeros on the left up to two characters, the text kept |
| Sse.FormatElapsed | static/js/sse.js:7-12 | the text ends in "s" and shows minutes exactly from one minute on |
| Sse.ParseElapsed | static/js/sse.js:11 | the reading of such a text ends in "s" |
| Sse.FormatElapsedRoundTrip | static/js/sse.js:7-12 | for a non-negative duration the text reads back as its whole seconds |
| Sse.ElapsedFields | static/js/sse.js:8-10 | the seconds field is below 60, and minutes and seconds make up the total |
| Sse.FormatElapsedExamples | static/js/sse.js:7-12 | 59999 ms shows "59s" and 65000 ms shows "1m 05s" |
| Sse.FormatElapsedNegative | static/js/sse.js:7-12 | a negative duration shows the truncated remainder of its whole seconds by 60: -61000 ms shows "-1s", -60000 ms shows "0s" and -500 ms shows "-1s" |
| Stages.ClassifyStage | static/js/stages.js:4-14 | a step is chosen only when its text occurs in the upper-cased name |
| Stages.FirstRule | static/js/stages.js:4-14 | the first rule whose text occurs, and None exactly when none does |
| Stages.ClassifyIsFirstRule | static/js/stages.js:4-14 | the if-chain is the rule table read in order |
| Stages.SecurityReviewIsSecurity | static/js/stages.js:7 | "SECURITY REVIEW" is marked on the security step |
| Stages.ReviewRedIsReview | static/js/stages.js:8 | "REVIEW_RED" is marked on the review step, not the red one |
| Stages.Step.constructor | static/js/stages.js:19 | a stepper entry with its key and class |
| Stages.FirstMatchIsFirst | static/js/stages.js:20-28 | the position found is the first step carrying the key, or the end when none does |
| Stages.UpdateStepper | static/js/stages.js:16-29 | an unclassified stage changes nothing; otherwise matching steps take the new mark, steps before the first match become done, later ones keep theirs; with no match every step is done |
| Stages.Lookup | static/js/stages.js:44-59 | a field is found exactly when the input has that key |
| Stages.FieldOr | static/js/stages.js:44-54 | `input.f \|\| '?'`: "?" or the truthy field's text |
| Stages.ChosenKey | static/js/stages.js:58 | the first hint key, or the first key when none is a hint |
| Stages.FirstHint | static/js/stages.js:58 | the first hint key at or after a position, and None exactly when there is none |
| Stages.FormatToolDescription | static/js/stages.js:39-64 | the name alone without input; each known tool shows its field or "?"; another tool shows the chosen key's value, or the name when there are no keys |
| Stages.ValueAt | static/js/stages.js:59 | `input[key]` for the key at a position is the value at that position when the keys are distinct |
| Stages.LookupUniqueKey | static/js/stages.js:59 | in an object with distinct keys, looking up the key at a position finds the value at that position |
| DirBrowser.GreedyEmbeds | static/js/dirBrowser.js:24-40 | every placement the loop finds puts each query character, in order, at a matching text position |
| DirBrowser.GreedyIsLeftmost | static/js/dirBrowser.js:29-36 | whenever any placement exists, the greedy one exists and lies position by position at or before it |
| DirBrowser.GreedyFindsSubsequence | static/js/dirBrowser.js:38-40 | the loop finds a match exactly when the query is a subsequence of the text |
| DirBrowser.Points | static/js/dirBrowser.js:32 | the raw score is between one and two points per matched character |
| DirBrowser.FuzzyMatch | static/js/dirBrowser.js:18-43 | an empty query scores 1 with no indices; otherwise no match exactly when the greedy placement fails, and the indices, points and denominator otherwise |
| DirBrowser.Highlight | static/js/dirBrowser.js:67-74 | the highlight string is the marked-up name |
| DirBrowser.StripPlain | static/js/dirBrowser.js:70-71 | text without markup passes through tag removal unchanged |
| DirBrowser.StripMarkedChar | static/js/dirBrowser.js:71 | a wrapped character strips back to itself |
| DirBrowser.HighlightStripsToName | static/js/dirBrowser.js:67-75 | removing the markup from a highlighted name gives the name back |
| DirBrowser.LeadingSpace | static/js/dirBrowser.js:46 | the white space a text starts with |
| DirBrowser.TrailingSpace | static/js/dirBrowser.js:46 | the white space a text ends with |
| DirBrowser.Trim | static/js/dirBrowser.js:46 | `trim`: a slice of the input with only white space taken off either end, and neither end of the result is white space |
| DirBrowser.DirItem.constructor | static/js/dirBrowser.js:105-109 | an entry starts shown with its plain name |
| DirBrowser.MatchOf | static/js/dirBrowser.js:62-69 | a match's indices are increasing positions inside the name |
| DirBrowser.FilterItem | static/js/dirBrowser.js:62-79 | for a non-empty query, an entry is hidden exactly when the query does not fit its name; a fitting name is shown with its match highlighted, a non-fitting one keeps its shown text |
| DirBrowser.FilterDirectories | static/js/dirBrowser.js:45-81 | an empty query shows every entry plain; otherwise an entry is hidden exactly when the query is not a case-folded subsequence of its name; a match is shown highlighted, and a non-match keeps its shown text |

## Left out

- Everything outside the nine core files is not part of this model. That
  includes `web.py`, `main.py`, `pipeline.py` (only `run_stage` is used, as
  an oracle), the optimizer, the agents package and the rest of the page's
  scripts.
- The agent SDK, the test subprocess, the file system, environment
  variables, clocks and timestamps are inputs or parameters, as is
  `os.path.relpath`. The per-stage prompt templates, `print` output and the
  payloads of logged events are not modelled. Only the log lines the
  control flow depends on are modelled, as `Note`s.
- Concurrency is not modelled: the tracker's lock, the asynchronous bus
  and the lazy start of the `subscribe` generator. Delivery is sequential,
  and `Listen` takes what is queued at that moment.
- The pre-compact hook of `run_pipeline` is left out. It only builds an
  instruction text for the agent's context compaction.
- The Bash calls of an agent stage are given by the environment as the
  calls the command guardrail let through. The model does not derive that
  series from `Guardrails`, and it does not model other tools' calls or
  the hook's context reaching the agent.
- `MAX_REVIEW_ITERATIONS` and `MAX_GREEN_FIX_ATTEMPTS` come from the
  environment. They are fields of the environment, not the constant 3.
- Regular expressions: `\s` is Python's full whitespace class (the
  characters for which `str.isspace()` holds, Unicode ones included), and
  JavaScript's `trim` uses its own whitespace set. `\w`, `\d`,
  IGNORECASE, `toUpperCase` and `toLowerCase` are written for ASCII only,
  so Unicode digits, word characters and case folding are not captured.
  The same goes for characters whose case mapping changes the string's
  length, which would misalign JavaScript indices.
- `innerHTML` is not interpreted. `HighlightStripsToName` holds for names
  without '<', and names containing markup are not analysed.
- Hooks.ExitCodeOf: a non-integer `exitCode` in an object response, for
  which `int()` raises, is not modelled. Non-string outputs are taken to be
  their `str` text.
- `Object.keys` orders integer-like keys first. The model takes the input's
  key order as given.
- DirBrowser.FuzzyMatch: the score is returned as a numerator and
  denominator, not as a floating-point quotient.
- DirBrowser.FuzzyMatch, FilterItem, FilterDirectories and Highlight:
  names and queries are indexed by Unicode code point. JavaScript strings
  are UTF-16 code units, so a name or query holding a character above
  U+FFFF gets other indices, scores, highlights and visibility than the
  model gives. For example, the name "😁😀" with the query "😀" matches at
  code units 0 and 3 in JavaScript, but at code point 1 in the model.
- Summarize.SummarizePipeline: it requires every event to be `WellShaped`,
  which excludes exactly the events on which the source raises. These are
  a tool event whose data is not a dictionary, and a Write or Edit event
  whose `"file_path" in inp` test cannot be evaluated or succeeds on a
  string or a list. The exception is not modelled. The JSON file written to
  the target directory is not modelled either.
- Sse.FormatElapsedRoundTrip: stated for non-negative durations only. A
  negative duration, when the server's clock is ahead, gives a
  seconds-only text. It holds the remainder of the whole seconds by 60,
  truncated toward zero, so -61 s shows "-1s" and -60 s shows "0s" (the
  remainder is -0, printed "0"). `FormatElapsedNegative` states these.
- Orchestrator.PipelineRun.ReviewLoop: it states that an approval follows a
  passing gate and that the log only grows. It does not restate the
  per-round log entries, which `ReviewVerdict` and `FixFindings` state.
- The .NET detection tests "*.sln" and "*.csproj" are taken literally, as
  `os.path.exists` does, so an actual "App.sln" does not select
  `dotnet test`. No globbing is modelled.

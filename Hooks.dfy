/** test_hooks.py: the monitor that runs after every shell command the agent
    issues. For a test command it works out the exit code, classifies the
    run, records it in the tracker and, when the run failed, returns
    corrective context for the agent, with a warning when the same failure
    has repeated. */
module Hooks {
  import opened Text
  import opened Scan
  import opened Tracker

  // ---------------------------------------------------------------------
  // _infer_exit_code

  /** `(\d+)\s+failures?,\s*(\d+)\s+errors?` tried at start i: the failure
      and error counts. The optional `s` is followed by a comma and `\s*` by
      a digit, so, as with `NumberThen`, the greedy reading is the only one. */
  function FailuresErrorsAt(s: string, i: nat): Option<(nat, nat)>
    requires i <= |s|
  {
    var f := NumberThen(s, i, "failure");
    if f.None? then None
    else
      var g := ErrorsAfterFailures(s, f.value.end);
      if g.None? then None else Some((f.value.value, g.value))
  }

  /** `s?,\s*(\d+)\s+errors?` from position e, just after "failure". */
  function ErrorsAfterFailures(s: string, e: nat): Option<nat>
    requires e <= |s|
  {
    var comma := if e < |s| && s[e] == 's' then e + 1 else e;
    if !OccursAt(s, ",", comma) then None
    else
      var g := NumberThen(s, RunEnd(s, comma + 1, IsSpace), "error");
      if g.None? then None else Some(g.value.value)
  }

  /** Every way the pattern can match at i gives the counts
      `FailuresErrorsAt` reads: digits i..d1, spaces d1..w1, "failure", an
      optional "s" ending at c, a comma, spaces c+1..x, digits x..d2,
      spaces d2..w2, "error". */
  lemma FailuresErrorsAtMatch(s: string, i: nat, d1: nat, w1: nat, c: nat, x: nat, d2: nat, w2: nat)
    requires i < d1 < w1 <= |s| && OccursAt(s, "failure", w1)
    requires AllDigits(s[i..d1]) && AllSpace(s[d1..w1])
    requires c < x < d2 < w2 <= |s| && s[c] == ','
    requires c == w1 + 7 || (c == w1 + 8 && s[w1 + 7] == 's')
    requires AllSpace(s[c + 1..x]) && AllDigits(s[x..d2]) && AllSpace(s[d2..w2]) && OccursAt(s, "error", w2)
    ensures FailuresErrorsAt(s, i) == Some((DigitsValue(s[i..d1]), DigitsValue(s[x..d2])))
  {
    NumberThenIsGreedy(s, i, "failure", d1, w1);
    ErrorsAfterFailuresMatch(s, w1 + 7, c, x, d2, w2);
  }

  /** The part after "failure" has one reading too. */
  lemma ErrorsAfterFailuresMatch(s: string, e: nat, c: nat, x: nat, d2: nat, w2: nat)
    requires e <= c < x < d2 < w2 <= |s| && s[c] == ','
    requires c == e || (c == e + 1 && s[e] == 's')
    requires AllSpace(s[c + 1..x]) && AllDigits(s[x..d2]) && AllSpace(s[d2..w2]) && OccursAt(s, "error", w2)
    ensures ErrorsAfterFailures(s, e) == Some(DigitsValue(s[x..d2]))
  {
    assert s[c..c + 1] == [s[c]];
    assert OccursAt(s, ",", c);
    assert s[x..d2][0] == s[x];
    SpaceRunEnds(s, c + 1, x);
    NumberThenIsGreedy(s, x, "error", d2, w2);
  }

  /** Spaces up to a digit: the space run ends at the digit. */
  lemma SpaceRunEnds(s: string, a: nat, x: nat)
    requires a <= x < |s| && AllSpace(s[a..x]) && IsDigit(s[x])
    ensures RunEnd(s, a, IsSpace) == x
  {
    assert forall k :: a <= k < x ==> IsSpace(s[k]) by {
      forall k | a <= k < x ensures IsSpace(s[k]) { assert s[a..x][k - a] == s[k]; }
    }
    RunEndIs(s, a, x, IsSpace);
  }

  /** `re.search` of that pattern: the counts of the match at the leftmost
      start at which it matches. */
  function LeftmostFailuresErrors(s: string, from: nat): Option<(nat, nat)>
    requires from <= |s|
    decreases |s| - from
  {
    var here := FailuresErrorsAt(s, from);
    if here.Some? then here
    else if from == |s| then None
    else LeftmostFailuresErrors(s, from + 1)
  }

  /** Starts without a failure/error pair are passed over. */
  lemma {:induction false} LeftmostFailuresErrorsSkip(s: string, from: nat, k: nat)
    requires from <= k <= |s|
    requires forall i :: from <= i < k ==> FailuresErrorsAt(s, i).None?
    ensures LeftmostFailuresErrors(s, from) == LeftmostFailuresErrors(s, k)
    decreases k - from
  {
    if from < k {
      LeftmostFailuresErrorsSkip(s, from + 1, k);
    }
  }


  const FailureMarkers: seq<string> := ["FAILED", "Failure", "Failed"]

  /** `\bFAILED\b|\bFail(?:ure|ed)\b` matches at i (case-sensitive). */
  predicate MarkerAt(s: string, i: nat)
    requires i <= |s|
  {
    exists k :: 0 <= k < |FailureMarkers| && OccursAt(s, FailureMarkers[k], i)
                && WordBoundary(s, i) && WordBoundary(s, i + |FailureMarkers[k]|)
  }

  predicate HasFailureMarker(s: string) {
    exists i :: 0 <= i <= |s| && MarkerAt(s, i)
  }

  predicate NonZero(counts: (nat, nat)) {
    counts.0 > 0 || counts.1 > 0
  }

  /** The exit code guessed from a plain-text tool response: 1 when the
      first "N failures, M errors" pair has a non-zero count, else 1 when a
      whole-word failure marker appears, else 0. */
  function InferExitCode(output: string): (c: int)
    ensures c == 0 || c == 1
  {
    var counts := LeftmostFailuresErrors(output, 0);
    if counts.Some? && NonZero(counts.value) then 1
    else if HasFailureMarker(output) then 1
    else 0
  }

  /** When the output holds a failure/error pair, only the leftmost one is
      looked at: the code is 1 exactly when that pair is non-zero or a
      failure marker appears. A later non-zero pair after a zero one does
      not count. */
  lemma InferExitCodeWithCounts(output: string, j: nat)
    requires j <= |output| && FailuresErrorsAt(output, j).Some?
    requires forall k :: 0 <= k < j ==> FailuresErrorsAt(output, k).None?
    ensures InferExitCode(output) == 1 <==>
              NonZero(FailuresErrorsAt(output, j).value) || HasFailureMarker(output)
  {
    LeftmostFailuresErrorsSkip(output, 0, j);
  }

  /** Without any failure/error pair the code is 1 exactly when a failure
      marker appears. */
  lemma InferExitCodeWithoutCounts(output: string)
    requires forall k :: 0 <= k <= |output| ==> FailuresErrorsAt(output, k).None?
    ensures InferExitCode(output) == 1 <==> HasFailureMarker(output)
  {
    LeftmostFailuresErrorsSkip(output, 0, |output|);
  }

  const MinitestFailures := "3" + " " + "failures," + " " + "1" + " " + "errors"

  lemma MinitestFailuresErrorPart()
    ensures ErrorsAfterFailures(MinitestFailures, 9) == Some(1)
  {
    var s := MinitestFailures;
    assert s[9] == 's' && s[10..11] == ",";
    assert s[11] == ' ' && s[12] == '1';
    RunEndIs(s, 11, 12, IsSpace);
    assert s[14..19] == "error";
    OneDigitThen(s, 12, "error");
  }

  lemma MinitestFailuresCounts()
    ensures FailuresErrorsAt(MinitestFailures, 0) == Some((3, 1))
  {
    var s := MinitestFailures;
    assert s[2..9] == "failure";
    OneDigitThen(s, 0, "failure");
    MinitestFailuresErrorPart();
  }

  /** A minitest line with a failure gives exit code 1. */
  lemma InferFromMinitestCounts()
    ensures InferExitCode(MinitestFailures) == 1
  {
    MinitestFailuresCounts();
    InferExitCodeWithCounts(MinitestFailures, 0);
  }

  /** "Failures" is not the word "Failure": a capitalised plural passes
      the marker test, so "Failures: 2" alone infers exit code 0. */
  lemma GluedMarkerIsNoFailure()
    ensures !HasFailureMarker("Failures: 2")
  {
    forall i | 0 <= i <= 11 ensures !MarkerAt("Failures: 2", i) {
      forall k | 0 <= k < |FailureMarkers|
        ensures !OccursAt("Failures: 2", FailureMarkers[k], i)
                || !WordBoundary("Failures: 2", i + |FailureMarkers[k]|)
      {
        GluedNoMarkerAt(i, k);
      }
    }
  }

  lemma GluedNoMarkerAt(i: nat, k: nat)
    requires i <= 11 && k < |FailureMarkers|
    ensures !OccursAt("Failures: 2", FailureMarkers[k], i)
            || !WordBoundary("Failures: 2", i + |FailureMarkers[k]|)
  {
    var s, m := "Failures: 2", FailureMarkers[k];
    assert m[0] == 'F';
    if OccursAt(s, m, i) {
      assert s[i] == s[i..i + |m|][0] == 'F';
      assert i == 0;
      if k == 1 {
        assert IsWordChar(s[6]) && IsWordChar(s[7]);
      }
    }
  }


  // ---------------------------------------------------------------------
  // The monitored result

  /** The shell tool's response: an object with optional `output` and
      `exitCode` fields, or plain text (a missing response is empty text). */
  datatype ToolResponse =
    | ObjectResponse(output: Option<string>, exitCode: Option<int>)
    | TextResponse(text: string)

  function OutputOf(response: ToolResponse): string {
    match response
    case ObjectResponse(output, _) => output.GetOr("")
    case TextResponse(text) => text
  }

  /** The exit code: the given one (default 0) for an object response,
      inferred from the text otherwise. */
  function ExitCodeOf(response: ToolResponse): (c: int)
    ensures response.ObjectResponse? ==> c == response.exitCode.GetOr(0)
    ensures response.TextResponse? ==> c == InferExitCode(response.text)
  {
    match response
    case ObjectResponse(_, exitCode) => exitCode.GetOr(0)
    case TextResponse(text) => InferExitCode(text)
  }

  /** The result the hook records for a test command: outcome from the exit
      code, counts parsed from the output, then PASS demoted to FAIL when the
      parsed failure count is positive. */
  function MonitoredResult(command: string, response: ToolResponse): TestResult {
    var exitCode := ExitCodeOf(response);
    var output := OutputOf(response);
    var outcome := if exitCode == 0 then Pass else Fail;
    var r := ParseTestCounts(NewResult(Some(command), exitCode, output, "", outcome), output);
    if outcome == Pass && r.failures > 0 then r.(outcome := Fail) else r
  }

  /** What the recorded result says: it is PASS exactly when the exit code
      is 0 and no failures were parsed, FAIL otherwise; stderr is empty,
      stdout is the response output, and the counts are the parser's. */
  lemma MonitoredResultSpec(command: string, response: ToolResponse)
    ensures var r := MonitoredResult(command, response);
            && (r.outcome == Pass <==> ExitCodeOf(response) == 0 && r.failures == 0)
            && (r.outcome == Pass || r.outcome == Fail)
            && r.command == Some(command) && r.exitCode == ExitCodeOf(response)
            && r.stdout == OutputOf(response) && r.stderr == ""
            && r.failures >= 0 && r.errors >= 0 && r.totalTests >= 0
  {
  }

  // ---------------------------------------------------------------------
  // Repeated failures

  /** A previous run counts as the same failure as r: it failed with the
      same failure and error counts. */
  predicate SameFailure(prev: TestResult, r: TestResult) {
    prev.outcome == Fail && prev.failures == r.failures && prev.errors == r.errors
  }

  /** How many of the newest entries of `recent`, counting backwards, are
      the same failure as r: the length of the longest such suffix. */
  function ConsecutiveSame(recent: seq<TestResult>, r: TestResult): (c: nat)
    ensures c <= |recent|
    ensures forall j :: |recent| - c <= j < |recent| ==> SameFailure(recent[j], r)
    ensures c < |recent| ==> !SameFailure(recent[|recent| - 1 - c], r)
    decreases |recent|
  {
    if recent == [] || !SameFailure(recent[|recent| - 1], r) then 0
    else 1 + ConsecutiveSame(recent[..|recent| - 1], r)
  }

  /** The longest-suffix length is the only count with those properties. */
  lemma {:induction false} ConsecutiveSameUnique(recent: seq<TestResult>, r: TestResult, c: nat)
    requires c <= |recent|
    requires forall j :: |recent| - c <= j < |recent| ==> SameFailure(recent[j], r)
    requires c < |recent| ==> !SameFailure(recent[|recent| - 1 - c], r)
    ensures c == ConsecutiveSame(recent, r)
    decreases |recent|
  {
    if c > 0 {
      var front := recent[..|recent| - 1];
      assert forall j :: |front| - (c - 1) <= j < |front| ==> front[j] == recent[j];
      ConsecutiveSameUnique(front, r, c - 1);
    }
  }

  /** The runs before the one just recorded that the loop looks at: the
      newest five at most (`results[-6:-1]` after the append). */
  function Recent(prior: seq<TestResult>): (recent: seq<TestResult>)
    ensures |recent| == if |prior| < 5 then |prior| else 5
    ensures prior == prior[..|prior| - |recent|] + recent
  {
    if |prior| <= 5 then prior else prior[|prior| - 5..]
  }

  /** Python's `results[-6:-1]`. Taken after the new result is appended,
      it is the newest five runs at most before that result. */
  function PreviousRuns(results: seq<TestResult>): (recent: seq<TestResult>)
    ensures results != [] ==> recent == Recent(results[..|results| - 1])
  {
    var n := |results|;
    results[if n >= 6 then n - 6 else 0..if n >= 1 then n - 1 else 0]
  }

  /** The count is between 0 and 5. */
  lemma ConsecutiveSameBound(prior: seq<TestResult>, r: TestResult)
    ensures 0 <= ConsecutiveSame(Recent(prior), r) <= 5
  {
  }

  /** The count is at least 3 exactly when the three runs before the
      current one failed with its counts: with the current one, four
      identical failing runs in a row. */
  lemma StuckMeansFourInARow(prior: seq<TestResult>, r: TestResult)
    ensures ConsecutiveSame(Recent(prior), r) >= 3 <==>
              |prior| >= 3 && forall j :: |prior| - 3 <= j < |prior| ==> SameFailure(prior[j], r)
  {
    var recent := Recent(prior);
    var n := |prior| - |recent|;
    if ConsecutiveSame(recent, r) >= 3 {
      forall j | |prior| - 3 <= j < |prior| ensures SameFailure(prior[j], r) {
        assert prior[j] == recent[j - n];
        assert |recent| - 3 <= j - n;
      }
    }
    if |prior| >= 3 && forall j :: |prior| - 3 <= j < |prior| ==> SameFailure(prior[j], r) {
      FourInARowMeansStuck(prior, r);
    }
  }

  /** Three runs before the current one that failed with its counts make
      the count at least 3. */
  lemma FourInARowMeansStuck(prior: seq<TestResult>, r: TestResult)
    requires |prior| >= 3
    requires forall j :: |prior| - 3 <= j < |prior| ==> SameFailure(prior[j], r)
    ensures ConsecutiveSame(Recent(prior), r) >= 3
  {
    var recent := Recent(prior);
    var c := ConsecutiveSame(recent, r);
    if c < 3 {
      assert false;
    }
  }

  // ---------------------------------------------------------------------
  // The message

  const MonitorPrefix := "[PIPELINE MONITOR] TESTS FAILED (exit code "
  const MonitorInstructions :=
    "These failures are REAL bugs, NOT intentional. "
    + "You MUST fix the implementation to make ALL tests pass. "
    + "Do NOT claim any failures are expected or intentional. "
    + "Do NOT proceed until all tests pass."

  function FailureMessage(exitCode: int, failures: int, errors: int): string {
    MonitorPrefix + IntToString(exitCode) + ", "
    + IntToString(failures) + " failures, " + IntToString(errors) + " errors). "
    + MonitorInstructions
  }

  /** The dash between "runs" and "you" is written in test_hooks.py as the
      three characters U+00E2 U+20AC U+201D (an em dash encoded twice); the
      model keeps them. */
  const StuckLead := " WARNING: Same failure count for the last "
  const StuckMiddle := " consecutive runs \U{E2}\U{20AC}\U{201D} you appear stuck in a loop. "
  const StuckAdvice :=
    "STOP repeating the same fix. Re-read the failing test file to "
    + "understand what is actually expected, then try a fundamentally different approach."

  /** The loop warning. */
  function StuckWarning(consecutive: nat): string {
    StuckLead + NatToString(consecutive) + StuckMiddle + StuckAdvice
  }

  function ContextMessage(exitCode: int, failures: int, errors: int, consecutive: nat): string {
    FailureMessage(exitCode, failures, errors)
    + (if consecutive >= 3 then StuckWarning(consecutive) else "")
  }

  /** The message starts with the failure text and goes on exactly when the
      loop warning applies. */
  lemma ContextMessageShape(exitCode: int, failures: int, errors: int, consecutive: nat)
    ensures StartsWith(ContextMessage(exitCode, failures, errors, consecutive),
                       FailureMessage(exitCode, failures, errors))
    ensures |ContextMessage(exitCode, failures, errors, consecutive)| > |FailureMessage(exitCode, failures, errors)|
            <==> consecutive >= 3
  {
    var w := if consecutive >= 3 then StuckWarning(consecutive) else "";
    ConcatStartsWith(FailureMessage(exitCode, failures, errors), w);
    if consecutive >= 3 {
      assert |StuckWarning(consecutive)| > 0;
    }
  }



  // ---------------------------------------------------------------------
  // The hook

  datatype HookOutput = NoOutput | AdditionalContext(context: string)

  /** The hook's reply, as a function of the command, the response and the
      history before the call. */
  function ExpectedOutput(command: string, response: ToolResponse, prior: seq<TestResult>): HookOutput {
    if !IsTestCommand(command) then NoOutput
    else
      var r := MonitoredResult(command, response);
      if r.outcome != Fail then NoOutput
      else AdditionalContext(ContextMessage(ExitCodeOf(response), r.failures, r.errors,
                                            ConsecutiveSame(Recent(prior), r)))
  }

  /** Context is returned exactly for a failed test run, and it carries the
      loop warning exactly when the three runs before it failed alike. */
  lemma ExpectedOutputSpec(command: string, response: ToolResponse, prior: seq<TestResult>)
    ensures var out := ExpectedOutput(command, response, prior);
            var r := MonitoredResult(command, response);
            && (out.AdditionalContext? <==>
                 IsTestCommand(command) && !(ExitCodeOf(response) == 0 && r.failures == 0))
            && (out.AdditionalContext? ==>
                 StartsWith(out.context, FailureMessage(ExitCodeOf(response), r.failures, r.errors)))
            && (out.AdditionalContext? ==>
                 (|out.context| > |FailureMessage(ExitCodeOf(response), r.failures, r.errors)| <==>
                  |prior| >= 3 && forall j :: |prior| - 3 <= j < |prior| ==> SameFailure(prior[j], r)))
  {
    var r := MonitoredResult(command, response);
    MonitoredResultSpec(command, response);
    var c := ConsecutiveSame(Recent(prior), r);
    ContextMessageShape(ExitCodeOf(response), r.failures, r.errors, c);
    StuckMeansFourInARow(prior, r);
  }

  /** The result for a test command, built as the hook builds it: a fresh
      result from the exit code, the parsed counts, then the override. */
  method ClassifyRun(command: string, response: ToolResponse) returns (result: TestResult)
    ensures result == MonitoredResult(command, response)
  {
    var output := OutputOf(response);
    var exitCode := ExitCodeOf(response);
    var outcome := if exitCode == 0 then Pass else Fail;
    result := NewResult(Some(command), exitCode, output, "", outcome);
    result := ParseTestCounts(result, output);
    if outcome == Pass && result.failures > 0 {
      result := result.(outcome := Fail);
    }
  }

  /** The backwards loop over the recent runs, newest first, stopping at the
      first run that is not the same failure. */
  method CountConsecutiveSame(recent: seq<TestResult>, r: TestResult) returns (consecutive: nat)
    ensures consecutive == ConsecutiveSame(recent, r)
  {
    consecutive := 0;
    var k := |recent|;
    while k > 0
      invariant 0 <= k <= |recent|
      invariant consecutive == |recent| - k
      invariant forall j :: k <= j < |recent| ==> SameFailure(recent[j], r)
      decreases k
    {
      if SameFailure(recent[k - 1], r) {
        consecutive := consecutive + 1;
        k := k - 1;
      } else {
        break;
      }
    }
    ConsecutiveSameUnique(recent, r, consecutive);
  }

  /** The message for a failed run, from the history that already holds it:
      the fixed text with the counts, and the loop warning when at least
      three of the previous runs, newest first, are the same failure. */
  method MonitorMessage(results: seq<TestResult>, result: TestResult, exitCode: int) returns (msg: string)
    ensures msg == ContextMessage(exitCode, result.failures, result.errors,
                                  ConsecutiveSame(PreviousRuns(results), result))
  {
    var recent := results[if |results| >= 6 then |results| - 6 else 0..if |results| >= 1 then |results| - 1 else 0];
    assert recent == PreviousRuns(results);
    var consecutive := CountConsecutiveSame(recent, result);
    msg := FailureMessage(exitCode, result.failures, result.errors);
    if consecutive >= 3 {
      msg := msg + StuckWarning(consecutive);
    }
  }

  /** The hook bound to a tracker. A non-test command changes nothing; a
      test command appends exactly one result, and the reply is the context
      message when that result failed. */
  method Hook(tracker: TestTracker, command: string, response: ToolResponse) returns (out: HookOutput)
    modifies tracker`results
    ensures !IsTestCommand(command) ==> tracker.results == old(tracker.results)
    ensures IsTestCommand(command) ==>
              tracker.results == old(tracker.results) + [MonitoredResult(command, response)]
    ensures out == ExpectedOutput(command, response, old(tracker.results))
  {
    if !IsTestCommand(command) {
      return NoOutput;
    }
    var result := ClassifyRun(command, response);
    tracker.Record(result);

    if result.outcome == Fail {
      assert tracker.results[..|tracker.results| - 1] == old(tracker.results);
      var msg := MonitorMessage(tracker.results, result, ExitCodeOf(response));
      return AdditionalContext(msg);
    }
    return NoOutput;
  }

  // ---------------------------------------------------------------------
  // The hook over an agent stage

  /** What the tracker gains from the hook over a series of Bash calls,
      each a command with its response: the monitored result of every
      test command, in call order. */
  function HookRecords(calls: seq<(string, ToolResponse)>): seq<TestResult>
    decreases |calls|
  {
    if calls == [] then []
    else
      var last := calls[|calls| - 1];
      HookRecords(calls[..|calls| - 1])
        + (if IsTestCommand(last.0) then [MonitoredResult(last.0, last.1)] else [])
  }

  /** The hook run after each call of a series, in order. */
  method HookCalls(tracker: TestTracker, calls: seq<(string, ToolResponse)>)
    modifies tracker`results
    ensures tracker.results == old(tracker.results) + HookRecords(calls)
  {
    var i := 0;
    while i < |calls|
      invariant 0 <= i <= |calls|
      invariant tracker.results == old(tracker.results) + HookRecords(calls[..i])
    {
      HookCall(tracker, calls[i]);
      assert calls[..i + 1][..i] == calls[..i];
      i := i + 1;
    }
    assert calls[..i] == calls;
  }

  /** One call: the hook records the monitored result of a test command
      and nothing else. */
  method HookCall(tracker: TestTracker, call: (string, ToolResponse))
    modifies tracker`results
    ensures tracker.results == old(tracker.results)
              + (if IsTestCommand(call.0) then [MonitoredResult(call.0, call.1)] else [])
  {
    var _ := Hook(tracker, call.0, call.1);
  }

  /** The records of two series of calls made one after the other are the
      records of the first followed by those of the second. */
  lemma {:induction false} HookRecordsAppend(a: seq<(string, ToolResponse)>, b: seq<(string, ToolResponse)>)
    ensures HookRecords(a + b) == HookRecords(a) + HookRecords(b)
    decreases |b|
  {
    if b == [] {
      assert a + b == a;
    } else {
      var n := |b| - 1;
      assert (a + b)[..|a + b| - 1] == a + b[..n];
      assert (a + b)[|a + b| - 1] == b[n];
      HookRecordsAppend(a, b[..n]);
    }
  }
}

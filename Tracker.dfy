/** test_tracker.py: the record of one test run, the classifier that tells a
    shell command is a test invocation, the parser that pulls counts out of a
    runner's output, and the append-only history of runs. */
module Tracker {
  import opened Text
  import opened Scan

  datatype Outcome = Pass | Fail | Error | Unknown

  /** `TestOutcome.value`. */
  function OutcomeValue(o: Outcome): string {
    match o
    case Pass => "pass"
    case Fail => "fail"
    case Error => "error"
    case Unknown => "unknown"
  }

  /** A test run. The command is absent when no test command could be
      detected for the project. The wall-clock timestamp is not modelled. */
  datatype TestResult = TestResult(
    command: Option<string>,
    exitCode: int,
    stdout: string,
    stderr: string,
    outcome: Outcome,
    totalTests: int,
    failures: int,
    errors: int)

  /** A fresh result: the three counts start at their default, 0. */
  function NewResult(command: Option<string>, exitCode: int, stdout: string, stderr: string, outcome: Outcome): TestResult {
    TestResult(command, exitCode, stdout, stderr, outcome, 0, 0, 0)
  }

  // ---------------------------------------------------------------------
  // is_test_command

  /** The runner patterns, each a `\b`-delimited phrase whose words are
      separated by `\s+`: `\bbin/rails\s+test\b`, `\bpytest\b`, ... */
  const TestCommandPatterns: seq<seq<string>> := [
    ["bin/rails", "test"], ["pytest"], ["npm", "test"], ["yarn", "test"],
    ["go", "test"], ["cargo", "test"], ["rspec"], ["phpunit"], ["jest"],
    ["mocha"], ["ruby", "-Itest"], ["ruby", "-Ilib"]]

  /** `\b` + phrase + `\b` matches at position i. */
  predicate PatternAt(s: string, i: nat, words: seq<string>)
    requires i <= |s|
  {
    WordBoundary(s, i) && PhraseEnd(s, i, words).Some? && WordBoundary(s, PhraseEnd(s, i, words).value)
  }

  /** `re.search` of one phrase pattern over the starts from..|s|. */
  predicate SearchFrom(s: string, words: seq<string>, from: nat)
    requires from <= |s|
    decreases |s| - from
  {
    PatternAt(s, from, words) || (from < |s| && SearchFrom(s, words, from + 1))
  }

  /** `any(re.search(p, command) for p in patterns)`. */
  predicate AnyPattern(s: string, patterns: seq<seq<string>>) {
    if patterns == [] then false
    else SearchFrom(s, patterns[0], 0) || AnyPattern(s, patterns[1..])
  }

  predicate IsTestCommand(command: string) {
    AnyPattern(command, TestCommandPatterns)
  }

  lemma {:induction false} SearchFromSpec(s: string, words: seq<string>, from: nat)
    requires from <= |s|
    ensures SearchFrom(s, words, from) <==> exists i :: from <= i <= |s| && PatternAt(s, i, words)
    decreases |s| - from
  {
    if from < |s| {
      SearchFromSpec(s, words, from + 1);
    }
  }

  lemma {:induction false} AnyPatternSpec(s: string, patterns: seq<seq<string>>)
    ensures AnyPattern(s, patterns) <==>
      exists k, i :: 0 <= k < |patterns| && 0 <= i <= |s| && PatternAt(s, i, patterns[k])
    decreases |patterns|
  {
    if patterns != [] {
      SearchFromSpec(s, patterns[0], 0);
      AnyPatternSpec(s, patterns[1..]);
      if AnyPattern(s, patterns[1..]) {
        var k, i :| 0 <= k < |patterns[1..]| && 0 <= i <= |s| && PatternAt(s, i, patterns[1..][k]);
        assert PatternAt(s, i, patterns[k + 1]);
      }
      if exists k, i :: 0 <= k < |patterns| && 0 <= i <= |s| && PatternAt(s, i, patterns[k]) {
        var k, i :| 0 <= k < |patterns| && 0 <= i <= |s| && PatternAt(s, i, patterns[k]);
        if k > 0 {
          assert PatternAt(s, i, patterns[1..][k - 1]);
        }
      }
    }
  }

  /** A command is a test command exactly when one of the runner patterns
      matches somewhere in it. */
  lemma IsTestCommandSpec(command: string)
    ensures IsTestCommand(command) <==>
      exists k, i :: 0 <= k < |TestCommandPatterns| && 0 <= i <= |command|
                     && PatternAt(command, i, TestCommandPatterns[k])
  {
    AnyPatternSpec(command, TestCommandPatterns);
  }

  lemma PytestIsTestCommand()
    ensures IsTestCommand("pytest -x")
  {
    var s := "pytest -x";
    assert OccursAt(s, "pytest", 0);
    assert PatternAt(s, 0, TestCommandPatterns[1]);
    IsTestCommandSpec(s);
  }

  lemma RailsTestIsTestCommand()
    ensures IsTestCommand("bin/rails  test")
  {
    var s := "bin/rails  test";
    assert OccursAt(s, "bin/rails", 0);
    assert s[9] == ' ' && s[10] == ' ' && s[11] == 't';
    RunEndIs(s, 9, 11, IsSpace);
    assert OccursAt(s, "test", 11);
    assert PatternAt(s, 0, TestCommandPatterns[0]);
    IsTestCommandSpec(s);
  }

  /** `\b` stops a runner name glued to a longer word: "pytests" is no test command. */
  lemma GluedNameIsNoMatch()
    ensures !PatternAt("pytests", 0, ["pytest"])
  {
  }

  // ---------------------------------------------------------------------
  // parse_test_counts

  datatype Counts = Counts(total: nat, failures: nat, errors: nat)

  /** `.*?(\d+)\s+failures?.*?(\d+)\s+errors?` from p: the first start of a
      failure count on the line after which an error count follows on the
      same line. */
  function FailuresThenErrors(s: string, p: nat): (r: Option<(nat, nat)>)
    requires p <= |s|
    decreases |s| - p
  {
    var here := FailureErrorPairAt(s, p);
    if here.Some? then here
    else if p == |s| || s[p] == '\n' then None
    else FailuresThenErrors(s, p + 1)
  }

  /** `(\d+)\s+failures?.*?(\d+)\s+errors?` tried at start p. */
  function FailureErrorPairAt(s: string, p: nat): (r: Option<(nat, nat)>)
    requires p <= |s|
  {
    var f := NumberThen(s, p, "failure");
    if f.None? then None
    else
      var e := LazyNumberThen(s, f.value.end, "error");
      if e.None? then None else Some((f.value.value, e.value.value))
  }

  /** `re.search(r"(\d+)\s+runs?.*?(\d+)\s+failures?.*?(\d+)\s+errors?", s)`
      over the starts from..|s|. */
  function MinitestFrom(s: string, from: nat): (c: Option<Counts>)
    requires from <= |s|
    decreases |s| - from
  {
    var r := NumberThen(s, from, "run");
    var fe := if r.Some? then FailuresThenErrors(s, r.value.end) else None;
    if r.Some? && fe.Some? then Some(Counts(r.value.value, fe.value.0, fe.value.1))
    else if from == |s| then None
    else MinitestFrom(s, from + 1)
  }

  /** `Tests:\s+(\d+)\s+failed.*?(\d+)\s+total` tried at start i. */
  function JestAt(s: string, i: nat): (r: Option<(nat, nat)>)
    requires i <= |s|
  {
    if !OccursAt(s, "Tests:", i) then None
    else
      var w := RunEnd(s, i + 6, IsSpace);
      var f := NumberThen(s, w, "failed");
      if w == i + 6 || f.None? then None
      else
        var t := LazyNumberThen(s, f.value.end, "total");
        if t.None? then None else Some((f.value.value, t.value.value))
  }

  function JestFrom(s: string, from: nat): (r: Option<(nat, nat)>)
    requires from <= |s|
    decreases |s| - from
  {
    var here := JestAt(s, from);
    if here.Some? then here
    else if from == |s| then None
    else JestFrom(s, from + 1)
  }

  /** The count matchers in the source's order; the first that matches sets
      the counts and the rest are not tried. With none, the counts stay. */
  function ParseTestCounts(r: TestResult, output: string): (r': TestResult)
    ensures r'.command == r.command && r'.exitCode == r.exitCode && r'.outcome == r.outcome
    ensures r'.stdout == r.stdout && r'.stderr == r.stderr
    ensures r.totalTests >= 0 && r.failures >= 0 && r.errors >= 0 ==>
            r'.totalTests >= 0 && r'.failures >= 0 && r'.errors >= 0
  {
    var mini := MinitestFrom(output, 0);
    if mini.Some? then
      r.(totalTests := mini.value.total, failures := mini.value.failures, errors := mini.value.errors)
    else
      var passed := FirstNumberThen(output, 0, "passed");
      var failed := FirstNumberThen(output, 0, "failed");
      if passed.Some? || failed.Some? then
        var f := if failed.Some? then failed.value.value else 0;
        var p := if passed.Some? then passed.value.value else 0;
        r.(totalTests := p + f, failures := f)
      else
        var jest := JestFrom(output, 0);
        if jest.Some? then r.(failures := jest.value.0, totalTests := jest.value.1)
        else r
  }

  /** The pytest branch: with no minitest summary but a "N passed" or
      "N failed", the total is passed + failed, failures is the failed
      count, a missing side counts 0, and errors keep their value. */
  lemma ParsePytestCounts(r: TestResult, output: string)
    requires MinitestFrom(output, 0).None?
    requires FirstNumberThen(output, 0, "passed").Some? || FirstNumberThen(output, 0, "failed").Some?
    ensures var passed := FirstNumberThen(output, 0, "passed");
            var failed := FirstNumberThen(output, 0, "failed");
            var f := if failed.Some? then failed.value.value else 0;
            var r' := ParseTestCounts(r, output);
            r'.failures == f
            && r'.totalTests == (if passed.Some? then passed.value.value else 0) + f
            && r'.errors == r.errors
  {
  }

  /** Text the jest matcher accepts always contains "N failed", which the
      pytest matcher, tried before it, already takes. */
  lemma {:induction false} JestFromHasFailed(s: string, from: nat)
    requires from <= |s| && JestFrom(s, from).Some?
    ensures FirstNumberThen(s, 0, "failed").Some?
    decreases |s| - from
  {
    if JestAt(s, from).Some? {
      var w := RunEnd(s, from + 6, IsSpace);
      assert NumberThen(s, w, "failed").Some?;
      FirstNumberThenIsLeftmost(s, 0, "failed");
    } else {
      JestFromHasFailed(s, from + 1);
    }
  }

  /** The third matcher can never fire: parsing gives the same result as if
      the source had only the first two matchers. */
  lemma JestMatcherIsDead(r: TestResult, output: string)
    ensures MinitestFrom(output, 0).None?
            && FirstNumberThen(output, 0, "passed").None?
            && FirstNumberThen(output, 0, "failed").None?
            ==> ParseTestCounts(r, output) == r
  {
    if JestFrom(output, 0).Some? {
      JestFromHasFailed(output, 0);
    }
  }

  const JestLine := "Tests: 2 failed, 5 passed, 7 total"

  lemma JestLineHasNoRun()
    ensures !Contains(JestLine, "run")
  {
    var s := "Tests: 2 failed, 5 passed, 7 total";
    assert s == JestLine;
    assert forall k :: 0 <= k < |s| ==> s[k] != 'r';
    forall i | 0 <= i <= |s| ensures !OccursAt(s, "run", i) {
      assert i + 3 <= |s| ==> s[i..i + 3][0] == s[i];
    }
  }

  /** A single digit, a single space and the word: the shape of the example
      lines below. */
  lemma OneDigitThen(s: string, i: nat, word: string)
    requires i + 2 <= |s| && IsDigit(s[i]) && s[i + 1] == ' '
    requires word != [] && !IsSpace(word[0]) && !IsDigit(word[0]) && OccursAt(s, word, i + 2)
    ensures NumberThen(s, i, word) == Some(NumMatch(i, DigitValue(s[i]), i + 2 + |word|))
  {
    assert s[i..i + 1] == [s[i]] && [s[i]][..0] == [];
    NumberThenIsGreedy(s, i, word, i + 1, i + 2);
  }

  lemma JestLineFailed()
    ensures FirstNumberThen(JestLine, 0, "failed") == Some(NumMatch(7, 2, 15))
  {
    var s := JestLine;
    JestLineFailedAt7();
    assert forall j :: 0 <= j < 7 ==> !IsDigit(s[j]);
    FirstMatchAt(s, "failed", 7);
  }

  lemma JestLineFailedAt7()
    ensures NumberThen(JestLine, 7, "failed") == Some(NumMatch(7, 2, 15))
  {
    var s := JestLine;
    assert s[7] == '2' && s[8] == ' ';
    assert s[9] == 'f' && s[10] == 'a' && s[11] == 'i' && s[12] == 'l' && s[13] == 'e' && s[14] == 'd';
    assert s[9..15] == "failed";
    OneDigitThen(s, 7, "failed");
  }

  lemma JestLinePassed()
    ensures FirstNumberThen(JestLine, 0, "passed") == Some(NumMatch(17, 5, 25))
  {
    var s := JestLine;
    JestLinePassedAt17();
    forall j | 0 <= j < 17
      ensures !IsDigit(s[j]) || NumberThen(s, j, "passed").None?
    {
      if j == 7 {
        JestLineNoPassedAt7();
      } else {
        assert !IsDigit(s[j]);
      }
    }
    FirstMatchAt(s, "passed", 17);
  }

  lemma JestLinePassedAt17()
    ensures NumberThen(JestLine, 17, "passed") == Some(NumMatch(17, 5, 25))
  {
    var s := JestLine;
    assert s == "Tests: 2 failed, " + "5" + " " + "passed" + ", 7 total";
    OneDigitThen(s, 17, "passed");
  }

  lemma JestLineNoPassedAt7()
    ensures NumberThen(JestLine, 7, "passed").None?
  {
    var s := JestLine;
    assert s[7] == '2' && s[8] == ' ' && s[9] == 'f';
    NumberThenMisses(s, 7, "passed", 8, 9);
  }

  /** A jest summary line is read by the pytest matcher, tried first:
      "Tests: 2 failed, 5 passed, 7 total" gives 2 failures out of 5 + 2
      tests, and the jest matcher's own reading is never reached. */
  lemma JestLineReadAsPytest(r: TestResult)
    ensures var r' := ParseTestCounts(r, JestLine);
            r'.failures == 2 && r'.totalTests == 7 && r'.errors == r.errors
  {
    JestLineHasNoRun();
    NoRunWordMeansNoMinitest(JestLine, 0);
    JestLineFailed();
    JestLinePassed();
  }

  const MinitestLine := "12 runs, " + "20 assertions, " + "3 failures, " + "1 errors, " + "0 skips"

  /** Position j of s is on the same line and starts no failure/error pair. */
  predicate NoFailureStart(s: string, j: nat) {
    j < |s| && s[j] != '\n' && FailureErrorPairAt(s, j).None?
  }

  lemma FailuresThenErrorsStep(s: string, p: nat)
    requires NoFailureStart(s, p)
    ensures FailuresThenErrors(s, p) == FailuresThenErrors(s, p + 1)
  {
  }

  /** The lazy failure/error search moves past positions of the line where
      no failure count starts. */
  lemma {:induction false} FailuresThenErrorsSkip(s: string, p: nat, k: nat)
    requires p <= k <= |s|
    requires forall j :: p <= j < k ==> NoFailureStart(s, j)
    ensures FailuresThenErrors(s, p) == FailuresThenErrors(s, k)
    decreases k - p
  {
    if p < k {
      FailuresThenErrorsSkip(s, p + 1, k);
      FailuresThenErrorsStep(s, p);
    }
  }



  lemma MinitestLineRuns()
    ensures NumberThen(MinitestLine, 0, "run") == Some(NumMatch(0, 12, 6))
  {
    var s := MinitestLine;
    assert s[0..2] == "12" && "12"[..1] == "1" && "1"[..0] == [];
    assert DigitsValue(s[0..2]) == 12;
    assert s[3] == 'r' && s[4] == 'u' && s[5] == 'n';
    assert s[3..6] == "run";
    NumberThenIsGreedy(s, 0, "run", 2, 3);
  }

  lemma MinitestLineNoFailureAt9And10()
    ensures NumberThen(MinitestLine, 9, "failure").None?
    ensures NumberThen(MinitestLine, 10, "failure").None?
  {
    var s := MinitestLine;
    assert s[9] == '2' && s[10] == '0' && s[11] == ' ' && s[12] == 'a';
    NumberThenMisses(s, 9, "failure", 11, 12);
    NumberThenMisses(s, 10, "failure", 11, 12);
  }

  lemma MinitestLineNoFailureStart(j: nat)
    requires 6 <= j < 24
    ensures NoFailureStart(MinitestLine, j)
  {
    var s := MinitestLine;
    assert s[j] != '\n';
    if j == 9 || j == 10 {
      MinitestLineNoFailureAt9And10();
    } else {
      assert !IsDigit(s[j]);
    }
  }

  lemma MinitestLineSkipToFailures()
    ensures FailuresThenErrors(MinitestLine, 6) == FailuresThenErrors(MinitestLine, 24)
  {
    forall j | 6 <= j < 24 ensures NoFailureStart(MinitestLine, j) {
      MinitestLineNoFailureStart(j);
    }
    FailuresThenErrorsSkip(MinitestLine, 6, 24);
  }

  lemma MinitestLineErrors()
    ensures LazyNumberThen(MinitestLine, 33, "error") == Some(NumMatch(36, 1, 43))
  {
    var s := MinitestLine;
    assert s[38..43] == "error";
    OneDigitThen(s, 36, "error");
    assert !IsDigit(s[33]) && !IsDigit(s[34]) && !IsDigit(s[35]);
    assert s[33] != '\n' && s[34] != '\n' && s[35] != '\n';
    assert LazyNumberThen(s, 35, "error") == LazyNumberThen(s, 36, "error");
    assert LazyNumberThen(s, 34, "error") == LazyNumberThen(s, 35, "error");
  }

  /** Where a failure count is followed on its line by an error count, the
      lazy search stops with both. */
  lemma FailuresThenErrorsAt(s: string, p: nat, f: NumMatch, e: NumMatch)
    requires p <= |s| && NumberThen(s, p, "failure") == Some(f)
    requires LazyNumberThen(s, f.end, "error") == Some(e)
    ensures FailuresThenErrors(s, p) == Some((f.value, e.value))
  {
  }

  lemma MinitestLineFailureAt24()
    ensures NumberThen(MinitestLine, 24, "failure") == Some(NumMatch(24, 3, 33))
  {
    var s := MinitestLine;
    assert s[26..33] == "failure";
    OneDigitThen(s, 24, "failure");
  }

  lemma MinitestLineFailuresErrors()
    ensures FailuresThenErrors(MinitestLine, 6) == Some((3, 1))
  {
    var s := MinitestLine;
    MinitestLineSkipToFailures();
    MinitestLineFailureAt24();
    MinitestLineErrors();
    FailuresThenErrorsAt(s, 24, NumMatch(24, 3, 33), NumMatch(36, 1, 43));
  }

  /** A minitest summary line gives the run, failure and error counts, and
      the later matchers are not consulted. */
  lemma MinitestLineCounts(r: TestResult)
    ensures var r' := ParseTestCounts(r, MinitestLine);
            r'.totalTests == 12 && r'.failures == 3 && r'.errors == 1
  {
    MinitestLineRuns();
    MinitestLineFailuresErrors();
  }

  /** With no digit before position k, no number-word pattern can start there. */
  lemma FirstMatchAt(s: string, word: string, k: nat)
    requires k <= |s| && NumberThen(s, k, word).Some?
    requires forall j :: 0 <= j < k ==> !IsDigit(s[j]) || NumberThen(s, j, word).None?
    ensures FirstNumberThen(s, 0, word) == NumberThen(s, k, word)
  {
    FirstNumberThenSkip(s, 0, k, word);
  }

  /** A text without the word "run" after a number has no minitest summary. */
  lemma {:induction false} NoRunWordMeansNoMinitest(s: string, from: nat)
    requires from <= |s| && !Contains(s, "run")
    ensures MinitestFrom(s, from).None?
    decreases |s| - from
  {
    if from < |s| {
      NoRunWordMeansNoMinitest(s, from + 1);
    }
  }

  // ---------------------------------------------------------------------
  // TestTracker

  /** `TestTracker.summary()` on a history: the latest result, described. */
  function SummaryOf(results: seq<TestResult>): string {
    if results == [] then "No test results recorded."
    else
      var r := results[|results| - 1];
      if r.outcome == Pass then PassLine(r) else FailReport(r)
  }

  function PassLine(r: TestResult): string {
    "PASS: " + IntToString(r.totalTests) + " tests, 0 failures (exit code "
    + IntToString(r.exitCode) + ")"
  }

  function FailHead(r: TestResult): string {
    "FAIL: " + IntToString(r.totalTests) + " tests, " + IntToString(r.failures)
    + " failures, " + IntToString(r.errors) + " errors (exit code " + IntToString(r.exitCode) + ")"
  }

  /** The failure line, then the tail of stdout and of stderr when present. */
  function FailReport(r: TestResult): string {
    var out := if r.stdout != "" then ["Output (last 2000 chars):\n" + Tail(r.stdout, 2000)] else [];
    var err := if r.stderr != "" then ["Stderr (last 500 chars):\n" + Tail(r.stderr, 500)] else [];
    Join([FailHead(r)] + (out + err), "\n")
  }

  predicate AllPassingOf(results: seq<TestResult>) {
    results != [] && results[|results| - 1].outcome == Pass
  }

  lemma JoinHead(head: string, rest: seq<string>, sep: string)
    ensures StartsWith(Join([head] + rest, sep), head)
  {
    if rest != [] {
      assert ([head] + rest)[1..] == rest;
    }
  }

  lemma PassLineShape(r: TestResult)
    ensures StartsWith(PassLine(r), "PASS: ") && PassLine(r)[0] == 'P'
  {
    var s := PassLine(r);
    assert s[..6] == "PASS: ";
  }

  lemma FailReportShape(r: TestResult)
    ensures StartsWith(FailReport(r), "FAIL: ") && FailReport(r)[0] == 'F'
  {
    var head := FailHead(r);
    assert head[..6] == "FAIL: ";
    var out := if r.stdout != "" then ["Output (last 2000 chars):\n" + Tail(r.stdout, 2000)] else [];
    var err := if r.stderr != "" then ["Stderr (last 500 chars):\n" + Tail(r.stderr, 500)] else [];
    JoinHead(head, out + err, "\n");
    var s := FailReport(r);
    assert s[..6] == head[..6];
    assert s[0] == s[..6][0];
  }

  /** The summary is one of three kinds and tells them apart: the fixed
      "no results" text exactly for an empty history, a "PASS: " line exactly
      when the latest result passed, and a "FAIL: " report for every other
      latest outcome, ERROR and UNKNOWN included. */
  lemma SummaryKinds(results: seq<TestResult>)
    ensures SummaryOf(results) == "No test results recorded." <==> results == []
    ensures StartsWith(SummaryOf(results), "PASS: ") <==> AllPassingOf(results)
    ensures StartsWith(SummaryOf(results), "FAIL: ") <==> results != [] && !AllPassingOf(results)
  {
    var s := SummaryOf(results);
    if results == [] {
      assert s[0] == 'N';
    } else {
      var r := results[|results| - 1];
      if r.outcome == Pass {
        PassLineShape(r);
      } else {
        FailReportShape(r);
      }
      assert s[0] == s[..6][0];
    }
  }

  /** The shared history of test runs, newest last, and the canonical test
      command for the run. Appends are serialised by a lock in the source;
      the model is sequential. */
  class TestTracker {
    var results: seq<TestResult>
    var canonicalTestCommand: Option<string>

    constructor ()
      ensures results == [] && canonicalTestCommand == Some("bin/rails test")
    {
      results := [];
      canonicalTestCommand := Some("bin/rails test");
    }

    /** `record`: one result appended at the end, nothing else changed. */
    method Record(r: TestResult)
      modifies this`results
      ensures results == old(results) + [r]
      ensures |results| == |old(results)| + 1 && results[..|old(results)|] == old(results)
    {
      results := results + [r];
    }

    function LastResult(): (r: Option<TestResult>)
      reads this
      ensures r.None? <==> results == []
      ensures r.Some? ==> r.value == results[|results| - 1]
    {
      if results == [] then None else Some(results[|results| - 1])
    }

    predicate AllPassing()
      reads this
      ensures AllPassing() <==> LastResult().Some? && LastResult().value.outcome == Pass
    {
      AllPassingOf(results)
    }

    function Summary(): (s: string)
      reads this
      ensures s == "No test results recorded." <==> LastResult().None?
      ensures StartsWith(s, "PASS: ") <==> AllPassing()
    {
      SummaryKinds(results);
      SummaryOf(results)
    }
  }
}

/** test_verifier.py: the out-of-band test run that gates the pipeline's
    stages, and the detection of a project's test command from the files
    that exist in it. The subprocess itself is not modelled: its result is a
    parameter, one of a normal completion, a timeout or an exception. */
module Verifier {
  import opened Text
  import opened Tracker

  /** What running the test command gave. `returncode` is absent when the
      process reported none. */
  datatype RunOutcome =
    | Completed(returncode: Option<int>, stdout: string, stderr: string)
    | TimedOut
    | Raised(message: string)

  /** With no test command detected, starting the shell command fails with
      this error from Python's asyncio before any process runs. */
  const NoCommandError := "cmd must be a string"

  /** What the run gave for the tracker's command: a missing command always
      ends in the exception branch. */
  function RunFor(command: Option<string>, run: RunOutcome): (r: RunOutcome)
    ensures command.Some? ==> r == run
    ensures command.None? ==> r.Raised?
  {
    if command.None? then Raised(NoCommandError) else run
  }

  /** The result `verify_tests` returns for that run. */
  function GateResult(command: Option<string>, run: RunOutcome): TestResult {
    match RunFor(command, run)
    case TimedOut =>
      NewResult(command, -1, "", "Test verification timed out", Error)
    case Raised(message) =>
      NewResult(command, -1, "", message, Error)
    case Completed(returncode, stdout, stderr) =>
      var exitCode := returncode.GetOr(0);
      ParseTestCounts(NewResult(command, exitCode, stdout, stderr, if exitCode == 0 then Pass else Fail), stdout)
  }

  /** The outcome of that result: PASS exactly for a normal completion
      with exit code 0 (a missing return code counting as 0). */
  function GateOutcome(command: Option<string>, run: RunOutcome): (o: Outcome)
    ensures o == Pass <==> RunFor(command, run).Completed? && RunFor(command, run).returncode.GetOr(0) == 0
  {
    match RunFor(command, run)
    case Completed(returncode, _, _) => if returncode.GetOr(0) == 0 then Pass else Fail
    case _ => Error
  }

  lemma GateOutcomeIsOutcome(command: Option<string>, run: RunOutcome)
    ensures GateResult(command, run).outcome == GateOutcome(command, run)
  {
  }

  /** Only a normal completion is recorded in the tracker. */
  predicate Recorded(command: Option<string>, run: RunOutcome) {
    RunFor(command, run).Completed?
  }

  /** A timeout gives an ERROR result with exit code -1, empty stdout and
      the fixed timeout text, and is not recorded. */
  lemma TimeoutResult(command: string)
    ensures var r := GateResult(Some(command), TimedOut);
            r.outcome == Error && r.exitCode == -1 && r.stdout == ""
            && r.stderr == "Test verification timed out" && r.command == Some(command)
            && r.totalTests == 0 && r.failures == 0 && r.errors == 0
    ensures !Recorded(Some(command), TimedOut)
  {
  }

  /** An exception gives an ERROR result with exit code -1 and the exception
      text as stderr, and is not recorded. */
  lemma ExceptionResult(command: Option<string>, message: string)
    ensures var r := GateResult(command, Raised(message));
            r.outcome == Error && r.exitCode == -1 && r.stdout == ""
            && r.stderr == (if command.Some? then message else NoCommandError)
    ensures !Recorded(command, Raised(message))
  {
  }

  /** A normal completion: PASS exactly when the return code is 0 or
      missing, FAIL otherwise, with no override from the parsed failure
      count, the process output kept, and the completion recorded. */
  lemma CompletedResult(command: string, returncode: Option<int>, stdout: string, stderr: string)
    ensures var r := GateResult(Some(command), Completed(returncode, stdout, stderr));
            && (r.outcome == Pass <==> returncode.None? || returncode.value == 0)
            && (r.outcome == Pass || r.outcome == Fail)
            && r.exitCode == (if returncode.Some? then returncode.value else 0)
            && r.stdout == stdout && r.stderr == stderr && r.command == Some(command)
    ensures Recorded(Some(command), Completed(returncode, stdout, stderr))
  {
  }

  /** The counts come from stdout alone: stderr never changes them. */
  lemma CountsIgnoreStderr(command: Option<string>, returncode: Option<int>, stdout: string, e1: string, e2: string)
    ensures var r1 := GateResult(command, Completed(returncode, stdout, e1));
            var r2 := GateResult(command, Completed(returncode, stdout, e2));
            command.Some? ==>
              r1.totalTests == r2.totalTests && r1.failures == r2.failures && r1.errors == r2.errors
  {
  }

  /** `verify_tests`: runs the tracker's canonical command (its result is
      `run`), and records the result when the run completed normally. */
  method VerifyTests(tracker: TestTracker, run: RunOutcome) returns (result: TestResult)
    modifies tracker`results
    ensures result == GateResult(tracker.canonicalTestCommand, run)
    ensures Recorded(tracker.canonicalTestCommand, run) ==> tracker.results == old(tracker.results) + [result]
    ensures !Recorded(tracker.canonicalTestCommand, run) ==> tracker.results == old(tracker.results)
  {
    var command := tracker.canonicalTestCommand;
    var outcome := RunFor(command, run);
    match outcome {
      case TimedOut =>
        return NewResult(command, -1, "", "Test verification timed out", Error);
      case Raised(message) =>
        return NewResult(command, -1, "", message, Error);
      case Completed(returncode, stdout, stderr) =>
        var exitCode := returncode.GetOr(0);
        result := NewResult(command, exitCode, stdout, stderr, if exitCode == 0 then Pass else Fail);
        result := ParseTestCounts(result, stdout);
        tracker.Record(result);
    }
  }

  // ---------------------------------------------------------------------
  // detect_test_command

  /** `detect_test_command` over the set of paths, relative to the target
      directory, that exist. Each test is one path checked as written:
      "*.sln" and "*.csproj" are file names, not patterns. */
  function DetectTestCommand(exists_: set<string>): Option<string> {
    if "bin/rails" in exists_ then Some("bin/rails test")
    else if "Gemfile" in exists_ && "spec" in exists_ then Some("bundle exec rspec")
    else if "Gemfile" in exists_ && "test" in exists_ then Some("bundle exec rake test")
    else if "pytest.ini" in exists_ || "setup.cfg" in exists_ || "pyproject.toml" in exists_ then Some("python -m pytest")
    else if "manage.py" in exists_ then Some("python manage.py test")
    else if "setup.py" in exists_ || "tox.ini" in exists_ then Some("python -m pytest")
    else if "vendor/bin/phpunit" in exists_ then Some("vendor/bin/phpunit")
    else if "phpunit.xml" in exists_ || "phpunit.xml.dist" in exists_ then Some("vendor/bin/phpunit")
    else if "composer.json" in exists_ then Some("vendor/bin/phpunit")
    else if "package.json" in exists_ then
      if "node_modules/.bin/jest" in exists_ then Some("npx jest")
      else if "node_modules/.bin/vitest" in exists_ then Some("npx vitest run")
      else Some("npm test")
    else if "go.mod" in exists_ then Some("go test ./...")
    else if "Cargo.toml" in exists_ then Some("cargo test")
    else if "pom.xml" in exists_ then Some("mvn test")
    else if "build.gradle" in exists_ || "build.gradle.kts" in exists_ then Some("./gradlew test")
    else if "*.sln" in exists_ || "*.csproj" in exists_ then Some("dotnet test")
    else if "mix.exs" in exists_ then Some("mix test")
    else if "Package.swift" in exists_ then Some("swift test")
    else None
  }

  /** A detection rule: fires when every path of `allOf` exists and, if
      `anyOf` is not empty, at least one of its paths does. */
  datatype Rule = Rule(allOf: set<string>, anyOf: set<string>, command: string)

  predicate Fires(rule: Rule, exists_: set<string>) {
    rule.allOf <= exists_ && (rule.anyOf == {} || exists p :: p in rule.anyOf && p in exists_)
  }

  /** The rules in priority order, as a table, grouped by ecosystem. */
  const Rules: seq<Rule> :=
    RubyRules + PythonRules + PhpRules + JavaScriptRules + GoRustJavaRules + OtherRules

  const RubyRules: seq<Rule> := [
    Rule({"bin/rails"}, {}, "bin/rails test"),
    Rule({"Gemfile", "spec"}, {}, "bundle exec rspec"),
    Rule({"Gemfile", "test"}, {}, "bundle exec rake test")]

  const PythonRules: seq<Rule> := [
    Rule({}, {"pytest.ini", "setup.cfg", "pyproject.toml"}, "python -m pytest"),
    Rule({"manage.py"}, {}, "python manage.py test"),
    Rule({}, {"setup.py", "tox.ini"}, "python -m pytest")]

  const PhpRules: seq<Rule> := [
    Rule({"vendor/bin/phpunit"}, {}, "vendor/bin/phpunit"),
    Rule({}, {"phpunit.xml", "phpunit.xml.dist"}, "vendor/bin/phpunit"),
    Rule({"composer.json"}, {}, "vendor/bin/phpunit")]

  const JavaScriptRules: seq<Rule> := [
    Rule({"package.json", "node_modules/.bin/jest"}, {}, "npx jest"),
    Rule({"package.json", "node_modules/.bin/vitest"}, {}, "npx vitest run"),
    Rule({"package.json"}, {}, "npm test")]

  const GoRustJavaRules: seq<Rule> := [
    Rule({"go.mod"}, {}, "go test ./..."),
    Rule({"Cargo.toml"}, {}, "cargo test"),
    Rule({"pom.xml"}, {}, "mvn test"),
    Rule({}, {"build.gradle", "build.gradle.kts"}, "./gradlew test")]

  /** .NET, Elixir and Swift. */
  const OtherRules: seq<Rule> := [
    Rule({}, {"*.sln", "*.csproj"}, "dotnet test"),
    Rule({"mix.exs"}, {}, "mix test"),
    Rule({"Package.swift"}, {}, "swift test")]

  /** The command of the first rule that fires. */
  function FirstRule(rules: seq<Rule>, exists_: set<string>): Option<string> {
    if rules == [] then None
    else if Fires(rules[0], exists_) then Some(rules[0].command)
    else FirstRule(rules[1..], exists_)
  }

  /** Nothing is found exactly when no rule fires; what is found is the
      command of a rule that fires with none firing before it. */
  lemma {:induction false} FirstRuleIsFirst(rules: seq<Rule>, exists_: set<string>)
    ensures FirstRule(rules, exists_).None? <==> forall k :: 0 <= k < |rules| ==> !Fires(rules[k], exists_)
    ensures var r := FirstRule(rules, exists_);
            r.Some? ==> exists k :: 0 <= k < |rules| && Fires(rules[k], exists_)
                           && r.value == rules[k].command
                           && forall j :: 0 <= j < k ==> !Fires(rules[j], exists_)
  {
    if rules != [] && !Fires(rules[0], exists_) {
      var tail := rules[1..];
      FirstRuleIsFirst(tail, exists_);
      assert forall k :: 1 <= k < |rules| ==> rules[k] == tail[k - 1];
      var r := FirstRule(tail, exists_);
      if r.Some? {
        var k :| 0 <= k < |tail| && Fires(tail[k], exists_) && r.value == tail[k].command
                 && forall j :: 0 <= j < k ==> !Fires(tail[j], exists_);
        assert Fires(rules[k + 1], exists_) && forall j :: 0 <= j < k + 1 ==> !Fires(rules[j], exists_);
      } else {
        assert forall k :: 0 <= k < |tail| ==> !Fires(tail[k], exists_);
      }
    }
  }

  /** The first rule of a concatenation of tables is the first of the
      first table, if any fires, and otherwise the first of the second. */
  lemma {:induction false} FirstRuleAppend(a: seq<Rule>, b: seq<Rule>, e: set<string>)
    ensures FirstRule(a + b, e) == if FirstRule(a, e).Some? then FirstRule(a, e) else FirstRule(b, e)
    decreases |a|
  {
    if a != [] {
      assert (a + b)[0] == a[0] && (a + b)[1..] == a[1..] + b;
      FirstRuleAppend(a[1..], b, e);
    } else {
      assert a + b == b;
    }
  }

  /** The first rule that fires decides. */
  lemma {:induction false} FirstRuleIs(rules: seq<Rule>, e: set<string>, i: nat)
    requires i < |rules| && Fires(rules[i], e)
    requires forall j :: 0 <= j < i ==> !Fires(rules[j], e)
    ensures FirstRule(rules, e) == Some(rules[i].command)
  {
    if i > 0 {
      assert !Fires(rules[0], e);
      assert forall j :: 0 <= j < i - 1 ==> rules[1..][j] == rules[j + 1];
      FirstRuleIs(rules[1..], e, i - 1);
    }
  }

  /** The Ruby rules pick the same command as the matching stretch of the if-chain. */
  lemma RubyRulesFirst(e: set<string>)
    ensures FirstRule(RubyRules, e) ==
            if "bin/rails" in e then Some("bin/rails test")
            else if "Gemfile" in e && "spec" in e then Some("bundle exec rspec")
            else if "Gemfile" in e && "test" in e then Some("bundle exec rake test")
            else None
  {
    if "bin/rails" in e {
      FirstRuleIs(RubyRules, e, 0);
    } else if "Gemfile" in e && "spec" in e {
      FirstRuleIs(RubyRules, e, 1);
    } else if "Gemfile" in e && "test" in e {
      FirstRuleIs(RubyRules, e, 2);
    } else {
      FirstRuleIsFirst(RubyRules, e);
    }
  }

  /** The Python rules pick the same command as the matching stretch of the if-chain. */
  lemma PythonRulesFirst(e: set<string>)
    ensures FirstRule(PythonRules, e) ==
            if "pytest.ini" in e || "setup.cfg" in e || "pyproject.toml" in e then Some("python -m pytest")
            else if "manage.py" in e then Some("python manage.py test")
            else if "setup.py" in e || "tox.ini" in e then Some("python -m pytest")
            else None
  {
    if "pytest.ini" in e || "setup.cfg" in e || "pyproject.toml" in e {
      FirstRuleIs(PythonRules, e, 0);
    } else if "manage.py" in e {
      FirstRuleIs(PythonRules, e, 1);
    } else if "setup.py" in e || "tox.ini" in e {
      FirstRuleIs(PythonRules, e, 2);
    } else {
      FirstRuleIsFirst(PythonRules, e);
    }
  }

  /** The Php rules pick the same command as the matching stretch of the if-chain. */
  lemma PhpRulesFirst(e: set<string>)
    ensures FirstRule(PhpRules, e) ==
            if "vendor/bin/phpunit" in e then Some("vendor/bin/phpunit")
            else if "phpunit.xml" in e || "phpunit.xml.dist" in e then Some("vendor/bin/phpunit")
            else if "composer.json" in e then Some("vendor/bin/phpunit")
            else None
  {
    if "vendor/bin/phpunit" in e {
      FirstRuleIs(PhpRules, e, 0);
    } else if "phpunit.xml" in e || "phpunit.xml.dist" in e {
      FirstRuleIs(PhpRules, e, 1);
    } else if "composer.json" in e {
      FirstRuleIs(PhpRules, e, 2);
    } else {
      FirstRuleIsFirst(PhpRules, e);
    }
  }

  /** The JavaScript rules pick the same command as the matching stretch of the if-chain. */
  lemma JavaScriptRulesFirst(e: set<string>)
    ensures FirstRule(JavaScriptRules, e) ==
            if "package.json" in e && "node_modules/.bin/jest" in e then Some("npx jest")
            else if "package.json" in e && "node_modules/.bin/vitest" in e then Some("npx vitest run")
            else if "package.json" in e then Some("npm test")
            else None
  {
    if "package.json" in e && "node_modules/.bin/jest" in e {
      FirstRuleIs(JavaScriptRules, e, 0);
    } else if "package.json" in e && "node_modules/.bin/vitest" in e {
      FirstRuleIs(JavaScriptRules, e, 1);
    } else if "package.json" in e {
      FirstRuleIs(JavaScriptRules, e, 2);
    } else {
      FirstRuleIsFirst(JavaScriptRules, e);
    }
  }

  lemma GoRustJavaRulesFire(e: set<string>)
    ensures Fires(GoRustJavaRules[0], e) <==> "go.mod" in e
    ensures Fires(GoRustJavaRules[1], e) <==> "Cargo.toml" in e
    ensures Fires(GoRustJavaRules[2], e) <==> "pom.xml" in e
    ensures Fires(GoRustJavaRules[3], e) <==> "build.gradle" in e || "build.gradle.kts" in e
  {
  }

  /** The Go, Rust and Java rules pick the same command as the matching stretch of the if-chain. */
  lemma GoRustJavaRulesFirst(e: set<string>)
    ensures FirstRule(GoRustJavaRules, e) ==
            if "go.mod" in e then Some("go test ./...")
            else if "Cargo.toml" in e then Some("cargo test")
            else if "pom.xml" in e then Some("mvn test")
            else if "build.gradle" in e || "build.gradle.kts" in e then Some("./gradlew test")
            else None
  {
    GoRustJavaRulesFire(e);
    if "go.mod" in e {
      FirstRuleIs(GoRustJavaRules, e, 0);
    } else if "Cargo.toml" in e {
      FirstRuleIs(GoRustJavaRules, e, 1);
    } else if "pom.xml" in e {
      FirstRuleIs(GoRustJavaRules, e, 2);
    } else if "build.gradle" in e || "build.gradle.kts" in e {
      FirstRuleIs(GoRustJavaRules, e, 3);
    } else {
      FirstRuleIsFirst(GoRustJavaRules, e);
    }
  }

  /** The .NET, Elixir and Swift rules pick the same command as the end of the if-chain. */
  lemma OtherRulesFirst(e: set<string>)
    ensures FirstRule(OtherRules, e) ==
            if "*.sln" in e || "*.csproj" in e then Some("dotnet test")
            else if "mix.exs" in e then Some("mix test")
            else if "Package.swift" in e then Some("swift test")
            else None
  {
    if "*.sln" in e || "*.csproj" in e {
      FirstRuleIs(OtherRules, e, 0);
    } else if "mix.exs" in e {
      FirstRuleIs(OtherRules, e, 1);
    } else if "Package.swift" in e {
      FirstRuleIs(OtherRules, e, 2);
    } else {
      FirstRuleIsFirst(OtherRules, e);
    }
  }

  /** The if-chain and the table agree on every set of existing paths:
      `detect_test_command` returns the command of the first rule that
      fires, and None exactly when no rule fires. */
  lemma DetectIsFirstRule(e: set<string>)
    ensures DetectTestCommand(e) == FirstRule(Rules, e)
  {
    RubyRulesFirst(e);
    PythonRulesFirst(e);
    PhpRulesFirst(e);
    JavaScriptRulesFirst(e);
    GoRustJavaRulesFirst(e);
    OtherRulesFirst(e);
    FirstRuleAppend(RubyRules, PythonRules, e);
    FirstRuleAppend(RubyRules + PythonRules, PhpRules, e);
    FirstRuleAppend(RubyRules + PythonRules + PhpRules, JavaScriptRules, e);
    FirstRuleAppend(RubyRules + PythonRules + PhpRules + JavaScriptRules, GoRustJavaRules, e);
    FirstRuleAppend(RubyRules + PythonRules + PhpRules + JavaScriptRules + GoRustJavaRules, OtherRules, e);
  }

  /** Priority examples: a Rails binary beats an RSpec Gemfile project, a
      pytest configuration beats a Django manage.py, jest beats vitest,
      which beats the plain npm script, and an actual solution file such
      as "App.sln" is not the literal name "*.sln". */
  lemma DetectExamples()
    ensures DetectTestCommand({"bin/rails", "Gemfile", "spec"}) == Some("bin/rails test")
    ensures DetectTestCommand({"manage.py", "pytest.ini"}) == Some("python -m pytest")
    ensures DetectTestCommand({"package.json", "node_modules/.bin/jest", "node_modules/.bin/vitest"}) == Some("npx jest")
    ensures DetectTestCommand({"package.json", "node_modules/.bin/vitest"}) == Some("npx vitest run")
    ensures DetectTestCommand({"package.json"}) == Some("npm test")
    ensures DetectTestCommand({"App.sln", "App.csproj"}) == None
    ensures DetectTestCommand({}) == None
  {
  }
}

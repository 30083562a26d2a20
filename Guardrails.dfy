/** run_pipeline.py, the pure parts: the stage names, the test-file
    conventions, and the two pre-tool-use guardrails. A guardrail either
    allows (the source returns `{}`) or denies with a reason. */
module Guardrails {
  import opened Text
  import opened Scan

  /** The values `current_stage` takes in `run_pipeline`. */
  datatype Stage = Init | Plan | Red | Green | Review | ReviewRed | ReviewGreen | Report

  function StageName(s: Stage): string {
    match s
    case Init => "INIT"
    case Plan => "PLAN"
    case Red => "RED"
    case Green => "GREEN"
    case Review => "REVIEW"
    case ReviewRed => "REVIEW_RED"
    case ReviewGreen => "REVIEW_GREEN"
    case Report => "REPORT"
  }

  datatype Decision = Allow | Deny(reason: string)

  // ---------------------------------------------------------------------
  // Test files

  /** `(^|/)dir/` matches at i. */
  predicate DirSegmentAt(s: string, dir: string, i: nat) {
    (i == 0 || (i <= |s| && s[i - 1] == '/')) && OccursAt(s, dir + "/", i)
  }

  /** `\w+$` matches from j: the run of word characters reaches the end, or
      stops just before a final newline. */
  predicate WordsToEnd(s: string, j: nat) {
    j <= |s| && var e := RunEnd(s, j, IsWordChar); j < e && EndAnchor(s, e)
  }

  /** `<lit>\w+$` matches starting at i. */
  predicate SuffixAt(s: string, lit: string, i: nat) {
    OccursAt(s, lit, i) && WordsToEnd(s, i + |lit|)
  }

  /** `test_[^/]+\.py$` matches from i, with `.py` at k. */
  predicate PytestNameAt(s: string, i: nat, k: nat) {
    OccursAt(s, "test_", i) && i + 5 < k && OccursAt(s, ".py", k) && EndAnchor(s, k + 3)
    && forall m :: i + 5 <= m < k ==> s[m] != '/'
  }

  /** One of the seven conventions matches starting at position i. */
  predicate TestFileAt(s: string, i: nat) {
    DirSegmentAt(s, "test", i) || DirSegmentAt(s, "tests", i) || DirSegmentAt(s, "spec", i)
    || SuffixAt(s, "_test.", i) || SuffixAt(s, "_spec.", i)
    || SuffixAt(s, ".test.", i) || SuffixAt(s, ".spec.", i)
    || exists k :: i < k <= |s| && PytestNameAt(s, i, k)
  }

  /** `_is_test_file`: some convention is found somewhere in the path. */
  predicate IsTestFile(path: string) {
    exists i :: 0 <= i <= |path| && TestFileAt(path, i)
  }

  const TestFilePrefix := "[PIPELINE GUARDRAIL] Cannot modify test file "

  /** `protect_test_files`: writes to test files are refused during the two
      implementation stages, and nothing else is. */
  function ProtectTestFiles(stage: Stage, filePath: string): (d: Decision)
    ensures d.Deny? <==> (stage == Green || stage == ReviewGreen) && filePath != "" && IsTestFile(filePath)
    ensures d.Deny? ==> StartsWith(d.reason, TestFilePrefix + filePath + " during " + StageName(stage))
  {
    if stage != Green && stage != ReviewGreen then Allow
    else if filePath != "" && IsTestFile(filePath) then
      Deny(TestFilePrefix + filePath + " during " + StageName(stage)
           + " stage. Only implementation files should be changed.")
    else Allow
  }

  lemma TestDirectoryIsTestFile()
    ensures IsTestFile("tests/test_api.py")
  {
    var s := "tests/test_api.py";
    assert s[0..6] == "tests" + "/";
    assert TestFileAt(s, 0);
  }

  lemma GoSuffixIsTestFile()
    ensures IsTestFile("pkg/" + "user_test.go")
  {
    var s := "pkg/" + "user_test.go";
    assert s[8..14] == "_test.";
    assert s[14] == 'g' && s[15] == 'o' && |s| == 16;
    RunEndIs(s, 14, 16, IsWordChar);
    assert TestFileAt(s, 8);
  }

  lemma PytestNameIsTestFile()
    ensures IsTestFile("src/" + "test_api.py")
  {
    var s := "src/" + "test_api.py";
    assert s[4..9] == "test_" && s[12..15] == ".py";
    assert PytestNameAt(s, 4, 12);
    assert TestFileAt(s, 4);
  }

  /** No occurrence of p when its first character appears nowhere in s. */
  lemma AbsentFirstChar(s: string, p: string, i: nat)
    requires p != [] && forall m :: 0 <= m < |s| ==> s[m] != p[0]
    ensures !OccursAt(s, p, i)
  {
    if i + |p| <= |s| {
      assert s[i..i + |p|][0] == s[i] != p[0];
    }
  }

  lemma SourceFileIsNotTestFile()
    ensures !IsTestFile("lib/app.rb")
  {
    var s := "lib/app.rb";
    forall i | 0 <= i <= |s| ensures !TestFileAt(s, i) {
      NotTestFileAt(s, i);
    }
  }

  lemma NotTestFileAt(s: string, i: nat)
    requires s == "lib/app.rb" && i <= |s|
    ensures !TestFileAt(s, i)
  {
    OccursHead(s, "test" + "/", i);
    OccursHead(s, "tests" + "/", i);
    OccursHead(s, "spec" + "/", i);
    OccursHead(s, "_test.", i);
    OccursHead(s, "_spec.", i);
    OccursHead(s, ".test.", i);
    OccursHead(s, ".spec.", i);
    OccursHead(s, "test_", i);
  }

  /** An occurrence of p at i starts with p's first two characters. */
  lemma OccursHead(s: string, p: string, i: nat)
    requires |p| >= 2
    ensures OccursAt(s, p, i) ==> s[i] == p[0] && s[i + 1] == p[1]
  {
    if OccursAt(s, p, i) {
      assert s[i..i + |p|][0] == s[i] && s[i..i + |p|][1] == s[i + 1];
    }
  }

  /** Outside GREEN and REVIEW_GREEN even a test file may be written. */
  lemma TestsWritableDuringRed()
    ensures ProtectTestFiles(Red, "tests/test_api.py") == Allow
    ensures ProtectTestFiles(Green, "tests/test_api.py").Deny?
  {
    TestDirectoryIsTestFile();
  }

  // ---------------------------------------------------------------------
  // Dangerous shell commands, matched on the lower-cased command (the
  // source's `re.IGNORECASE`)

  /** `rm\s+-r[fd]?\s+/(?!\S)`: the slash must be the whole path. */
  predicate RmRootAt(c: string, i: nat) {
    OccursAt(c, "rm", i) &&
    var a := RunEnd(c, i + 2, IsSpace);
    a > i + 2 && OccursAt(c, "-r", a) &&
    var f := if a + 2 < |c| && (c[a + 2] == 'f' || c[a + 2] == 'd') then a + 3 else a + 2;
    var b := RunEnd(c, f, IsSpace);
    b > f && b < |c| && c[b] == '/' && (b + 1 == |c| || IsSpace(c[b + 1]))
  }

  predicate PhraseAt(c: string, i: nat, words: seq<string>) {
    i <= |c| && PhraseEnd(c, i, words).Some?
  }

  /** A phrase followed by `\b`. */
  predicate PhraseWordAt(c: string, i: nat, words: seq<string>) {
    i <= |c| && var e := PhraseEnd(c, i, words); e.Some? && WordBoundary(c, e.value)
  }

  /** `dd\s+.*of=/dev/`: `.*` may not cross a newline. */
  predicate DdAt(c: string, i: nat) {
    OccursAt(c, "dd", i) &&
    var r := RunEnd(c, i + 2, IsSpace);
    r > i + 2 && exists k :: r <= k <= LineEnd(c, r) && OccursAt(c, "of=/dev/", k)
  }

  /** `:\(\)\{.*\}`: a closing brace later on the same line. */
  predicate ForkBombAt(c: string, i: nat) {
    OccursAt(c, ":(){", i) && exists k :: i + 4 <= k < LineEnd(c, i + 4) && c[k] == '}'
  }

  /** `chmod\s+-R\s+777\s+/`. */
  predicate ChmodRootAt(c: string, i: nat) {
    i <= |c| &&
    match PhraseEnd(c, i, ["chmod", "-r", "777"])
    case None => false
    case Some(e) => var b := RunEnd(c, e, IsSpace); b > e && b < |c| && c[b] == '/'
  }

  /** One of the eleven blocked patterns matches starting at position i. */
  predicate BlockedAt(c: string, i: nat) {
    RmRootAt(c, i)
    || PhraseAt(c, i, ["git", "push"])
    || PhraseAt(c, i, ["git", "reset", "--hard"])
    || PhraseAt(c, i, ["git", "clean", "-f"]) || PhraseAt(c, i, ["git", "clean", "-d"])
    || (OccursAt(c, "mkfs", i) && WordBoundary(c, i + 4))
    || DdAt(c, i)
    || ForkBombAt(c, i)
    || (OccursAt(c, "sudo", i) && i + 4 < |c| && IsSpace(c[i + 4]))
    || ChmodRootAt(c, i)
    || PhraseWordAt(c, i, ["drop", "table"]) || PhraseWordAt(c, i, ["drop", "database"])
    || PhraseWordAt(c, i, ["truncate", "table"])
  }

  predicate Blocked(command: string) {
    var c := Lower(command);
    exists i :: 0 <= i <= |c| && BlockedAt(c, i)
  }

  const BlockedPrefix := "[PIPELINE GUARDRAIL] Blocked dangerous command: "

  /** `bash_guardrail`: deny exactly the commands some pattern matches, and
      quote at most the first 120 characters of the command. */
  function BashGuardrail(command: string): (d: Decision)
    ensures d.Deny? <==> Blocked(command)
    ensures d.Deny? ==> (StartsWith(d.reason, BlockedPrefix)
                         && |d.reason| <= |BlockedPrefix| + 120
                         && StartsWith(command, d.reason[|BlockedPrefix|..]))
  {
    if Blocked(command) then
      var d := Deny(BlockedPrefix + Take(command, 120));
      assert d.reason[|BlockedPrefix|..] == Take(command, 120);
      d
    else Allow
  }

  /** Matching ignores the case of ASCII letters. */
  lemma BashGuardrailIgnoresCase(a: string, b: string)
    requires Lower(a) == Lower(b)
    ensures BashGuardrail(a).Deny? <==> BashGuardrail(b).Deny?
  {
  }

  lemma RmRootDenied()
    ensures BashGuardrail("rm -rf /").Deny?
  {
    var c := Lower("rm -rf /");
    assert c == "rm -rf /";
    assert c[0..2] == "rm" && c[3..5] == "-r";
    assert c[2] == ' ' && c[3] == '-' && c[6] == ' ' && c[7] == '/';
    RunEndIs(c, 2, 3, IsSpace);
    RunEndIs(c, 6, 7, IsSpace);
    assert RmRootAt(c, 0);
    assert BlockedAt(c, 0);
  }

  lemma UpperCaseSudoDenied()
    ensures BashGuardrail("SUDO ls").Deny?
  {
    var c := Lower("SUDO ls");
    assert c == "sudo ls";
    assert c[0..4] == "sudo";
    assert BlockedAt(c, 0);
  }

  lemma PhraseStartsWithFirstWord(c: string, i: nat, words: seq<string>)
    requires i <= |c| && words != [] && PhraseEnd(c, i, words).Some?
    ensures OccursAt(c, words[0], i)
  {
  }

  /** "rm -rf /tmp/x" removes a directory below the root: the slash is
      followed by more path, so the first pattern does not match. */
  lemma RmPathAllowed()
    ensures BashGuardrail("rm -rf /tmp/x") == Allow
  {
    var c := Lower("rm -rf /tmp/x");
    assert c == "rm -rf /tmp/x";
    forall i | 0 <= i <= |c| ensures !BlockedAt(c, i) {
      NotBlockedAtInPath(c, i);
    }
  }

  lemma NotBlockedAtInPath(c: string, i: nat)
    requires c == "rm -rf /tmp/x" && i <= |c|
    ensures !BlockedAt(c, i)
  {
    NoAbsentCommandInPath(c, i);
    NoRmRootInPath(c, i);
  }

  lemma NoAbsentCommandInPath(c: string, i: nat)
    requires c == "rm -rf /tmp/x" && i <= |c|
    ensures !PhraseAt(c, i, ["git", "push"]) && !PhraseAt(c, i, ["git", "reset", "--hard"])
    ensures !PhraseAt(c, i, ["git", "clean", "-f"]) && !PhraseAt(c, i, ["git", "clean", "-d"])
    ensures !DdAt(c, i) && !ForkBombAt(c, i) && !OccursAt(c, "sudo", i) && !ChmodRootAt(c, i)
    ensures !PhraseWordAt(c, i, ["drop", "table"]) && !PhraseWordAt(c, i, ["drop", "database"])
  {
    AbsentFirstChar(c, "git", i);
    AbsentFirstChar(c, "dd", i);
    AbsentFirstChar(c, ":(){", i);
    AbsentFirstChar(c, "sudo", i);
    AbsentFirstChar(c, "chmod", i);
    AbsentFirstChar(c, "drop", i);
    if PhraseAt(c, i, ["git", "push"]) { PhraseStartsWithFirstWord(c, i, ["git", "push"]); }
    if PhraseAt(c, i, ["git", "reset", "--hard"]) { PhraseStartsWithFirstWord(c, i, ["git", "reset", "--hard"]); }
    if PhraseAt(c, i, ["git", "clean", "-f"]) { PhraseStartsWithFirstWord(c, i, ["git", "clean", "-f"]); }
    if PhraseAt(c, i, ["git", "clean", "-d"]) { PhraseStartsWithFirstWord(c, i, ["git", "clean", "-d"]); }
    if ChmodRootAt(c, i) { PhraseStartsWithFirstWord(c, i, ["chmod", "-r", "777"]); }
    if PhraseWordAt(c, i, ["drop", "table"]) { PhraseStartsWithFirstWord(c, i, ["drop", "table"]); }
    if PhraseWordAt(c, i, ["drop", "database"]) { PhraseStartsWithFirstWord(c, i, ["drop", "database"]); }
  }

  lemma NoRmRootInPath(c: string, i: nat)
    requires c == "rm -rf /tmp/x" && i <= |c|
    ensures !PhraseWordAt(c, i, ["truncate", "table"]) && !OccursAt(c, "mkfs", i) && !RmRootAt(c, i)
  {
    NoTruncateInPath(c, i);
    NoMkfsInPath(c, i);
    if i == 0 {
      RmRootNotAtStartOfPath(c);
    } else if i + 2 <= |c| {
      assert c[i..i + 2][0] == c[i] && c[i..i + 2][1] == c[i + 1];
    }
  }

  lemma NoTruncateInPath(c: string, i: nat)
    requires c == "rm -rf /tmp/x" && i <= |c|
    ensures !PhraseWordAt(c, i, ["truncate", "table"])
  {
    if PhraseAt(c, i, ["truncate", "table"]) {
      PhraseStartsWithFirstWord(c, i, ["truncate", "table"]);
      assert false;
    }
  }

  lemma NoMkfsInPath(c: string, i: nat)
    requires c == "rm -rf /tmp/x" && i <= |c|
    ensures !OccursAt(c, "mkfs", i)
  {
    if i + 4 <= |c| {
      assert c[i..i + 4][0] == c[i] && c[i..i + 4][1] == c[i + 1];
    }
  }

  /** At the start the `rm -rf /` shape fails only at the slash, which is
      followed by more path. */
  lemma RmRootNotAtStartOfPath(c: string)
    requires c == "rm -rf /tmp/x"
    ensures !RmRootAt(c, 0)
  {
    assert c[2] == ' ' && c[3] == '-' && c[6] == ' ' && c[7] == '/';
    RunEndIs(c, 2, 3, IsSpace);
    assert c[3..5] == "-r" && c[5] == 'f';
    RunEndIs(c, 6, 7, IsSpace);
    assert c[8] == 't';
  }
}

/** summarize.py: what is gathered when a stopped pipeline is summarized.
    A fresh gate run gives the test status; the event history gives the set
    of files the agents wrote or edited, made relative to the target
    directory; both go into the summarizing agent's prompt and into the
    summary record. The agent itself, the prompt template, the clock and
    the JSON file written to disk are not part of this model: the agent's
    text and `os.path.relpath` are parameters. */
module Summarize {
  import opened Text
  import opened Tracker
  import opened Verifier
  import opened Events

  /** `os.path.relpath(path, start)`: None stands for its ValueError. */
  type RelPath = (string, string) -> Option<string>

  // ---------------------------------------------------------------------
  // Files modified

  /** `dict.get(key, {})` on an event or on its data. */
  function GetDict(d: map<string, Value>, key: string): Value {
    if key in d then d[key] else Dict(map[])
  }

  /** The tool named by a tool event's data, "" when it names none. */
  function ToolOf(data: map<string, Value>): Value {
    if "tool" in data then data["tool"] else Str("")
  }

  predicate IsWriteOrEdit(tool: Value) {
    tool == Str("Write") || tool == Str("Edit")
  }

  /** `"file_path" in inp` followed, when true, by `inp["file_path"]`
      raises for nothing but a dictionary: a number, a boolean or None
      cannot be searched, and a string or a list holding "file_path" cannot
      be indexed by a string. */
  predicate FilePathTestSafe(input: Value) {
    match input
    case Dict(_) => true
    case Str(text) => !Contains(text, "file_path")
    case List(items) => Str("file_path") !in items
    case _ => false
  }

  /** What the loop body needs not to raise: a "tool" event's data is a
      dictionary whenever present (otherwise `.get` raises), and for a
      Write or Edit event the file_path test on its input is safe. Other
      tools' inputs are never looked at. */
  predicate WellShaped(e: Event) {
    "type" in e && e["type"] == Str("tool") ==>
      GetDict(e, "data").Dict?
      && (IsWriteOrEdit(ToolOf(GetDict(e, "data").entries)) ==>
            FilePathTestSafe(GetDict(GetDict(e, "data").entries, "input")))
  }

  /** The file one event contributes, if any: a "tool" event of the Write or
      Edit tool whose input has a string "file_path", made relative to
      `target` when relpath succeeds and kept as given when it fails. */
  function EventFile(e: Event, target: string, relpath: RelPath): (f: Option<string>)
    requires WellShaped(e)
    ensures f.Some? ==> "type" in e && e["type"] == Str("tool")
  {
    if "type" in e && e["type"] == Str("tool") then
      var data := GetDict(e, "data").entries;
      var input := GetDict(data, "input");
      if IsWriteOrEdit(ToolOf(data)) && input.Dict? && "file_path" in input.entries
         && input.entries["file_path"].Str? then
        var path := input.entries["file_path"].s;
        Some(relpath(path, target).GetOr(path))
      else None
    else None
  }

  /** The files of the whole history, as a set. */
  function FilesOf(history: seq<Event>, target: string, relpath: RelPath): set<string>
    requires forall k :: 0 <= k < |history| ==> WellShaped(history[k])
  {
    if history == [] then {}
    else
      var last := history[|history| - 1];
      var earlier := FilesOf(history[..|history| - 1], target, relpath);
      match EventFile(last, target, relpath)
      case Some(f) => earlier + {f}
      case None => earlier
  }

  /** A file is listed exactly when some event of the history contributes it. */
  lemma FilesOfSpec(history: seq<Event>, target: string, relpath: RelPath, f: string)
    requires forall k :: 0 <= k < |history| ==> WellShaped(history[k])
    ensures f in FilesOf(history, target, relpath) <==>
      exists k :: 0 <= k < |history| && EventFile(history[k], target, relpath) == Some(f)
  {
    if f in FilesOf(history, target, relpath) {
      var k := FilesOfWitness(history, target, relpath, f);
    }
    if exists k :: 0 <= k < |history| && EventFile(history[k], target, relpath) == Some(f) {
      var k :| 0 <= k < |history| && EventFile(history[k], target, relpath) == Some(f);
      FilesOfHas(history, target, relpath, k);
    }
  }

  /** A listed file comes from some event of the history. */
  lemma {:induction false} FilesOfWitness(history: seq<Event>, target: string, relpath: RelPath, f: string)
      returns (k: nat)
    requires forall k :: 0 <= k < |history| ==> WellShaped(history[k])
    requires f in FilesOf(history, target, relpath)
    ensures k < |history| && EventFile(history[k], target, relpath) == Some(f)
  {
    var n := |history| - 1;
    if EventFile(history[n], target, relpath) == Some(f) {
      k := n;
    } else {
      var earlier := history[..n];
      k := FilesOfWitness(earlier, target, relpath, f);
      assert earlier[k] == history[k];
    }
  }

  /** The file of every event of the history is listed. */
  lemma {:induction false} FilesOfHas(history: seq<Event>, target: string, relpath: RelPath, k: nat)
    requires forall k :: 0 <= k < |history| ==> WellShaped(history[k])
    requires k < |history| && EventFile(history[k], target, relpath).Some?
    ensures EventFile(history[k], target, relpath).value in FilesOf(history, target, relpath)
  {
    var n := |history| - 1;
    if k < n {
      var earlier := history[..n];
      assert earlier[k] == history[k];
      FilesOfHas(earlier, target, relpath, k);
    }
  }

  /** Events of other kinds never add a file: a "log" or "done" event in the
      history changes nothing. */
  lemma OtherEventsAddNothing(history: seq<Event>, e: Event, target: string, relpath: RelPath)
    requires forall k :: 0 <= k < |history| ==> WellShaped(history[k])
    requires !("type" in e && e["type"] == Str("tool"))
    ensures FilesOf(history + [e], target, relpath) == FilesOf(history, target, relpath)
  {
    assert (history + [e])[..|history|] == history;
  }

  /** A "tool" event as pipeline.py's `run_stage` emits it: the data
      holds the stage and the tool's name, and no input. */
  function EmittedToolEvent(stage: string, tool: string): (e: Event)
    ensures "type" in e && e["type"] == Str("tool") && Inputless(e)
    ensures ToolOf(GetDict(e, "data").entries) == Str(tool)
  {
    map["type" := Str("tool"), "data" := Dict(map["stage" := Str(stage), "tool" := Str(tool)])]
  }

  /** Tool events whose data is a dictionary without an input. */
  predicate Inputless(e: Event) {
    "type" in e && e["type"] == Str("tool") ==>
      GetDict(e, "data").Dict? && "input" !in GetDict(e, "data").entries
  }

  /** A history whose tool events carry no input, as every tool event
      `run_stage` emits, lists no modified file. */
  lemma {:induction false} InputlessHistoryHasNoFiles(history: seq<Event>, target: string, relpath: RelPath)
    requires forall k :: 0 <= k < |history| ==> Inputless(history[k])
    ensures forall k :: 0 <= k < |history| ==> WellShaped(history[k])
    ensures FilesOf(history, target, relpath) == {}
    decreases |history|
  {
    if history != [] {
      var n := |history| - 1;
      assert forall k :: 0 <= k < n ==> history[..n][k] == history[k];
      InputlessHistoryHasNoFiles(history[..n], target, relpath);
    }
  }

  /** The extraction loop of `summarize_pipeline`. */
  method CollectFiles(history: seq<Event>, target: string, relpath: RelPath) returns (files: set<string>)
    requires forall k :: 0 <= k < |history| ==> WellShaped(history[k])
    ensures files == FilesOf(history, target, relpath)
  {
    files := {};
    for i := 0 to |history|
      invariant files == FilesOf(history[..i], target, relpath)
    {
      assert history[..i + 1][..i] == history[..i];
      var f := EventFile(history[i], target, relpath);
      if f.Some? {
        files := files + {f.value};
      }
    }
    assert history[..|history|] == history;
  }

  // ---------------------------------------------------------------------
  // sorted(files_modified)

  predicate Elements(xs: seq<string>, s: set<string>) {
    (forall x :: x in xs ==> x in s) && (forall x :: x in s ==> x in xs)
  }

  /** One step of sorting: x placed in order within a sorted list. */
  function Insert(x: string, xs: seq<string>): (r: seq<string>)
    requires StrictlySorted(xs) && x !in xs
    ensures StrictlySorted(r) && |r| == |xs| + 1
    ensures forall y :: y in r <==> y == x || y in xs
  {
    if xs == [] then [x]
    else if LexLess(x, xs[0]) then
      assert forall j :: 0 < j < |xs| ==> LexLess(x, xs[j]) by {
        forall j | 0 < j < |xs| {
          LexLessTransitive(x, xs[0], xs[j]);
        }
      }
      [x] + xs
    else
      LexLessTotal(x, xs[0]);
      var rest := Insert(x, xs[1..]);
      assert forall y :: y in rest ==> LexLess(xs[0], y) by {
        forall y | y in rest
          ensures LexLess(xs[0], y)
        {
          if y != x {
            var j :| 0 <= j < |xs[1..]| && xs[1..][j] == y;
            assert xs[j + 1] == y;
          }
        }
      }
      [xs[0]] + rest
  }

  /** `sorted` applied to a set of paths: every element once, in code-point
      order. */
  method SortedFiles(files: set<string>) returns (r: seq<string>)
    ensures StrictlySorted(r) && Elements(r, files) && |r| == |files|
  {
    r := [];
    var left := files;
    while left != {}
      invariant left <= files && StrictlySorted(r) && |r| + |left| == |files|
      invariant forall x :: x in r <==> x in files && x !in left
      decreases |left|
    {
      var x :| x in left;
      r := Insert(x, r);
      left := left - {x};
    }
  }

  /** Two sorted lists of the same paths are the same list: the order of the
      history does not affect the listing. */
  lemma {:induction false} SortedIsUnique(a: seq<string>, b: seq<string>)
    requires StrictlySorted(a) && StrictlySorted(b)
    requires forall x :: x in a <==> x in b
    ensures a == b
  {
    if a != [] && b != [] {
      assert a[0] == b[0] by {
        SortedHeadBelow(b, a[0]);
        SortedHeadBelow(a, b[0]);
        if a[0] != b[0] {
          LexLessTransitive(a[0], b[0], a[0]);
          LexLessIrreflexive(a[0]);
        }
      }
      forall x
        ensures x in a[1..] <==> x in b[1..]
      {
        if x in a[1..] {
          var j :| 0 <= j < |a[1..]| && a[1..][j] == x;
          assert LexLess(a[0], a[j + 1]);
          if x == a[0] {
            LexLessIrreflexive(x);
          }
          assert x in b && x != b[0];
          var i :| 0 <= i < |b| && b[i] == x;
          assert b[1..][i - 1] == x;
        }
        if x in b[1..] {
          var j :| 0 <= j < |b[1..]| && b[1..][j] == x;
          assert LexLess(b[0], b[j + 1]);
          if x == b[0] {
            LexLessIrreflexive(x);
          }
          assert x in a && x != a[0];
          var i :| 0 <= i < |a| && a[i] == x;
          assert a[1..][i - 1] == x;
        }
      }
      assert StrictlySorted(a[1..]) by {
        forall i, j | 0 <= i < j < |a[1..]|
          ensures LexLess(a[1..][i], a[1..][j])
        {
          assert a[1..][i] == a[i + 1] && a[1..][j] == a[j + 1];
        }
      }
      assert StrictlySorted(b[1..]) by {
        forall i, j | 0 <= i < j < |b[1..]|
          ensures LexLess(b[1..][i], b[1..][j])
        {
          assert b[1..][i] == b[i + 1] && b[1..][j] == b[j + 1];
        }
      }
      SortedIsUnique(a[1..], b[1..]);
      assert a == [a[0]] + a[1..] && b == [b[0]] + b[1..];
    } else if a != [] {
      HeadIsMember(a);
      assert false;
    } else if b != [] {
      HeadIsMember(b);
      assert false;
    }
  }

  lemma HeadIsMember(xs: seq<string>)
    requires xs != []
    ensures xs[0] in xs
  {
  }

  lemma SortedHeadBelow(a: seq<string>, x: string)
    requires StrictlySorted(a) && x in a
    ensures x == a[0] || LexLess(a[0], x)
  {
  }

  // ---------------------------------------------------------------------
  // Prompt fields and the summary record

  const NoneDetected := "  (none detected)"
  const NoStages := "(none)"

  function FileLines(files: seq<string>): (lines: seq<string>)
    ensures |lines| == |files|
    ensures forall k :: 0 <= k < |files| ==> lines[k] == "  - " + files[k]
  {
    if files == [] then [] else ["  - " + files[0]] + FileLines(files[1..])
  }

  /** A joined list of lines starts with its first line. */
  lemma {:induction false} JoinStartsWithFirst(parts: seq<string>, sep: string)
    requires parts != []
    ensures StartsWith(Join(parts, sep), parts[0])
  {
    if |parts| > 1 {
      assert Join(parts, sep) == parts[0] + (sep + Join(parts[1..], sep));
    }
  }

  /** The prompt's list of files: one "  - path" line per file, or the
      placeholder when none was found. */
  function FilesListing(files: seq<string>): (r: string)
    ensures files == [] <==> r == NoneDetected
    ensures files != [] ==> StartsWith(r, "  - " + files[0])
  {
    var joined := Join(FileLines(files), "\n");
    if files == [] then NoneDetected
    else
      JoinStartsWithFirst(FileLines(files), "\n");
      assert joined[..3] == "  -" && NoneDetected[..3] == "  (";
      if joined == "" then NoneDetected else joined
  }

  /** The prompt's completed-stages field: the names joined by ", ", or
      "(none)" when that join is empty. */
  function CompletedField(completed: seq<string>): (r: string)
    ensures completed == [] ==> r == NoStages
    ensures completed != [] && completed[0] != "" ==> r == Join(completed, ", ")
  {
    var joined := Join(completed, ", ");
    if completed == [] then NoStages
    else
      JoinStartsWithFirst(completed, ", ");
      if joined == "" then NoStages else joined
  }

  /** A stage list whose names are all empty counts as no stages: Python
      treats the empty join as false. */
  lemma EmptyNameCountsAsNone()
    ensures CompletedField([""]) == NoStages
  {
  }

  /** `test_status`. */
  datatype TestStatus = TestStatus(passing: bool, total: int, failures: int, errors: int, command: Option<string>)

  function StatusOf(r: TestResult): (s: TestStatus)
    ensures s.passing <==> r.outcome == Pass
    ensures s.total == r.totalTests && s.failures == r.failures && s.errors == r.errors
    ensures s.command == r.command
  {
    TestStatus(OutcomeValue(r.outcome) == "pass", r.totalTests, r.failures, r.errors, r.command)
  }

  /** Python's `str(bool)`. */
  function BoolName(b: bool): string {
    if b then "True" else "False"
  }

  /** `test_status_str`. */
  function StatusLine(s: TestStatus): (line: string)
    ensures StartsWith(line, "Passing: True") <==> s.passing
  {
    var line := "Passing: " + BoolName(s.passing) + ", Total: " + IntToString(s.total)
      + ", Failures: " + IntToString(s.failures) + ", Errors: " + IntToString(s.errors);
    assert line[..9] == "Passing: ";
    assert line[9] == BoolName(s.passing)[0];
    line
  }

  /** The fields of the summarizing agent's prompt. */
  datatype PromptFields = PromptFields(
    ticket: string,
    completedStages: string,
    interruptedStage: string,
    testStatus: string,
    filesModified: string)

  /** The summary record; its timestamp is not modelled. */
  datatype Summary = Summary(
    ticket: string,
    target: string,
    completedStages: seq<string>,
    interruptedStage: string,
    testStatus: TestStatus,
    filesModified: seq<string>,
    summary: string)

  /** `summarize_pipeline`: a gate run on the tracker (its result is `run`),
      the files of the event history, the prompt fields, and the record
      built around the agent's text `agentText`. */
  method SummarizePipeline(ticket: string, target: string, completed: seq<string>, interrupted: string,
                           tracker: TestTracker, history: seq<Event>, run: RunOutcome,
                           relpath: RelPath, agentText: string)
    returns (prompt: PromptFields, summary: Summary)
    requires forall k :: 0 <= k < |history| ==> WellShaped(history[k])
    modifies tracker`results
    ensures summary.testStatus == StatusOf(GateResult(tracker.canonicalTestCommand, run))
    ensures Recorded(tracker.canonicalTestCommand, run) ==>
              tracker.results == old(tracker.results) + [GateResult(tracker.canonicalTestCommand, run)]
    ensures !Recorded(tracker.canonicalTestCommand, run) ==> tracker.results == old(tracker.results)
    ensures StrictlySorted(summary.filesModified) && Elements(summary.filesModified, FilesOf(history, target, relpath))
    ensures summary.ticket == Take(ticket, 1000) && prompt.ticket == Take(ticket, 500)
    ensures StartsWith(summary.ticket, prompt.ticket)
    ensures summary.target == target && summary.completedStages == completed
    ensures summary.interruptedStage == interrupted && prompt.interruptedStage == interrupted
    ensures summary.summary == agentText
    ensures prompt.filesModified == FilesListing(summary.filesModified)
    ensures prompt.completedStages == CompletedField(completed)
    ensures prompt.testStatus == StatusLine(summary.testStatus)
  {
    var result := VerifyTests(tracker, run);
    var status := StatusOf(result);
    var files := CollectFiles(history, target, relpath);
    var sorted := SortedFiles(files);
    prompt := PromptFields(Take(ticket, 500), CompletedField(completed), interrupted, StatusLine(status), FilesListing(sorted));
    summary := Summary(Take(ticket, 1000), target, completed, interrupted, status, sorted, agentText);
  }
}
